/**
 * The part of the live classifier that does not depend on how the stream was cut into
 * chunks: the segmentation of the stream, the counters and the lock.
 */
module IngressModel {
  import opened Bytes
  import opened Iec61937

  datatype BurstFailure =
    | InvalidPreamble | UnsupportedType | PcErrorFlag | InvalidPayloadLength
    | OddPayloadLength | PayloadSyncword | NonzeroPadding

  datatype Burst = Burst(
    offset: nat, dataType: nat, period: nat, payloadBytes: nat, errorFlag: bool,
    syncwordOk: bool, paddingZero: bool, failure: Option<BurstFailure>)

  function PayloadBytes(dataType: nat, pd: nat): nat {
    if dataType == TYPE_EAC3 then pd
    else if dataType == TYPE_AC3 then (pd + 7) / 8
    else 0
  }

  function DataType(b: seq<byte>): nat
    requires |b| >= 8
  {
    Word(b, 4) % 128
  }

  /** Classify one burst of exactly one repetition period (or of any length for an unknown type). */
  function ParseBurst(b: seq<byte>, offset: nat): Burst
    requires |b| >= 8
    requires Period(DataType(b)).Some? ==> |b| == Period(DataType(b)).value
  {
    var t := DataType(b);
    var error := (Word(b, 4) / 128) % 2 == 1;
    var period := |b|;
    var n := PayloadBytes(t, Word(b, 6));
    var failed := (f: BurstFailure) => Burst(offset, t, period, n, error, false, false, Some(f));
    if Word(b, 0) != PA || Word(b, 2) != PB then failed(InvalidPreamble)
    else if Period(t).None? then failed(UnsupportedType)
    else if error then failed(PcErrorFlag)
    else if n <= 0 || 8 + n > period then failed(InvalidPayloadLength)
    else if n % 2 != 0 then failed(OddPayloadLength)
    else
      var syncOk := StartsWithSyncword(Swap16(b[8..8 + n]));
      var zero := AllZero(b[8 + n..period]);
      Burst(offset, t, period, n, error, syncOk, zero,
            if !syncOk then Some(PayloadSyncword) else if !zero then Some(NonzeroPadding) else None)
  }

  /** What one classified piece of the stream was. Adjacent gaps are one gap. */
  datatype Event = Gap(data: seq<byte>) | Header(data: seq<byte>) | Framed(data: seq<byte>)

  /** A piece the classifier consumed as a whole burst really is one period long. */
  predicate WellFormed(e: Event) {
    e.Framed? ==> |e.data| >= 8 && Period(DataType(e.data)) == Some(|e.data|)
  }

  predicate ValidFrame(e: Event) {
    e.Framed? && WellFormed(e) && ParseBurst(e.data, 0).failure.None?
  }

  /** A valid frame of data type `t`. */
  predicate ValidFrameOf(e: Event, t: nat) {
    ValidFrame(e) && DataType(e.data) == t
  }

  datatype Core = Core(
    offset: nat, locked: Option<nat>, candidate: Option<nat>, count: nat,
    bursts: nat, valid: nat, invalid: nat, relocks: nat, unclassified: nat,
    ac3: nat, eac3: nat, log: seq<Event>)

  function Fresh(): Core {
    Core(0, None, None, 0, 0, 0, 0, 0, 0, 0, 0, [])
  }

  function LogGap(log: seq<Event>, data: seq<byte>): seq<Event> {
    if log != [] && log[|log| - 1].Gap? then log[..|log| - 1] + [Gap(log[|log| - 1].data + data)]
    else log + [Gap(data)]
  }

  /** Leave any lock, counting it, and start the candidate over. */
  function LoseLock(c: Core): Core {
    c.(locked := None, candidate := None, count := 0, relocks := c.relocks + (if c.locked.Some? then 1 else 0))
  }

  function AddGap(c: Core, data: seq<byte>): Core {
    if data == [] then c
    else LoseLock(c).(offset := c.offset + |data|, unclassified := c.unclassified + |data|, log := LogGap(c.log, data))
  }

  function AddHeader(c: Core, data: seq<byte>): Core {
    c.(offset := c.offset + |data|, locked := None, invalid := c.invalid + 1, log := c.log + [Header(data)])
  }

  function CountValid(c: Core, t: nat): Core {
    c.(valid := c.valid + 1,
       ac3 := c.ac3 + (if t == TYPE_AC3 then 1 else 0), eac3 := c.eac3 + (if t == TYPE_EAC3 then 1 else 0))
  }

  function Nominate(c: Core, t: nat): Core {
    if c.candidate == Some(t) then c.(count := c.count + 1)
    else LoseLock(c).(candidate := Some(t), count := 1)
  }

  function LockIfStable(lockBursts: nat, c: Core, t: nat): Core {
    if c.count >= lockBursts then c.(locked := Some(t)) else c
  }

  function AcceptValid(lockBursts: nat, c: Core, t: nat): Core {
    LockIfStable(lockBursts, Nominate(CountValid(c, t), t), t)
  }

  function RejectInvalid(c: Core): Core {
    LoseLock(c).(invalid := c.invalid + 1)
  }

  function AddBurst(lockBursts: nat, c: Core, data: seq<byte>): Core
    requires WellFormed(Framed(data))
  {
    var d := if ParseBurst(data, c.offset).failure.None? then AcceptValid(lockBursts, c, DataType(data))
             else RejectInvalid(c);
    d.(bursts := c.bursts + 1, offset := c.offset + |data|, log := c.log + [Framed(data)])
  }

  /** The next thing the classifier does with its buffer. */
  datatype Piece = Wait | TakeGap(size: nat) | TakeHeader | TakeBurst(size: nat)

  function Decide(b: seq<byte>): (p: Piece)
    ensures p.TakeGap? ==> 0 < p.size <= |b|
    ensures p.TakeHeader? ==> |b| >= 8
    ensures p.TakeBurst? ==> 8 <= p.size <= |b| && Period(DataType(b)) == Some(p.size)
  {
    var s := Find(b);
    if s < 0 then if |b| > 3 then TakeGap(|b| - 3) else Wait
    else if s > 0 then TakeGap(s)
    else if |b| < 8 then Wait
    else
      match Period(DataType(b))
      case None => TakeHeader
      case Some(p) => if |b| < p then Wait else TakeBurst(p)
  }

  function Size(p: Piece): nat {
    match p
    case Wait => 0
    case TakeHeader => 4
    case _ => p.size
  }

  /** Account for the piece in front of the buffer. */
  function Take(lockBursts: nat, c: Core, b: seq<byte>): Core {
    match Decide(b)
    case Wait => c
    case TakeGap(n) => AddGap(c, b[..n])
    case TakeHeader => AddHeader(c, b[..4])
    case TakeBurst(p) => AddBurst(lockBursts, c, b[..p])
  }

  /** Consume the buffer as far as it can be decided; the rest is kept for the next chunk. */
  function Drain(lockBursts: nat, c: Core, b: seq<byte>): (r: (Core, seq<byte>))
    decreases |b|
  {
    if Decide(b).Wait? then (c, b)
    else Drain(lockBursts, Take(lockBursts, c, b), b[Size(Decide(b))..])
  }

  /** The final flush: whatever is still undecided becomes a gap. */
  function Flush(lockBursts: nat, c: Core, b: seq<byte>): Core {
    var (d, rest) := Drain(lockBursts, c, b);
    AddGap(d, rest)
  }

  /** What feeding a list of chunks leaves, starting from core `c` and buffered bytes `b`. */
  function FeedAll(lockBursts: nat, c: Core, b: seq<byte>, chunks: seq<seq<byte>>): (Core, seq<byte>)
    decreases |chunks|
  {
    if chunks == [] then (c, b)
    else
      var (d, rest) := Drain(lockBursts, c, b + chunks[0]);
      FeedAll(lockBursts, d, rest, chunks[1..])
  }

  function Concat(chunks: seq<seq<byte>>): seq<byte> {
    if chunks == [] then [] else chunks[0] + Concat(chunks[1..])
  }

  // --- Chunk independence -----------------------------------------------------------

  lemma GapsMerge(c: Core, d: seq<byte>, e: seq<byte>)
    ensures AddGap(AddGap(c, d), e) == AddGap(c, d + e)
  {
    if d == [] {
      assert d + e == e;
    } else if e == [] {
      assert d + e == d;
    } else {
      var log := LogGap(c.log, d);
      assert log[|log| - 1].Gap?;
      if c.log != [] && c.log[|c.log| - 1].Gap? {
        var g := c.log[|c.log| - 1].data;
        assert (g + d) + e == g + (d + e);
      }
    }
  }

  lemma FindExtends(a: seq<byte>, b: seq<byte>)
    requires Find(a) >= 0
    ensures Find(a + b) == Find(a)
  {
    assert forall j :: 0 <= j <= Find(a) ==> (SyncAt(a + b, j) <==> SyncAt(a, j));
    FindIs(a + b, Find(a));
  }

  /** Without a sync in `a`, a sync of `a + b` starts no earlier than the last three bytes of `a`. */
  lemma FindAcross(a: seq<byte>, b: seq<byte>)
    requires Find(a) < 0 && |a| > 3
    ensures var tail := a[|a| - 3..] + b;
            Find(a + b) == if Find(tail) < 0 then -1 else |a| - 3 + Find(tail)
  {
    var g := |a| - 3;
    var whole, tail := a + b, a[g..] + b;
    assert forall j :: 0 <= j < |tail| ==> tail[j] == whole[g + j];
    assert forall j :: 0 <= j < g ==> (SyncAt(whole, j) <==> SyncAt(a, j));
    assert forall j :: 0 <= j ==> (SyncAt(whole, g + j) <==> SyncAt(tail, j));
    assert forall j :: g <= j ==> (SyncAt(whole, j) <==> SyncAt(tail, j - g));
    if Find(tail) >= 0 {
      FindIs(whole, g + Find(tail));
    }
  }

  /** A piece decided on the strength of a sync stays decided when more bytes arrive. */
  lemma DecideExtends(a: seq<byte>, b: seq<byte>)
    requires Find(a) >= 0 && !Decide(a).Wait?
    ensures Decide(a + b) == Decide(a)
  {
    FindExtends(a, b);
    if |a| >= 8 {
      assert Word(a + b, 4) == Word(a, 4);
    }
  }

  lemma TakeExtends(k: nat, c: Core, a: seq<byte>, b: seq<byte>)
    requires Decide(a + b) == Decide(a)
    ensures Take(k, c, a + b) == Take(k, c, a)
  {
    hide AddBurst, AddGap, AddHeader, Decide;
    var n := Size(Decide(a));
    assert n <= |a|;
    assert (a + b)[..n] == a[..n];
  }

  lemma NoSyncTakesGap(k: nat, c: Core, a: seq<byte>)
    requires Find(a) < 0 && !Decide(a).Wait?
    ensures |a| > 3 && Decide(a) == TakeGap(|a| - 3) && Take(k, c, a) == AddGap(c, a[..|a| - 3])
  {
  }

  /** Draining a buffer in two steps is draining it in one. */
  lemma {:induction false} DrainSplits(k: nat, c: Core, a: seq<byte>, b: seq<byte>)
    ensures var (d, rest) := Drain(k, c, a);
            Drain(k, c, a + b) == Drain(k, d, rest + b)
    decreases |a|
  {
    hide Take, Decide;
    if !Decide(a).Wait? {
      var n := Size(Decide(a));
      DrainSplits(k, Take(k, c, a), a[n..], b);
      if Find(a) >= 0 {
        DecideExtends(a, b);
        TakeExtends(k, c, a, b);
        assert (a + b)[n..] == a[n..] + b;
      } else {
        NoSyncTakesGap(k, c, a);
        DrainAcrossGap(k, c, a, b);
      }
    }
  }

  lemma DecideAcross(a: seq<byte>, b: seq<byte>)
    requires Find(a) < 0 && |a| > 3
    ensures var tail := a[|a| - 3..] + b;
            Decide(a + b) == if Decide(tail).TakeGap? then TakeGap(|a| - 3 + Decide(tail).size) else TakeGap(|a| - 3)
  {
    hide DataType;
    FindAcross(a, b);
  }

  lemma GapStep(k: nat, c: Core, b: seq<byte>)
    requires Decide(b).TakeGap?
    ensures var n := Decide(b).size; Drain(k, c, b) == Drain(k, AddGap(c, b[..n]), b[n..])
  {
  }

  /** A gap cut off before its end is the same gap. */
  lemma JoinGap(k: nat, c: Core, gap: seq<byte>, tail: seq<byte>)
    requires Decide(gap + tail) ==
             if Decide(tail).TakeGap? then TakeGap(|gap| + Decide(tail).size) else TakeGap(|gap|)
    ensures Drain(k, c, gap + tail) == Drain(k, AddGap(c, gap), tail)
  {
    hide *;
    var whole := gap + tail;
    GapStep(k, c, whole);
    if Decide(tail).TakeGap? {
      GapStep(k, AddGap(c, gap), tail);
      var m := Decide(tail).size;
      assert whole[..|gap| + m] == gap + tail[..m];
      assert whole[|gap| + m..] == tail[m..];
      GapsMerge(c, gap, tail[..m]);
    } else {
      assert whole[..|gap|] == gap && whole[|gap|..] == tail;
    }
  }

  lemma DrainAcrossGap(k: nat, c: Core, a: seq<byte>, b: seq<byte>)
    requires Find(a) < 0 && |a| > 3
    ensures Drain(k, c, a + b) == Drain(k, AddGap(c, a[..|a| - 3]), a[|a| - 3..] + b)
  {
    hide Drain, AddGap, Decide;
    var gap, tail := a[..|a| - 3], a[|a| - 3..] + b;
    assert a + b == gap + tail;
    DecideAcross(a, b);
    JoinGap(k, c, gap, tail);
  }

  /** Chunk independence: any chunking leaves what one feed of the whole stream leaves. */
  lemma {:induction false} ChunkIndependence(k: nat, c: Core, b: seq<byte>, chunks: seq<seq<byte>>)
    requires Decide(b).Wait?
    ensures FeedAll(k, c, b, chunks) == Drain(k, c, b + Concat(chunks))
    decreases |chunks|
  {
    hide Decide, Take;
    if chunks == [] {
      assert b + Concat(chunks) == b;
    } else {
      var (d, rest) := Drain(k, c, b + chunks[0]);
      DrainSettles(k, c, b + chunks[0]);
      ChunkIndependence(k, d, rest, chunks[1..]);
      DrainSplits(k, c, b + chunks[0], Concat(chunks[1..]));
      assert (b + chunks[0]) + Concat(chunks[1..]) == b + Concat(chunks);
    }
  }

  /** Draining leaves a buffer with nothing more to decide. */
  lemma {:induction false} DrainSettles(k: nat, c: Core, b: seq<byte>)
    ensures Decide(Drain(k, c, b).1).Wait?
    decreases |b|
  {
    hide Decide, Take;
    if !Decide(b).Wait? {
      DrainSettles(k, Take(k, c, b), b[Size(Decide(b))..]);
    }
  }

  /** Undecided means: at most three bytes without a sync, or one burst that is still
      incomplete. The buffer therefore stays below the longest period for ever. */
  lemma UndecidedIsShort(b: seq<byte>)
    requires Decide(b).Wait?
    ensures (Find(b) < 0 && |b| <= 3)
            || (Find(b) == 0 && (|b| < 8 || (Period(DataType(b)).Some? && |b| < Period(DataType(b)).value)))
    ensures |b| < 24576
  {
  }

  /** Any chunking of a stream, then the flush, equals one parse of the whole stream. */
  lemma ChunkedFlush(k: nat, chunks: seq<seq<byte>>)
    ensures var (d, rest) := FeedAll(k, Fresh(), [], chunks);
            Flush(k, d, rest) == Flush(k, Fresh(), Concat(chunks))
  {
    hide Take;
    assert Decide([]).Wait?;
    ChunkIndependence(k, Fresh(), [], chunks);
    assert [] + Concat(chunks) == Concat(chunks);
    DrainSettles(k, Fresh(), Concat(chunks));
  }

  // --- The log is the stream ----------------------------------------------------------

  function LogBytes(log: seq<Event>): seq<byte> {
    if log == [] then [] else LogBytes(log[..|log| - 1]) + log[|log| - 1].data
  }

  lemma LogGapBytes(log: seq<Event>, data: seq<byte>)
    ensures LogBytes(LogGap(log, data)) == LogBytes(log) + data
  {
    hide LogBytes;
    var n := |log|;
    if log != [] && log[n - 1].Gap? {
      var front, last := log[..n - 1], log[n - 1].data;
      assert log == front + [Gap(last)];
      LogAppend(front, Gap(last));
      LogAppend(front, Gap(last + data));
      assert LogBytes(front) + (last + data) == (LogBytes(front) + last) + data;
    } else {
      LogAppend(log, Gap(data));
    }
  }

  lemma TakeConserves(k: nat, c: Core, b: seq<byte>)
    ensures LogBytes(Take(k, c, b).log) == LogBytes(c.log) + b[..Size(Decide(b))]
  {
    hide Decide, ParseBurst;
    match Decide(b)
    case Wait =>
    case TakeGap(n) => LogGapBytes(c.log, b[..n]);
    case TakeHeader => LogAppend(c.log, Header(b[..4]));
    case TakeBurst(p) => LogAppend(c.log, Framed(b[..p]));
  }

  lemma LogAppend(log: seq<Event>, e: Event)
    ensures LogBytes(log + [e]) == LogBytes(log) + e.data
  {
    assert (log + [e])[..|log|] == log;
  }

  /** Conservation: the logged pieces followed by the buffer are exactly the bytes fed. */
  lemma {:induction false} DrainConserves(k: nat, c: Core, b: seq<byte>)
    ensures var (d, rest) := Drain(k, c, b); LogBytes(d.log) + rest == LogBytes(c.log) + b
    decreases |b|
  {
    hide Take, Decide;
    if !Decide(b).Wait? {
      var n := Size(Decide(b));
      DrainConserves(k, Take(k, c, b), b[n..]);
      TakeConserves(k, c, b);
      assert (LogBytes(c.log) + b[..n]) + b[n..] == LogBytes(c.log) + b;
    }
  }
}
