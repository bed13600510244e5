/** What the lock and the counters of the live classifier mean for the bytes of the stream. */
module IngressLock {
  import opened Bytes
  import opened Iec61937
  import opened IngressModel

  function Count(log: seq<Event>, p: Event -> bool): nat {
    if log == [] then 0 else Count(log[..|log| - 1], p) + (if p(log[|log| - 1]) then 1 else 0)
  }

  function GapBytes(log: seq<Event>): nat {
    if log == [] then 0
    else GapBytes(log[..|log| - 1]) + (if log[|log| - 1].Gap? then |log[|log| - 1].data| else 0)
  }

  /** Valid frames of type `t` since the last piece that was neither such a frame nor an
      unsupported header. */
  function Run(log: seq<Event>, t: nat): nat {
    if log == [] then 0
    else if log[|log| - 1].Header? then Run(log[..|log| - 1], t)
    else if ValidFrameOf(log[|log| - 1], t) then Run(log[..|log| - 1], t) + 1
    else 0
  }

  predicate Rejected(e: Event) {
    e.Header? || (e.Framed? && !ValidFrame(e))
  }

  predicate IsFrame(e: Event) {
    e.Framed?
  }

  predicate ValidAc3(e: Event) {
    ValidFrameOf(e, TYPE_AC3)
  }

  predicate ValidEac3(e: Event) {
    ValidFrameOf(e, TYPE_EAC3)
  }

  predicate WellFormedLog(log: seq<Event>) {
    forall i :: 0 <= i < |log| ==> WellFormed(log[i])
  }

  /** Every exact counter counts what its name says. */
  predicate Tallies(c: Core) {
    && c.offset == |LogBytes(c.log)|
    && c.unclassified == GapBytes(c.log)
    && c.bursts == Count(c.log, IsFrame)
    && c.valid == Count(c.log, ValidFrame)
    && c.invalid == Count(c.log, Rejected)
    && c.ac3 == Count(c.log, ValidAc3) && c.eac3 == Count(c.log, ValidEac3)
  }

  /** The candidate is the type of the current run of valid frames, and its length. */
  ghost predicate Candidate(c: Core) {
    && (c.candidate.Some? ==> c.count > 0)
    && forall t: nat :: Run(c.log, t) == if c.candidate == Some(t) then c.count else 0
  }

  /** Locked to `t` exactly when the stream so far ends in a valid frame of type `t` and the
      run it belongs to has reached the threshold. */
  ghost predicate LockExact(lockBursts: nat, c: Core) {
    forall t: nat :: c.locked == Some(t) <==>
      c.log != [] && ValidFrameOf(c.log[|c.log| - 1], t) && Run(c.log, t) >= lockBursts
  }

  ghost predicate Sound(lockBursts: nat, c: Core) {
    WellFormedLog(c.log) && Tallies(c) && Candidate(c) && LockExact(lockBursts, c)
  }

  lemma Append(log: seq<Event>, e: Event)
    ensures (log + [e])[..|log|] == log
    ensures GapBytes(log + [e]) == GapBytes(log) + (if e.Gap? then |e.data| else 0)
    ensures LogBytes(log + [e]) == LogBytes(log) + e.data
    ensures WellFormedLog(log) && WellFormed(e) ==> WellFormedLog(log + [e])
  {
    hide WellFormed;
    assert (log + [e])[..|log|] == log;
  }

  lemma AppendCount(log: seq<Event>, e: Event, p: Event -> bool)
    ensures Count(log + [e], p) == Count(log, p) + (if p(e) then 1 else 0)
  {
    assert (log + [e])[..|log|] == log;
  }

  lemma AppendCounts(log: seq<Event>, e: Event)
    ensures Count(log + [e], IsFrame) == Count(log, IsFrame) + (if IsFrame(e) then 1 else 0)
    ensures Count(log + [e], ValidFrame) == Count(log, ValidFrame) + (if ValidFrame(e) then 1 else 0)
    ensures Count(log + [e], Rejected) == Count(log, Rejected) + (if Rejected(e) then 1 else 0)
    ensures Count(log + [e], ValidAc3) == Count(log, ValidAc3) + (if ValidAc3(e) then 1 else 0)
    ensures Count(log + [e], ValidEac3) == Count(log, ValidEac3) + (if ValidEac3(e) then 1 else 0)
  {
    hide *;
    AppendCount(log, e, IsFrame);
    AppendCount(log, e, ValidFrame);
    AppendCount(log, e, Rejected);
    AppendCount(log, e, ValidAc3);
    AppendCount(log, e, ValidEac3);
  }

  lemma AppendRun(log: seq<Event>, e: Event, t: nat)
    ensures Run(log + [e], t) ==
            if e.Header? then Run(log, t) else if ValidFrameOf(e, t) then Run(log, t) + 1 else 0
  {
    hide ValidFrameOf;
    assert (log + [e])[..|log|] == log;
  }

  lemma AppendRuns(log: seq<Event>, e: Event)
    ensures forall t: nat :: Run(log + [e], t) ==
              if e.Header? then Run(log, t) else if ValidFrameOf(e, t) then Run(log, t) + 1 else 0
  {
    hide *;
    forall t: nat
      ensures Run(log + [e], t) == if e.Header? then Run(log, t) else if ValidFrameOf(e, t) then Run(log, t) + 1 else 0
    {
      AppendRun(log, e, t);
    }
  }

  /** A gap that continues a gap replaces the last piece, and is otherwise one more piece. */
  lemma GapCount(log: seq<Event>, data: seq<byte>, p: Event -> bool)
    requires forall g :: !p(Gap(g))
    ensures Count(LogGap(log, data), p) == Count(log, p)
  {
    var n := |log|;
    if log != [] && log[n - 1].Gap? {
      assert log == log[..n - 1] + [log[n - 1]];
      AppendCount(log[..n - 1], log[n - 1], p);
      AppendCount(log[..n - 1], Gap(log[n - 1].data + data), p);
    } else {
      AppendCount(log, Gap(data), p);
    }
  }

  lemma GapCounts(log: seq<Event>, data: seq<byte>)
    ensures Count(LogGap(log, data), IsFrame) == Count(log, IsFrame)
    ensures Count(LogGap(log, data), ValidFrame) == Count(log, ValidFrame)
    ensures Count(LogGap(log, data), Rejected) == Count(log, Rejected)
    ensures Count(LogGap(log, data), ValidAc3) == Count(log, ValidAc3)
    ensures Count(LogGap(log, data), ValidEac3) == Count(log, ValidEac3)
  {
    hide Count, LogGap, ParseBurst;
    GapCount(log, data, IsFrame);
    GapCount(log, data, ValidFrame);
    GapCount(log, data, Rejected);
    GapCount(log, data, ValidAc3);
    GapCount(log, data, ValidEac3);
  }

  lemma GapIsLast(log: seq<Event>, data: seq<byte>)
    ensures LogGap(log, data) != [] && LogGap(log, data)[|LogGap(log, data)| - 1].Gap?
  {
  }

  lemma GapAddsBytes(log: seq<Event>, data: seq<byte>)
    ensures GapBytes(LogGap(log, data)) == GapBytes(log) + |data|
  {
    hide GapBytes, WellFormedLog, LogBytes;
    var n := |log|;
    if log != [] && log[n - 1].Gap? {
      var front := log[..n - 1];
      assert log == front + [log[n - 1]];
      Append(front, log[n - 1]);
      Append(front, Gap(log[n - 1].data + data));
    } else {
      Append(log, Gap(data));
    }
  }

  lemma GapIsWellFormed(log: seq<Event>, data: seq<byte>)
    requires WellFormedLog(log)
    ensures WellFormedLog(LogGap(log, data))
  {
    forall e | e in LogGap(log, data) ensures WellFormed(e) {
      if e in log {
        var i :| 0 <= i < |log| && log[i] == e;
      }
    }
  }

  lemma GapRuns(log: seq<Event>)
    requires log != [] && log[|log| - 1].Gap?
    ensures forall t: nat :: Run(log, t) == 0
  {
  }

  lemma GapKeepsTallies(k: nat, c: Core, data: seq<byte>)
    requires WellFormedLog(c.log) && Tallies(c) && data != []
    ensures WellFormedLog(AddGap(c, data).log) && Tallies(AddGap(c, data))
  {
    hide Run, Count, GapBytes, LogBytes, LogGap, WellFormedLog, ParseBurst;
    GapIsWellFormed(c.log, data);
    GapAddsBytes(c.log, data);
    GapCounts(c.log, data);
    LogGapBytes(c.log, data);
  }

  lemma GapKeepsSound(k: nat, c: Core, data: seq<byte>)
    requires Sound(k, c)
    ensures Sound(k, AddGap(c, data))
  {
    hide Run, LogGap, WellFormedLog, Tallies, ParseBurst;
    if data != [] {
      GapKeepsTallies(k, c, data);
      GapIsLast(c.log, data);
      GapRuns(LogGap(c.log, data));
    }
  }

  lemma HeaderKeepsSound(k: nat, c: Core, data: seq<byte>)
    requires Sound(k, c)
    ensures Sound(k, AddHeader(c, data))
  {
    Append(c.log, Header(data));
    AppendCounts(c.log, Header(data));
    AppendRuns(c.log, Header(data));
    hide Run, Count, GapBytes, LogBytes, WellFormedLog, ParseBurst;
  }

  lemma ParseIgnoresOffset(b: seq<byte>, m: nat, n: nat)
    requires WellFormed(Framed(b))
    ensures ParseBurst(b, m).failure == ParseBurst(b, n).failure
  {
  }

  /** What one burst does to the log and the counters. */
  lemma BurstCounters(k: nat, c: Core, data: seq<byte>)
    requires k > 0 && WellFormed(Framed(data))
    ensures var d, e := AddBurst(k, c, data), Framed(data);
            && d.log == c.log + [e] && d.offset == c.offset + |data|
            && d.unclassified == c.unclassified && d.bursts == c.bursts + 1
            && d.valid == c.valid + (if ValidFrame(e) then 1 else 0)
            && d.invalid == c.invalid + (if ValidFrame(e) then 0 else 1)
            && d.ac3 == c.ac3 + (if ValidAc3(e) then 1 else 0) && d.eac3 == c.eac3 + (if ValidEac3(e) then 1 else 0)
  {
    ParseIgnoresOffset(data, c.offset, 0);
    SupportedTypes(data);
    hide ParseBurst;
  }

  lemma BurstKeepsTallies(k: nat, c: Core, data: seq<byte>)
    requires k > 0 && WellFormedLog(c.log) && Tallies(c) && WellFormed(Framed(data))
    ensures WellFormedLog(AddBurst(k, c, data).log) && Tallies(AddBurst(k, c, data))
  {
    hide AddBurst, ValidFrame, ValidAc3, ValidEac3, Count, GapBytes, LogBytes, WellFormedLog, WellFormed;
    BurstCounters(k, c, data);
    Append(c.log, Framed(data));
    AppendCounts(c.log, Framed(data));
  }

  lemma BurstKeepsCandidate(k: nat, c: Core, data: seq<byte>)
    requires k > 0 && Candidate(c) && WellFormed(Framed(data))
    ensures Candidate(AddBurst(k, c, data))
  {
    ParseIgnoresOffset(data, c.offset, 0);
    AppendRuns(c.log, Framed(data));
    hide ParseBurst, Run, Count, GapBytes, LogBytes;
  }

  lemma BurstKeepsLock(k: nat, c: Core, data: seq<byte>)
    requires k > 0 && Candidate(c) && LockExact(k, c) && WellFormed(Framed(data))
    ensures LockExact(k, AddBurst(k, c, data))
  {
    ParseIgnoresOffset(data, c.offset, 0);
    AppendRuns(c.log, Framed(data));
    hide ParseBurst, Run, Count, GapBytes, LogBytes;
  }

  lemma BurstKeepsSound(k: nat, c: Core, data: seq<byte>)
    requires k > 0 && Sound(k, c) && WellFormed(Framed(data))
    ensures Sound(k, AddBurst(k, c, data))
  {
    BurstKeepsTallies(k, c, data);
    BurstKeepsCandidate(k, c, data);
    BurstKeepsLock(k, c, data);
    hide AddBurst, Tallies, Candidate, LockExact, WellFormedLog;
  }

  lemma SupportedTypes(data: seq<byte>)
    requires WellFormed(Framed(data))
    ensures DataType(data) == TYPE_AC3 || DataType(data) == TYPE_EAC3
  {
  }

  lemma TakeKeepsSound(k: nat, c: Core, b: seq<byte>)
    requires k > 0 && Sound(k, c)
    ensures Sound(k, Take(k, c, b))
  {
    hide Sound, AddBurst, AddGap, AddHeader, Decide;
    match Decide(b)
    case Wait =>
    case TakeGap(n) => GapKeepsSound(k, c, b[..n]);
    case TakeHeader => HeaderKeepsSound(k, c, b[..4]);
    case TakeBurst(p) => BurstKeepsSound(k, c, b[..p]);
  }

  /** Lock soundness and exact counters after any feed. */
  lemma {:induction false} DrainKeepsSound(k: nat, c: Core, b: seq<byte>)
    requires k > 0 && Sound(k, c)
    ensures Sound(k, Drain(k, c, b).0)
    decreases |b|
  {
    hide Sound, Take, Decide;
    if !Decide(b).Wait? {
      TakeKeepsSound(k, c, b);
      DrainKeepsSound(k, Take(k, c, b), b[Size(Decide(b))..]);
    }
  }

  /** After any sequence of chunks. */
  lemma {:induction false} FeedsKeepSound(k: nat, c: Core, b: seq<byte>, chunks: seq<seq<byte>>)
    requires k > 0 && Sound(k, c)
    ensures Sound(k, FeedAll(k, c, b, chunks).0)
    decreases |chunks|
  {
    hide Sound, Drain;
    if chunks != [] {
      var (d, rest) := Drain(k, c, b + chunks[0]);
      DrainKeepsSound(k, c, b + chunks[0]);
      FeedsKeepSound(k, d, rest, chunks[1..]);
    }
  }

  lemma FreshIsSound(k: nat)
    ensures Sound(k, Fresh())
  {
  }

  // --- Runs as trains of frames --------------------------------------------------------

  /** Only valid frames of type `t` and unsupported headers: in particular no gap. */
  predicate IsTrain(log: seq<Event>, t: nat) {
    forall i :: 0 <= i < |log| ==> log[i].Header? || ValidFrameOf(log[i], t)
  }

  /** The run counts the frames of the longest such train the log ends in. */
  lemma {:induction false} RunIsLongestTrain(log: seq<Event>, t: nat, i: nat)
    requires i <= |log| && IsTrain(log[i..], t)
    ensures Count(log[i..], IsFrame) <= Run(log, t)
  {
    var n := |log|;
    if i < n {
      var front := log[..n - 1];
      assert log[i..][..n - 1 - i] == front[i..];
      assert log[i..][n - 1 - i] == log[n - 1];
      RunIsLongestTrain(front, t, i);
    }
  }

  lemma {:induction false} RunHasTrain(log: seq<Event>, t: nat) returns (i: nat)
    ensures i <= |log| && IsTrain(log[i..], t) && Count(log[i..], IsFrame) == Run(log, t)
  {
    hide ValidFrameOf, Count;
    var n := |log|;
    if n > 0 && (log[n - 1].Header? || ValidFrameOf(log[n - 1], t)) {
      i := RunHasTrain(log[..n - 1], t);
      TrainGrows(log, t, i);
    } else {
      i := n;
      assert log[n..] == [];
      NothingCounted(IsFrame);
    }
  }

  lemma NothingCounted(p: Event -> bool)
    ensures Count([], p) == 0
  {
  }

  lemma TrainGrows(log: seq<Event>, t: nat, i: nat)
    requires i < |log| && IsTrain(log[..|log| - 1][i..], t)
    requires log[|log| - 1].Header? || ValidFrameOf(log[|log| - 1], t)
    ensures IsTrain(log[i..], t)
    ensures Count(log[i..], IsFrame)
            == Count(log[..|log| - 1][i..], IsFrame) + (if log[|log| - 1].Header? then 0 else 1)
  {
    var front := log[..|log| - 1];
    assert log[i..] == front[i..] + [log[|log| - 1]];
    AppendCount(front[i..], log[|log| - 1], IsFrame);
    hide ParseBurst, Count;
  }

  /** Locked to `t` if and only if the stream ends in a train of at least `lockBursts` valid
      frames of type `t`, the last piece being such a frame: no unclassified byte, no invalid
      burst and no frame of another type between them. */
  lemma LockedIffTrain(k: nat, chunks: seq<seq<byte>>, t: nat)
    requires k > 0
    ensures var log := FeedAll(k, Fresh(), [], chunks).0.log;
            FeedAll(k, Fresh(), [], chunks).0.locked == Some(t) <==>
            && log != [] && ValidFrameOf(log[|log| - 1], t)
            && exists i :: 0 <= i <= |log| && IsTrain(log[i..], t) && Count(log[i..], IsFrame) >= k
  {
    hide FeedAll, ParseBurst;
    var c := FeedAll(k, Fresh(), [], chunks).0;
    FreshIsSound(k);
    FeedsKeepSound(k, Fresh(), [], chunks);
    var i := RunHasTrain(c.log, t);
    assert IsTrain(c.log[i..], t) && Count(c.log[i..], IsFrame) == Run(c.log, t);
    if j :| 0 <= j <= |c.log| && IsTrain(c.log[j..], t) && Count(c.log[j..], IsFrame) >= k {
      RunIsLongestTrain(c.log, t, j);
    }
  }

  // --- Lock completeness ------------------------------------------------------------------

  /** Payloads the source's burst builder may frame: even, within the period, starting with the syncword. */
  predicate Frameable(t: nat, payload: seq<byte>) {
    && Period(t).Some? && |payload| % 2 == 0 && StartsWithSyncword(payload) && 8 + |payload| <= Period(t).value
  }

  /** Pd is a byte count for E-AC-3 and a bit count for AC-3. */
  function BuildBurst(t: nat, payload: seq<byte>): (b: seq<byte>)
    requires Frameable(t, payload)
    ensures |b| == Period(t).value
  {
    Frame(t, if t == TYPE_EAC3 then |payload| else 8 * |payload|, payload, Period(t).value)
  }

  lemma BuiltBurstIsValid(t: nat, payload: seq<byte>)
    requires Frameable(t, payload)
    ensures var b := BuildBurst(t, payload);
            DataType(b) == t && ValidFrameOf(Framed(b), t) && ParseBurst(b, 0).payloadBytes == |payload|
  {
    var pd := if t == TYPE_EAC3 then |payload| else 8 * |payload|;
    FrameFields(t, pd, payload, Period(t).value);
    var b := BuildBurst(t, payload);
    assert PayloadBytes(t, pd) == |payload|;
    assert b[8 + |payload|..|b|] == b[8 + |payload|..];
  }

  function Train(t: nat, payloads: seq<seq<byte>>): seq<byte>
    requires forall i :: 0 <= i < |payloads| ==> Frameable(t, payloads[i])
  {
    if payloads == [] then [] else BuildBurst(t, payloads[0]) + Train(t, payloads[1..])
  }

  /** A built burst in front of the buffer is taken whole. */
  lemma BurstIsTaken(k: nat, c: Core, t: nat, payload: seq<byte>, tail: seq<byte>)
    requires Frameable(t, payload)
    ensures var b := BuildBurst(t, payload);
            WellFormed(Framed(b)) && Drain(k, c, b + tail) == Drain(k, AddBurst(k, c, b), tail)
  {
    var b := BuildBurst(t, payload);
    var whole := b + tail;
    BuiltBurstIsValid(t, payload);
    BuiltStartsWithSync(t, payload);
    hide ParseBurst, BuildBurst, AddBurst;
    assert whole[..|b|] == b && whole[|b|..] == tail;
    assert SyncAt(whole, 0);
    FindIs(whole, 0);
    assert Word(whole, 4) == Word(b, 4);
    assert Decide(whole) == TakeBurst(|b|);
  }

  /** Ready to go on counting frames of type `t`. */
  predicate ReadyFor(c: Core, t: nat) {
    (c.candidate == Some(t) || (c.candidate == None && c.locked == None)) && (c.candidate == None ==> c.count == 0)
  }

  lemma BurstIsCounted(k: nat, c: Core, t: nat, payload: seq<byte>)
    requires k > 0 && Frameable(t, payload) && ReadyFor(c, t)
    ensures WellFormed(Framed(BuildBurst(t, payload)))
    ensures var d := AddBurst(k, c, BuildBurst(t, payload));
            && ReadyFor(d, t) && d.candidate == Some(t) && d.count == c.count + 1
            && (d.count >= k ==> d.locked == Some(t))
            && d.invalid == c.invalid && d.unclassified == c.unclassified && d.relocks == c.relocks
            && d.valid == c.valid + 1
  {
    BuiltBurstIsValid(t, payload);
    ParseIgnoresOffset(BuildBurst(t, payload), c.offset, 0);
    hide ParseBurst, BuildBurst;
  }

  lemma {:induction false} DrainTrain(k: nat, c: Core, t: nat, payloads: seq<seq<byte>>)
    requires k > 0 && ReadyFor(c, t) && forall i :: 0 <= i < |payloads| ==> Frameable(t, payloads[i])
    ensures var (d, rest) := Drain(k, c, Train(t, payloads));
            && rest == [] && d.invalid == c.invalid && d.unclassified == c.unclassified && d.relocks == c.relocks
            && d.valid == c.valid + |payloads|
            && (payloads != [] ==> d.candidate == Some(t) && d.count == c.count + |payloads|
                                   && (c.count + |payloads| >= k ==> d.locked == Some(t)))
    decreases |payloads|
  {
    hide AddBurst, BuildBurst, WellFormed;
    if payloads != [] {
      BurstIsTaken(k, c, t, payloads[0], Train(t, payloads[1..]));
      BurstIsCounted(k, c, t, payloads[0]);
      DrainTrain(k, AddBurst(k, c, BuildBurst(t, payloads[0])), t, payloads[1..]);
    }
  }

  lemma BuiltStartsWithSync(t: nat, payload: seq<byte>)
    requires Frameable(t, payload)
    ensures SyncAt(BuildBurst(t, payload), 0)
  {
  }

  /** Lock completeness: a gap-free train of at least `lockBursts` built bursts of one type, cut
      into any chunks, ends locked to that type with nothing rejected, skipped or relocked. */
  lemma TrainLocks(k: nat, t: nat, payloads: seq<seq<byte>>, chunks: seq<seq<byte>>)
    requires 0 < k <= |payloads| && forall i :: 0 <= i < |payloads| ==> Frameable(t, payloads[i])
    requires Concat(chunks) == Train(t, payloads)
    ensures var (d, rest) := FeedAll(k, Fresh(), [], chunks);
            && rest == [] && d.locked == Some(t) && d.valid == |payloads|
            && d.invalid == 0 && d.unclassified == 0 && d.relocks == 0
  {
    assert Decide([]).Wait?;
    ChunkIndependence(k, Fresh(), [], chunks);
    assert [] + Concat(chunks) == Train(t, payloads);
    DrainTrain(k, Fresh(), t, payloads);
  }
}
