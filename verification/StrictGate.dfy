/** The strict whole-capture gate for E-AC-3 bursts, and the matching capture builder. */
module StrictGate {
  import opened Bytes
  import opened Iec61937

  datatype Metadata = Metadata(
    start: Option<int>, end: Option<int>, resets: Option<int>, drops: Option<int>, required: bool)

  /** `expectedPayload` stands for the expected digest of the reconstructed payload. */
  datatype Config = Config(
    expectedBursts: Option<int>, expectedPayload: Option<seq<byte>>, period: int, allowZeros: bool, metadata: Metadata)

  datatype Failure =
    | PrefixNotAdmitted | BurstCountMismatch | SuffixNotAdmitted
    | MissingMetadata | EndNotAfterStart | ResetsCounted | DropsCounted
    | TruncatedBurst(index: nat) | InvalidPreamble(index: nat) | WrongDataType(index: nat) | ErrorFlag(index: nat)
    | EmptyPayload(index: nat) | PayloadTooLong(index: nat) | OddPayload(index: nat)
    | NoSyncword(index: nat) | PaddingNotZero(index: nat)
    | PayloadMismatch

  datatype GateError = InvalidPeriod | NoSyncFound

  datatype Report = Report(
    failures: seq<Failure>, burstCount: nat, prefixBytes: nat, suffixBytes: nat, payload: seq<byte>)

  // --- One burst -----------------------------------------------------------------------

  function HeaderFailures(b: seq<byte>, index: nat): seq<Failure>
    requires |b| >= 8
  {
    (if Word(b, 4) % 128 != TYPE_EAC3 then [WrongDataType(index)] else []) +
    (if (Word(b, 4) / 128) % 2 == 1 then [ErrorFlag(index)] else [])
  }

  /** The payload length is usable: the burst yields a payload, right or wrong. */
  predicate Readable(b: seq<byte>)
    requires |b| >= 8
  {
    Word(b, 0) == PA && Word(b, 2) == PB && 0 < Word(b, 6) && 8 + Word(b, 6) <= |b| && Word(b, 6) % 2 == 0
  }

  function PayloadOf(b: seq<byte>): seq<byte>
    requires |b| >= 8 && Readable(b)
  {
    Swap16(b[8..8 + Word(b, 6)])
  }

  function BurstFailures(b: seq<byte>, index: nat): seq<Failure>
    requires |b| >= 8
  {
    var n := Word(b, 6);
    if Word(b, 0) != PA || Word(b, 2) != PB then [InvalidPreamble(index)]
    else if n == 0 then HeaderFailures(b, index) + [EmptyPayload(index)]
    else if 8 + n > |b| then HeaderFailures(b, index) + [PayloadTooLong(index)]
    else if n % 2 != 0 then HeaderFailures(b, index) + [OddPayload(index)]
    else HeaderFailures(b, index) + ContentFailures(b, index)
  }

  function ContentFailures(b: seq<byte>, index: nat): seq<Failure>
    requires |b| >= 8 && Readable(b)
  {
    (if StartsWithSyncword(PayloadOf(b)) then [] else [NoSyncword(index)]) +
    (if AllZero(b[8 + Word(b, 6)..]) then [] else [PaddingNotZero(index)])
  }

  // --- The train -----------------------------------------------------------------------

  /** A sync stands on the grid position at the front of `t`. */
  predicate OnGrid(t: seq<byte>) {
    |t| >= 8 && SyncAt(t, 0)
  }

  /** Bursts on the fixed grid from the front of `t`; the last may be cut short. */
  function BurstCount(t: seq<byte>, period: nat): nat
    requires period >= 16
  {
    if !OnGrid(t) then 0 else if |t| < period then 1 else 1 + BurstCount(t[period..], period)
  }

  /** What follows the train. A cut-short last burst leaves nothing. */
  function Remainder(t: seq<byte>, period: nat): seq<byte>
    requires period >= 16
  {
    if !OnGrid(t) then t else if |t| < period then [] else Remainder(t[period..], period)
  }

  function TrainFailures(t: seq<byte>, period: nat, index: nat): seq<Failure>
    requires period >= 16
    decreases |t|
  {
    if !OnGrid(t) then [] else if |t| < period then [TruncatedBurst(index)]
    else BurstFailures(t[..period], index) + TrainFailures(t[period..], period, index + 1)
  }

  /** The payloads of all readable bursts, in order. */
  function TrainPayload(t: seq<byte>, period: nat): seq<byte>
    requires period >= 16
    decreases |t|
  {
    if !OnGrid(t) || |t| < period then []
    else (if Readable(t[..period]) then PayloadOf(t[..period]) else []) + TrainPayload(t[period..], period)
  }

  function MetadataFailures(m: Metadata): seq<Failure> {
    (if m.required && (m.start.None? || m.end.None? || m.resets.None? || m.drops.None?)
     then [MissingMetadata] else []) +
    (if m.start.Some? && m.end.Some? && m.end.value <= m.start.value then [EndNotAfterStart] else []) +
    (if m.resets.Some? && m.resets.value != 0 then [ResetsCounted] else []) +
    (if m.drops.Some? && m.drops.value != 0 then [DropsCounted] else [])
  }

  /** Leading and trailing bytes are admitted only as zeros, and only where allowed. */
  function MarginFailures(margin: seq<byte>, allowZeros: bool, f: Failure): seq<Failure> {
    if margin != [] && (!allowZeros || !AllZero(margin)) then [f] else []
  }

  function CountFailures(expected: Option<int>, count: nat): seq<Failure> {
    if expected.Some? && expected.value != count then [BurstCountMismatch] else []
  }

  function PayloadFailures(expected: Option<seq<byte>>, payload: seq<byte>): seq<Failure> {
    if expected.Some? && expected.value != payload then [PayloadMismatch] else []
  }

  function Gate(data: seq<byte>, cfg: Config): Result<Report, GateError> {
    if cfg.period < 16 || cfg.period % 2 != 0 then Result.Failure(InvalidPeriod)
    else if Find(data) < 0 then Result.Failure(NoSyncFound)
    else
      var prefix, t := data[..Find(data)], data[Find(data)..];
      var count, suffix, payload := BurstCount(t, cfg.period), Remainder(t, cfg.period), TrainPayload(t, cfg.period);
      Success(Report(
        MarginFailures(prefix, cfg.allowZeros, PrefixNotAdmitted)
        + CountFailures(cfg.expectedBursts, count)
        + MarginFailures(suffix, cfg.allowZeros, SuffixNotAdmitted)
        + MetadataFailures(cfg.metadata)
        + TrainFailures(t, cfg.period, 0)
        + PayloadFailures(cfg.expectedPayload, payload),
        count, |prefix|, |suffix|, payload))
  }

  // --- The source's loops ----------------------------------------------------------------

  /** Grid positions one period apart, all with room for a preamble. */
  predicate IsGrid(data: seq<byte>, first: nat, period: nat, offsets: seq<nat>) {
    && (offsets != [] ==> offsets[0] == first)
    && (forall k :: 0 < k < |offsets| ==> offsets[k] == offsets[k - 1] + period)
    && (forall k :: 0 <= k < |offsets| ==> offsets[k] + 8 <= |data| && SyncAt(data, offsets[k]))
  }

  lemma GridStep(data: seq<byte>, offset: nat, period: nat)
    requires period >= 16 && offset + 8 <= |data| && SyncAt(data, offset)
    ensures var next := offset + period;
            && BurstCount(data[offset..], period)
                == 1 + (if next <= |data| then BurstCount(data[next..], period) else 0)
            && Remainder(data[offset..], period) == (if next <= |data| then Remainder(data[next..], period) else [])
  {
    assert OnGrid(data[offset..]);
    if offset + period <= |data| {
      assert data[offset..][period..] == data[offset + period..];
    }
  }

  lemma MulStep(n: nat, period: nat)
    requires n > 0
    ensures (n - 1) * period + period == n * period
  {
  }

  lemma GridEnd(data: seq<byte>, offset: nat, period: nat)
    requires period >= 16 && offset <= |data| && !(offset + 8 <= |data| && SyncAt(data, offset))
    ensures BurstCount(data[offset..], period) == 0 && Remainder(data[offset..], period) == data[offset..]
  {
    assert !OnGrid(data[offset..]);
  }

  method ConsecutiveBurstOffsets(data: seq<byte>, first: nat, period: nat) returns (offsets: seq<nat>)
    requires period >= 16 && first <= |data|
    ensures IsGrid(data, first, period, offsets) && |offsets| == BurstCount(data[first..], period)
    ensures var end := first + |offsets| * period;
            Remainder(data[first..], period) == if end <= |data| then data[end..] else []
  {
    hide BurstCount, Remainder, SyncAt;
    offsets := [];
    var offset := first;
    while offset + 8 <= |data| && SyncAt(data, offset)
      invariant offset == first + |offsets| * period
      invariant offset == if offsets == [] then first else offsets[|offsets| - 1] + period
      invariant IsGrid(data, first, period, offsets)
      invariant offset <= |data| ==> BurstCount(data[first..], period) == |offsets| + BurstCount(data[offset..], period)
      invariant offset <= |data| ==> Remainder(data[first..], period) == Remainder(data[offset..], period)
      invariant offset > |data| ==>
                BurstCount(data[first..], period) == |offsets| && Remainder(data[first..], period) == []
      decreases |data| - offset
    {
      GridStep(data, offset, period);
      offsets := offsets + [offset];
      MulStep(|offsets|, period);
      offset := offset + period;
    }
    if offset <= |data| {
      GridEnd(data, offset, period);
    }
  }

  /** What the first burst of `t` adds to the report. */
  lemma TrainStep(t: seq<byte>, period: nat, index: nat)
    requires period >= 16 && OnGrid(t)
    ensures if |t| < period then
              && TrainFailures(t, period, index) == [TruncatedBurst(index)] && TrainPayload(t, period) == []
              && BurstCount(t, period) == 1 && Remainder(t, period) == []
            else
              && TrainFailures(t, period, index)
                  == BurstFailures(t[..period], index) + TrainFailures(t[period..], period, index + 1)
              && TrainPayload(t, period) == (if Readable(t[..period]) then PayloadOf(t[..period]) else [])
                  + TrainPayload(t[period..], period)
              && BurstCount(t, period) == 1 + BurstCount(t[period..], period)
              && Remainder(t, period) == Remainder(t[period..], period)
  {
  }

  lemma TrainEnd(t: seq<byte>, period: nat, index: nat)
    requires period >= 16 && BurstCount(t, period) == 0
    ensures TrainFailures(t, period, index) == [] && TrainPayload(t, period) == []
  {
  }

  /** All bursts of the train in turn; stops at one that is cut short. */
  method CheckTrain(data: seq<byte>, first: nat, period: nat, offsets: seq<nat>)
      returns (failures: seq<Failure>, payload: seq<byte>)
    requires period >= 16 && first <= |data|
    requires IsGrid(data, first, period, offsets) && |offsets| == BurstCount(data[first..], period)
    ensures failures == TrainFailures(data[first..], period, 0)
    ensures payload == TrainPayload(data[first..], period)
  {
    hide BurstFailures, Readable, PayloadOf, TrainFailures, TrainPayload, BurstCount;
    failures, payload := [], [];
    var index := 0;
    ghost var t := data[first..];
    while index < |offsets|
      invariant index <= |offsets|
      invariant BurstCount(t, period) == |offsets| - index
      invariant index < |offsets| ==> t == data[offsets[index]..]
      invariant failures + TrainFailures(t, period, index) == TrainFailures(data[first..], period, 0)
      invariant payload + TrainPayload(t, period) == TrainPayload(data[first..], period)
    {
      var offset := offsets[index];
      assert OnGrid(t);
      TrainStep(t, period, index);
      if offset + period > |data| {
        failures := failures + [TruncatedBurst(index)];
        assert payload + [] == payload;
        return;
      }
      var burst := data[offset..offset + period];
      assert burst == t[..period];
      ghost var rest := t[period..];
      assert failures + (BurstFailures(burst, index) + TrainFailures(rest, period, index + 1))
          == (failures + BurstFailures(burst, index)) + TrainFailures(rest, period, index + 1);
      failures := failures + BurstFailures(burst, index);
      if Readable(burst) {
        assert payload + (PayloadOf(burst) + TrainPayload(rest, period))
            == (payload + PayloadOf(burst)) + TrainPayload(rest, period);
        payload := payload + PayloadOf(burst);
      } else {
        assert [] + TrainPayload(rest, period) == TrainPayload(rest, period);
      }
      t := rest;
      index := index + 1;
    }
    TrainEnd(t, period, index);
  }

  method ParseCapture(data: seq<byte>, cfg: Config) returns (r: Result<Report, GateError>)
    ensures r == Gate(data, cfg)
  {
    hide BurstCount, Remainder, TrainFailures, TrainPayload, MetadataFailures, IsGrid, AllZero;
    if cfg.period < 16 || cfg.period % 2 != 0 {
      return Result.Failure(InvalidPeriod);
    }
    var first := Find(data);
    if first < 0 {
      return Result.Failure(NoSyncFound);
    }
    var failures: seq<Failure> := [];
    var prefix := data[..first];
    if first > 0 && (!cfg.allowZeros || !AllZero(prefix)) {
      failures := failures + [PrefixNotAdmitted];
    }
    assert failures == MarginFailures(prefix, cfg.allowZeros, PrefixNotAdmitted);
    var offsets := ConsecutiveBurstOffsets(data, first, cfg.period);
    ghost var before := failures;
    if cfg.expectedBursts.Some? && cfg.expectedBursts.value != |offsets| {
      failures := failures + [BurstCountMismatch];
    }
    assert failures == before + CountFailures(cfg.expectedBursts, |offsets|);
    var trainEnd := first + |offsets| * cfg.period;
    var suffix := if trainEnd <= |data| then data[trainEnd..] else [];
    before := failures;
    if suffix != [] && (!cfg.allowZeros || !AllZero(suffix)) {
      failures := failures + [SuffixNotAdmitted];
    }
    assert failures == before + MarginFailures(suffix, cfg.allowZeros, SuffixNotAdmitted);
    hide MarginFailures, CountFailures;
    failures := failures + MetadataFailures(cfg.metadata);
    var burstFailures, payload := CheckTrain(data, first, cfg.period, offsets);
    failures := failures + burstFailures;
    before := failures;
    if cfg.expectedPayload.Some? && cfg.expectedPayload.value != payload {
      failures := failures + [PayloadMismatch];
    }
    assert failures == before + PayloadFailures(cfg.expectedPayload, payload);
    r := Success(Report(failures, |offsets|, |prefix|, |suffix|, payload));
  }

  // --- What passes ---------------------------------------------------------------------------

  /** One burst as a pass implies it: any high byte in Pc, and a sound payload. */
  datatype Piece = Piece(pcHigh: byte, payload: seq<byte>)

  predicate GoodPayload(payload: seq<byte>, period: nat) {
    |payload| % 2 == 0 && StartsWithSyncword(payload) && 8 + |payload| <= period && |payload| < 0x1_0000
  }

  predicate GoodPieces(pieces: seq<Piece>, period: nat) {
    forall k :: 0 <= k < |pieces| ==> GoodPayload(pieces[k].payload, period)
  }

  function PieceFrame(p: Piece, period: nat): (f: seq<byte>)
    requires GoodPayload(p.payload, period)
    ensures |f| == period
  {
    Frame(TYPE_EAC3 + 256 * p.pcHigh as int, |p.payload|, p.payload, period)
  }

  function Frames(pieces: seq<Piece>, period: nat): seq<byte>
    requires GoodPieces(pieces, period)
  {
    if pieces == [] then [] else PieceFrame(pieces[0], period) + Frames(pieces[1..], period)
  }

  function Payloads(pieces: seq<Piece>): seq<byte> {
    if pieces == [] then [] else pieces[0].payload + Payloads(pieces[1..])
  }

  lemma PieceIsClean(p: Piece, period: nat, index: nat)
    requires GoodPayload(p.payload, period) && period >= 16
    ensures var f := PieceFrame(p, period);
            OnGrid(f) && BurstFailures(f, index) == [] && Readable(f) && PayloadOf(f) == p.payload
  {
    FrameFields(TYPE_EAC3 + 256 * p.pcHigh as int, |p.payload|, p.payload, period);
  }

  /** A burst without failures is such a frame. */
  lemma CleanIsPiece(f: seq<byte>, index: nat) returns (p: Piece)
    requires |f| >= 16 && OnGrid(f) && BurstFailures(f, index) == []
    ensures GoodPayload(p.payload, |f|) && f == PieceFrame(p, |f|)
  {
    var n := Word(f, 6);
    assert HeaderFailures(f, index) == [];
    var payload := PayloadOf(f);
    p := Piece(f[5], payload);
    assert Word(f, 4) == TYPE_EAC3 + 256 * f[5] as int by {
      LowByte(f[4], f[5]);
    }
    FieldsDetermineFrame(f, Word(f, 4), n, payload);
  }

  /** Seven type bits equal to 0x15 and a clear error bit fix the low byte of Pc, not its high byte. */
  lemma LowByte(low: byte, high: byte)
    ensures var pc := low as int + 256 * high as int;
            pc % 128 == TYPE_EAC3 && (pc / 128) % 2 == 0 <==> low == TYPE_EAC3
  {
  }

  /** A clean frame in front of `rest` adds its payload and nothing else. */
  lemma TrainCons(p: Piece, period: nat, rest: seq<byte>, index: nat)
    requires period >= 16 && GoodPayload(p.payload, period)
    ensures var t := PieceFrame(p, period) + rest;
            && OnGrid(t) && |t| >= period && t[..period] == PieceFrame(p, period) && t[period..] == rest
            && BurstCount(t, period) == 1 + BurstCount(rest, period) && Remainder(t, period) == Remainder(rest, period)
            && TrainFailures(t, period, index) == TrainFailures(rest, period, index + 1)
            && TrainPayload(t, period) == p.payload + TrainPayload(rest, period)
  {
    hide BurstFailures, Readable, PayloadOf, PieceFrame, BurstCount, Remainder, TrainFailures, TrainPayload;
    PieceIsClean(p, period, index);
    var t := PieceFrame(p, period) + rest;
    assert t[..period] == PieceFrame(p, period) && t[period..] == rest;
    TrainStep(t, period, index);
  }

  lemma FramesCons(p: Piece, more: seq<Piece>, period: nat)
    requires GoodPayload(p.payload, period) && GoodPieces(more, period)
    ensures GoodPieces([p] + more, period)
    ensures Frames([p] + more, period) == PieceFrame(p, period) + Frames(more, period)
    ensures Payloads([p] + more) == p.payload + Payloads(more)
  {
    assert ([p] + more)[1..] == more;
  }

  lemma {:induction false} TrainOfPieces(pieces: seq<Piece>, period: nat, tail: seq<byte>, index: nat)
    requires period >= 16 && GoodPieces(pieces, period) && !OnGrid(tail)
    ensures var t := Frames(pieces, period) + tail;
            && BurstCount(t, period) == |pieces| && Remainder(t, period) == tail
            && TrainFailures(t, period, index) == [] && TrainPayload(t, period) == Payloads(pieces)
    decreases |pieces|
  {
    hide PieceFrame, OnGrid;
    if pieces == [] {
      assert Frames(pieces, period) + tail == tail;
    } else {
      var rest := Frames(pieces[1..], period) + tail;
      TrainOfPieces(pieces[1..], period, tail, index + 1);
      FrontPiece(pieces, period, tail, rest, index);
    }
  }

  lemma FrontPiece(pieces: seq<Piece>, period: nat, tail: seq<byte>, rest: seq<byte>, index: nat)
    requires period >= 16 && pieces != [] && GoodPieces(pieces, period)
    requires rest == Frames(pieces[1..], period) + tail
    ensures var t := Frames(pieces, period) + tail;
            && BurstCount(t, period) == 1 + BurstCount(rest, period) && Remainder(t, period) == Remainder(rest, period)
            && TrainFailures(t, period, index) == TrainFailures(rest, period, index + 1)
            && TrainPayload(t, period) == pieces[0].payload + TrainPayload(rest, period)
  {
    hide PieceFrame, OnGrid, BurstCount, Remainder, TrainFailures, TrainPayload;
    TrainCons(pieces[0], period, rest, index);
    assert Frames(pieces, period) + tail == PieceFrame(pieces[0], period) + rest;
  }

  lemma {:induction false} CleanTrainIsPieces(t: seq<byte>, period: nat, index: nat) returns (pieces: seq<Piece>)
    requires period >= 16 && TrainFailures(t, period, index) == []
    ensures GoodPieces(pieces, period) && t == Frames(pieces, period) + Remainder(t, period)
    ensures |pieces| == BurstCount(t, period) && TrainPayload(t, period) == Payloads(pieces)
    decreases |t|
  {
    if !OnGrid(t) {
      pieces := [];
    } else {
      var p := CleanFront(t, period, index);
      var more := CleanTrainIsPieces(t[period..], period, index + 1);
      pieces := [p] + more;
      PiecesCons(p, more, t[period..], period, index);
    }
  }

  lemma PiecesCons(p: Piece, more: seq<Piece>, rest: seq<byte>, period: nat, index: nat)
    requires period >= 16 && GoodPayload(p.payload, period)
    requires GoodPieces(more, period) && rest == Frames(more, period) + Remainder(rest, period)
    requires |more| == BurstCount(rest, period) && TrainPayload(rest, period) == Payloads(more)
    ensures GoodPieces([p] + more, period)
    ensures var t := PieceFrame(p, period) + rest;
            && t == Frames([p] + more, period) + Remainder(t, period)
            && |[p] + more| == BurstCount(t, period) && TrainPayload(t, period) == Payloads([p] + more)
  {
    hide *;
    FramesCons(p, more, period);
    TrainCons(p, period, rest, index);
    var f, g, r := PieceFrame(p, period), Frames(more, period), Remainder(rest, period);
    assert f + (g + r) == (f + g) + r;
  }

  lemma CleanFront(t: seq<byte>, period: nat, index: nat) returns (p: Piece)
    requires period >= 16 && OnGrid(t) && TrainFailures(t, period, index) == []
    ensures |t| >= period && TrainFailures(t[period..], period, index + 1) == []
    ensures GoodPayload(p.payload, period) && t == PieceFrame(p, period) + t[period..]
  {
    hide BurstFailures, TrainFailures, Readable, PayloadOf, PieceFrame;
    TrainStep(t, period, index);
    assert BurstFailures(t[..period], index) == [];
    p := CleanIsPiece(t[..period], index);
    assert t == t[..period] + t[period..];
  }

  /** The capture is zeros, framed payloads, zeros, and agrees with every expectation. */
  predicate IsCapture(data: seq<byte>, cfg: Config, prefix: nat, pieces: seq<Piece>, suffix: nat) {
    && cfg.period >= 16 && cfg.period % 2 == 0
    && pieces != [] && GoodPieces(pieces, cfg.period)
    && data == Zeros(prefix) + Frames(pieces, cfg.period) + Zeros(suffix)
    && (!cfg.allowZeros ==> prefix == 0 && suffix == 0)
    && (cfg.expectedBursts.Some? ==> cfg.expectedBursts.value == |pieces|)
    && (cfg.expectedPayload.Some? ==> cfg.expectedPayload.value == Payloads(pieces))
    && MetadataFailures(cfg.metadata) == []
  }

  /** The gate passes the capture and reconstructs `payload`. */
  predicate Passes(data: seq<byte>, cfg: Config, payload: seq<byte>) {
    var r := Gate(data, cfg);
    r.Success? && r.value.failures == [] && r.value.payload == payload
  }

  lemma SyncAfterZeros(prefix: nat, t: seq<byte>)
    requires SyncAt(t, 0)
    ensures Find(Zeros(prefix) + t) == prefix
  {
    FindIs(Zeros(prefix) + t, prefix);
  }

  lemma FramesStartWithSync(pieces: seq<Piece>, period: nat, tail: seq<byte>)
    requires pieces != [] && GoodPieces(pieces, period)
    ensures SyncAt(Frames(pieces, period) + tail, 0)
  {
    var f := PieceFrame(pieces[0], period);
    assert Frames(pieces, period) == f + Frames(pieces[1..], period);
  }

  /** The report follows from the shape of the train. */
  lemma GateOf(data: seq<byte>, cfg: Config, prefix: nat, n: nat, suffix: nat, payload: seq<byte>)
    requires cfg.period >= 16 && cfg.period % 2 == 0 && prefix <= |data| && Find(data) == prefix
    requires data[..prefix] == Zeros(prefix)
    requires var t := data[prefix..];
             && BurstCount(t, cfg.period) == n && Remainder(t, cfg.period) == Zeros(suffix)
             && TrainFailures(t, cfg.period, 0) == [] && TrainPayload(t, cfg.period) == payload
    requires !cfg.allowZeros ==> prefix == 0 && suffix == 0
    requires cfg.expectedBursts.Some? ==> cfg.expectedBursts.value == n
    requires cfg.expectedPayload.Some? ==> cfg.expectedPayload.value == payload
    requires MetadataFailures(cfg.metadata) == []
    ensures Passes(data, cfg, payload) && Gate(data, cfg).value.burstCount == n
  {
    hide BurstCount, Remainder, TrainFailures, TrainPayload, MetadataFailures;
  }

  /** Every such capture passes and yields exactly its payloads. */
  lemma CapturePasses(data: seq<byte>, cfg: Config, prefix: nat, pieces: seq<Piece>, suffix: nat)
    requires IsCapture(data, cfg, prefix, pieces, suffix)
    ensures Passes(data, cfg, Payloads(pieces))
    ensures Gate(data, cfg).value.burstCount == |pieces|
  {
    hide BurstCount, Remainder, TrainFailures, TrainPayload, Frames, MetadataFailures, Find, Passes, Gate, GoodPieces;
    var t := Frames(pieces, cfg.period) + Zeros(suffix);
    assert data == Zeros(prefix) + t;
    FramesStartWithSync(pieces, cfg.period, Zeros(suffix));
    SyncAfterZeros(prefix, t);
    assert data[..prefix] == Zeros(prefix) && data[prefix..] == t;
    TrainOfPieces(pieces, cfg.period, Zeros(suffix), 0);
    GateOf(data, cfg, prefix, |pieces|, suffix, Payloads(pieces));
  }

  lemma ZerosAre(b: seq<byte>)
    requires AllZero(b)
    ensures b == Zeros(|b|)
  {
  }

  /** A passing capture has that form. */
  lemma PassIsCapture(data: seq<byte>, cfg: Config, payload: seq<byte>)
      returns (prefix: nat, pieces: seq<Piece>, suffix: nat)
    requires Passes(data, cfg, payload)
    ensures IsCapture(data, cfg, prefix, pieces, suffix) && payload == Payloads(pieces)
  {
    hide BurstCount, TrainFailures, TrainPayload, Frames, MetadataFailures, Passes, Gate, GoodPieces, Remainder,
         AllZero;
    PassFacts(data, cfg, payload);
    prefix := Find(data);
    var t := data[prefix..];
    var rest := Remainder(t, cfg.period);
    suffix := |rest|;
    pieces := CleanTrainIsPieces(t, cfg.period, 0);
    ZerosAre(data[..prefix]);
    ZerosAre(rest);
    assert data == data[..prefix] + t;
    assert data == (data[..prefix] + Frames(pieces, cfg.period)) + rest;
    assert SyncAt(t, 0);
    NoPieces(t, cfg.period);
  }

  lemma PassFacts(data: seq<byte>, cfg: Config, payload: seq<byte>)
    requires Passes(data, cfg, payload)
    ensures cfg.period >= 16 && cfg.period % 2 == 0 && Find(data) >= 0
    ensures var t := data[Find(data)..];
            && TrainFailures(t, cfg.period, 0) == [] && payload == TrainPayload(t, cfg.period)
            && MetadataFailures(cfg.metadata) == []
            && AllZero(data[..Find(data)]) && AllZero(Remainder(t, cfg.period))
            && (!cfg.allowZeros ==> Find(data) == 0 && Remainder(t, cfg.period) == [])
            && (cfg.expectedBursts.Some? ==> cfg.expectedBursts.value == BurstCount(t, cfg.period))
            && (cfg.expectedPayload.Some? ==> cfg.expectedPayload.value == payload)
  {
    hide BurstCount, TrainFailures, TrainPayload, MetadataFailures, Remainder;
  }

  /** A sync too close to the end to be a burst is not zero padding, so a pass has a burst. */
  lemma NoPieces(t: seq<byte>, period: nat)
    requires period >= 16 && SyncAt(t, 0) && AllZero(Remainder(t, period))
    ensures BurstCount(t, period) > 0
  {
    assert t[0] == 0x72;
  }

  /** The strict gate passes exactly the captures that are zeros, framed payloads and zeros, and
      it reconstructs exactly the framed payloads; only the high byte of each Pc is free. */
  lemma GateExact(data: seq<byte>, cfg: Config, payload: seq<byte>)
    ensures Passes(data, cfg, payload) <==>
            exists prefix: nat, pieces: seq<Piece>, suffix: nat ::
              IsCapture(data, cfg, prefix, pieces, suffix) && payload == Payloads(pieces)
  {
    if Passes(data, cfg, payload) {
      var prefix, pieces, suffix := PassIsCapture(data, cfg, payload);
      assert IsCapture(data, cfg, prefix, pieces, suffix) && payload == Payloads(pieces);
    }
    forall prefix: nat, pieces: seq<Piece>, suffix: nat |
      IsCapture(data, cfg, prefix, pieces, suffix) && payload == Payloads(pieces)
      ensures Passes(data, cfg, payload)
    {
      CapturePasses(data, cfg, prefix, pieces, suffix);
    }
  }

  // --- The builder -----------------------------------------------------------------------------

  const EAC3_PERIOD := 24576

  datatype BuildError = OddLength | MissingSyncword | LengthNotPackable | TooLarge

  function PiecesOf(payloads: seq<seq<byte>>): (p: seq<Piece>)
    ensures |p| == |payloads|
    ensures forall k :: 0 <= k < |p| ==> p[k] == Piece(0, payloads[k])
  {
    seq(|payloads|, k requires 0 <= k < |payloads| => Piece(0, payloads[k]))
  }

  method BuildSyntheticCapture(payloads: seq<seq<byte>>, prefix: seq<byte>, suffix: seq<byte>)
      returns (r: Result<seq<byte>, BuildError>)
    ensures r.Success? <==> GoodPieces(PiecesOf(payloads), EAC3_PERIOD)
    ensures r.Success? ==> r.value == prefix + Frames(PiecesOf(payloads), EAC3_PERIOD) + suffix
  {
    var out := prefix;
    for k := 0 to |payloads|
      invariant GoodPieces(PiecesOf(payloads)[..k], EAC3_PERIOD)
      invariant out == prefix + Frames(PiecesOf(payloads)[..k], EAC3_PERIOD)
    {
      var payload := payloads[k];
      var piece := PiecesOf(payloads)[k];
      assert GoodPayload(payload, EAC3_PERIOD) <==>
          |payload| % 2 == 0 && StartsWithSyncword(payload) && 8 + |payload| <= EAC3_PERIOD;
      if |payload| % 2 != 0 {
        return Result.Failure(OddLength);
      }
      if !StartsWithSyncword(payload) {
        return Result.Failure(MissingSyncword);
      }
      if |payload| >= 0x1_0000 {
        return Result.Failure(LengthNotPackable);
      }
      var preamble, framed := Preamble(TYPE_EAC3, |payload|), Swap16(payload);
      if |preamble| + |framed| > EAC3_PERIOD {
        return Result.Failure(TooLarge);
      }
      FramesSnoc(PiecesOf(payloads)[..k], piece, EAC3_PERIOD);
      assert PiecesOf(payloads)[..k + 1] == PiecesOf(payloads)[..k] + [piece];
      ghost var before := out;
      out := out + preamble;
      out := out + framed;
      out := out + Zeros(EAC3_PERIOD - |preamble| - |framed|);
      assert out == before + PieceFrame(piece, EAC3_PERIOD);
    }
    assert PiecesOf(payloads)[..|payloads|] == PiecesOf(payloads);
    r := Success(out + suffix);
  }

  lemma {:induction false} FramesSnoc(pieces: seq<Piece>, p: Piece, period: nat)
    requires GoodPieces(pieces, period) && GoodPayload(p.payload, period)
    ensures GoodPieces(pieces + [p], period)
    ensures Frames(pieces + [p], period) == Frames(pieces, period) + PieceFrame(p, period)
  {
    if pieces != [] {
      FramesSnoc(pieces[1..], p, period);
      assert (pieces + [p])[1..] == pieces[1..] + [p];
    } else {
      assert (pieces + [p])[1..] == [];
    }
  }

  function ConcatAll(payloads: seq<seq<byte>>): seq<byte> {
    if payloads == [] then [] else payloads[0] + ConcatAll(payloads[1..])
  }

  lemma {:induction false} PayloadsOfPieces(payloads: seq<seq<byte>>)
    ensures Payloads(PiecesOf(payloads)) == ConcatAll(payloads)
  {
    if payloads != [] {
      assert PiecesOf(payloads)[1..] == PiecesOf(payloads[1..]);
      PayloadsOfPieces(payloads[1..]);
    }
  }

  lemma BuiltIsCapture(payloads: seq<seq<byte>>, prefix: nat, suffix: nat, cfg: Config)
    requires payloads != [] && GoodPieces(PiecesOf(payloads), EAC3_PERIOD)
    requires cfg.period == EAC3_PERIOD && cfg.allowZeros
    requires cfg.expectedBursts in {None, Some(|payloads|)} && MetadataFailures(cfg.metadata) == []
    requires cfg.expectedPayload in {None, Some(ConcatAll(payloads))}
    ensures IsCapture(Zeros(prefix) + Frames(PiecesOf(payloads), EAC3_PERIOD) + Zeros(suffix), cfg,
                      prefix, PiecesOf(payloads), suffix)
  {
    hide Frames, GoodPieces, MetadataFailures;
    PayloadsOfPieces(payloads);
  }

  /** Round trip: zeros, built bursts, zeros pass the gate and give back exactly the payloads. */
  lemma BuiltCapturePasses(payloads: seq<seq<byte>>, prefix: nat, suffix: nat, cfg: Config)
    requires payloads != [] && GoodPieces(PiecesOf(payloads), EAC3_PERIOD)
    requires cfg.period == EAC3_PERIOD && cfg.allowZeros
    requires cfg.expectedBursts in {None, Some(|payloads|)} && MetadataFailures(cfg.metadata) == []
    requires cfg.expectedPayload in {None, Some(ConcatAll(payloads))}
    ensures Passes(Zeros(prefix) + Frames(PiecesOf(payloads), EAC3_PERIOD) + Zeros(suffix), cfg, ConcatAll(payloads))
  {
    hide Frames, GoodPieces, MetadataFailures, Passes, ConcatAll, IsCapture;
    PayloadsOfPieces(payloads);
    var pieces := PiecesOf(payloads);
    var data := Zeros(prefix) + Frames(pieces, EAC3_PERIOD) + Zeros(suffix);
    assert IsCapture(data, cfg, prefix, pieces, suffix) by {
      BuiltIsCapture(payloads, prefix, suffix, cfg);
    }
    CapturePasses(data, cfg, prefix, pieces, suffix);
  }
}
