/** The two-entry audio DMA device as a state machine over register accesses and period events. */
module AudioDmaModel {
  import opened Bytes

  const RAM_START := 0x1000_0000
  const RAM_END := 0x2000_0000
  const FRAME_BYTES := 48       // twelve four-byte channels
  const SLOT_BYTES := 64        // the same frame in sixteen TDM slots
  const PERIOD_FRAMES := 240
  const DEPTH := 2

  datatype Status = Idle | Run | Fault

  datatype Register = CTRL | STATUS | SOURCE | LENGTH | RATE | CHANNELS | PERIOD | SUBMIT | DONE | IRQ | ERROR

  /** Byte offsets of the eleven registers, four apart from zero. */
  function RegisterAt(offset: nat): Option<Register> {
    match offset
    case 0 => Some(CTRL)
    case 4 => Some(STATUS)
    case 8 => Some(SOURCE)
    case 12 => Some(LENGTH)
    case 16 => Some(RATE)
    case 20 => Some(CHANNELS)
    case 24 => Some(PERIOD)
    case 28 => Some(SUBMIT)
    case 32 => Some(DONE)
    case 36 => Some(IRQ)
    case 40 => Some(ERROR)
    case _ => None
  }

  /** CTRL is 1 exactly while running and SUBMIT always reads zero, so neither is stored apart. */
  datatype Registers = Registers(status: Status, source: nat, length: nat, rate: nat, channels: nat, period: nat,
                                 done: nat, periodIrq: bool, faultIrq: bool, error: nat)

  datatype Descriptor = Descriptor(source: nat, length: nat)

  /** What became of a submitted descriptor: played with this content, or discarded. */
  datatype Fate = Played(d: Descriptor, content: seq<byte>) | Discarded(d: Descriptor)

  datatype State = State(
    r: Registers, pending: seq<Descriptor>, frames: nat,
    pcm: seq<byte>, tdm: seq<byte>,                        // everything consumed since reset
    lastTdm: seq<byte>, lane0: seq<byte>, lane1: seq<byte>,
    sinkMuted: bool,
    events: nat,                                           // period events posted and not yet fired
    submitted: seq<Descriptor>, fates: seq<Fate>)          // history since reset

  // --- Lanes and slots ---------------------------------------------------------------------------

  /** Slots 0-7: the first eight channels of every frame. */
  function Lane0Of(pcm: seq<byte>): seq<byte> {
    if |pcm| < FRAME_BYTES then [] else pcm[..32] + Lane0Of(pcm[FRAME_BYTES..])
  }

  /** Slots 8-15: the other four channels, then silence. */
  function Lane1Of(pcm: seq<byte>): seq<byte> {
    if |pcm| < FRAME_BYTES then [] else pcm[32..48] + Zeros(16) + Lane1Of(pcm[FRAME_BYTES..])
  }

  function Weave(lane0: seq<byte>, lane1: seq<byte>): seq<byte>
    decreases |lane0|
  {
    if |lane0| < 32 || |lane1| < 32 then [] else lane0[..32] + lane1[..32] + Weave(lane0[32..], lane1[32..])
  }

  /** The sixteen-slot wire frames of whole twelve-channel frames: each frame, then four silent slots. */
  function TdmOf(pcm: seq<byte>): seq<byte> {
    if |pcm| < FRAME_BYTES then [] else pcm[..FRAME_BYTES] + Zeros(16) + TdmOf(pcm[FRAME_BYTES..])
  }

  /** Drop the four silent slots of every wire frame. */
  function PcmOf(tdm: seq<byte>): seq<byte> {
    if |tdm| < SLOT_BYTES then [] else tdm[..FRAME_BYTES] + PcmOf(tdm[SLOT_BYTES..])
  }

  predicate WholeFrames(pcm: seq<byte>) {
    |pcm| % FRAME_BYTES == 0
  }

  /** Weaving the two lanes gives the wire frames. */
  lemma {:induction false} LanesWeave(pcm: seq<byte>)
    ensures Weave(Lane0Of(pcm), Lane1Of(pcm)) == TdmOf(pcm)
  {
    if |pcm| >= FRAME_BYTES {
      var rest := pcm[FRAME_BYTES..];
      LanesWeave(rest);
      var a, b := Lane0Of(pcm), Lane1Of(pcm);
      assert a[..32] == pcm[..32] && a[32..] == Lane0Of(rest);
      assert b[..32] == pcm[32..48] + Zeros(16) && b[32..] == Lane1Of(rest);
      assert pcm[..32] + (pcm[32..48] + Zeros(16)) == pcm[..48] + Zeros(16);
    }
  }

  /** The wire loses nothing: the consumed PCM comes back from the wire frames. */
  lemma {:induction false} WireRoundTrip(pcm: seq<byte>)
    requires WholeFrames(pcm)
    ensures PcmOf(TdmOf(pcm)) == pcm
  {
    if |pcm| >= FRAME_BYTES {
      var rest := pcm[FRAME_BYTES..];
      WireRoundTrip(rest);
      var t := TdmOf(pcm);
      assert t[..FRAME_BYTES] == pcm[..FRAME_BYTES];
      assert t[SLOT_BYTES..] == TdmOf(rest);
    }
  }

  lemma {:induction false} TdmOfConcat(a: seq<byte>, b: seq<byte>)
    requires WholeFrames(a)
    ensures TdmOf(a + b) == TdmOf(a) + TdmOf(b)
  {
    if a == [] {
      assert a + b == b;
    } else {
      TdmOfConcat(a[FRAME_BYTES..], b);
      assert (a + b)[FRAME_BYTES..] == a[FRAME_BYTES..] + b;
      assert (a + b)[..FRAME_BYTES] == a[..FRAME_BYTES];
    }
  }

  // --- Steps ----------------------------------------------------------------------------------------

  function Initial(): State {
    State(Registers(Idle, RAM_START, 11520, 48_000, 12, PERIOD_FRAMES, 0, false, false, 0),
          [], 0, [], [], [], [], [], true, 0, [], [])
  }

  /** The pending descriptors, given up. */
  function GivenUp(pending: seq<Descriptor>): (f: seq<Fate>)
    ensures |f| == |pending|
  {
    seq(|pending|, i requires 0 <= i < |pending| => Discarded(pending[i]))
  }

  /** Cancel the event, discard the queue, and send silence. */
  function Silence(s: State): State {
    s.(pending := [], events := 0, fates := s.fates + GivenUp(s.pending), sinkMuted := true,
       lastTdm := Zeros(240 * 64), lane0 := Zeros(240 * 32), lane1 := Zeros(240 * 32))
  }

  /** Latch a fault. */
  function Fail(s: State, code: nat): State {
    var q := Silence(s);
    q.(r := q.r.(status := Fault, error := code, faultIrq := true))
  }

  function WriteControl(s: State, value: nat): State {
    if value == 0 then
      var q := Silence(s);
      q.(r := q.r.(status := Idle))
    else if value == 1 && s.r.status != Run then
      if (s.r.rate, s.r.channels, s.r.period) != (48_000, 12, PERIOD_FRAMES) then Fail(s, 1)
      else s.(r := s.r.(status := Run), events := s.events + 1)
    else Fail(s, 2)
  }

  function WriteSubmit(s: State, value: nat): State {
    if value != 1 || s.r.length != s.r.period * FRAME_BYTES then Fail(s, 3)
    else if s.r.source % 4 != 0 || s.r.source < RAM_START || s.r.source + s.r.length > RAM_END then Fail(s, 4)
    else if |s.pending| == DEPTH then Fail(s, 5)
    else
      var d := Descriptor(s.r.source, s.r.length);
      s.(pending := s.pending + [d], submitted := s.submitted + [d])
  }

  function Write(s: State, register: Register, value: nat): State {
    if register == CTRL && value == 2 then Initial()
    else if s.r.status == Fault then s
    else
      match register
      case IRQ =>
        s.(r := s.r.(periodIrq := s.r.periodIrq && value % 2 == 0, faultIrq := s.r.faultIrq && value / 2 % 2 == 0))
      case CTRL => WriteControl(s, value)
      case SUBMIT => WriteSubmit(s, value)
      case SOURCE => s.(r := s.r.(source := value))
      case LENGTH => s.(r := s.r.(length := value))
      case RATE => if s.r.status == Run then Fail(s, 6) else s.(r := s.r.(rate := value))
      case CHANNELS => if s.r.status == Run then Fail(s, 6) else s.(r := s.r.(channels := value))
      case PERIOD => if s.r.status == Run then Fail(s, 6) else s.(r := s.r.(period := value))
      case _ => Fail(s, 7)
  }

  /** The device's view of memory when an event fires: bytes, or a failing bus. */
  datatype Memory = Bus(at: nat -> byte) | Broken

  function Fetch(at: nat -> byte, d: Descriptor): (pcm: seq<byte>)
    ensures |pcm| == d.length
  {
    seq(d.length, i requires 0 <= i < d.length => at(d.source + i))
  }

  /** Exponent bits all ones: an infinity or a NaN, little-endian. */
  predicate NotFinite(pcm: seq<byte>, k: nat)
    requires 4 * k + 4 <= |pcm|
  {
    pcm[4 * k + 3] % 128 == 127 && pcm[4 * k + 2] >= 128
  }

  predicate AllFinite(pcm: seq<byte>) {
    forall k :: 0 <= k < |pcm| / 4 ==> !NotFinite(pcm, k)
  }

  function Play(s: State, d: Descriptor, pcm: seq<byte>): State {
    s.(lane0 := Lane0Of(pcm), lane1 := Lane1Of(pcm), lastTdm := TdmOf(pcm), sinkMuted := false,
       pcm := s.pcm + pcm, tdm := s.tdm + TdmOf(pcm), frames := s.frames + s.r.period,
       r := s.r.(done := s.r.done + 1, periodIrq := true), fates := s.fates + [Played(d, pcm)], events := s.events + 1)
  }

  /** The oldest descriptor leaves the queue without being played. */
  function Lose(s: State, code: nat): State
    requires s.pending != []
  {
    Fail(s.(pending := s.pending[1..], fates := s.fates + [Discarded(s.pending[0])]), code)
  }

  function Tick(s: State, memory: Memory): State {
    if s.r.status != Run then s
    else if s.pending == [] then Fail(s, 8)
    else if memory.Broken? then Lose(s, 9)
    else
      var d := s.pending[0];
      var pcm := Fetch(memory.at, d);
      if !AllFinite(pcm) then Lose(s, 10) else Play(s.(pending := s.pending[1..]), d, pcm)
  }

  /** One step of the environment: a bus access of any size and place, or the clock. */
  datatype Op = Access(size: nat, offset: nat, write: Option<nat>) | Clock(memory: Memory)

  function Step(s: State, op: Op): State {
    match op
    case Access(size, offset, write) =>
      if size != 4 || RegisterAt(offset).None? then Fail(s, 7)
      else if write.None? then s
      else Write(s, RegisterAt(offset).value, write.value)
    case Clock(memory) =>
      if s.events == 0 then s else Tick(s.(events := s.events - 1), memory)
  }

  function Steps(s: State, ops: seq<Op>): State {
    if ops == [] then s else Step(Steps(s, ops[..|ops| - 1]), ops[|ops| - 1])
  }

  // --- What every run keeps ---------------------------------------------------------------------------

  function DescriptorsOf(fates: seq<Fate>): (ds: seq<Descriptor>)
    ensures |ds| == |fates|
  {
    seq(|fates|, i requires 0 <= i < |fates| => fates[i].d)
  }

  /** The content of the played descriptors, one after another. */
  function ContentOf(fates: seq<Fate>): seq<byte> {
    if fates == [] then []
    else
      var last := fates[|fates| - 1];
      ContentOf(fates[..|fates| - 1]) + (if last.Played? then last.content else [])
  }

  function PlayedCount(fates: seq<Fate>): nat {
    if fates == [] then 0 else PlayedCount(fates[..|fates| - 1]) + (if fates[|fates| - 1].Played? then 1 else 0)
  }

  /** Every played descriptor was played in full. */
  predicate Complete(fates: seq<Fate>) {
    forall i :: 0 <= i < |fates| && fates[i].Played? ==> |fates[i].content| == fates[i].d.length
  }

  predicate InRam(d: Descriptor) {
    d.source % 4 == 0 && RAM_START <= d.source && d.source + d.length <= RAM_END && d.length % FRAME_BYTES == 0
  }

  predicate Silent(s: State) {
    s.sinkMuted && s.lastTdm == Zeros(240 * 64) && s.lane0 == Zeros(240 * 32) && s.lane1 == Zeros(240 * 32)
  }

  /** History: every submitted descriptor has been played or discarded, in order, or still waits;
      the consumed PCM is the content of the played ones, and the wire carried exactly that. */
  predicate History(s: State) {
    && s.submitted == DescriptorsOf(s.fates) + s.pending
    && s.pcm == ContentOf(s.fates) && WholeFrames(s.pcm) && s.tdm == TdmOf(s.pcm)
    && s.r.done == PlayedCount(s.fates) && Complete(s.fates)
    && forall i :: 0 <= i < |s.pending| ==> InRam(s.pending[i])
  }

  /** Control: one event is outstanding exactly while running, running means 48 kHz, twelve channels
      and 240-frame periods, and a fault is silent with an empty queue. */
  predicate Control(s: State) {
    && |s.pending| <= DEPTH
    && s.events == (if s.r.status == Run then 1 else 0)
    && (s.r.status == Run ==> s.r.rate == 48_000 && s.r.channels == 12 && s.r.period == PERIOD_FRAMES)
    && s.frames == PERIOD_FRAMES * s.r.done
    && (s.r.status == Fault ==> s.pending == [] && Silent(s) && s.r.error != 0)
  }

  predicate Inv(s: State) {
    History(s) && Control(s)
  }

  lemma {:induction false} FatesGrow(a: seq<Fate>, b: seq<Descriptor>)
    ensures ContentOf(a + GivenUp(b)) == ContentOf(a) && PlayedCount(a + GivenUp(b)) == PlayedCount(a)
    ensures DescriptorsOf(a + GivenUp(b)) == DescriptorsOf(a) + b
  {
    if b == [] {
      assert a + GivenUp(b) == a;
    } else {
      var n := |b| - 1;
      FatesGrow(a, b[..n]);
      assert a + GivenUp(b) == (a + GivenUp(b[..n])) + [Discarded(b[n])];
    }
  }

  lemma SilenceKeepsHistory(s: State)
    requires History(s)
    ensures History(Silence(s))
  {
    hide ContentOf, PlayedCount, TdmOf;
    FatesGrow(s.fates, s.pending);
  }

  lemma LoseKeepsHistory(s: State)
    requires History(s) && s.pending != []
    ensures History(s.(pending := s.pending[1..], fates := s.fates + [Discarded(s.pending[0])]))
  {
    hide TdmOf;
    FatesGrow(s.fates, [s.pending[0]]);
    assert GivenUp([s.pending[0]]) == [Discarded(s.pending[0])];
    assert [s.pending[0]] + s.pending[1..] == s.pending;
  }

  lemma PlayedFate(fates: seq<Fate>, d: Descriptor, pcm: seq<byte>)
    ensures DescriptorsOf(fates + [Played(d, pcm)]) == DescriptorsOf(fates) + [d]
    ensures ContentOf(fates + [Played(d, pcm)]) == ContentOf(fates) + pcm
    ensures PlayedCount(fates + [Played(d, pcm)]) == PlayedCount(fates) + 1
    ensures Complete(fates) && |pcm| == d.length ==> Complete(fates + [Played(d, pcm)])
  {
    var after := fates + [Played(d, pcm)];
    assert after[..|fates|] == fates;
  }

  lemma PlayKeepsHistory(s: State, pcm: seq<byte>)
    requires History(s) && s.pending != [] && |pcm| == s.pending[0].length
    ensures History(Play(s.(pending := s.pending[1..]), s.pending[0], pcm))
  {
    hide DescriptorsOf, ContentOf, PlayedCount, Complete, TdmOf, Lane0Of, Lane1Of;
    var d := s.pending[0];
    PlayedFate(s.fates, d, pcm);
    TdmOfConcat(s.pcm, pcm);
    assert (DescriptorsOf(s.fates) + [d]) + s.pending[1..] == DescriptorsOf(s.fates) + s.pending;
  }

  lemma FailKeepsInv(s: State, code: nat)
    requires History(s) && s.frames == PERIOD_FRAMES * s.r.done && code != 0
    ensures Inv(Fail(s, code))
  {
    hide History;
    SilenceKeepsHistory(s);
    FailHistory(s, code);
  }

  lemma FailHistory(s: State, code: nat)
    requires History(Silence(s))
    ensures History(Fail(s, code))
  {
  }

  lemma SubmitKeepsInv(s: State, value: nat)
    requires Inv(s) && s.r.status != Fault
    ensures Inv(WriteSubmit(s, value))
  {
    hide ContentOf, PlayedCount, TdmOf, Fail;
    FailKeepsInv(s, 3);
    FailKeepsInv(s, 4);
    FailKeepsInv(s, 5);
    var d := Descriptor(s.r.source, s.r.length);
    assert (DescriptorsOf(s.fates) + s.pending) + [d] == DescriptorsOf(s.fates) + (s.pending + [d]);
  }

  lemma ControlKeepsInv(s: State, value: nat)
    requires Inv(s) && s.r.status != Fault
    ensures Inv(WriteControl(s, value))
  {
    hide ContentOf, PlayedCount, TdmOf, Fail, DescriptorsOf;
    FailKeepsInv(s, 1);
    FailKeepsInv(s, 2);
    SilenceKeepsHistory(s);
  }

  lemma InitialInv()
    ensures Inv(Initial())
  {
  }

  lemma WriteKeepsInv(s: State, register: Register, value: nat)
    requires Inv(s)
    ensures Inv(Write(s, register, value))
  {
    InitialInv();
    hide ContentOf, PlayedCount, TdmOf, DescriptorsOf, Fail, WriteSubmit, WriteControl, Initial;
    if s.r.status != Fault {
      SubmitKeepsInv(s, value);
      ControlKeepsInv(s, value);
      FailKeepsInv(s, 6);
      FailKeepsInv(s, 7);
    }
  }

  /** Firing a period event keeps the invariant; when it plays, it plays the oldest descriptor with
      what memory holds at that moment. */
  lemma TickKeepsInv(s: State, memory: Memory)
    requires Inv(s) && s.events > 0
    ensures Inv(Tick(s.(events := s.events - 1), memory))
    ensures var t := Tick(s.(events := s.events - 1), memory);
            t.r.status == Run ==> memory.Bus? && s.pending != [] && t.pending == s.pending[1..]
                                  && t.pcm == s.pcm + Fetch(memory.at, s.pending[0])
  {
    hide ContentOf, PlayedCount, TdmOf, DescriptorsOf, Fail, Lane0Of, Lane1Of, AllFinite;
    var q := s.(events := s.events - 1);
    assert History(q);
    FailKeepsInv(q, 8);
    if q.pending != [] {
      LoseKeepsHistory(q);
      FailKeepsInv(q.(pending := q.pending[1..], fates := q.fates + [Discarded(q.pending[0])]), 9);
      FailKeepsInv(q.(pending := q.pending[1..], fates := q.fates + [Discarded(q.pending[0])]), 10);
      if memory.Bus? {
        PlayKeepsHistory(q, Fetch(memory.at, q.pending[0]));
      }
    }
    FailedIsFault(q);
  }

  lemma FailedIsFault(s: State)
    ensures forall c :: Fail(s, c).r.status == Fault
    ensures s.pending != [] ==> forall c :: Lose(s, c).r.status == Fault
  {
  }

  lemma StepKeepsInv(s: State, op: Op)
    requires Inv(s)
    ensures Inv(Step(s, op))
  {
    hide Inv, Fail, Write, Tick;
    if op.Access? {
      assert History(s) && s.frames == PERIOD_FRAMES * s.r.done by { InvParts(s); }
      FailKeepsInv(s, 7);
      if op.write.Some? && RegisterAt(op.offset).Some? {
        WriteKeepsInv(s, RegisterAt(op.offset).value, op.write.value);
      }
    } else if s.events > 0 {
      TickKeepsInv(s, op.memory);
    }
  }

  lemma InvParts(s: State)
    requires Inv(s)
    ensures History(s) && Control(s) && s.frames == PERIOD_FRAMES * s.r.done
  {
  }

  /** Every run from reset, with any accesses and any memory contents, keeps the invariant. */
  lemma {:induction false} RunKeepsInv(ops: seq<Op>)
    ensures Inv(Steps(Initial(), ops))
  {
    hide Inv, Step, Initial;
    if ops == [] {
      InitialInv();
    } else {
      RunKeepsInv(ops[..|ops| - 1]);
      StepKeepsInv(Steps(Initial(), ops[..|ops| - 1]), ops[|ops| - 1]);
    }
  }

  predicate IsReset(op: Op) {
    op == Access(4, 0, Some(2))
  }

  predicate Latched(s: State) {
    Inv(s) && s.r.status == Fault && Silent(s) && s.pending == []
  }

  lemma FaultStays(s: State, op: Op)
    requires Inv(s) && s.r.status == Fault && !IsReset(op)
    ensures var t := Step(s, op); Latched(t) && t.pcm == s.pcm && t.submitted == s.submitted
  {
    hide History, Fetch, AllFinite;
    StepKeepsInv(s, op);
    if op.Access? && RegisterAt(op.offset) == Some(CTRL) {
      RegisterIsUnique(0, op.offset);
    }
  }

  /** A fault is latched: until CTRL is written 2 nothing is queued, nothing more is consumed and
      the output stays silent, whatever the bus and the clock do. */
  lemma {:induction false} FaultIsLatched(s: State, ops: seq<Op>)
    requires Inv(s) && s.r.status == Fault && forall i :: 0 <= i < |ops| ==> !IsReset(ops[i])
    ensures var t := Steps(s, ops);
            && Inv(t) && t.r.status == Fault && Silent(t) && t.pending == []
            && t.pcm == s.pcm && t.submitted == s.submitted
  {
    hide History, Step, IsReset;
    if ops != [] {
      var n := |ops| - 1;
      FaultIsLatched(s, ops[..n]);
      FaultStays(Steps(s, ops[..n]), ops[n]);
    }
  }

  lemma RegisterIsUnique(a: nat, b: nat)
    requires RegisterAt(a).Some? && RegisterAt(a) == RegisterAt(b)
    ensures a == b
  {
  }

  // --- What was submitted and what was heard, over whole runs ---------------------------------------

  /** This access queues a descriptor. */
  predicate Submits(s: State, op: Op) {
    && op == Access(4, 28, Some(1)) && s.r.status != Fault
    && s.r.length == s.r.period * FRAME_BYTES && |s.pending| != DEPTH
    && s.r.source % 4 == 0 && RAM_START <= s.r.source && s.r.source + s.r.length <= RAM_END
  }

  /** This event plays the oldest descriptor. */
  predicate Plays(s: State, op: Op) {
    && op.Clock? && s.events > 0 && s.r.status == Run && s.pending != []
    && op.memory.Bus? && AllFinite(Fetch(op.memory.at, s.pending[0]))
  }

  /** A descriptor played with what memory held when its event fired. */
  datatype Reading = Reading(d: Descriptor, at: nat -> byte)

  /** The descriptors queued by the run since its last reset, in submit order. */
  function Submissions(ops: seq<Op>): seq<Descriptor> {
    if ops == [] then []
    else
      var n := |ops| - 1;
      var s := Steps(Initial(), ops[..n]);
      if IsReset(ops[n]) then []
      else if Submits(s, ops[n]) then Submissions(ops[..n]) + [Descriptor(s.r.source, s.r.length)]
      else Submissions(ops[..n])
  }

  /** The playing events of the run since its last reset. */
  function Readings(ops: seq<Op>): seq<Reading> {
    if ops == [] then []
    else
      var n := |ops| - 1;
      var s := Steps(Initial(), ops[..n]);
      if IsReset(ops[n]) then []
      else if Plays(s, ops[n]) then Readings(ops[..n]) + [Reading(s.pending[0], ops[n].memory.at)]
      else Readings(ops[..n])
  }

  /** What these events fetched from memory, one after another. */
  function Heard(readings: seq<Reading>): seq<byte> {
    if readings == [] then []
    else
      var last := readings[|readings| - 1];
      Heard(readings[..|readings| - 1]) + Fetch(last.at, last.d)
  }

  /** The descriptors of the played fates, in order. */
  function PlayedOf(fates: seq<Fate>): seq<Descriptor> {
    if fates == [] then []
    else
      var last := fates[|fates| - 1];
      PlayedOf(fates[..|fates| - 1]) + (if last.Played? then [last.d] else [])
  }

  function ReadingDescriptors(readings: seq<Reading>): (ds: seq<Descriptor>)
    ensures |ds| == |readings|
  {
    seq(|readings|, i requires 0 <= i < |readings| => readings[i].d)
  }

  /** How one step moves the histories. */
  predicate Moves(s: State, op: Op, t: State) {
    if IsReset(op) then t == Initial()
    else
      && t.submitted == s.submitted + (if Submits(s, op) then [Descriptor(s.r.source, s.r.length)] else [])
      && PlayedOf(t.fates) == PlayedOf(s.fates) + (if Plays(s, op) then [s.pending[0]] else [])
      && t.pcm == s.pcm + (if Plays(s, op) then Fetch(op.memory.at, s.pending[0]) else [])
      && t.frames == s.frames + (if Plays(s, op) then s.r.period else 0)
  }

  lemma {:induction false} GivenUpPlaysNothing(a: seq<Fate>, b: seq<Descriptor>)
    ensures PlayedOf(a + GivenUp(b)) == PlayedOf(a)
  {
    if b == [] {
      assert a + GivenUp(b) == a;
    } else {
      var n := |b| - 1;
      GivenUpPlaysNothing(a, b[..n]);
      assert a + GivenUp(b) == (a + GivenUp(b[..n])) + [Discarded(b[n])];
    }
  }

  /** A fault or a stop changes no history but that of the descriptors it gives up. */
  predicate SameHistory(s: State, t: State) {
    t.submitted == s.submitted && PlayedOf(t.fates) == PlayedOf(s.fates) && t.pcm == s.pcm && t.frames == s.frames
  }

  lemma FailKeepsHeard(s: State, code: nat)
    ensures SameHistory(s, Silence(s)) && SameHistory(s, Fail(s, code))
  {
    hide PlayedOf;
    GivenUpPlaysNothing(s.fates, s.pending);
  }

  lemma LoseKeepsHeard(s: State, code: nat)
    requires s.pending != []
    ensures SameHistory(s, Lose(s, code))
  {
    hide PlayedOf, Fail;
    var q := s.(pending := s.pending[1..], fates := s.fates + [Discarded(s.pending[0])]);
    GivenUpPlaysNothing(s.fates, [s.pending[0]]);
    assert GivenUp([s.pending[0]]) == [Discarded(s.pending[0])];
    FailKeepsHeard(q, code);
  }

  lemma ControlMoves(s: State, value: nat)
    ensures SameHistory(s, WriteControl(s, value))
  {
    hide PlayedOf, Fail, Silence;
    FailKeepsHeard(s, 1);
    FailKeepsHeard(s, 2);
  }

  lemma SubmitMoves(s: State, value: nat)
    requires s.r.status != Fault
    ensures var t := WriteSubmit(s, value);
            if Submits(s, Access(4, 28, Some(value)))
            then t == s.(pending := t.pending, submitted := s.submitted + [Descriptor(s.r.source, s.r.length)])
            else SameHistory(s, t)
  {
    hide PlayedOf, Fail;
    FailKeepsHeard(s, 3);
    FailKeepsHeard(s, 4);
    FailKeepsHeard(s, 5);
  }

  /** Every other register leaves the histories alone. */
  lemma SettingMoves(s: State, register: Register, value: nat)
    requires s.r.status != Fault && register != CTRL && register != SUBMIT
    ensures SameHistory(s, Write(s, register, value))
  {
    hide PlayedOf, Fail;
    FailKeepsHeard(s, 6);
    FailKeepsHeard(s, 7);
  }

  lemma WriteMoves(s: State, register: Register, value: nat)
    requires !(register == CTRL && value == 2)
    ensures var t := Write(s, register, value);
            if register == SUBMIT && Submits(s, Access(4, 28, Some(value)))
            then t == s.(pending := t.pending, submitted := s.submitted + [Descriptor(s.r.source, s.r.length)])
            else SameHistory(s, t)
  {
    hide PlayedOf, WriteControl, WriteSubmit;
    if s.r.status == Fault {
    } else if register == CTRL {
      ControlMoves(s, value);
    } else if register == SUBMIT {
      SubmitMoves(s, value);
    } else {
      SettingMoves(s, register, value);
    }
  }

  lemma PlayMoves(s: State, d: Descriptor, pcm: seq<byte>)
    ensures PlayedOf(Play(s, d, pcm).fates) == PlayedOf(s.fates) + [d]
  {
    var fates := s.fates + [Played(d, pcm)];
    assert fates[..|s.fates|] == s.fates;
  }

  lemma ClockMoves(s: State, memory: Memory)
    ensures Moves(s, Clock(memory), Step(s, Clock(memory)))
  {
    hide PlayedOf, Fail, Silence, AllFinite, Lose, TdmOf, Lane0Of, Lane1Of;
    var q := s.(events := if s.events == 0 then 0 else s.events - 1);
    FailKeepsHeard(q, 8);
    if q.pending != [] {
      LoseKeepsHeard(q, 9);
      LoseKeepsHeard(q, 10);
      if memory.Bus? {
        PlayMoves(q.(pending := q.pending[1..]), q.pending[0], Fetch(memory.at, q.pending[0]));
      }
    }
  }

  lemma StepMoves(s: State, op: Op)
    ensures Moves(s, op, Step(s, op))
  {
    match op
    case Clock(memory) => ClockMoves(s, memory);
    case Access(size, offset, write) =>
      hide PlayedOf, Fail, Write, Initial;
      FailKeepsHeard(s, 7);
      if size == 4 && write.Some? && RegisterAt(offset).Some? {
        if !IsReset(op) {
          NotResetByName(offset, write.value);
          WriteMoves(s, RegisterAt(offset).value, write.value);
        } else {
          ResetWrite(s);
        }
      }
  }

  lemma ResetWrite(s: State)
    ensures Write(s, CTRL, 2) == Initial()
  {
  }

  lemma NotResetByName(offset: nat, value: nat)
    requires RegisterAt(offset).Some? && !IsReset(Access(4, offset, Some(value)))
    ensures !(RegisterAt(offset) == Some(CTRL) && value == 2)
    ensures RegisterAt(offset) == Some(SUBMIT) <==> offset == 28
  {
  }

  lemma ReadingAppends(readings: seq<Reading>, t: Reading)
    ensures Heard(readings + [t]) == Heard(readings) + Fetch(t.at, t.d)
    ensures ReadingDescriptors(readings + [t]) == ReadingDescriptors(readings) + [t.d]
  {
    assert (readings + [t])[..|readings|] == readings;
  }

  /** Over any run: the descriptors the device knows are those accepted by SUBMIT since the last reset;
      those it has played are those of the playing events; and the PCM it consumed is, in that order,
      what memory held at each of these events for the whole of its descriptor. With the invariant,
      which puts played, discarded and waiting descriptors in submit order, this is the device's
      contract. */
  lemma {:induction false} RunPlaysMemory(ops: seq<Op>)
    ensures var s := Steps(Initial(), ops);
            && s.submitted == Submissions(ops) && PlayedOf(s.fates) == ReadingDescriptors(Readings(ops))
            && s.pcm == Heard(Readings(ops))
            && Submissions(ops) == DescriptorsOf(s.fates) + s.pending
  {
    hide Step, Submits, Plays, History, Control;
    var s := Steps(Initial(), ops);
    RunKeepsInv(ops);
    if ops != [] {
      var n := |ops| - 1;
      RunPlaysMemory(ops[..n]);
      var q := Steps(Initial(), ops[..n]);
      StepMoves(q, ops[n]);
      if Plays(q, ops[n]) {
        TickOf(q, ops[n]);
        ReadingAppends(Readings(ops[..n]), Reading(q.pending[0], ops[n].memory.at));
      }
    }
    HistoryOrder(s);
  }

  lemma TickOf(s: State, op: Op)
    requires Plays(s, op)
    ensures s.pending != [] && op.Clock? && op.memory.Bus?
  {
  }

  lemma HistoryOrder(s: State)
    requires Inv(s)
    ensures s.submitted == DescriptorsOf(s.fates) + s.pending
  {
  }

  // --- Frames and bytes --------------------------------------------------------------------------------

  predicate FullLength(d: Descriptor) {
    d.length == PERIOD_FRAMES * FRAME_BYTES
  }

  /** As many bytes consumed as frames counted. */
  predicate Matched(s: State) {
    |s.pcm| == FRAME_BYTES * s.frames
  }

  /** PERIOD reads 240 at every accepted SUBMIT of the run. */
  predicate SubmitsFullPeriods(ops: seq<Op>) {
    forall k :: 0 <= k < |ops| ==>
      var s := Steps(Initial(), ops[..k]); Submits(s, ops[k]) ==> s.r.period == PERIOD_FRAMES
  }

  /** Every event of the run that plays, plays a descriptor of 240 frames. */
  predicate PlaysFullPeriods(ops: seq<Op>) {
    forall k :: 0 <= k < |ops| ==>
      var s := Steps(Initial(), ops[..k]); Plays(s, ops[k]) ==> FullLength(s.pending[0])
  }

  predicate AllFullLength(ds: seq<Descriptor>) {
    forall i :: 0 <= i < |ds| ==> FullLength(ds[i])
  }

  /** With PERIOD at 240 whenever a descriptor is accepted, all of them have 240 frames. */
  lemma {:induction false} FullSubmissions(ops: seq<Op>)
    requires SubmitsFullPeriods(ops)
    ensures AllFullLength(Submissions(ops))
  {
    hide Steps;
    if ops != [] {
      var n := |ops| - 1;
      PrefixesSubmitFull(ops, n);
      FullSubmissions(ops[..n]);
      assert Submits(Steps(Initial(), ops[..n]), ops[n]) ==> Steps(Initial(), ops[..n]).r.period == PERIOD_FRAMES;
    }
  }

  lemma PrefixesSubmitFull(ops: seq<Op>, n: nat)
    requires SubmitsFullPeriods(ops) && n <= |ops|
    ensures SubmitsFullPeriods(ops[..n])
  {
    hide Steps, Submits;
    forall k | 0 <= k < n
      ensures var s := Steps(Initial(), ops[..n][..k]); Submits(s, ops[..n][k]) ==> s.r.period == PERIOD_FRAMES
    {
      assert ops[..n][..k] == ops[..k];
    }
  }

  lemma FullSubmissionsPlayFull(ops: seq<Op>)
    requires SubmitsFullPeriods(ops)
    ensures PlaysFullPeriods(ops)
  {
    hide Steps, Submits;
    forall k | 0 <= k < |ops| && Plays(Steps(Initial(), ops[..k]), ops[k])
      ensures FullLength(Steps(Initial(), ops[..k]).pending[0])
    {
      var s := Steps(Initial(), ops[..k]);
      PrefixesSubmitFull(ops, k);
      FullSubmissions(ops[..k]);
      RunPlaysMemory(ops[..k]);
      assert Submissions(ops[..k])[|DescriptorsOf(s.fates)|] == s.pending[0];
    }
  }

  /** A played descriptor adds 48 bytes for every counted frame exactly if it was 240 frames long.
      The length is only compared with PERIOD when it is submitted, and PERIOD may change before
      the device runs. */
  lemma PlayedBytesMatchFrames(s: State, memory: Memory)
    requires Inv(s) && s.events > 0
    ensures var t := Tick(s.(events := s.events - 1), memory);
            t.r.status == Run ==>
              (|t.pcm| - |s.pcm| == FRAME_BYTES * (t.frames - s.frames) <==> FullLength(s.pending[0]))
  {
    TickKeepsInv(s, memory);
    FailedIsFault(s.(events := s.events - 1));
    hide Fail, Inv, History, TdmOf;
    assert Control(s) by { InvParts(s); }
    var t := Tick(s.(events := s.events - 1), memory);
    assert t.r.status == Run ==> t.frames == s.frames + PERIOD_FRAMES;
  }

  /** One step from a matched state stays matched exactly if it plays nothing or 240 frames. */
  lemma StepMatches(s: State, op: Op)
    requires Inv(s) && Matched(s)
    ensures Matched(Step(s, op)) <==> (Plays(s, op) ==> FullLength(s.pending[0]))
  {
    StepMoves(s, op);
    hide Step, AllFinite, PlayedOf, History;
    if Plays(s, op) {
      assert s.r.period == PERIOD_FRAMES;
    }
  }

  /** Counted frames and consumed bytes agree in every state of a run if and only if every event that
      plays, plays a descriptor of 240 frames. */
  lemma {:induction false} FramesMatchBytes(ops: seq<Op>)
    ensures MatchedThroughout(ops) <==> PlaysFullPeriods(ops)
  {
    hide Step, Plays, FullLength, Inv, Matched;
    if ops == [] {
      StartsMatched();
    } else {
      var n := |ops| - 1;
      FramesMatchBytes(ops[..n]);
      MatchedSnoc(ops);
      PlaysSnoc(ops);
      if MatchedThroughout(ops[..n]) {
        assert Matched(Steps(Initial(), ops[..n])) by { assert ops[..n][..n] == ops[..n]; }
        RunKeepsInv(ops[..n]);
        StepMatches(Steps(Initial(), ops[..n]), ops[n]);
      }
    }
  }

  predicate MatchedThroughout(ops: seq<Op>) {
    forall n :: 0 <= n <= |ops| ==> Matched(Steps(Initial(), ops[..n]))
  }

  lemma StartsMatched()
    ensures MatchedThroughout([]) && PlaysFullPeriods([])
  {
    var none: seq<Op> := [];
    assert none[..0] == none;
  }

  lemma MatchedSnoc(ops: seq<Op>)
    requires ops != []
    ensures MatchedThroughout(ops) <==> MatchedThroughout(ops[..|ops| - 1]) && Matched(Steps(Initial(), ops))
  {
    hide Steps, Matched;
    var n := |ops| - 1;
    assert ops[..|ops|] == ops;
    assert forall k :: 0 <= k <= n ==> ops[..n][..k] == ops[..k];
  }

  lemma PlaysSnoc(ops: seq<Op>)
    requires ops != []
    ensures var s := Steps(Initial(), ops[..|ops| - 1]);
            PlaysFullPeriods(ops) <==>
            PlaysFullPeriods(ops[..|ops| - 1]) && (Plays(s, ops[|ops| - 1]) ==> FullLength(s.pending[0]))
  {
    hide Steps, FullLength, AllFinite;
    var n := |ops| - 1;
    assert forall k :: 0 <= k <= n ==> ops[..n][..k] == ops[..k];
  }

  /** The guard a driver can check: with PERIOD at 240 whenever it submits, consumed bytes and counted
      frames agree in every state. */
  lemma FullPeriodsMatch(ops: seq<Op>)
    requires SubmitsFullPeriods(ops)
    ensures Matched(Steps(Initial(), ops))
  {
    FullSubmissionsPlayFull(ops);
    FramesMatchBytes(ops);
    assert ops[..|ops|] == ops;
    hide Steps, PlaysFullPeriods, SubmitsFullPeriods;
  }

  function ShortPeriodSetup(): seq<Op> {
    [Access(4, 24, Some(1)), Access(4, 12, Some(48)), Access(4, 28, Some(1)), Access(4, 24, Some(PERIOD_FRAMES)),
     Access(4, 0, Some(1))]
  }

  /** Running with a one-frame descriptor queued. */
  function ShortPeriodState(): State {
    var i := Initial();
    i.(r := i.r.(status := Run, length := 48), pending := [Descriptor(RAM_START, 48)],
       submitted := [Descriptor(RAM_START, 48)], events := 1)
  }

  lemma ShortPeriodRuns()
    ensures Steps(Initial(), ShortPeriodSetup()) == ShortPeriodState()
  {
    hide TdmOf, Lane0Of, Lane1Of, Fail, Steps;
    var ops := ShortPeriodSetup();
    var i := Initial();
    var s2 := i.(r := i.r.(period := 1, length := 48));
    assert Step(Step(i, ops[0]), ops[1]) == s2;
    var s3 := s2.(pending := [Descriptor(RAM_START, 48)], submitted := [Descriptor(RAM_START, 48)]);
    assert Step(s2, ops[2]) == s3;
    assert Step(Step(s3, ops[3]), ops[4]) == ShortPeriodState();
    assert Steps(i, ops[..0]) == i by { StepsNothing(i, ops); }
    StepsNext(i, ops, 0);
    StepsNext(i, ops, 1);
    StepsNext(i, ops, 2);
    StepsNext(i, ops, 3);
    StepsNext(i, ops, 4);
    assert ops[..5] == ops;
  }

  /** A run in which 240 frames are counted but only one frame of bytes is consumed. */
  lemma ShortPeriodIsCountedInFull(at: nat -> byte)
    requires forall a :: at(a) == 0
    ensures var t := Steps(Initial(), ShortPeriodSetup() + [Clock(Bus(at))]);
            t.frames == PERIOD_FRAMES && |t.pcm| == FRAME_BYTES
  {
    hide TdmOf, Lane0Of, Lane1Of, ShortPeriodSetup;
    ShortPeriodRuns();
    var ops := ShortPeriodSetup() + [Clock(Bus(at))];
    var n := |ShortPeriodSetup()|;
    StepsNext(Initial(), ops, n);
    assert ops[..n] == ShortPeriodSetup() && ops[..n + 1] == ops;
    assert AllFinite(Fetch(at, Descriptor(RAM_START, 48)));
  }

  lemma StepsNothing(s: State, ops: seq<Op>)
    ensures Steps(s, ops[..0]) == s
  {
  }

  lemma StepsNext(s: State, ops: seq<Op>, n: nat)
    requires n < |ops|
    ensures Steps(s, ops[..n + 1]) == Step(Steps(s, ops[..n]), ops[n])
  {
    assert ops[..n + 1][..n] == ops[..n];
  }
}
