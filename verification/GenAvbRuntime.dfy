/** The six-talker GenAVB runtime: AVDECC session gate, fanout and talkers under one lifecycle. */
module GenAvbRuntime {
  import opened Bytes
  import opened Fanout
  import opened GenAvbSession
  import opened Transports

  const BLOCK_FRAMES: u64 := 48

  datatype RuntimeLifecycle = Loaded | ControlOpen | Prepared | Started

  // --- The start gate as a state machine ----------------------------------------------------------

  /** What decides whether audio may flow: the lifecycle and the connected streams. */
  datatype Gate = Gate(lifecycle: RuntimeLifecycle, slots: Slots)

  /** One call, with the outcome of the native and talker calls it makes. */
  datatype Op =
    | OpenControl(answered: bool)
    | Receive(event: Option<Event>)    // None: no event waiting, or the native call failed
    | PrepareComplete(latency: u32, accepted: bool)
    | StartAll(accepted: bool)
    | SubmitBlock(accepted: bool)
    | StopStreams
    | ResetDataPlane
    | CloseControl(closed: bool)

  /** An event the session refuses, and every disconnect, falls back to the open control channel. */
  function Received(expected: seq<ExpectedStream>, g: Gate, event: Event): (h: Gate)
    requires |g.slots| == STREAMS
    ensures |h.slots| == STREAMS
  {
    var applied := Apply(expected, g.slots, event);
    if applied.Failure? then Gate(ControlOpen, Empty)
    else Gate(if event.kind == Disconnect then ControlOpen else g.lifecycle, applied.value)
  }

  function Step(expected: seq<ExpectedStream>, g: Gate, op: Op): (h: Gate)
    requires |g.slots| == STREAMS
    ensures |h.slots| == STREAMS
  {
    match op
    case OpenControl(answered) =>
      if (g.lifecycle == Loaded || g.lifecycle == ControlOpen) && answered then g.(lifecycle := ControlOpen) else g
    case Receive(event) =>
      if g.lifecycle == Loaded || event.None? then g else Received(expected, g, event.value)
    case PrepareComplete(latency, accepted) =>
      if g.lifecycle == ControlOpen && Full(g.slots) && latency > 0 && accepted then g.(lifecycle := Prepared) else g
    case StartAll(accepted) =>
      if g.lifecycle == Prepared then g.(lifecycle := if accepted then Started else ControlOpen) else g
    case SubmitBlock(accepted) =>
      if g.lifecycle == Started && !accepted then g.(lifecycle := ControlOpen) else g
    case StopStreams =>
      if g.lifecycle == Started then g.(lifecycle := Prepared) else g
    case ResetDataPlane =>
      if g.lifecycle == Loaded then g else g.(lifecycle := ControlOpen)
    case CloseControl(closed) =>
      if g.lifecycle == Loaded then g else Gate(if closed then Loaded else g.lifecycle, Empty)
  }

  /** Prepared or started only with all six speaker pairs connected. */
  predicate Guarded(g: Gate) {
    g.lifecycle == Prepared || g.lifecycle == Started ==> Full(g.slots)
  }

  /** A native close fails while streams are prepared or started. */
  predicate FailedClose(g: Gate, op: Op) {
    op == CloseControl(false) && (g.lifecycle == Prepared || g.lifecycle == Started)
  }

  /** A connect accepted by a full session does not exist, so only a disconnect can open a gap. */
  lemma FullTakesNoConnect(expected: seq<ExpectedStream>, slots: Slots, e: Event)
    requires |slots| == STREAMS && Full(slots) && e.kind == Connect
    ensures Apply(expected, slots, e).Failure?
  {
    hide RoleFor, Clash;
  }

  lemma EmptyIsNotFull()
    ensures |Empty| == STREAMS && !Full(Empty)
  {
    assert Empty[0].None?;
  }

  lemma OpenIsGuarded(slots: Slots)
    ensures Guarded(Gate(ControlOpen, slots))
  {
  }

  lemma EventKeepsGuard(expected: seq<ExpectedStream>, g: Gate, event: Event)
    requires |g.slots| == STREAMS
    ensures Guarded(g) ==> Guarded(Received(expected, g, event))
  {
    hide Apply;
    if event.kind == Connect && Full(g.slots) {
      FullTakesNoConnect(expected, g.slots, event);
    }
  }

  /** One call keeps the gate guarded exactly unless it is a failed close. */
  lemma StepKeepsGuard(expected: seq<ExpectedStream>, g: Gate, op: Op)
    requires |g.slots| == STREAMS && Guarded(g)
    ensures Guarded(Step(expected, g, op)) <==> !FailedClose(g, op)
  {
    hide Received;
    assert Empty[0].None?;
    if op.Receive? && op.event.Some? {
      EventKeepsGuard(expected, g, op.event.value);
    }
  }

  /** Where a run ends. */
  function End(expected: seq<ExpectedStream>, g: Gate, ops: seq<Op>): (h: Gate)
    requires |g.slots| == STREAMS
    ensures |h.slots| == STREAMS
    decreases |ops|
  {
    if ops == [] then g else End(expected, Step(expected, g, ops[0]), ops[1..])
  }

  lemma {:induction false} EndSplit(expected: seq<ExpectedStream>, g: Gate, a: seq<Op>, b: seq<Op>)
    requires |g.slots| == STREAMS
    ensures End(expected, g, a + b) == End(expected, End(expected, g, a), b)
    decreases |a|
  {
    hide Step;
    if a == [] {
      assert a + b == b;
    } else {
      EndSplit(expected, Step(expected, g, a[0]), a[1..], b);
      assert (a + b)[1..] == a[1..] + b;
    }
  }

  lemma EndLast(expected: seq<ExpectedStream>, g: Gate, ops: seq<Op>, op: Op)
    requires |g.slots| == STREAMS
    ensures End(expected, g, ops + [op]) == Step(expected, End(expected, g, ops), op)
  {
    hide Step;
    EndSplit(expected, g, ops, [op]);
    assert [op][1..] == [];
  }

  /** The states a run passes through, the initial one included. */
  function States(expected: seq<ExpectedStream>, g: Gate, ops: seq<Op>): (s: seq<Gate>)
    requires |g.slots| == STREAMS
    ensures |s| == |ops| + 1 && s[0] == g && s[|ops|] == End(expected, g, ops)
    ensures forall k :: 0 <= k < |s| ==> |s[k].slots| == STREAMS
    ensures forall k :: 0 <= k < |ops| ==> s[k + 1] == Step(expected, s[k], ops[k])
    decreases |ops|
  {
    if ops == [] then [g]
    else
      var rest := States(expected, Step(expected, g, ops[0]), ops[1..]);
      [g] + rest
  }

  /** Over any run from load: every state is guarded if and only if no close ever failed while
      streams were prepared or started. */
  lemma {:induction false} RunIsGuarded(expected: seq<ExpectedStream>, g: Gate, ops: seq<Op>)
    requires |g.slots| == STREAMS && Guarded(g)
    ensures var s := States(expected, g, ops);
            (forall k :: 0 <= k < |s| ==> Guarded(s[k])) <==>
            (forall k :: 0 <= k < |ops| ==> !FailedClose(s[k], ops[k]))
  {
    hide Step;
    var s := States(expected, g, ops);
    if forall k :: 0 <= k < |ops| ==> !FailedClose(s[k], ops[k]) {
      for n := 0 to |ops|
        invariant forall k :: 0 <= k <= n ==> Guarded(s[k])
      {
        StepKeepsGuard(expected, s[n], ops[n]);
      }
    } else {
      var k :| 0 <= k < |ops| && FailedClose(s[k], ops[k]);
      if Guarded(s[k]) {
        StepKeepsGuard(expected, s[k], ops[k]);
        assert !Guarded(s[k + 1]);
      }
    }
  }

  function Receipts(events: seq<Event>): (ops: seq<Op>)
    ensures |ops| == |events|
  {
    seq(|events|, i requires 0 <= i < |events| => Receive(Some(events[i])))
  }

  lemma {:induction false} ReceiptsApply(expected: seq<ExpectedStream>, slots: Slots, events: seq<Event>)
    requires |slots| == STREAMS && ApplyAll(expected, slots, events).Success?
    requires forall i :: 0 <= i < |events| ==> events[i].kind == Connect
    ensures End(expected, Gate(ControlOpen, slots), Receipts(events))
            == Gate(ControlOpen, ApplyAll(expected, slots, events).value)
  {
    hide Apply;
    if events != [] {
      var n := |events| - 1;
      ReceiptsApply(expected, slots, events[..n]);
      assert Receipts(events) == Receipts(events[..n]) + [Receive(Some(events[n]))];
      EndLast(expected, Gate(ControlOpen, slots), Receipts(events[..n]), Receive(Some(events[n])));
    }
  }

  /** Six good connects in any order, then prepare and start, bring all six streams up. */
  lemma SixConnectsStart(expected: seq<ExpectedStream>, events: seq<Event>, latency: u32)
    requires ValidMapping(expected) && GoodConnects(expected, events) && |events| == STREAMS && latency > 0
    ensures var ops := Receipts(events) + [PrepareComplete(latency, true), StartAll(true)];
            var g := End(expected, Gate(ControlOpen, Empty), ops);
            g.lifecycle == Started && Full(g.slots) && Sound(expected, g.slots)
  {
    ConnectsComplete(expected, events);
    hide ApplyAll, Apply, Sound;
    ReceiptsApply(expected, Empty, events);
    PrepareThenStart(expected, Gate(ControlOpen, Empty), Receipts(events), latency);
  }

  lemma PrepareThenStart(expected: seq<ExpectedStream>, g: Gate, ops: seq<Op>, latency: u32)
    requires |g.slots| == STREAMS && latency > 0
    requires var h := End(expected, g, ops); h.lifecycle == ControlOpen && Full(h.slots)
    ensures End(expected, g, ops + [PrepareComplete(latency, true), StartAll(true)])
            == Gate(Started, End(expected, g, ops).slots)
  {
    hide Full, Received, End;
    var prepare, start := PrepareComplete(latency, true), StartAll(true);
    EndLast(expected, g, ops, prepare);
    EndLast(expected, g, ops + [prepare], start);
    assert ops + [prepare, start] == ops + [prepare] + [start];
  }

  const SampleMapping: seq<ExpectedStream> :=
    [ExpectedStream(Front, 0), ExpectedStream(CenterLfe, 1), ExpectedStream(Surround, 2),
     ExpectedStream(BackSurround, 3), ExpectedStream(TopFront, 4), ExpectedStream(TopRear, 5)]

  function SampleConnects(): (events: seq<Event>)
    ensures |events| == STREAMS
  {
    seq(STREAMS, i requires 0 <= i < STREAMS => Event(Connect, i, Identity(i + 1, i + 1, 0, 1), 48_000, 2, 24))
  }

  lemma SampleConnectsAreGood()
    ensures ValidMapping(SampleMapping) && GoodConnects(SampleMapping, SampleConnects())
  {
    hide RoleFor;
    forall i | 0 <= i < STREAMS ensures RoleFor(SampleMapping, i).Some? {
      assert SampleMapping[i].streamIndex == i;
    }
  }

  /** The guard is not unconditional: connect six streams, start, fail to close, and the runtime
      is still started with no stream connected. */
  lemma FailedCloseLeavesStarted()
    ensures var ops := Receipts(SampleConnects()) + [PrepareComplete(480, true), StartAll(true)]
                       + [CloseControl(false)];
            End(SampleMapping, Gate(ControlOpen, Empty), ops) == Gate(Started, Empty)
            && !Guarded(Gate(Started, Empty))
  {
    hide *;
    EmptyIsNotFull();
    SampleConnectsAreGood();
    SixConnectsStart(SampleMapping, SampleConnects(), 480);
    var ops := Receipts(SampleConnects()) + [PrepareComplete(480, true), StartAll(true)];
    FailedCloseForgets(SampleMapping, Gate(ControlOpen, Empty), ops);
  }

  /** A close that fails while started keeps the lifecycle and loses the session. */
  lemma FailedCloseForgets(expected: seq<ExpectedStream>, g: Gate, ops: seq<Op>)
    requires |g.slots| == STREAMS && End(expected, g, ops).lifecycle == Started
    ensures End(expected, g, ops + [CloseControl(false)]) == Gate(Started, Empty)
    ensures !Guarded(Gate(Started, Empty))
  {
    hide Full, Received, End;
    EndLast(expected, g, ops, CloseControl(false));
    EmptyIsNotFull();
  }

  // --- Canonical order of the plan ------------------------------------------------------------------

  const ROLES := ["FL", "FR", "FC", "LFE", "SL", "SR", "SBL", "SBR", "TFL", "TFR", "TRL", "TRR"]

  const CANONICAL_PAIRS := [("FL", "FR"), ("FC", "LFE"), ("SL", "SR"), ("SBL", "SBR"), ("TFL", "TFR"), ("TRL", "TRR")]

  /** Endpoint `e` carries channels `2e` and `2e + 1`. */
  predicate CanonicalOrder(plan: seq<EndpointSpec>) {
    forall e :: 0 <= e < |plan| ==> plan[e].left == 2 * e && plan[e].right == 2 * e + 1
  }

  lemma RolesAreDistinct(i: nat, j: nat)
    requires i < CHANNELS && j < CHANNELS && ROLES[i] == ROLES[j]
    ensures i == j
  {
    assert |ROLES[0]| == 2 && |ROLES[1]| == 2 && |ROLES[2]| == 2;
    assert |ROLES[3]| == 3 && |ROLES[4]| == 2 && |ROLES[5]| == 2;
    assert |ROLES[6]| == 3 && |ROLES[7]| == 3 && |ROLES[8]| == 3;
    assert |ROLES[9]| == 3 && |ROLES[10]| == 3 && |ROLES[11]| == 3;
    assert ROLES[i][0] == ROLES[j][0] && ROLES[i][1] == ROLES[j][1];
    if |ROLES[i]| == 3 {
      assert ROLES[i][2] == ROLES[j][2];
    }
  }

  /** The error names the first endpoint without its canonical pair of channels. */
  predicate FirstOutOfOrder(plan: seq<EndpointSpec>, error: LoadError)
    requires |plan| == ENDPOINTS
  {
    && error.NonCanonicalFanout? && error.endpoint < ENDPOINTS
    && (forall i :: 0 <= i < error.endpoint ==> plan[i].left == 2 * i && plan[i].right == 2 * i + 1)
    && !(plan[error.endpoint].left == 2 * error.endpoint && plan[error.endpoint].right == 2 * error.endpoint + 1)
  }

  /** The names of the pair match the canonical pair exactly when the channels do. */
  method ValidateFanoutOrder(plan: seq<EndpointSpec>) returns (r: Option<LoadError>)
    requires |plan| == ENDPOINTS
    ensures r.None? <==> ValidPlan(plan) && CanonicalOrder(plan)
    ensures !ValidPlan(plan) ==> r == Some(FanoutError(InvalidPlan))
    ensures ValidPlan(plan) && r.Some? ==> FirstOutOfOrder(plan, r.value)
  {
    var ok := Validate(plan);
    if !ok {
      return Some(FanoutError(InvalidPlan));
    }
    PlanInRange(plan);
    hide ValidPlan;
    for e := 0 to ENDPOINTS
      invariant forall i :: 0 <= i < e ==> plan[i].left == 2 * i && plan[i].right == 2 * i + 1
    {
      assert CANONICAL_PAIRS[e] == (ROLES[2 * e], ROLES[2 * e + 1]);
      if (ROLES[plan[e].left], ROLES[plan[e].right]) != CANONICAL_PAIRS[e] {
        return Some(NonCanonicalFanout(e));
      }
      RolesAreDistinct(plan[e].left, 2 * e);
      RolesAreDistinct(plan[e].right, 2 * e + 1);
    }
    r := None;
  }

  datatype LoadError =
    | InvalidBlockFrames(frames: u64) | FanoutError(cause: Fanout.FanoutError) | NonCanonicalFanout(endpoint: nat)
    | SessionFailed(error: SessionError)

  datatype RuntimeError =
    | InvalidLifecycle(expected: RuntimeLifecycle, actual: RuntimeLifecycle) | InvalidTiming | Control
    | BadSession(error: SessionError) | BadFanout(cause: Fanout.FanoutError) | Endpoint(endpoint: nat)

  // --- The runtime ------------------------------------------------------------------------------------

  class SixStreamGenAvbRuntime {
    const session: Session
    const fanout: PreparedFanout
    const talkers: seq<Transport>
    var lifecycle: RuntimeLifecycle
    ghost var base: seq<nat>    // how much each talker had accepted when the epoch started
    ghost var intact: bool      // no close has failed since the data plane was last prepared

    /** The abstract gate of this runtime. */
    ghost function View(): Gate
      reads this, session
    {
      Gate(lifecycle, session.connected)
    }

    /** The session side: unless a close failed, prepared or started means all six are connected. */
    ghost predicate Gated()
      reads this, session
    {
      && session.Valid()
      && (lifecycle == Loaded || lifecycle == ControlOpen ==> intact)
      && (intact ==> Guarded(View()))
    }

    /** The data plane: while started the six talkers are in lockstep with the fanout, otherwise its
        timeline is clear; unless a close failed, all six were prepared and run exactly while started. */
    ghost predicate Plane()
      reads this, fanout, talkers
    {
      && Fitted() && FullBlocks(fanout.accepted, fanout.frames)
      && (lifecycle == Started ==> InStep(talkers, base, fanout))
      && (lifecycle != Started ==> fanout.accepted == [])
      && (intact && (lifecycle == Prepared || lifecycle == Started) ==> AllReady(Logs(talkers)))
      && (intact && lifecycle == Prepared ==> NoneRunning(Logs(talkers)))
      && (intact && lifecycle == Started ==> AllRunning(Logs(talkers)))
    }

    /** Six talkers behind a canonical 48-frame fanout. */
    ghost predicate Fitted()
      reads this, fanout
    {
      && Six(talkers) && |base| == ENDPOINTS
      && fanout.Valid() && fanout.frames == BLOCK_FRAMES && CanonicalOrder(fanout.plan)
    }

    ghost predicate Valid()
      reads this, session, fanout, talkers
    {
      Gated() && Plane()
    }

    /** The talker an error reports, if it reports one. */
    static function Reported(error: Option<RuntimeError>): Option<nat> {
      match error
      case Some(Endpoint(k)) => Some(k)
      case _ => None
    }

    /** Every talker was stopped and reset once more, none runs, and the timeline is clear. */
    twostate predicate Aborted()
      requires |talkers| == ENDPOINTS
      reads this, fanout, talkers
    {
      fanout.accepted == [] && HaltedOnce(old(Logs(talkers)), Logs(talkers))
    }

    constructor (session: Session, fanout: PreparedFanout, talkers: seq<Transport>)
      requires session.Valid() && Six(talkers) && fanout.Valid() && fanout.accepted == []
      requires fanout.frames == BLOCK_FRAMES && CanonicalOrder(fanout.plan)
      ensures Valid() && lifecycle == Loaded
      ensures this.session == session && this.fanout == fanout && this.talkers == talkers
    {
      this.session, this.fanout, this.talkers := session, fanout, talkers;
      lifecycle := Loaded;
      base, intact := seq(ENDPOINTS, i => 0), true;
    }

    /** Only 48-frame blocks, the canonical pair order and a complete mapping load. */
    static method Load(expected: seq<ExpectedStream>, plan: seq<EndpointSpec>, frames: u64, talkers: seq<Transport>)
        returns (r: Result<SixStreamGenAvbRuntime, LoadError>)
      requires |expected| == STREAMS && |plan| == ENDPOINTS && Six(talkers)
      ensures r.Success? <==>
              frames == BLOCK_FRAMES && ValidPlan(plan) && CanonicalOrder(plan) && ValidMapping(expected)
      ensures r.Success? ==>
                && r.value.Valid() && r.value.View() == Gate(Loaded, Empty) && r.value.session.expected == expected
                && r.value.talkers == talkers && r.value.fanout.plan == plan
      ensures r.Failure? ==>
                if frames != BLOCK_FRAMES then r.error == InvalidBlockFrames(frames)
                else if !ValidPlan(plan) then r.error == FanoutError(InvalidPlan)
                else if !CanonicalOrder(plan) then FirstOutOfOrder(plan, r.error)
                else r.error.SessionFailed? && FirstRepetition(expected, r.error.error)
    {
      if frames != BLOCK_FRAMES {
        return Failure(InvalidBlockFrames(frames));
      }
      var order := ValidateFanoutOrder(plan);
      if order.Some? {
        return Failure(order.value);
      }
      hide ValidPlan, CanonicalOrder, ValidMapping, FirstOutOfOrder, FirstRepetition;
      var session := Session.Create(expected);
      if session.Failure? {
        return Failure(SessionFailed(session.error));
      }
      var fanout := PreparedFanout.Prepare(plan, frames);
      assert fanout.Success?;    // plan and frame count were just checked
      var runtime := new SixStreamGenAvbRuntime(session.value, fanout.value, talkers);
      r := Success(runtime);
    }

    method AbortDataPlane()
      requires Six(talkers) && fanout.Valid()
      modifies fanout, talkers
      ensures fanout.Valid() && Aborted()
      ensures AllHalted(old(Logs(talkers)), Logs(talkers))
    {
      hide ValidPlan, Contiguous, PreparedFanout.ExpectsAfter;
      ghost var was := Logs(talkers);
      var _ := StopAll(talkers);
      HaltingMeans(was, Logs(talkers));
      fanout.Reset();
    }

    /** Take the data plane down and fall back to the open control channel. */
    method TearDown()
      requires Fitted()
      modifies this`lifecycle, this`intact, fanout, talkers
      ensures Plane() && lifecycle == ControlOpen && intact && Aborted()
      ensures AllHalted(old(Logs(talkers)), Logs(talkers))
    {
      hide ValidPlan, InStep, CanonicalOrder, PreparedFanout.Timeline;
      AbortDataPlane();
      NoBlocksAreFull(fanout.frames);
      lifecycle, intact := ControlOpen, true;
    }

    method Open() returns (error: Option<RuntimeError>, ghost answered: bool)
      requires Valid()
      modifies this
      ensures Valid() && View() == Step(session.expected, old(View()), OpenControl(answered))
      ensures error == if old(lifecycle) != Loaded && old(lifecycle) != ControlOpen
                       then Some(InvalidLifecycle(Loaded, old(lifecycle)))
                       else if answered then None else Some(Control)
    {
      hide ValidPlan, InStep, Apply, Sound, CanonicalOrder;
      answered := false;
      if lifecycle != Loaded && lifecycle != ControlOpen {
        return Some(InvalidLifecycle(Loaded, lifecycle)), answered;
      }
      var ok: bool := *;
      answered := ok;
      if !ok {
        return Some(Control), answered;
      }
      lifecycle := ControlOpen;
      error := None;
    }

    /** Consume one AVDECC indication. A refused event or a disconnect takes the data plane down. */
    method ReceiveControl(indication: Result<Option<Event>, ()>) returns (r: Result<Option<Update>, RuntimeError>)
      requires Valid()
      modifies this, session, fanout, talkers
      ensures Valid() && (old(intact) ==> intact)
      ensures View() == Step(session.expected, old(View()),
                             Receive(if indication.Success? then indication.value else None))
      ensures old(lifecycle) != Loaded && indication.Success? && indication.value.Some? ==>
                (r.Failure? || indication.value.value.kind == Disconnect ==> lifecycle == ControlOpen && Aborted())
      ensures old(lifecycle) == Loaded ==> r == Failure(InvalidLifecycle(ControlOpen, Loaded))
      ensures old(lifecycle) != Loaded && indication.Failure? ==> r == Failure(Control)
      ensures old(lifecycle) != Loaded && indication.Success? && indication.value.None? ==> r == Success(None)
      ensures old(lifecycle) != Loaded && indication.Success? && indication.value.Some? ==>
                r == Answer(session.expected, old(session.connected), indication.value.value)
      ensures r.Failure? && r.error.BadSession? ==> session.connected == Empty
      ensures old(lifecycle) == Loaded || indication.Failure? || indication.value.None? ==>
                unchanged(this) && unchanged(session) && unchanged(fanout) && unchanged(talkers)
      ensures r.Success? && indication.Success? && indication.value.Some? && indication.value.value.kind == Connect ==>
                unchanged(this) && unchanged(fanout) && unchanged(talkers)
    {
      assert |talkers| == ENDPOINTS && |session.connected| == STREAMS;
      hide Plane, Gated, Received;
      if lifecycle == Loaded {
        return Failure(InvalidLifecycle(ControlOpen, lifecycle));
      }
      if indication.Failure? {
        return Failure(Control);
      }
      if indication.value.None? {
        return Success(None);
      }
      var update := TakeEvent(indication.value.value);
      r := if update.Success? then Success(Some(update.value)) else Failure(BadSession(update.error));
    }

    /** What an event is answered: the update the session made of it, or why it refused. */
    static function Answer(expected: seq<ExpectedStream>, slots: Slots, event: Event):
        Result<Option<Update>, RuntimeError>
      requires |slots| == STREAMS
    {
      match Apply(expected, slots, event)
      case Failure(error) => Failure(BadSession(error))
      case Success(after) => Success(Some(UpdateOf(expected, event, after)))
    }

    method TakeEvent(event: Event) returns (r: Result<Update, SessionError>)
      requires Valid() && lifecycle != Loaded
      modifies this, session, fanout, talkers
      ensures Valid() && (old(intact) ==> intact)
      ensures View() == Received(session.expected, old(View()), event)
      ensures r.Failure? || event.kind == Disconnect ==> lifecycle == ControlOpen && Aborted()
      ensures r.Failure? ==> session.connected == Empty
      ensures r.Success? && event.kind == Connect ==> unchanged(this) && unchanged(fanout) && unchanged(talkers)
      ensures Answer(session.expected, old(session.connected), event)
              == if r.Success? then Success(Some(r.value)) else Failure(BadSession(r.error))
    {
      assert |talkers| == ENDPOINTS && |session.connected| == STREAMS;
      hide Plane, Sound, Apply, Full, RoleFor;
      EventKeepsGuard(session.expected, View(), event);
      hide *;
      r := session.ApplyEvent(event);
      Settle(r.Failure?, event.kind == Disconnect);
    }

    /** What follows an event: a refused one and a disconnect take the data plane down. */
    method Settle(refused: bool, disconnected: bool)
      requires Plane() && session.Valid() && (lifecycle == Loaded || lifecycle == ControlOpen ==> intact)
      requires !refused && !disconnected && intact ==> Guarded(View())
      modifies this`lifecycle, this`intact, session, fanout, talkers
      ensures Valid() && (old(intact) ==> intact)
      ensures lifecycle == (if refused || disconnected then ControlOpen else old(lifecycle))
      ensures session.connected == (if refused then Empty else old(session.connected))
      ensures refused || disconnected ==> Aborted()
      ensures !refused && !disconnected ==> unchanged(this) && unchanged(fanout) && unchanged(talkers)
    {
      hide Plane, Sound, Full, RoleFor, Guarded;
      if refused {
        ForgetSession();
      } else if disconnected {
        FallBack();
      }
    }

    /** After a disconnect: the data plane comes down and the rest of the session stays. */
    method FallBack()
      requires Plane() && session.Valid()
      modifies this`lifecycle, this`intact, fanout, talkers
      ensures Valid() && intact && Aborted() && View() == Gate(ControlOpen, session.connected)
    {
      assert Fitted();
      OpenIsGuarded(session.connected);
      hide Plane, Fitted, Guarded, Full, RoleFor, Sound;
      TearDown();
    }

    /** After a refused event: the data plane comes down and the session is emptied. */
    method ForgetSession()
      requires Plane() && session.Valid()
      modifies this`lifecycle, this`intact, session, fanout, talkers
      ensures Valid() && intact && Aborted() && View() == Gate(ControlOpen, Empty)
    {
      assert Fitted();
      OpenIsGuarded(Empty);
      hide Plane, Fitted, Guarded, Full, RoleFor, Sound;
      TearDown();
      session.Reset();
    }

    /** Prepare all six talkers, only from a complete session. A refusal at talker `k` aborts the data
        plane; talkers above `k` were not prepared. */
    method Prepare(latency: u32) returns (error: Option<RuntimeError>)
      requires Valid()
      modifies this, fanout, talkers
      ensures Valid() && View() == Step(session.expected, old(View()), PrepareComplete(latency, error.None?))
      ensures error.Some? && error.value.InvalidLifecycle? <==> old(lifecycle) != ControlOpen
      ensures old(lifecycle) != ControlOpen ==> error == Some(InvalidLifecycle(ControlOpen, old(lifecycle)))
      ensures error.Some? && error.value.BadSession? <==> old(lifecycle) == ControlOpen && !Full(session.connected)
      ensures error.Some? && error.value.BadSession? ==>
                error.value.error == PartialConnectionSet(Count(session.connected))
      ensures error == Some(InvalidTiming) <==>
              old(lifecycle) == ControlOpen && Full(session.connected) && latency == 0
      ensures error.Some? ==>
                || error.value.InvalidLifecycle? || error.value.BadSession?
                || error.value.InvalidTiming? || error.value.Endpoint?
      ensures error.None? || error.value.Endpoint? ==>
                AskedOrHalted(old(Logs(talkers)), Logs(talkers), PrepareCall, Reported(error))
      ensures error.None? ==>
                lifecycle == Prepared && intact && Full(session.connected)
      ensures error.Some? && error.value.Endpoint? ==>
                lifecycle == ControlOpen && Aborted() && error.value.endpoint < ENDPOINTS
      ensures error.Some? && !error.value.Endpoint? ==> unchanged(this) && unchanged(fanout) && unchanged(talkers)
    {
      assert |talkers| == ENDPOINTS;
      hide Plane, Apply, Sound, RoleFor;
      if lifecycle != ControlOpen {
        return Some(InvalidLifecycle(ControlOpen, lifecycle));
      }
      var connected := session.RequireComplete();
      if connected.Failure? {
        return Some(BadSession(connected.error));
      }
      if latency == 0 {
        return Some(InvalidTiming);
      }
      var refused := PrepareTalkers();
      error := if refused.None? then None else Some(Endpoint(refused.value));
    }

    method PrepareTalkers() returns (refused: Option<nat>)
      requires Plane() && lifecycle == ControlOpen && intact
      modifies this`lifecycle, this`intact, fanout, talkers
      ensures Plane() && intact && AskedOrHalted(old(Logs(talkers)), Logs(talkers), PrepareCall, refused)
      ensures refused.None? ==> lifecycle == Prepared
      ensures refused.Some? ==> lifecycle == ControlOpen && Aborted() && refused.value < ENDPOINTS
    {
      hide ValidPlan, InStep, CanonicalOrder, PreparedFanout.Timeline;
      ghost var was := Logs(talkers);
      refused := PrepareEach(talkers);
      if refused.Some? {
        TearDown();
        AskingMeans(was, Logs(talkers), PrepareCall, refused);
        return;
      }
      AskingMeans(was, Logs(talkers), PrepareCall, refused);
      ClearPlane();
    }

    /** All six are ready and none runs: the plane is prepared. */
    method ClearPlane()
      requires Six(talkers) && AllReady(Logs(talkers)) && NoneRunning(Logs(talkers)) && |base| == ENDPOINTS
      requires fanout.Valid() && fanout.frames == BLOCK_FRAMES && CanonicalOrder(fanout.plan)
      modifies this`lifecycle, fanout
      ensures Plane() && lifecycle == Prepared
    {
      hide ValidPlan, InStep, CanonicalOrder, PreparedFanout.Timeline;
      fanout.Reset();
      NoBlocksAreFull(fanout.frames);
      lifecycle := Prepared;
    }

    /** Start all six talkers as one epoch. A refusal at talker `k` aborts the data plane; talkers above
        `k` were not started. */
    method Start() returns (error: Option<RuntimeError>)
      requires Valid()
      modifies this, fanout, talkers
      ensures Valid() && View() == Step(session.expected, old(View()), StartAll(error.None?))
      ensures error.Some? && error.value.InvalidLifecycle? <==> old(lifecycle) != Prepared
      ensures old(lifecycle) != Prepared ==> error == Some(InvalidLifecycle(Prepared, old(lifecycle)))
      ensures error.Some? ==> error.value.InvalidLifecycle? || error.value.Endpoint?
      ensures error.None? || error.value.Endpoint? ==>
                AskedOrHalted(old(Logs(talkers)), Logs(talkers), StartCall, Reported(error))
      ensures error.None? ==>
                && lifecycle == Started && fanout.accepted == [] && AllRunning(Logs(talkers))
                && intact == old(intact)
      ensures error.Some? && error.value.Endpoint? ==>
                lifecycle == ControlOpen && Aborted() && error.value.endpoint < ENDPOINTS
      ensures error.Some? && !error.value.Endpoint? ==> unchanged(this) && unchanged(fanout) && unchanged(talkers)
    {
      assert |talkers| == ENDPOINTS;
      hide Plane, Apply, Sound;
      if lifecycle != Prepared {
        return Some(InvalidLifecycle(Prepared, lifecycle));
      }
      var refused := StartTalkers();
      error := if refused.None? then None else Some(Endpoint(refused.value));
    }

    method StartTalkers() returns (refused: Option<nat>)
      requires Plane() && lifecycle == Prepared
      modifies this`lifecycle, this`intact, this`base, fanout, talkers
      ensures Plane() && AskedOrHalted(old(Logs(talkers)), Logs(talkers), StartCall, refused)
      ensures refused.None? ==>
                && lifecycle == Started && fanout.accepted == [] && AllRunning(Logs(talkers))
                && intact == old(intact)
      ensures refused.Some? ==> lifecycle == ControlOpen && intact && Aborted() && refused.value < ENDPOINTS
    {
      hide ValidPlan, InStep, CanonicalOrder, PreparedFanout.Timeline;
      ghost var was := Logs(talkers);
      refused := StartEach(talkers);
      if refused.Some? {
        intact := false;
        TearDown();
        AskingMeans(was, Logs(talkers), StartCall, refused);
        return;
      }
      AskingMeans(was, Logs(talkers), StartCall, refused);
      OpenEpoch();
    }

    /** All six run: the epoch begins with a clear timeline. */
    method OpenEpoch()
      requires Six(talkers) && AllRunning(Logs(talkers)) && (intact ==> AllReady(Logs(talkers)))
      requires fanout.Valid() && fanout.frames == BLOCK_FRAMES && CanonicalOrder(fanout.plan)
      modifies this`lifecycle, this`base, fanout
      ensures Plane() && lifecycle == Started && fanout.accepted == []
    {
      hide ValidPlan, InStep, CanonicalOrder, PreparedFanout.Timeline;
      fanout.Reset();
      lifecycle := Started;
      base := Marks(talkers);
      FreshEpochIsInStep(talkers, base, fanout);
    }

    /** Submit one block to all six talkers. Any failure, the fanout's own included, aborts the
        epoch; after a refusal at talker `k` exactly the talkers below `k` hold one more block. */
    method Submit(block: Block) returns (error: Option<RuntimeError>)
      requires Valid()
      modifies this, fanout, fanout.buffers, talkers
      ensures Valid() && View() == Step(session.expected, old(View()), SubmitBlock(error.None?))
      ensures error.None? ==>
                && old(lifecycle) == Started && lifecycle == Started
                && fanout.accepted == old(fanout.accepted) + [block]
                && intact == old(intact)
      ensures error.Some? && error.value.InvalidLifecycle? <==> old(lifecycle) != Started
      ensures old(lifecycle) != Started ==> error == Some(InvalidLifecycle(Started, old(lifecycle)))
      ensures old(lifecycle) != Started ==> unchanged(this) && unchanged(fanout) && unchanged(talkers)
      ensures old(lifecycle) == Started && (error.None? || error.value.Endpoint?) ==>
                && |block.samples| == CHANNELS * fanout.frames
                && OfferedOrHalted(old(Logs(talkers)), Logs(talkers),
                                   Shares(block, fanout.plan, fanout.frames), Reported(error))
      ensures error.Some? && old(lifecycle) == Started ==>
                && lifecycle == ControlOpen && Aborted() && (error.value.BadFanout? || error.value.Endpoint?)
      ensures old(lifecycle) == Started ==>
                (error.Some? && error.value.BadFanout? <==>
                 !(&& old(fanout.Admits(block)) && block.sequence < U64_MAX
                   && Advance(block.timestamp, fanout.frames).Some?))
      ensures error.Some? && error.value.Endpoint? ==> error.value.endpoint < ENDPOINTS
    {
      hide Apply, Sound, Plane, Shares;
      if lifecycle != Started {
        return Some(InvalidLifecycle(Started, lifecycle));
      }
      var delivery := SubmitToTalkers(block);
      error := match delivery
        case Unsplit(cause) => Some(BadFanout(cause))
        case Refused(endpoint) => Some(Endpoint(endpoint))
        case Delivered => None;
    }

    method SubmitToTalkers(block: Block) returns (d: Delivery)
      requires Plane() && lifecycle == Started
      modifies this`lifecycle, this`intact, fanout, fanout.buffers, talkers
      ensures Plane()
      ensures d.Unsplit? <==> !(&& old(fanout.Admits(block)) && block.sequence < U64_MAX
                                && Advance(block.timestamp, fanout.frames).Some?)
      ensures d.Delivered? ==>
                lifecycle == Started && intact == old(intact) && fanout.accepted == old(fanout.accepted) + [block]
      ensures !d.Delivered? ==> lifecycle == ControlOpen && intact && Aborted()
      ensures d.Refused? ==> d.endpoint < ENDPOINTS
      ensures !d.Unsplit? ==>
                && |block.samples| == CHANNELS * fanout.frames
                && OfferedOrHalted(old(Logs(talkers)), Logs(talkers),
                                   Shares(block, fanout.plan, fanout.frames), RefusedBy(d))
    {
      hide ValidPlan, Shares, InStep, CanonicalOrder, PreparedFanout.Timeline, FullBlocks;
      hide AllReady, AllRunning, NoneRunning, AllHalted, HaltedOnce, OfferedOrHalted;
      ghost var was := Logs(talkers);
      d := SplitAndDeliver(talkers, fanout, base, block);
      if !d.Delivered? {
        TearDown();
        if d.Refused? {
          SubmittingMeans(was, Logs(talkers), Shares(block, fanout.plan, fanout.frames), RefusedBy(d));
        }
      } else {
        SubmittingMeans(was, Logs(talkers), Shares(block, fanout.plan, fanout.frames), None);
      }
    }

    /** Stop all six; the prepared streams stay. The first talker that refuses is reported. */
    method Stop() returns (error: Option<RuntimeError>)
      requires Valid()
      modifies this, fanout, talkers
      ensures Valid() && View() == Step(session.expected, old(View()), StopStreams) && intact == old(intact)
      ensures error.Some? && error.value.InvalidLifecycle? <==> old(lifecycle) != Started
      ensures old(lifecycle) != Started ==> error == Some(InvalidLifecycle(Started, old(lifecycle)))
      ensures old(lifecycle) == Started ==>
                && fanout.accepted == [] && (error.Some? ==> error.value.Endpoint?)
                && AllStopped(old(Logs(talkers)), Logs(talkers))
                && FirstRefusedStop(Logs(talkers), ENDPOINTS, Reported(error))
    {
      assert |talkers| == ENDPOINTS;
      hide Plane, Sound, Apply, Full;
      if lifecycle != Started {
        return Some(InvalidLifecycle(Started, lifecycle));
      }
      var refused := StopTalkers();
      error := if refused.None? then None else Some(Endpoint(refused.value));
    }

    method StopTalkers() returns (refused: Option<nat>)
      requires Plane() && lifecycle == Started
      modifies this`lifecycle, fanout, talkers
      ensures Plane() && lifecycle == Prepared && fanout.accepted == []
      ensures AllStopped(old(Logs(talkers)), Logs(talkers)) && FirstRefusedStop(Logs(talkers), ENDPOINTS, refused)
    {
      hide ValidPlan, InStep, CanonicalOrder, PreparedFanout.Timeline, AllReady, AllRunning, NoneRunning;
      hide AllStopped, FirstRefusedStop;
      ghost var was := Logs(talkers);
      refused := StopEach(talkers);
      StoppingMeans(was, Logs(talkers));
      fanout.Reset();
      NoBlocksAreFull(fanout.frames);
      lifecycle := Prepared;
    }

    method DropDataPlane()
      requires Valid()
      modifies this, fanout, talkers
      ensures Valid() && Aborted() && View() == Step(session.expected, old(View()), ResetDataPlane)
      ensures old(intact) ==> intact
    {
      hide ValidPlan, InStep, Sound, CanonicalOrder, Apply, PreparedFanout.Timeline;
      AbortDataPlane();
      NoBlocksAreFull(fanout.frames);
      if lifecycle != Loaded {
        lifecycle, intact := ControlOpen, true;
      }
    }

    /** Take the data plane down and empty the session, before the native close is tried. */
    method CloseTalkers()
      requires Plane() && session.Valid()
      modifies this`base, this`intact, session, fanout, talkers
      ensures Plane() && Aborted() && intact == (old(intact) && lifecycle == ControlOpen)
      ensures session.Valid() && session.connected == Empty
    {
      hide ValidPlan, InStep, CanonicalOrder, PreparedFanout.Timeline;
      intact := intact && lifecycle == ControlOpen;
      AbortDataPlane();
      hide *;
      ForgetEpoch();
      session.Reset();
    }

    /** None runs and the timeline is clear: an epoch without blocks, whatever the lifecycle says. */
    ghost method ForgetEpoch()
      requires Six(talkers) && fanout.accepted == [] && (intact ==> lifecycle == ControlOpen)
      requires fanout.Valid() && fanout.frames == BLOCK_FRAMES && CanonicalOrder(fanout.plan)
      modifies this`base
      ensures Plane()
    {
      hide ValidPlan, InStep, CanonicalOrder, PreparedFanout.Timeline;
      base := Marks(talkers);
      FreshEpochIsInStep(talkers, base, fanout);
    }

    /** Close the control channel. The session is already empty when the native close is tried: a
        failed close from prepared or started keeps that lifecycle without a session, and with
        talkers that all were stopped. */
    method Close() returns (error: Option<RuntimeError>)
      requires Valid()
      modifies this, session, fanout, talkers
      ensures Valid() && View() == Step(session.expected, old(View()), CloseControl(error.None?))
      ensures old(lifecycle) != Loaded ==> Aborted() && session.connected == Empty
      ensures old(lifecycle) == Loaded ==> error == None
      ensures error.Some? ==> error == Some(Control)
      ensures old(intact) ==> (intact <==> !FailedClose(old(View()), CloseControl(error.None?)))
    {
      assert |talkers| == ENDPOINTS;
      hide Plane, Sound, Apply;
      if lifecycle == Loaded {
        return None;
      }
      CloseTalkers();
      EmptyIsNotFull();
      hide *;
      var closed: bool := *;
      if !closed {
        return Some(Control);
      }
      lifecycle, intact := Loaded, true;
      error := None;
    }
  }

  lemma PrefixIsGood(expected: seq<ExpectedStream>, events: seq<Event>, k: nat)
    requires GoodConnects(expected, events) && k <= |events|
    ensures GoodConnects(expected, events[..k])
  {
    hide RoleFor;
  }

  /** After one more good connect the session holds one more stream. */
  lemma OneMoreConnect(expected: seq<ExpectedStream>, events: seq<Event>, k: nat)
    requires ValidMapping(expected) && GoodConnects(expected, events) && k < |events|
    ensures ApplyAll(expected, Empty, events[..k]).Success? && ApplyAll(expected, Empty, events[..k + 1]).Success?
    ensures var slots := ApplyAll(expected, Empty, events[..k]).value;
            Apply(expected, slots, events[k]) == ApplyAll(expected, Empty, events[..k + 1])
  {
    hide Apply, GoodConnects;
    PrefixIsGood(expected, events, k);
    PrefixIsGood(expected, events, k + 1);
    ConnectsComplete(expected, events[..k]);
    ConnectsComplete(expected, events[..k + 1]);
    assert events[..k + 1][..k] == events[..k];
  }

  lemma NothingApplied(expected: seq<ExpectedStream>)
    ensures ApplyAll(expected, Empty, []) == Success(Empty)
  {
  }

  /** Receive good connects one after the other. */
  method ConnectAll(runtime: SixStreamGenAvbRuntime, events: seq<Event>)
    requires runtime.Valid() && runtime.View() == Gate(ControlOpen, Empty)
    requires GoodConnects(runtime.session.expected, events)
    modifies runtime, runtime.session, runtime.fanout, runtime.talkers
    ensures runtime.Valid() && runtime.lifecycle == ControlOpen
    ensures Logs(runtime.talkers) == old(Logs(runtime.talkers))
    ensures ApplyAll(runtime.session.expected, Empty, events) == Success(runtime.session.connected)
  {
    ghost var expected := runtime.session.expected;
    assert ValidMapping(expected) && |runtime.talkers| == ENDPOINTS;
    NothingApplied(expected);
    hide Apply, ApplyAll, GoodConnects, Sound, Full, SixStreamGenAvbRuntime.Plane, SixStreamGenAvbRuntime.Gated;
    assert events[..0] == [];
    for k := 0 to |events|
      invariant runtime.Valid()
      invariant ApplyAll(expected, Empty, events[..k]) == Success(runtime.session.connected)
      invariant runtime.lifecycle == ControlOpen && Logs(runtime.talkers) == old(Logs(runtime.talkers))
    {
      OneMoreConnect(expected, events, k);
      var _ := runtime.ReceiveControl(Success(Some(events[k])));
    }
    assert events[..|events|] == events;
  }

  /** All prepared in turn and then all started in turn; after the first refusal, of either kind, all
      stopped and reset. */
  predicate UpOrHalted(was: seq<Log>, now: seq<Log>, refused: Option<nat>) {
    || (refused.Some? && AskedOrHalted(was, now, PrepareCall, refused))
    || AskedOrHalted(AfterAsking(was, PrepareCall, None), now, StartCall, refused)
  }

  /** From an open control channel, six good connects in any order, prepare and start end with all six
      streams connected and all six talkers prepared and running, or with the first talker that refused. */
  method BringUp(runtime: SixStreamGenAvbRuntime, events: seq<Event>, latency: u32)
      returns (error: Option<RuntimeError>)
    requires runtime.Valid() && runtime.View() == Gate(ControlOpen, Empty) && latency > 0
    requires GoodConnects(runtime.session.expected, events) && |events| == STREAMS
    modifies runtime, runtime.session, runtime.fanout, runtime.talkers
    ensures runtime.Valid()
    ensures error.None? ==>
              && runtime.lifecycle == Started && Full(runtime.session.connected)
              && AllReady(Logs(runtime.talkers)) && AllRunning(Logs(runtime.talkers))
    ensures error.Some? ==> error.value.Endpoint? && runtime.lifecycle == ControlOpen
    ensures UpOrHalted(old(Logs(runtime.talkers)), Logs(runtime.talkers), SixStreamGenAvbRuntime.Reported(error))
  {
    assert ValidMapping(runtime.session.expected);
    ConnectsComplete(runtime.session.expected, events);
    ConnectAll(runtime, events);
    error := PrepareAndStart(runtime, latency);
  }

  method PrepareAndStart(runtime: SixStreamGenAvbRuntime, latency: u32) returns (error: Option<RuntimeError>)
    requires runtime.Valid() && runtime.lifecycle == ControlOpen && Full(runtime.session.connected) && latency > 0
    modifies runtime, runtime.fanout, runtime.talkers
    ensures runtime.Valid()
    ensures error.None? ==>
              && runtime.lifecycle == Started && Full(runtime.session.connected)
              && AllReady(Logs(runtime.talkers)) && AllRunning(Logs(runtime.talkers))
    ensures error.Some? ==> error.value.Endpoint? && runtime.lifecycle == ControlOpen
    ensures UpOrHalted(old(Logs(runtime.talkers)), Logs(runtime.talkers), SixStreamGenAvbRuntime.Reported(error))
  {
    assert |runtime.talkers| == ENDPOINTS && runtime.intact;
    hide Full, Sound, Apply, AllReady, AllRunning, SixStreamGenAvbRuntime.Fitted, InStep, AskedOrHalted;
    error := runtime.Prepare(latency);
    if error.None? {
      error := runtime.Start();
    }
  }
}
