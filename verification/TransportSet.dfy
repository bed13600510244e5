/** The coordinator of six fallible stereo transports behind one fanout. */
module TransportSet {
  import opened Bytes
  import opened Fanout
  import opened Transports

  datatype Lifecycle = New | Prepared | Started

  datatype SetError =
    | FanoutFailed(cause: FanoutError) | Capability(endpoint: nat) | Endpoint(endpoint: nat)
    | InvalidTiming | InvalidLifecycle

  // --- The lifecycle over runs ----------------------------------------------------------------

  /** How a submitted block fared. */
  datatype Fate = NotStarted | Unsplittable | RefusedByEndpoint | Taken

  /** One call of the coordinator, with its outcome. */
  datatype SetOp = PrepareAll(ok: bool) | StartAll(ok: bool) | SubmitOne(fate: Fate) | StopAllSix | ResetAll

  /** Which outcomes a call can have in a lifecycle, and where it leads. */
  predicate Possible(l: Lifecycle, op: SetOp) {
    match op
    case PrepareAll(ok) => ok ==> l != Started
    case StartAll(ok) => ok ==> l == Prepared
    case SubmitOne(fate) => fate == NotStarted <==> l != Started
    case _ => true
  }

  /** `checked` says whether the call got past the lifecycle and timing checks. */
  function Next(l: Lifecycle, op: SetOp, checked: bool): Lifecycle {
    match op
    case PrepareAll(ok) => if ok then Prepared else if checked then New else l
    case StartAll(ok) => if ok then Started else l
    case SubmitOne(fate) => if fate == RefusedByEndpoint then New else l
    case StopAllSix => if l == Started then Prepared else l
    case ResetAll => l
  }

  /** A run of the coordinator: the lifecycles it passes through. */
  ghost predicate IsRun(states: seq<Lifecycle>, ops: seq<SetOp>) {
    && |states| == |ops| + 1
    && forall k {:trigger ops[k]} :: 0 <= k < |ops| ==>
         Possible(states[k], ops[k]) && exists checked :: states[k + 1] == Next(states[k], ops[k], checked)
  }

  /** Whenever a run is started, its last start follows its last prepare, with no refusal since. */
  lemma {:induction false} StartedHasCycle(states: seq<Lifecycle>, ops: seq<SetOp>, from: nat, n: nat)
      returns (p: nat, s: nat)
    requires IsRun(states, ops) && from <= n < |states| && states[from] == New && states[n] != New
    ensures from <= p < n && ops[p] == PrepareAll(true)
    ensures states[n] == Started ==> p < s < n && ops[s] == StartAll(true)
    ensures states[n] != Started ==> s == p
  {
    var m := n - 1;
    assert ops[m] == ops[m];
    if states[m] == New {
      p, s := m, m;
    } else {
      p, s := StartedHasCycle(states, ops, from, m);
      if states[n] == Started && states[m] != Started {
        s := m;
      } else if states[n] != Started {
        s := p;
      }
    }
  }

  /** After a refusal no block is taken before a fresh successful prepare and, after it, a fresh
      successful start of all six. */
  lemma NoBlockBeforeFreshCycle(states: seq<Lifecycle>, ops: seq<SetOp>, refused: nat, taken: nat)
      returns (p: nat, s: nat)
    requires IsRun(states, ops) && refused < taken < |ops|
    requires ops[refused] == SubmitOne(RefusedByEndpoint) && ops[taken] == SubmitOne(Taken)
    ensures refused < p < s < taken && ops[p] == PrepareAll(true) && ops[s] == StartAll(true)
  {
    p, s := StartedHasCycle(states, ops, refused + 1, taken);
  }

  /** The endpoint an error reports, if it reports one. */
  function Reported(error: Option<SetError>): Option<nat> {
    match error
    case Some(Endpoint(k)) => Some(k)
    case _ => None
  }

  function FateOf(error: Option<SetError>): Fate {
    match error
    case None => Taken
    case Some(FanoutFailed(_)) => Unsplittable
    case Some(Endpoint(_)) => RefusedByEndpoint
    case Some(_) => NotStarted
  }

  // --- The coordinator --------------------------------------------------------------------------

  class EspAvbTransportSet {
    const fanout: PreparedFanout
    const transports: seq<Transport>
    var lifecycle: Lifecycle
    ghost var base: seq<nat>    // how much each transport had accepted when the epoch started
    ghost var untouched: bool   // a started set has not been reset since it started

    ghost predicate Shape()
      reads this
    {
      && Six(transports) && |base| == ENDPOINTS && fanout.Shape()
      && forall i :: 0 <= i < ENDPOINTS ==> Admissible(transports[i].capabilities)
    }

    /** Prepared and started mean what they say: all six transports were prepared, while prepared
        none runs, and while started all six were started together and none was stopped since,
        unless the caller reset the started set. */
    ghost predicate Conditions()
      reads this, transports
    {
      && (lifecycle != New ==> AllReady(Logs(transports)))
      && (lifecycle == Prepared ==> NoneRunning(Logs(transports)))
      && (lifecycle == Started && untouched ==> AllRunning(Logs(transports)))
    }

    /** While started, all six transports are in step; otherwise the fanout timeline is clear. */
    ghost predicate Valid()
      reads this, fanout, transports
    {
      && Shape() && fanout.Timeline() && FullBlocks(fanout.accepted, fanout.frames) && Conditions()
      && (lifecycle == Started ==> InStep(transports, base, fanout))
      && (lifecycle != Started ==> fanout.accepted == [] && untouched)
    }

    constructor (fanout: PreparedFanout, transports: seq<Transport>)
      requires fanout.Valid() && fanout.accepted == [] && Six(transports)
      requires forall i :: 0 <= i < ENDPOINTS ==> Admissible(transports[i].capabilities)
      ensures Valid() && lifecycle == New && this.fanout == fanout && this.transports == transports
    {
      this.fanout, this.transports := fanout, transports;
      lifecycle := New;
      base, untouched := seq(ENDPOINTS, i => 0), true;
    }

    /** Plan and capabilities are checked before anything is prepared. */
    static method Create(plan: seq<EndpointSpec>, transports: seq<Transport>, frames: u64)
        returns (r: Result<EspAvbTransportSet, SetError>)
      requires |plan| == ENDPOINTS && Six(transports)
      ensures r.Success? <==> && ValidPlan(plan) && 0 < frames && CHANNELS * frames <= U64_MAX
                              && forall i :: 0 <= i < ENDPOINTS ==> Admissible(transports[i].capabilities)
      ensures r.Success? ==> r.value.Valid() && r.value.lifecycle == New && r.value.transports == transports
      ensures r.Success? ==> r.value.fanout.plan == plan && r.value.fanout.frames == frames
      ensures r.Failure? && r.error.Capability? ==>
                && r.error.endpoint < ENDPOINTS && !Admissible(transports[r.error.endpoint].capabilities)
                && forall i :: 0 <= i < r.error.endpoint ==> Admissible(transports[i].capabilities)
    {
      var prepared := PreparedFanout.Prepare(plan, frames);
      if prepared.Failure? {
        return Failure(FanoutFailed(prepared.error));
      }
      for endpoint := 0 to ENDPOINTS
        invariant forall i :: 0 <= i < endpoint ==> Admissible(transports[i].capabilities)
      {
        if !Admissible(transports[endpoint].capabilities) {
          return Failure(Capability(endpoint));
        }
      }
      var six := new EspAvbTransportSet(prepared.value, transports);
      r := Success(six);
    }

    /** Prepare all six. A refusal at endpoint `k` resets exactly the endpoints below `k`, leaves
        those above it alone and falls back to New. */
    method Prepare(scheduledLatencyFrames: u32) returns (error: Option<SetError>)
      requires Valid()
      modifies this, fanout, transports
      ensures Valid() && Possible(old(lifecycle), PrepareAll(error.None?))
      ensures lifecycle == Next(old(lifecycle), PrepareAll(error.None?), error.Some? && error.value.Endpoint?)
      ensures old(lifecycle) == Started ==> error == Some(InvalidLifecycle)
      ensures old(lifecycle) != Started ==>
                (scheduledLatencyFrames == 0 <==> error == Some(InvalidTiming)) && error != Some(InvalidLifecycle)
      ensures error.None? || error.value.Endpoint? ==>
                PreparedOrReset(old(Logs(transports)), Logs(transports), Reported(error))
      ensures error.Some? && !error.value.Endpoint? ==>
                unchanged(this) && unchanged(fanout) && unchanged(transports)
      ensures error.Some? ==> error.value.InvalidLifecycle? || error.value.InvalidTiming? || error.value.Endpoint?
    {
      hide ValidPlan, InStep, PreparedFanout.Timeline, AllReady, AllRunning, NoneRunning, AllHalted;
      hide PreparedOrReset, StartedOrRolledBack, HaltedBelow;
      if lifecycle == Started {
        return Some(InvalidLifecycle);
      }
      if scheduledLatencyFrames == 0 {
        return Some(InvalidTiming);
      }
      ghost var was := Logs(transports);
      var refused := PrepareEach(transports);
      if refused.Some? {
        ResetBelow(transports, refused.value);
        PreparingMeans(was, Logs(transports), refused);
        lifecycle := New;
        fanout.Reset();
        return Some(Endpoint(refused.value));
      }
      PreparingMeans(was, Logs(transports), refused);
      lifecycle := Prepared;
      fanout.Reset();
      error := None;
    }

    /** Clear the timeline; what the transports take from now on belongs to a new one. */
    method OpenEpoch()
      requires Shape() && fanout.Timeline()
      modifies this`base, fanout
      ensures Shape() && fanout.Timeline() && fanout.accepted == [] && FullBlocks(fanout.accepted, fanout.frames)
      ensures InStep(transports, base, fanout)
    {
      hide ValidPlan, InStep, PreparedFanout.Timeline, AllReady, AllRunning, NoneRunning, AllHalted;
      hide PreparedOrReset, StartedOrRolledBack, HaltedBelow;
      fanout.Reset();
      base := Marks(transports);
      FreshEpochIsInStep(transports, base, fanout);
    }

    /** Start all six as one epoch. A refusal at endpoint `k` stops and resets exactly the endpoints
        below `k`, leaves those above it alone and stays prepared. */
    method Start() returns (error: Option<SetError>)
      requires Valid()
      modifies this, fanout, transports
      ensures Valid() && Possible(old(lifecycle), StartAll(error.None?))
      ensures lifecycle == Next(old(lifecycle), StartAll(error.None?), true)
      ensures old(lifecycle) != Prepared <==> error == Some(InvalidLifecycle)
      ensures error.None? || error.value.Endpoint? ==>
                StartedOrRolledBack(old(Logs(transports)), Logs(transports), Reported(error))
      ensures error.None? ==> fanout.accepted == [] && untouched
      ensures error == Some(InvalidLifecycle) ==> unchanged(this) && unchanged(fanout) && unchanged(transports)
      ensures error.Some? ==> error.value.InvalidLifecycle? || error.value.Endpoint?
    {
      hide ValidPlan, InStep, PreparedFanout.Timeline, AllReady, AllRunning, NoneRunning, AllHalted;
      hide PreparedOrReset, StartedOrRolledBack, HaltedBelow;
      if lifecycle != Prepared {
        return Some(InvalidLifecycle);
      }
      ghost var was := Logs(transports);
      var refused := StartEach(transports);
      if refused.Some? {
        StopBelow(transports, refused.value);
        StartingMeans(was, Logs(transports), refused);
        lifecycle := Prepared;
        fanout.Reset();
        return Some(Endpoint(refused.value));
      }
      StartingMeans(was, Logs(transports), refused);
      lifecycle, untouched := Started, true;
      OpenEpoch();
      error := None;
    }

    /** Stop and reset all six; a fresh prepare is needed. */
    method AbortStream()
      requires Shape() && fanout.Timeline()
      modifies this`lifecycle, this`untouched, fanout, transports
      ensures Valid() && lifecycle == New && fanout.accepted == [] && AllHalted(old(Logs(transports)), Logs(transports))
    {
      hide ValidPlan, InStep, PreparedFanout.Timeline, AllHalted;
      NoBlocksAreFull(fanout.frames);
      var _ := StopAll(transports);
      lifecycle, untouched := New, true;
      fanout.Reset();
    }

    /** Split one block and hand every endpoint its share. Either all six take it, or none keeps
        running: after a refusal at endpoint `k` exactly the endpoints below `k` hold one extra
        block, everything is stopped and reset, and nothing is accepted before a fresh prepare
        and start. A block the fanout refuses leaves all six as they were. */
    method Submit(block: Block) returns (error: Option<SetError>)
      requires Valid()
      modifies this, fanout, fanout.buffers, transports
      ensures Valid() && Possible(old(lifecycle), SubmitOne(FateOf(error)))
      ensures lifecycle == Next(old(lifecycle), SubmitOne(FateOf(error)), true)
      ensures old(lifecycle) != Started <==> error == Some(InvalidLifecycle)
      ensures error.None? ==> fanout.accepted == old(fanout.accepted) + [block] && untouched == old(untouched)
      ensures error.Some? ==> error.value.InvalidLifecycle? || error.value.FanoutFailed? || error.value.Endpoint?
      ensures old(lifecycle) == Started ==>
                (error.Some? && error.value.FanoutFailed? <==>
                 !(&& old(fanout.Admits(block)) && block.sequence < U64_MAX
                   && Advance(block.timestamp, fanout.frames).Some?))
      ensures error.Some? && !error.value.Endpoint? ==>
                unchanged(this) && fanout.TimelineKept() && Logs(transports) == old(Logs(transports))
      ensures error.None? || error.value.Endpoint? ==>
                && old(fanout.Admits(block)) && |block.samples| == CHANNELS * fanout.frames
                && OfferedOrHalted(old(Logs(transports)), Logs(transports),
                                   Shares(block, fanout.plan, fanout.frames), Reported(error))
      ensures error.Some? && error.value.Endpoint? ==>
                fanout.accepted == [] && error.value.endpoint < ENDPOINTS && NoneRunning(Logs(transports))
    {
      hide ValidPlan, Shares, InStep, PreparedFanout.Timeline, AllReady, AllRunning, NoneRunning, AllHalted;
      hide OfferedOrHalted, HaltedOnce;
      NoBlocksAreFull(fanout.frames);
      hide FullBlocks;
      if lifecycle != Started {
        return Some(InvalidLifecycle);
      }
      ghost var was := Logs(transports);
      var delivery := SplitAndDeliver(transports, fanout, base, block);
      match delivery {
        case Unsplit(cause) =>
          error := Some(FanoutFailed(cause));
        case Refused(endpoint) =>
          AbortStream();
          SubmittingMeans(was, Logs(transports), Shares(block, fanout.plan, fanout.frames), Some(endpoint));
          error := Some(Endpoint(endpoint));
        case Delivered =>
          SubmittingMeans(was, Logs(transports), Shares(block, fanout.plan, fanout.frames), None);
          error := None;
      }
    }

    method Stop() returns (error: Option<SetError>)
      requires Valid()
      modifies this, fanout, transports
      ensures Valid() && lifecycle == Next(old(lifecycle), StopAllSix, true)
      ensures old(lifecycle) != Started <==> error == Some(InvalidLifecycle)
      ensures old(lifecycle) == Started ==>
                && (error.Some? ==> error.value.Endpoint?) && AllHalted(old(Logs(transports)), Logs(transports))
                && FirstRefusedStop(Logs(transports), ENDPOINTS, Reported(error))
    {
      hide ValidPlan, InStep, PreparedFanout.Timeline, AllReady, AllRunning, NoneRunning, AllHalted;
      hide PreparedOrReset, StartedOrRolledBack, HaltedBelow;
      if lifecycle != Started {
        return Some(InvalidLifecycle);
      }
      ghost var was := Logs(transports);
      var refused := StopAll(transports);
      HaltingMeans(was, Logs(transports));
      lifecycle, untouched := Prepared, true;
      fanout.Reset();
      error := if refused.None? then None else Some(Endpoint(refused.value));
    }

    /** Clear the timeline of all six and of the fanout. A started set stays started and begins a
        new timeline, although a transport may stop when it is reset. */
    method Reset()
      requires Valid()
      modifies this, fanout, transports
      ensures Valid() && lifecycle == Next(old(lifecycle), ResetAll, true) && fanout.accepted == []
      ensures untouched <==> lifecycle != Started
      ensures Logs(transports) == AfterResetting(old(Logs(transports)), ENDPOINTS)
    {
      hide ValidPlan, InStep, PreparedFanout.Timeline, AllReady, AllRunning, NoneRunning, AllHalted;
      hide PreparedOrReset, StartedOrRolledBack, HaltedBelow;
      ghost var was := Logs(transports);
      ResetBelow(transports, ENDPOINTS);
      ResettingMeans(was, ENDPOINTS);
      untouched := lifecycle != Started;
      OpenEpoch();
    }

    /** While started, whatever the six transports accepted in this epoch is in lockstep with the
        input the set accepted. */
    lemma StartedIsInLockstep(streams: seq<seq<Block>>)
      requires Valid() && lifecycle == Started && |streams| == ENDPOINTS
      requires forall e :: 0 <= e < ENDPOINTS ==>
                 base[e] <= |transports[e].log.accepted| && streams[e] == transports[e].log.accepted[base[e]..]
      ensures InLockstep(streams, fanout.accepted, fanout.plan, fanout.frames)
    {
      InStepIsLockstep(transports, base, fanout, streams);
    }
  }
}
