/** What every run of the endpoint keeps, over all interleavings of writes and timer dispatches. */
module EndpointSafety {
  import opened Bytes
  import opened EndpointModel

  /** The global invariant of the firmware's control block, timer and output gate. */
  predicate Inv(s: State) {
    && (!s.muted ==>
          s.phase == Committed && InWindow(s.armedStart, s.schedulerUnmute) && ValidReading(s.schedulerUnmute))
    && (s.pending <==> s.phase == Committed && s.muted)
    && (s.pending ==> s.pendingEpoch == s.activeEpoch && s.timer == Running && s.schedulerUnmute == 0)
    && (s.phase in {Prepared, Armed, Committed} ==> RolesLegal(s.activeRole0, s.activeRole1))
    && (s.phase in {Armed, Committed} ==> s.armedStart != 0)
    && (s.phase !in {BootMuted, Fault} ==> s.activeEpoch != 0)
    && (s.phase != BootMuted ==> s.outputMuted == s.muted)
  }

  lemma CallbackKeepsInv(s: State, a: Answers)
    requires Inv(s)
    ensures Inv(Callback(s, a))
  {
  }

  lemma CommitKeepsInv(s: State, a: Answers)
    requires Inv(s)
    ensures Inv(CommitCommand(s, a).0)
  {
    if s.phase == Armed {
      var (d, accepted) := Schedule(s.(phase := Committed, muted := true), a);
      assert accepted ==> d.phase == Committed;
    }
  }

  lemma CommandKeepsInv(s: State, command: byte, a: Answers)
    requires Inv(s)
    ensures Inv(Command(s, command, a).0)
  {
    if command == CMD_COMMIT {
      CommitKeepsInv(s, a);
    }
  }

  lemma StepKeepsInv(s: State, i: Input)
    requires Inv(s)
    ensures Inv(Step(s, i))
  {
    match i
    case Dispatch(a) => CallbackKeepsInv(s, a);
    case Write(index, values, a) =>
      if index == CONTROL_COMMAND && |values| > 0 {
        CommandKeepsInv(s, values[0], a);
      }
  }

  /** Deadline safety: every state of every run from boot satisfies the invariant. */
  lemma {:induction false} RunKeepsInv(trace: seq<State>, inputs: seq<Input>, board: bool, k: nat)
    requires IsRun(trace, inputs, board) && k < |trace|
    ensures Inv(trace[k])
  {
    if k > 0 {
      RunKeepsInv(trace, inputs, board, k - 1);
      StepKeepsInv(trace[k - 1], inputs[k - 1]);
    }
  }

  /** The clock a step's unmute decision was taken on. */
  function DecidingClock(i: Input): Clock {
    i.answers.deadlineClock
  }

  /** `t` was unmuted by a deadline callback that read `clock`. */
  predicate UnmutedBy(s: State, t: State, clock: Clock) {
    && clock.ready && TimespecNs(clock.now) == t.schedulerUnmute && InWindow(t.armedStart, t.schedulerUnmute)
    && t.unmuteCount == Inc32(s.unmuteCount)
  }

  lemma CallbackUnmutes(s: State, a: Answers)
    ensures s.muted && !Callback(s, a).muted ==> UnmutedBy(s, Callback(s, a), a.deadlineClock)
  {
    hide TimespecNs, Inc32;
  }

  lemma CommitUnmutes(s: State, a: Answers)
    ensures s.muted && !CommitCommand(s, a).0.muted ==> UnmutedBy(s, CommitCommand(s, a).0, a.deadlineClock)
  {
    hide TimespecNs, Inc32;
  }

  /** A step that unmutes read a ready gPTP clock inside the activation window. */
  lemma UnmuteStep(s: State, i: Input)
    requires Inv(s)
    requires s.muted && !Step(s, i).muted
    ensures DecidingClock(i).ready
    ensures TimespecNs(DecidingClock(i).now) == Step(s, i).schedulerUnmute
    ensures InWindow(Step(s, i).armedStart, TimespecNs(DecidingClock(i).now))
    ensures Step(s, i).unmuteCount == Inc32(s.unmuteCount)
  {
    hide Inv, Callback, CommitCommand;
    match i
    case Dispatch(a) => CallbackUnmutes(s, a);
    case Write(_, _, a) => CommitUnmutes(s, a);
  }

  /** Input `k` is the one that opened the gate that is open in state `n`. */
  predicate OpenedAt(trace: seq<State>, inputs: seq<Input>, k: nat, n: nat)
    requires Steps(trace, inputs) && n < |trace|
  {
    && k < n
    && trace[k].muted
    && DecidingClock(inputs[k]).ready
    && TimespecNs(DecidingClock(inputs[k]).now) == trace[n].schedulerUnmute
    && InWindow(trace[n].armedStart, trace[n].schedulerUnmute)
    && forall j :: k < j <= n ==> !trace[j].muted && SameActivation(trace[j], trace[n])
  }

  predicate SameActivation(s: State, t: State) {
    && s.activeEpoch == t.activeEpoch && s.armedStart == t.armedStart && s.schedulerUnmute == t.schedulerUnmute
    && s.activeRole0 == t.activeRole0 && s.activeRole1 == t.activeRole1 && s.unmuteCount == t.unmuteCount
  }

  /** While the output stays unmuted nothing that defines the activation changes. */
  lemma UnmutedIsFrozen(s: State, i: Input)
    requires Inv(s) && !s.muted && !Step(s, i).muted
    ensures SameActivation(Step(s, i), s)
  {
  }

  /** Whenever the output is unmuted, some earlier step opened it on a ready clock inside the
      window, and it has stayed open for that same epoch, start and role pair ever since. */
  lemma {:induction false} UnmutedHasWitness(trace: seq<State>, inputs: seq<Input>, board: bool, n: nat)
    requires IsRun(trace, inputs, board) && n < |trace|
    requires !trace[n].muted
    ensures exists k: nat :: OpenedAt(trace, inputs, k, n)
  {
    var last := n - 1;
    RunKeepsInv(trace, inputs, board, last);
    if trace[last].muted {
      UnmuteStep(trace[last], inputs[last]);
      assert OpenedAt(trace, inputs, last, n);
    } else {
      UnmutedHasWitness(trace, inputs, board, last);
      var k: nat :| OpenedAt(trace, inputs, k, last);
      UnmutedIsFrozen(trace[last], inputs[last]);
      assert OpenedAt(trace, inputs, k, n);
    }
  }

  lemma CommandKeepsEpoch(s: State, command: byte, a: Answers)
    ensures var t := Command(s, command, a).0;
            && s.activeEpoch <= t.activeEpoch
            && (s.phase == Fault && t.phase != Fault ==>
                  command == CMD_MUTE && t.phase == Muted && s.activeEpoch < t.activeEpoch)
  {
    hide TimespecNs, RolesLegal, InWindow, CommitCommand;
    if command == CMD_COMMIT {
      CommitKeepsEpoch(s, a);
    }
  }

  lemma CommitKeepsEpoch(s: State, a: Answers)
    ensures var t := CommitCommand(s, a).0; t.activeEpoch == s.activeEpoch && (s.phase == Fault ==> t.phase == Fault)
  {
    hide TimespecNs, InWindow;
  }

  lemma CallbackKeepsEpoch(s: State, a: Answers)
    ensures var t := Callback(s, a); s.activeEpoch == t.activeEpoch && (s.phase == Fault ==> t.phase == Fault)
  {
    hide TimespecNs;
  }

  /** Epochs never go back, and a fault is left only by a MUTE write staged with a larger epoch. */
  lemma EpochMonotoneAndFaultExit(s: State, i: Input)
    ensures s.activeEpoch <= Step(s, i).activeEpoch
    ensures s.phase == Fault && Step(s, i).phase != Fault ==>
              && i.Write? && i.index == CONTROL_COMMAND && |i.values| > 0 && i.values[0] == CMD_MUTE
              && Step(s, i).phase == Muted && s.activeEpoch < Step(s, i).activeEpoch
  {
    hide Command, Callback;
    match i
    case Dispatch(a) => CallbackKeepsEpoch(s, a);
    case Write(index, values, a) =>
      if index == CONTROL_COMMAND && |values| > 0 {
        CommandKeepsEpoch(s, values[0], a);
      }
  }

  lemma {:induction false} EpochMonotone(trace: seq<State>, inputs: seq<Input>, board: bool, k: nat, n: nat)
    requires IsRun(trace, inputs, board) && k <= n < |trace|
    ensures trace[k].activeEpoch <= trace[n].activeEpoch
  {
    hide Step;
    if k < n {
      EpochMonotone(trace, inputs, board, k, n - 1);
      EpochMonotoneAndFaultExit(trace[n - 1], inputs[n - 1]);
    }
  }

  /** How often the output went from muted to unmuted along the trace. */
  function Unmutes(trace: seq<State>): nat {
    if |trace| < 2 then 0
    else
      var n := |trace| - 1;
      Unmutes(trace[..n]) + (if trace[n - 1].muted && !trace[n].muted then 1 else 0)
  }

  lemma DispatchCounts(s: State, a: Answers)
    requires Inv(s) && !(s.muted && !Callback(s, a).muted)
    ensures Callback(s, a).unmuteCount == s.unmuteCount
  {
    hide TimespecNs, Inc32;
  }

  lemma CommitCounts(s: State, a: Answers)
    requires Inv(s) && !(s.muted && !Command(s, CMD_COMMIT, a).0.muted)
    ensures Command(s, CMD_COMMIT, a).0.unmuteCount == s.unmuteCount
  {
    hide TimespecNs, Inc32, RolesLegal;
  }

  lemma CountOnlyMovesOnUnmute(s: State, i: Input)
    requires Inv(s) && !(s.muted && !Step(s, i).muted)
    ensures Step(s, i).unmuteCount == s.unmuteCount
  {
    hide Callback, Command, Inv;
    match i
    case Dispatch(a) => DispatchCounts(s, a);
    case Write(index, values, a) =>
      if index == CONTROL_COMMAND && |values| > 0 {
        if values[0] == CMD_COMMIT {
          CommitCounts(s, a);
        } else {
          OtherCommandsCount(s, values[0], a);
        }
      }
  }

  /** The 32-bit telemetry counter is the exact number of activations, modulo its width. */
  lemma {:induction false} UnmuteCountExact(trace: seq<State>, inputs: seq<Input>, board: bool, n: nat)
    requires IsRun(trace, inputs, board) && n < |trace|
    ensures trace[n].unmuteCount == Unmutes(trace[..n + 1]) % 0x1_0000_0000
    ensures !trace[n].muted ==> Unmutes(trace[..n + 1]) > 0
  {
    hide Step, Inv, TimespecNs, InWindow;
    if n > 0 {
      UnmuteCountExact(trace, inputs, board, n - 1);
      assert trace[..n + 1][..n] == trace[..n];
      RunKeepsInv(trace, inputs, board, n - 1);
      var s, i := trace[n - 1], inputs[n - 1];
      if s.muted && !trace[n].muted {
        UnmuteStep(s, i);
      } else {
        CountOnlyMovesOnUnmute(s, i);
      }
    }
  }

  /** A deadline of epoch and start in place is looked at with `clock` and cannot be met or re-armed. */
  predicate Misses(start: u64, clock: Clock, started: bool) {
    var now := TimespecNs(clock.now);
    || !clock.ready || !ValidReading(now)
    || (now < start && !started)
    || start + MAX_LATE_NS < now
  }

  predicate IsCommit(index: u16, values: seq<byte>) {
    index == CONTROL_COMMAND && |values| > 0 && values[0] == CMD_COMMIT
  }

  /** COMMIT reaches the deadline callback at once: the scheduler found the start already in the window. */
  predicate CommitsIntoWindow(s: State, i: Input) {
    && i.Write? && IsCommit(i.index, i.values)
    && s.phase == Armed && s.stagedEpoch == s.activeEpoch
    && i.answers.scheduleClock.ready && ValidReading(TimespecNs(i.answers.scheduleClock.now))
    && InWindow(s.armedStart, TimespecNs(i.answers.scheduleClock.now))
    && (s.timer.NotCreated? ==> i.answers.timerCreated)
  }

  /** This step is a deadline fault: a dispatch of a pending deadline, or a COMMIT into the window, that
      misses it. */
  predicate IsDeadlineFault(s: State, i: Input) {
    && ((i.Dispatch? && s.pending) || CommitsIntoWindow(s, i))
    && Misses(s.armedStart, i.answers.deadlineClock, i.answers.timerStarted)
  }

  /** How many deadline faults the run has had. */
  function DeadlineFaults(trace: seq<State>, inputs: seq<Input>): nat
    requires |trace| == |inputs| + 1
  {
    if inputs == [] then 0
    else
      var n := |inputs| - 1;
      DeadlineFaults(trace[..n + 1], inputs[..n]) + (if IsDeadlineFault(trace[n], inputs[n]) then 1 else 0)
  }

  /** The counter moves exactly at a deadline fault, and there the endpoint faults. */
  lemma DispatchFaultStep(s: State, a: Answers)
    requires Inv(s)
    ensures var i := Dispatch(a); var t := Step(s, i);
            && t.faultCount == (if IsDeadlineFault(s, i) then Inc32(s.faultCount) else s.faultCount)
            && (IsDeadlineFault(s, i) ==> t.phase == Fault)
  {
    hide TimespecNs, Inc32;
  }

  /** A command other than COMMIT never reaches the deadline callback. */
  lemma OtherCommandsCount(s: State, command: byte, a: Answers)
    requires command != CMD_COMMIT
    ensures var t := Command(s, command, a).0; t.faultCount == s.faultCount && t.unmuteCount == s.unmuteCount
  {
    hide RolesLegal;
  }

  lemma CommitFaultStep(s: State, a: Answers)
    requires Inv(s)
    ensures var i := Write(CONTROL_COMMAND, [CMD_COMMIT], a); var t := Command(s, CMD_COMMIT, a).0;
            && t.faultCount == (if IsDeadlineFault(s, i) then Inc32(s.faultCount) else s.faultCount)
            && (IsDeadlineFault(s, i) ==> t.phase == Fault)
  {
    hide TimespecNs, Inc32, RolesLegal;
  }

  lemma WriteFaultStep(s: State, index: u16, values: seq<byte>, a: Answers)
    requires Inv(s)
    ensures var i := Write(index, values, a); var t := Step(s, i);
            && t.faultCount == (if IsDeadlineFault(s, i) then Inc32(s.faultCount) else s.faultCount)
            && (IsDeadlineFault(s, i) ==> t.phase == Fault)
  {
    if index == CONTROL_COMMAND && |values| > 0 {
      if values[0] == CMD_COMMIT {
        CommitFaultStep(s, a);
      } else {
        OtherCommandsCount(s, values[0], a);
      }
    }
    hide Command, Inv, Inc32, TimespecNs, Misses;
  }

  lemma FaultStep(s: State, i: Input)
    requires Inv(s)
    ensures Step(s, i).faultCount == if IsDeadlineFault(s, i) then Inc32(s.faultCount) else s.faultCount
    ensures IsDeadlineFault(s, i) ==> Step(s, i).phase == Fault
  {
    hide Step, IsDeadlineFault, Inv;
    match i
    case Dispatch(a) => DispatchFaultStep(s, a);
    case Write(index, values, a) => WriteFaultStep(s, index, values, a);
  }

  /** The 32-bit fault counter is the exact number of deadline faults, modulo its width. */
  lemma {:induction false} FaultCountExact(trace: seq<State>, inputs: seq<Input>, board: bool, n: nat)
    requires IsRun(trace, inputs, board) && n < |trace|
    ensures trace[n].faultCount == DeadlineFaults(trace[..n + 1], inputs[..n]) % 0x1_0000_0000
  {
    hide Step, Inv, IsDeadlineFault;
    if n > 0 {
      FaultCountExact(trace, inputs, board, n - 1);
      assert trace[..n + 1][..n] == trace[..n] && inputs[..n][..n - 1] == inputs[..n - 1];
      RunKeepsInv(trace, inputs, board, n - 1);
      FaultStep(trace[n - 1], inputs[n - 1]);
    }
  }

  /** Repeating the command changes nothing, whatever the world answers. */
  ghost predicate Repeats(t: State, command: byte) {
    forall again :: Command(t, command, again) == (t, Ok)
  }

  lemma PrepareRepeats(s: State, a: Answers)
    requires Command(s, CMD_PREPARE, a).1 == Ok
    ensures Repeats(Command(s, CMD_PREPARE, a).0, CMD_PREPARE)
  {
    hide RolesLegal;
  }

  lemma CommitRepeats(s: State, a: Answers)
    requires Inv(s) && Command(s, CMD_COMMIT, a).1 == Ok
    ensures Repeats(Command(s, CMD_COMMIT, a).0, CMD_COMMIT)
  {
    hide TimespecNs, RolesLegal;
    var t := Command(s, CMD_COMMIT, a).0;
    assert t.phase == Committed && t.lastCommand == CMD_COMMIT && t.stagedEpoch == t.activeEpoch != 0;
  }

  lemma CommandRepeats(s: State, command: byte, a: Answers)
    requires Inv(s) && Command(s, command, a).1 == Ok
    ensures Repeats(Command(s, command, a).0, command)
  {
    if command == CMD_COMMIT {
      CommitRepeats(s, a);
    } else if command == CMD_PREPARE {
      PrepareRepeats(s, a);
    } else {
      hide CommitCommand, PrepareCommand;
    }
  }

  /** A successfully acknowledged write may be repeated any number of times, with any clock
      answers, without changing the endpoint. */
  lemma AcknowledgedWriteIsIdempotent(s: State, index: u16, values: seq<byte>, a: Answers, again: Answers)
    requires Inv(s)
    requires SetControl(s, index, values, a).1 == Ok
    ensures var t := SetControl(s, index, values, a).0;
            SetControl(t, index, values, again) == (t, Ok)
  {
    if index == CONTROL_COMMAND {
      CommandRepeats(s, values[0], a);
    }
    hide Command, Inv, Word64;
  }

  /** The write is acknowledged here and changes nothing, whatever the world answers. */
  ghost predicate Absorbs(s: State, index: u16, values: seq<byte>) {
    forall a :: SetControl(s, index, values, a) == (s, Ok)
  }

  /** An acknowledged write is absorbed from then on. */
  lemma AcknowledgedIsAbsorbed(s: State, index: u16, values: seq<byte>, a: Answers)
    requires Inv(s) && SetControl(s, index, values, a).1 == Ok
    ensures Absorbs(SetControl(s, index, values, a).0, index, values)
  {
    hide SetControl, Inv;
    forall again ensures SetControl(SetControl(s, index, values, a).0, index, values, again)
                         == (SetControl(s, index, values, a).0, Ok) {
      AcknowledgedWriteIsIdempotent(s, index, values, a, again);
    }
  }

  /** A callback that does not fault the endpoint leaves it absorbing the commands it absorbed. */
  lemma CallbackKeepsRepeats(s: State, command: byte, a: Answers)
    requires Inv(s) && Repeats(s, command) && Callback(s, a).phase != Fault
    ensures Repeats(Callback(s, a), command)
  {
    hide TimespecNs, RolesLegal;
    assert Command(s, command, a) == (s, Ok);
    var t := Callback(s, a);
    if s.phase == Committed {
      assert t.phase == Committed && t.stagedEpoch == s.stagedEpoch && t.activeEpoch == s.activeEpoch;
    } else {
      assert t == s || t == s.(timer := Idle);
    }
  }

  lemma CallbackKeepsStaging(s: State, a: Answers)
    ensures var t := Callback(s, a);
            && t.stagedEpoch == s.stagedEpoch && t.stagedStart == s.stagedStart
            && t.stagedRole0 == s.stagedRole0 && t.stagedRole1 == s.stagedRole1
  {
    hide TimespecNs;
  }

  lemma CallbackKeepsAbsorbs(s: State, index: u16, values: seq<byte>, a: Answers)
    requires Inv(s) && Absorbs(s, index, values)
    requires index == CONTROL_COMMAND ==> Callback(s, a).phase != Fault
    ensures Absorbs(Callback(s, a), index, values)
  {
    var t := Callback(s, a);
    assert SetControl(s, index, values, a) == (s, Ok);
    if index == CONTROL_COMMAND {
      forall again ensures Command(s, values[0], again) == (s, Ok) {
        assert SetControl(s, index, values, again) == (s, Ok);
      }
      CallbackKeepsRepeats(s, values[0], a);
      hide Callback, Command;
      forall again ensures SetControl(t, index, values, again) == (t, Ok) {
        assert Command(t, values[0], again) == (t, Ok);
      }
    } else {
      CallbackKeepsStaging(s, a);
      hide Callback, Command, Word64;
    }
  }

  /** The callbacks among these inputs, alone. */
  function CallbacksOnly(s: State, inputs: seq<Input>): State {
    if inputs == [] then s
    else
      var t := CallbacksOnly(s, inputs[..|inputs| - 1]);
      if inputs[|inputs| - 1].Dispatch? then Callback(t, inputs[|inputs| - 1].answers) else t
  }

  /** Every input is a dispatch or the same write again. */
  predicate OnlyRepeats(inputs: seq<Input>, index: u16, values: seq<byte>) {
    forall k :: 0 <= k < |inputs| ==> inputs[k].Write? ==> inputs[k].index == index && inputs[k].values == values
  }

  /** The endpoint has failed closed and a further failure changes nothing. */
  predicate Dead(s: State) {
    s.phase == Fault && FailClosed(s) == s
  }

  /** The write changes nothing any more: it is absorbed, or it is a COMMIT whose deadline has faulted. */
  ghost predicate Settled(s: State, index: u16, values: seq<byte>) {
    Absorbs(s, index, values) || (IsCommit(index, values) && Dead(s))
  }

  /** Only a committed endpoint can be faulted by a callback, and then it is dead. */
  lemma CallbackFaults(s: State, a: Answers)
    requires s.phase != Fault && Callback(s, a).phase == Fault
    ensures s.phase == Committed && Dead(Callback(s, a))
  {
    hide TimespecNs, Inc32;
  }

  lemma DeadStaysDead(s: State, a: Answers)
    requires Dead(s)
    ensures Dead(Callback(s, a))
  {
    hide TimespecNs;
  }

  /** A faulted endpoint repeats no command, and a committed one only COMMIT. */
  lemma RepeatedCommand(s: State, command: byte, a: Answers)
    requires Command(s, command, a) == (s, Ok)
    ensures s.phase != Fault && (s.phase == Committed ==> command == CMD_COMMIT)
  {
    hide TimespecNs, RolesLegal;
  }

  lemma CallbackKeepsSettled(s: State, index: u16, values: seq<byte>, a: Answers)
    requires Inv(s) && Settled(s, index, values)
    ensures Settled(Callback(s, a), index, values)
  {
    if !Absorbs(s, index, values) {
      DeadStaysDead(s, a);
    } else if index == CONTROL_COMMAND && Callback(s, a).phase == Fault {
      AbsorbedChangesNothing(s, index, values, a);
      RepeatedCommand(s, values[0], a);
      CallbackFaults(s, a);
    } else {
      hide Callback, Inv, Absorbs;
      CallbackKeepsAbsorbs(s, index, values, a);
    }
  }

  /** What a settled write leaves and answers: only a COMMIT whose deadline has faulted is refused. */
  lemma SettledChangesNothing(s: State, index: u16, values: seq<byte>, a: Answers)
    requires Settled(s, index, values)
    ensures SetControl(s, index, values, a)
            == (s, if IsCommit(index, values) && s.phase == Fault then BadArguments else Ok)
  {
    if Absorbs(s, index, values) {
      AbsorbedChangesNothing(s, index, values, a);
      if IsCommit(index, values) {
        RepeatedCommand(s, values[0], a);
      }
    } else {
      hide Schedule, Absorbs;
    }
  }

  /** Repetitions of an acknowledged write, with callbacks running in between, leave what the callbacks
      alone leave, whatever these do. Only the answer may change: a repeated COMMIT is refused once its
      deadline has faulted. */
  lemma {:induction false} RetriesAreIdempotent(
      trace: seq<State>, inputs: seq<Input>, index: u16, values: seq<byte>, n: nat)
    requires Steps(trace, inputs) && n < |trace| && OnlyRepeats(inputs, index, values)
    requires Inv(trace[0]) && Absorbs(trace[0], index, values)
    ensures trace[n] == CallbacksOnly(trace[0], inputs[..n])
    ensures Inv(trace[n]) && Settled(trace[n], index, values)
    ensures forall a :: SetControl(trace[n], index, values, a)
              == (trace[n], if IsCommit(index, values) && trace[n].phase == Fault then BadArguments else Ok)
  {
    hide Inv, Callback, SetControl, Absorbs, Dead, IsCommit;
    if n > 0 {
      var m := n - 1;
      RetriesAreIdempotent(trace, inputs, index, values, m);
      assert inputs[..n][..m] == inputs[..m];
      StepKeepsInv(trace[m], inputs[m]);
      assert trace[n] == Step(trace[m], inputs[m]);
      match inputs[m]
      case Dispatch(a) => CallbackKeepsSettled(trace[m], index, values, a);
      case Write(_, _, a) =>
    }
    forall a ensures SetControl(trace[n], index, values, a)
                     == (trace[n], if IsCommit(index, values) && trace[n].phase == Fault then BadArguments else Ok)
    {
      SettledChangesNothing(trace[n], index, values, a);
    }
  }

  lemma AbsorbedChangesNothing(s: State, index: u16, values: seq<byte>, a: Answers)
    requires Absorbs(s, index, values)
    ensures SetControl(s, index, values, a) == (s, Ok)
  {
  }

  /** A write that is not acknowledged either changes nothing or leaves the endpoint in Fault. */
  lemma RefusedWriteFailsClosed(s: State, index: u16, values: seq<byte>, a: Answers)
    requires Inv(s)
    requires SetControl(s, index, values, a).1 != Ok
    ensures var t := SetControl(s, index, values, a).0;
            t == s || (t.phase == Fault && t.muted && t.outputMuted && !t.pending && t.timer != Running)
  {
  }

  /** Timer delay the scheduler requests for a deadline still `remaining` nanoseconds away. It stands
      beside the state machine: a dispatch may come at any time, so no step depends on the delay. */
  function DelayUs(remaining: u64): nat {
    var us := (if remaining + 999 > U64_MAX then remaining + 999 - U64_MAX - 1 else remaining + 999) / 1000;
    if us == 0 then 1 else us
  }

  /** Rounded up to microseconds, the timer never fires early and overshoots by under 1 us,
      exactly when the C sum does not wrap. */
  lemma DelayNeverEarly(remaining: u64)
    requires remaining > 0
    ensures remaining <= 1000 * DelayUs(remaining) < remaining + 1000 <==> remaining + 999 <= U64_MAX
  {
  }

  /** A timespec that is non-negative and fits is converted exactly; otherwise a marker results. */
  lemma TimespecExact(ts: Timespec)
    requires 0 <= ts.nsec < 1_000_000_000
    ensures TimespecNs(ts) ==
            if ts.sec < 0 then 0
            else if ts.sec * 1_000_000_000 + ts.nsec <= U64_MAX then ts.sec * 1_000_000_000 + ts.nsec
            else U64_MAX
  {
  }

  /** COMMIT of an armed endpoint is accepted whenever gPTP is ready, the start lies ahead
      and the timer calls succeed. */
  lemma CommitAccepted(s: State, a: Answers)
    requires Inv(s) && s.phase == Armed && s.stagedEpoch == s.activeEpoch
    requires a.scheduleClock.ready && a.timerCreated && a.timerStarted
    requires 0 < TimespecNs(a.scheduleClock.now) < s.armedStart
    ensures var (t, status) := Command(s, CMD_COMMIT, a);
            status == Ok && t.phase == Committed && t.muted && Due(t) && t.timer == Running
  {
  }
}
