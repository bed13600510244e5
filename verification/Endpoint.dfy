/**
 * The firmware's own form: one control block and one deadline timer whose
 * fields each command or timer dispatch updates in place.
 */
module Endpoint {
  import opened Bytes
  import M = EndpointModel

  class Endpoint {
    var stagedEpoch: u64
    var stagedRole0: byte
    var stagedRole1: byte
    var stagedStart: u64
    var lastCommand: byte
    var activeEpoch: u64
    var activeRole0: byte
    var activeRole1: byte
    var armedStart: u64
    var phase: M.Phase
    var muted: bool
    var schedulerUnmute: u64
    var unmuteCount: u32
    var faultCount: u32
    var timer: M.Timer
    var pending: bool
    var pendingEpoch: u64
    var outputMuted: bool

    function View(): M.State
      reads this
    {
      M.State(stagedEpoch, stagedRole0, stagedRole1, stagedStart, lastCommand,
              activeEpoch, activeRole0, activeRole1, armedStart, phase, muted,
              schedulerUnmute, unmuteCount, faultCount, timer, pending, pendingEpoch, outputMuted)
    }

    constructor (boardLevel: bool)
      ensures View() == M.Boot(boardLevel)
    {
      stagedEpoch, stagedStart, activeEpoch, armedStart := 0, 0, 0, 0;
      stagedRole0, stagedRole1 := M.ROLE_UNUSED, M.ROLE_UNUSED;
      activeRole0, activeRole1 := M.ROLE_UNUSED, M.ROLE_UNUSED;
      lastCommand := 0;
      phase, muted := M.BootMuted, true;
      schedulerUnmute, unmuteCount, faultCount := 0, 0, 0;
      timer, pending, pendingEpoch := M.NotCreated, false, 0;
      outputMuted := boardLevel;
    }

    method CancelDeadline()
      modifies this
      ensures View() == M.Cancel(old(View()))
    {
      if timer != M.NotCreated {
        timer := M.Idle;
      }
      pending := false;
      pendingEpoch := 0;
      outputMuted := true;
    }

    method Fail() returns (status: M.Status)
      modifies this
      ensures View() == M.FailClosed(old(View())) && status == M.BadArguments
    {
      CancelDeadline();
      phase := M.Fault;
      muted := true;
      status := M.BadArguments;
    }

    method DeadlineFault()
      modifies this
      ensures View() == M.DeadlineFault(old(View()))
    {
      CancelDeadline();
      phase := M.Fault;
      muted := true;
      faultCount := Inc32(faultCount);
    }

    method UnmuteDeadline(clock: M.Clock, started: bool)
      modifies this
      ensures View() == M.Deadline(old(View()), clock, started)
    {
      hide M.DeadlineFault, M.TimespecNs, Inc32;
      if !pending || phase != M.Committed || activeEpoch != pendingEpoch || armedStart == 0 || !muted {
        return;
      }
      if !clock.ready {
        DeadlineFault();
        return;
      }
      var now := M.TimespecNs(clock.now);
      if now == 0 || now == U64_MAX {
        DeadlineFault();
        return;
      }
      if now < armedStart {
        if started {
          timer := M.Running;
        } else {
          DeadlineFault();
        }
        return;
      }
      var late := now - armedStart;
      if late > M.MAX_LATE_NS {
        DeadlineFault();
        return;
      }
      muted := false;
      schedulerUnmute := now;
      unmuteCount := Inc32(unmuteCount);
      outputMuted := false;
      pending := false;
      pendingEpoch := 0;
    }

    /** The timer task dispatches the deadline callback. */
    method TimerDispatch(a: M.Answers)
      modifies this
      ensures View() == M.Callback(old(View()), a)
    {
      if timer == M.NotCreated {
        return;
      }
      if !a.stale {
        timer := M.Idle;
      }
      UnmuteDeadline(a.deadlineClock, a.timerStarted);
    }

    method ScheduleUnmute(a: M.Answers) returns (accepted: bool)
      modifies this
      ensures (View(), accepted) == M.Schedule(old(View()), a)
    {
      if !a.scheduleClock.ready || armedStart == 0 {
        return false;
      }
      var now := M.TimespecNs(a.scheduleClock.now);
      if now == 0 || now == U64_MAX {
        return false;
      }
      if timer == M.NotCreated {
        if !a.timerCreated {
          return false;
        }
        timer := M.Idle;
      } else {
        timer := M.Idle;
      }
      schedulerUnmute := 0;
      pending := true;
      pendingEpoch := activeEpoch;
      outputMuted := true;
      if now >= armedStart {
        var late := now - armedStart;
        if late > M.MAX_LATE_NS {
          return false;
        }
        UnmuteDeadline(a.deadlineClock, a.timerStarted);
        return !muted;
      }
      if a.timerStarted {
        timer := M.Running;
      }
      return a.timerStarted;
    }

    predicate StagedRolesValid()
      reads this
    {
      if stagedRole0 > 11 then false
      else if stagedRole1 != M.ROLE_UNUSED && stagedRole1 > 11 then false
      else if stagedRole1 != M.ROLE_UNUSED && stagedRole1 == stagedRole0 then false
      else true
    }

    method BeginEpoch()
      modifies this`activeEpoch, this`activeRole0, this`activeRole1, this`armedStart, this`schedulerUnmute,
               this`phase, this`muted
      ensures View() == old(View()).(activeEpoch := old(stagedEpoch), activeRole0 := M.ROLE_UNUSED,
                                     activeRole1 := M.ROLE_UNUSED, armedStart := 0, schedulerUnmute := 0,
                                     phase := M.Muted, muted := true)
    {
      activeEpoch := stagedEpoch;
      activeRole0, activeRole1 := M.ROLE_UNUSED, M.ROLE_UNUSED;
      armedStart := 0;
      schedulerUnmute := 0;
      phase, muted := M.Muted, true;
    }

    method Mute() returns (status: M.Status)
      modifies this
      ensures (View(), status) == M.MuteCommand(old(View()))
    {
      if stagedEpoch == 0 || stagedEpoch < activeEpoch {
        status := Fail();
        return;
      }
      if phase == M.Fault && stagedEpoch <= activeEpoch {
        status := Fail();
        return;
      }
      BeginEpoch();
      CancelDeadline();
      lastCommand := M.CMD_MUTE;
      status := M.Ok;
    }

    method Prepare() returns (status: M.Status)
      modifies this
      ensures (View(), status) == M.PrepareCommand(old(View()))
    {
      if !StagedRolesValid() {
        status := Fail();
        return;
      }
      if !(phase == M.Prepared && activeRole0 == stagedRole0 && activeRole1 == stagedRole1) {
        if phase != M.Muted {
          status := Fail();
          return;
        }
        activeRole0, activeRole1 := stagedRole0, stagedRole1;
        phase, muted := M.Prepared, true;
      }
      lastCommand := M.CMD_PREPARE;
      status := M.Ok;
    }

    method Arm() returns (status: M.Status)
      modifies this
      ensures (View(), status) == M.ArmCommand(old(View()))
    {
      if stagedStart == 0 {
        status := Fail();
        return;
      }
      if !(phase == M.Armed && armedStart == stagedStart) {
        if phase != M.Prepared {
          status := Fail();
          return;
        }
        armedStart := stagedStart;
        phase, muted := M.Armed, true;
      }
      lastCommand := M.CMD_ARM;
      status := M.Ok;
    }

    method Commit(a: M.Answers) returns (status: M.Status)
      modifies this
      ensures (View(), status) == M.CommitCommand(old(View()), a)
    {
      if phase != M.Committed {
        if phase != M.Armed {
          status := Fail();
          return;
        }
        phase, muted := M.Committed, true;
        var accepted := ScheduleUnmute(a);
        if !accepted {
          status := Fail();
          return;
        }
      }
      lastCommand := M.CMD_COMMIT;
      status := M.Ok;
    }

    method Stop() returns (status: M.Status)
      modifies this
      ensures (View(), status) == M.StopCommand(old(View()))
    {
      if phase == M.Fault {
        status := Fail();
        return;
      }
      phase, muted := M.Muted, true;
      armedStart := 0;
      CancelDeadline();
      lastCommand := M.CMD_STOP;
      status := M.Ok;
    }

    method ApplyCommand(command: byte, a: M.Answers) returns (status: M.Status)
      modifies this
      ensures (View(), status) == M.Command(old(View()), command, a)
    {
      if command == M.CMD_MUTE {
        status := Mute();
        return;
      }
      if stagedEpoch == 0 || stagedEpoch != activeEpoch {
        status := Fail();
        return;
      }
      match command {
        case 2 => status := Prepare();
        case 3 => status := Arm();
        case 4 => status := Commit(a);
        case 5 => status := Stop();
        case _ => status := Fail();
      }
    }

    method SetControl(index: u16, values: seq<byte>, a: M.Answers) returns (status: M.Status)
      modifies this
      ensures (View(), status) == M.SetControl(old(View()), index, values, a)
    {
      var len := M.ValueLength(index);
      if len == 0 {
        return M.NoSuchDescriptor;
      }
      if |values| < len {
        return M.BadArguments;
      }
      match index {
        case 3 => stagedEpoch := Word64(values[..8]);
        case 4 => stagedRole0 := values[0];
        case 5 => stagedRole1 := values[0];
        case 6 => stagedStart := Word64(values[..8]);
        case 7 => status := ApplyCommand(values[0], a); return;
        case _ => return M.Upstream;
      }
      return M.Ok;
    }
  }
}
