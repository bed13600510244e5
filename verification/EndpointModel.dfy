/**
 * State and transition function of one detachable endpoint, as the firmware
 * stands after the AEM-endpoint, PTP-deadline and telemetry patches. Every
 * answer of a clock, of the gPTP status and of the one-shot timer API is an
 * arbitrary input.
 */
module EndpointModel {
  import opened Bytes

  const ROLE_UNUSED: byte := 0xFF
  const MAX_LATE_NS := 2_000_000

  const CMD_MUTE: byte := 1
  const CMD_PREPARE: byte := 2
  const CMD_ARM: byte := 3
  const CMD_COMMIT: byte := 4
  const CMD_STOP: byte := 5

  const CONTROL_EPOCH: u16 := 3
  const CONTROL_ROLE0: u16 := 4
  const CONTROL_ROLE1: u16 := 5
  const CONTROL_START: u16 := 6
  const CONTROL_COMMAND: u16 := 7

  datatype Phase = BootMuted | Muted | Prepared | Armed | Committed | Fault

  datatype Timer = NotCreated | Idle | Running

  /** AECP status; `Upstream` stands for controls 0-2, which the Aurora patch leaves alone. */
  datatype Status = Ok | NoSuchDescriptor | BadArguments | Upstream

  type int64 = x: int | -0x8000_0000_0000_0000 <= x < 0x8000_0000_0000_0000
  type int32 = x: int | -0x8000_0000 <= x < 0x8000_0000

  datatype Timespec = Timespec(sec: int64, nsec: int32)

  /** One look at the gPTP status followed by one clock reading. */
  datatype Clock = Clock(ready: bool, now: Timespec)

  /** Everything the outside world may answer while one write or callback runs. */
  datatype Answers = Answers(
    scheduleClock: Clock,   // seen by the scheduler on COMMIT
    timerCreated: bool,     // esp_timer_create succeeded
    deadlineClock: Clock,   // seen by the deadline callback
    timerStarted: bool,     // esp_timer_start_once succeeded
    stale: bool             // a callback dispatched although its timer was stopped meanwhile
  )

  datatype State = State(
    stagedEpoch: u64, stagedRole0: byte, stagedRole1: byte, stagedStart: u64, lastCommand: byte,
    activeEpoch: u64, activeRole0: byte, activeRole1: byte, armedStart: u64,
    phase: Phase, muted: bool,
    schedulerUnmute: u64, unmuteCount: u32, faultCount: u32,
    timer: Timer, pending: bool, pendingEpoch: u64,
    outputMuted: bool       // last level driven on the board's mute hook
  )

  /** Boot: the control block is fail-closed, the board hook has not been driven yet. */
  function Boot(boardLevel: bool): State {
    State(0, ROLE_UNUSED, ROLE_UNUSED, 0, 0, 0, ROLE_UNUSED, ROLE_UNUSED, 0,
          BootMuted, true, 0, 0, 0, NotCreated, false, 0, boardLevel)
  }

  function StopTimer(t: Timer): Timer {
    if t.NotCreated? then NotCreated else Idle
  }

  /** Nanoseconds of a timespec; 0 marks a negative reading, U64_MAX one that does not fit. */
  function TimespecNs(ts: Timespec): (ns: u64) {
    if ts.sec < 0 || ts.nsec < 0 then 0
    else if ts.sec > (U64_MAX - ts.nsec) / 1_000_000_000 then U64_MAX
    else ts.sec * 1_000_000_000 + ts.nsec
  }

  predicate ValidReading(ns: u64) {
    ns != 0 && ns != U64_MAX
  }

  predicate RolesLegal(role0: byte, role1: byte) {
    role0 <= 11 && (role1 == ROLE_UNUSED || (role1 <= 11 && role1 != role0))
  }

  function Cancel(s: State): State {
    s.(timer := StopTimer(s.timer), pending := false, pendingEpoch := 0, outputMuted := true)
  }

  /** Fail-closed: no deadline survives, the output is muted, the phase is Fault. */
  function FailClosed(s: State): State {
    Cancel(s).(phase := Fault, muted := true)
  }

  function DeadlineFault(s: State): State {
    FailClosed(s).(faultCount := Inc32(s.faultCount))
  }

  /** The callback only acts on the deadline it was armed for. */
  predicate Due(s: State) {
    s.pending && s.phase == Committed && s.activeEpoch == s.pendingEpoch && s.armedStart != 0 && s.muted
  }

  /** The reading `now` lies in the activation window of a deadline at `start`. */
  predicate InWindow(start: u64, now: u64) {
    start <= now <= start + MAX_LATE_NS
  }

  function Unmute(s: State, now: u64): State {
    s.(muted := false, schedulerUnmute := now, unmuteCount := Inc32(s.unmuteCount),
       outputMuted := false, pending := false, pendingEpoch := 0)
  }

  function Deadline(s: State, clock: Clock, started: bool): State {
    var now := TimespecNs(clock.now);
    if !Due(s) then s
    else if !clock.ready || !ValidReading(now) then DeadlineFault(s)
    else if InWindow(s.armedStart, now) then Unmute(s, now)
    else if now < s.armedStart && started then s.(timer := Running)
    else DeadlineFault(s)
  }

  /** A timer dispatch. A timer that was never created cannot call back. */
  function Callback(s: State, a: Answers): State {
    if s.timer.NotCreated? then s
    else Deadline(if a.stale then s else s.(timer := Idle), a.deadlineClock, a.timerStarted)
  }

  /** The state the scheduler leaves, and whether it accepted the deadline. */
  function Schedule(s: State, a: Answers): (State, bool) {
    var now := TimespecNs(a.scheduleClock.now);
    if !a.scheduleClock.ready || s.armedStart == 0 || !ValidReading(now) then (s, false)
    else if s.timer.NotCreated? && !a.timerCreated then (s, false)
    else
      var p := s.(timer := Idle, schedulerUnmute := 0, pending := true,
                  pendingEpoch := s.activeEpoch, outputMuted := true);
      if now < p.armedStart then
        if a.timerStarted then (p.(timer := Running), true) else (p, false)
      else if InWindow(p.armedStart, now) then
        var d := Deadline(p, a.deadlineClock, a.timerStarted);
        (d, !d.muted)
      else (p, false)
  }

  function MuteCommand(s: State): (State, Status) {
    if s.stagedEpoch != 0 && s.activeEpoch <= s.stagedEpoch && (s.phase == Fault ==> s.activeEpoch < s.stagedEpoch) then
      (Cancel(s.(activeEpoch := s.stagedEpoch, activeRole0 := ROLE_UNUSED, activeRole1 := ROLE_UNUSED,
                 armedStart := 0, schedulerUnmute := 0, phase := Muted, muted := true, lastCommand := CMD_MUTE)), Ok)
    else (FailClosed(s), BadArguments)
  }

  function PrepareCommand(s: State): (State, Status) {
    if !RolesLegal(s.stagedRole0, s.stagedRole1) then (FailClosed(s), BadArguments)
    else if s.phase == Prepared && s.activeRole0 == s.stagedRole0 && s.activeRole1 == s.stagedRole1 then
      (s.(lastCommand := CMD_PREPARE), Ok)
    else if s.phase == Muted then
      (s.(activeRole0 := s.stagedRole0, activeRole1 := s.stagedRole1, phase := Prepared, muted := true,
          lastCommand := CMD_PREPARE), Ok)
    else (FailClosed(s), BadArguments)
  }

  function ArmCommand(s: State): (State, Status) {
    if s.stagedStart == 0 then (FailClosed(s), BadArguments)
    else if s.phase == Armed && s.armedStart == s.stagedStart then (s.(lastCommand := CMD_ARM), Ok)
    else if s.phase == Prepared then
      (s.(armedStart := s.stagedStart, phase := Armed, muted := true, lastCommand := CMD_ARM), Ok)
    else (FailClosed(s), BadArguments)
  }

  function CommitCommand(s: State, a: Answers): (State, Status) {
    if s.phase == Committed then (s.(lastCommand := CMD_COMMIT), Ok)
    else if s.phase != Armed then (FailClosed(s), BadArguments)
    else
      var (d, accepted) := Schedule(s.(phase := Committed, muted := true), a);
      if accepted then (d.(lastCommand := CMD_COMMIT), Ok) else (FailClosed(d), BadArguments)
  }

  function StopCommand(s: State): (State, Status) {
    if s.phase == Fault then (FailClosed(s), BadArguments)
    else (Cancel(s.(phase := Muted, muted := true, armedStart := 0, lastCommand := CMD_STOP)), Ok)
  }

  /** The COMMAND control: the only write that moves the phase. */
  function Command(s: State, command: byte, a: Answers): (State, Status) {
    if command == CMD_MUTE then MuteCommand(s)
    else if s.stagedEpoch == 0 || s.stagedEpoch != s.activeEpoch then (FailClosed(s), BadArguments)
    else if command == CMD_PREPARE then PrepareCommand(s)
    else if command == CMD_ARM then ArmCommand(s)
    else if command == CMD_COMMIT then CommitCommand(s, a)
    else if command == CMD_STOP then StopCommand(s)
    else (FailClosed(s), BadArguments)
  }

  /** Value octets of each control descriptor; 0 means there is no such descriptor. */
  function ValueLength(index: u16): nat {
    if index in {0, 4, 5, 7} then 1
    else if index in {1, 2} then 2
    else if index in {3, 6} then 8
    else 0
  }

  /** One SET_CONTROL carrying `values`; octets past the descriptor's length are ignored. */
  function SetControl(s: State, index: u16, values: seq<byte>, a: Answers): (State, Status) {
    var len := ValueLength(index);
    if len == 0 then (s, NoSuchDescriptor)
    else if |values| < len then (s, BadArguments)
    else if index == CONTROL_EPOCH then (s.(stagedEpoch := Word64(values[..8])), Ok)
    else if index == CONTROL_ROLE0 then (s.(stagedRole0 := values[0]), Ok)
    else if index == CONTROL_ROLE1 then (s.(stagedRole1 := values[0]), Ok)
    else if index == CONTROL_START then (s.(stagedStart := Word64(values[..8])), Ok)
    else if index == CONTROL_COMMAND then Command(s, values[0], a)
    else (s, Upstream)
  }

  /** Atomic steps of the firmware: a control write or a timer dispatch. */
  datatype Input = Write(index: u16, values: seq<byte>, answers: Answers) | Dispatch(answers: Answers)

  function Step(s: State, i: Input): State {
    match i
    case Write(index, values, a) => SetControl(s, index, values, a).0
    case Dispatch(a) => Callback(s, a)
  }

  /** `trace` lists the states a run visits, one more than it has inputs. */
  predicate Steps(trace: seq<State>, inputs: seq<Input>) {
    && |trace| == |inputs| + 1
    && forall k {:trigger inputs[k]} :: 0 <= k < |inputs| ==> trace[k + 1] == Step(trace[k], inputs[k])
  }

  /** A run of the firmware from boot, the board's mute line at an arbitrary level. */
  predicate IsRun(trace: seq<State>, inputs: seq<Input>, boardLevel: bool) {
    Steps(trace, inputs) && trace[0] == Boot(boardLevel)
  }
}
