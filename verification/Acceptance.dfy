/** The endpoint and scheduler checks of a physical module trial, and what the firmware can present to them. */
module Acceptance {
  import opened Bytes
  import opened EndpointModel
  import opened EndpointSafety

  /** The endpoint evidence the firmware copies into its status, as the correlator reads it. */
  datatype Evidence = Evidence(
    requested: int, scheduler: int, unmuteCount: int, faultCount: int,
    phase: int, muted: bool, role0: int, role1: int)

  function PhaseCode(p: Phase): int {
    match p
    case BootMuted => 0
    case Muted => 1
    case Prepared => 2
    case Armed => 3
    case Committed => 4
    case Fault => 5
  }

  function StatusOf(s: State): Evidence {
    Evidence(s.armedStart, s.schedulerUnmute, s.unmuteCount, s.faultCount,
             PhaseCode(s.phase), s.muted, s.activeRole0, s.activeRole1)
  }

  datatype Rejection =
    | NegativeLimit | NoActivationTiming | NoUnmuteEvent | FaultsReported
    | NotCommittedUnmuted | BadRole0 | BadRole1 | BeforeDeadline | TooLate

  /** The checks in the order the correlator makes them. */
  function Check(e: Evidence, maxLateUs: int): Option<Rejection> {
    if maxLateUs < 0 then Some(NegativeLimit)
    else if e.requested <= 0 || e.scheduler <= 0 then Some(NoActivationTiming)
    else if e.unmuteCount <= 0 then Some(NoUnmuteEvent)
    else if e.faultCount != 0 then Some(FaultsReported)
    else if e.phase != 4 || e.muted then Some(NotCommittedUnmuted)
    else if !(0 <= e.role0 <= 11) then Some(BadRole0)
    else if e.role1 != 0xFF && !(0 <= e.role1 <= 11) then Some(BadRole1)
    else if e.scheduler - e.requested < 0 then Some(BeforeDeadline)
    else if e.scheduler - e.requested > maxLateUs * 1000 then Some(TooLate)
    else None
  }

  const DEFAULT_MAX_LATE_US := 2000

  lemma CheckOfState(s: State, maxLateUs: nat)
    requires Inv(s)
    ensures Check(StatusOf(s), maxLateUs).None? <==>
            !s.muted && s.faultCount == 0 && s.unmuteCount != 0 && s.schedulerUnmute - s.armedStart <= 1000 * maxLateUs
    ensures Check(StatusOf(s), DEFAULT_MAX_LATE_US) !in
              {Some(BeforeDeadline), Some(TooLate), Some(BadRole0), Some(BadRole1)}
    ensures !s.muted ==> s.schedulerUnmute - s.armedStart <= 1000 * DEFAULT_MAX_LATE_US
  {
  }

  /** A reachable endpoint passes exactly when its output is open, it was punctual, and neither 32-bit
      counter misleads: its deadline faults are a multiple of 2^32 (none, as a rule) and its activations
      are not. */
  lemma PassesExactly(trace: seq<State>, inputs: seq<Input>, board: bool, n: nat, maxLateUs: nat)
    requires IsRun(trace, inputs, board) && n < |trace|
    ensures Check(StatusOf(trace[n]), maxLateUs).None? <==>
            && !trace[n].muted
            && DeadlineFaults(trace[..n + 1], inputs[..n]) % 0x1_0000_0000 == 0
            && Unmutes(trace[..n + 1]) % 0x1_0000_0000 != 0
            && trace[n].schedulerUnmute - trace[n].armedStart <= 1000 * maxLateUs
  {
    RunKeepsInv(trace, inputs, board, n);
    UnmuteCountExact(trace, inputs, board, n);
    FaultCountExact(trace, inputs, board, n);
    hide *;
    CheckOfState(trace[n], maxLateUs);
  }

  /** At the default limit punctuality is never the reason for a rejection: an open endpoint that never
      missed a deadline passes, until its activations reach 2^32. */
  lemma DefaultLimitIsTheFirmwareWindow(trace: seq<State>, inputs: seq<Input>, board: bool, n: nat)
    requires IsRun(trace, inputs, board) && n < |trace|
    ensures Check(StatusOf(trace[n]), DEFAULT_MAX_LATE_US) !in
              {Some(BeforeDeadline), Some(TooLate), Some(BadRole0), Some(BadRole1)}
    ensures (!trace[n].muted && DeadlineFaults(trace[..n + 1], inputs[..n]) == 0
             && Unmutes(trace[..n + 1]) < 0x1_0000_0000) ==>
              Check(StatusOf(trace[n]), DEFAULT_MAX_LATE_US) == None
  {
    RunKeepsInv(trace, inputs, board, n);
    UnmuteCountExact(trace, inputs, board, n);
    FaultCountExact(trace, inputs, board, n);
    hide *;
    CheckOfState(trace[n], DEFAULT_MAX_LATE_US);
  }
}
