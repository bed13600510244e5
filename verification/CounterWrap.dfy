/**
 * Actual runs in which the 32-bit telemetry counters wrap: an endpoint that has opened 2^32 times
 * is rejected although it is open, and one that has missed 2^32 deadlines is accepted.
 */
module CounterWrap {
  import opened Bytes
  import opened EndpointModel
  import opened EndpointSafety
  import opened Acceptance

  const WRAP := 0x1_0000_0000

  // --- Runs as input sequences -------------------------------------------------------------------------

  function After(s: State, inputs: seq<Input>): State
    decreases |inputs|
  {
    if inputs == [] then s else After(Step(s, inputs[0]), inputs[1..])
  }

  function TraceOf(s: State, inputs: seq<Input>): (trace: seq<State>)
    ensures |trace| == |inputs| + 1 && trace[0] == s
    decreases |inputs|
  {
    if inputs == [] then [s] else [s] + TraceOf(Step(s, inputs[0]), inputs[1..])
  }

  lemma {:induction false} TraceIsRun(s: State, inputs: seq<Input>)
    ensures Steps(TraceOf(s, inputs), inputs) && TraceOf(s, inputs)[|inputs|] == After(s, inputs)
    decreases |inputs|
  {
    hide Step;
    if inputs != [] {
      var rest := inputs[1..];
      TraceIsRun(Step(s, inputs[0]), rest);
      var tail := TraceOf(Step(s, inputs[0]), rest);
      forall k | 0 <= k < |inputs| ensures TraceOf(s, inputs)[k + 1] == Step(TraceOf(s, inputs)[k], inputs[k]) {
        if k > 0 {
          assert rest[k - 1] == inputs[k];
        }
      }
    }
  }

  lemma {:induction false} AfterConcat(s: State, a: seq<Input>, b: seq<Input>)
    ensures After(s, a + b) == After(After(s, a), b)
    decreases |a|
  {
    hide Step;
    if a == [] {
      assert a + b == b;
    } else {
      assert (a + b)[1..] == a[1..] + b;
      AfterConcat(Step(s, a[0]), a[1..], b);
    }
  }

  lemma {:induction false} TraceConcat(s: State, a: seq<Input>, b: seq<Input>)
    ensures TraceOf(s, a + b)[..|a| + 1] == TraceOf(s, a)
    decreases |a|
  {
    hide Step;
    if a == [] {
      assert a + b == b;
    } else {
      assert (a + b)[1..] == a[1..] + b;
      TraceConcat(Step(s, a[0]), a[1..], b);
    }
  }

  lemma AfterOne(s: State, i: Input)
    ensures After(s, [i]) == Step(s, i)
  {
    hide Step;
    assert [i][1..] == [];
  }

  // --- One handover of one endpoint ---------------------------------------------------------------------

  const START: u64 := 1_000_000_000

  /** The scheduler reads one second, and so does the deadline callback, if its clock is ready. */
  function AtStart(ready: bool): Answers {
    Answers(Clock(true, Timespec(1, 0)), true, Clock(ready, Timespec(1, 0)), true, false)
  }

  function Command1(command: byte, ready: bool): Input {
    Write(CONTROL_COMMAND, [command], AtStart(ready))
  }

  function Begin(e: u64): seq<Input> {
    [Write(CONTROL_EPOCH, BigEndian(e, 8), AtStart(true))] + [Command1(CMD_MUTE, true)]
  }

  function Assign(): seq<Input> {
    [Write(CONTROL_ROLE0, [0], AtStart(true))] + [Write(CONTROL_ROLE1, [ROLE_UNUSED], AtStart(true))]
    + [Command1(CMD_PREPARE, true)]
  }

  function Arming(): seq<Input> {
    [Write(CONTROL_START, BigEndian(START, 8), AtStart(true))] + [Command1(CMD_ARM, true)]
  }

  /** Epoch `e` up to a COMMIT inside the window, met or missed by the deadline callback. */
  function Cycle(e: u64, met: bool): seq<Input> {
    Begin(e) + Assign() + Arming() + [Command1(CMD_COMMIT, met)]
  }

  predicate SameCounts(s: State, t: State) {
    s.unmuteCount == t.unmuteCount && s.faultCount == t.faultCount
  }

  lemma BeginsMuted(s: State, e: u64)
    requires s.activeEpoch < e
    ensures var t := After(s, Begin(e));
            t.phase == Muted && t.activeEpoch == t.stagedEpoch == e && SameCounts(s, t)
  {
    WordRoundTrip(e);
    var i, j := Write(CONTROL_EPOCH, BigEndian(e, 8), AtStart(true)), Command1(CMD_MUTE, true);
    assert BigEndian(e, 8)[..8] == BigEndian(e, 8);
    AfterConcat(s, [i], [j]);
    AfterOne(s, i);
    AfterOne(Step(s, i), j);
  }

  lemma AssignsRoles(s: State)
    requires s.phase == Muted && s.activeEpoch == s.stagedEpoch != 0
    ensures var t := After(s, Assign());
            t.phase == Prepared && t.activeEpoch == t.stagedEpoch == s.activeEpoch && SameCounts(s, t)
  {
    var i, j := Write(CONTROL_ROLE0, [0], AtStart(true)), Write(CONTROL_ROLE1, [ROLE_UNUSED], AtStart(true));
    var k := Command1(CMD_PREPARE, true);
    AfterConcat(s, [i] + [j], [k]);
    AfterConcat(s, [i], [j]);
    AfterOne(s, i);
    AfterOne(Step(s, i), j);
    AfterOne(Step(Step(s, i), j), k);
  }

  lemma Arms(s: State)
    requires s.phase == Prepared && s.activeEpoch == s.stagedEpoch != 0
    ensures var t := After(s, Arming());
            && t.phase == Armed && t.activeEpoch == t.stagedEpoch == s.activeEpoch && t.armedStart == START
            && SameCounts(s, t)
  {
    WordRoundTrip(START);
    var i, j := Write(CONTROL_START, BigEndian(START, 8), AtStart(true)), Command1(CMD_ARM, true);
    assert BigEndian(START, 8)[..8] == BigEndian(START, 8);
    AfterConcat(s, [i], [j]);
    AfterOne(s, i);
    AfterOne(Step(s, i), j);
  }

  lemma Commits(s: State, met: bool)
    requires s.phase == Armed && s.activeEpoch == s.stagedEpoch != 0 && s.armedStart == START
    ensures var t := After(s, [Command1(CMD_COMMIT, met)]);
            && t.activeEpoch == s.activeEpoch && t.armedStart == START
            && (met ==> !t.muted && t.phase == Committed && t.schedulerUnmute == START
                        && t.unmuteCount == Inc32(s.unmuteCount) && t.faultCount == s.faultCount)
            && (!met ==> t.phase == Fault
                         && t.unmuteCount == s.unmuteCount && t.faultCount == Inc32(s.faultCount))
  {
    AfterOne(s, Command1(CMD_COMMIT, met));
    assert TimespecNs(Timespec(1, 0)) == START;
  }

  /** From any state with a smaller epoch one cycle opens the endpoint, or misses its deadline, once more. */
  lemma CycleCounts(s: State, e: u64, met: bool)
    requires s.activeEpoch < e
    ensures var t := After(s, Cycle(e, met));
            && t.activeEpoch == e && t.armedStart == START
            && (met ==> !t.muted && t.phase == Committed && t.schedulerUnmute == START
                        && t.unmuteCount == Inc32(s.unmuteCount) && t.faultCount == s.faultCount)
            && (!met ==> t.phase == Fault
                         && t.unmuteCount == s.unmuteCount && t.faultCount == Inc32(s.faultCount))
  {
    hide Step, Begin, Assign, Arming, After;
    BeginsMuted(s, e);
    var a := After(s, Begin(e));
    AssignsRoles(a);
    var b := After(a, Assign());
    Arms(b);
    Commits(After(b, Arming()), met);
    AfterConcat(s, Begin(e) + Assign() + Arming(), [Command1(CMD_COMMIT, met)]);
    AfterConcat(s, Begin(e) + Assign(), Arming());
    AfterConcat(s, Begin(e), Assign());
  }

  // --- Many handovers ---------------------------------------------------------------------------------------

  /** Cycles of the epochs 1 to `n`. */
  function Cycles(n: u64, met: bool): seq<Input>
    decreases n
  {
    if n == 0 then [] else Cycles(n - 1, met) + Cycle(n, met)
  }

  lemma {:induction false} CyclesCount(n: u64, met: bool)
    ensures var t := After(Boot(false), Cycles(n, met));
            && t.activeEpoch == n
            && t.unmuteCount == (if met then n % WRAP else 0) && t.faultCount == (if met then 0 else n % WRAP)
            && (met && n > 0 ==> !t.muted && t.armedStart == t.schedulerUnmute == START)
    decreases n
  {
    hide Cycle, After, Step;
    if n == 0 {
      NothingRuns();
    } else {
      CyclesCount(n - 1, met);
      AfterConcat(Boot(false), Cycles(n - 1, met), Cycle(n, met));
      CycleCounts(After(Boot(false), Cycles(n - 1, met)), n, met);
    }
  }

  lemma NothingRuns()
    ensures After(Boot(false), []) == Boot(false)
  {
  }

  /** A run of actual inputs. */
  predicate RunOf(trace: seq<State>, inputs: seq<Input>) {
    IsRun(trace, inputs, false) && |trace| == |inputs| + 1
  }

  /** An endpoint that is open and punctual is rejected: it has opened 2^32 times. */
  lemma WrappedActivationsAreRejected()
    ensures exists trace: seq<State>, inputs: seq<Input> ::
              && RunOf(trace, inputs) && !trace[|inputs|].muted && Unmutes(trace) >= WRAP
              && Check(StatusOf(trace[|inputs|]), DEFAULT_MAX_LATE_US) == Some(NoUnmuteEvent)
  {
    hide Cycles, After, Step, TraceOf;
    var inputs := Cycles(WRAP, true);
    var trace := TraceOf(Boot(false), inputs);
    CyclesCount(WRAP, true);
    TraceIsRun(Boot(false), inputs);
    var n := |inputs|;
    UnmuteCountExact(trace, inputs, false, n);
    assert trace[..n + 1] == trace;
    assert RunOf(trace, inputs);
  }

  lemma {:induction false} FaultsGrow(trace: seq<State>, inputs: seq<Input>, m: nat, n: nat)
    requires |trace| == |inputs| + 1 && m <= n <= |inputs|
    ensures DeadlineFaults(trace[..m + 1], inputs[..m]) <= DeadlineFaults(trace[..n + 1], inputs[..n])
    decreases n
  {
    if m < n {
      FaultsGrow(trace, inputs, m, n - 1);
      assert inputs[..n][..n - 1] == inputs[..n - 1] && trace[..n + 1][..n] == trace[..n];
    }
  }

  /** An endpoint that has missed 2^32 deadlines and then met one is accepted. */
  lemma WrappedFaultsAreAccepted()
    ensures exists trace: seq<State>, inputs: seq<Input> ::
              && RunOf(trace, inputs) && DeadlineFaults(trace, inputs) >= WRAP
              && Check(StatusOf(trace[|inputs|]), DEFAULT_MAX_LATE_US) == None
  {
    hide Cycles, Cycle, After, Step, TraceOf, DeadlineFaults, IsDeadlineFault;
    var most, last := Cycles(WRAP, false), Cycle(WRAP + 1, true);
    var inputs := most + last;
    var boot := Boot(false);
    var trace := TraceOf(boot, inputs);
    CyclesCount(WRAP, false);
    AfterConcat(boot, most, last);
    CycleCounts(After(boot, most), WRAP + 1, true);
    TraceIsRun(boot, inputs);
    var n := |inputs|;
    FaultCountExact(trace, inputs, false, n);
    FirstCycleCounts(trace, inputs);
    RunKeepsInv(trace, inputs, false, n);
    CheckOfState(trace[n], DEFAULT_MAX_LATE_US);
    assert trace[..n + 1] == trace && inputs[..n] == inputs;
    assert RunOf(trace, inputs);
  }

  lemma {:induction false} FirstIsPrefix(n: u64)
    requires n > 0
    ensures |Cycles(1, false)| <= |Cycles(n, false)| && Cycles(n, false)[..|Cycles(1, false)|] == Cycles(1, false)
    decreases n
  {
    hide Cycle;
    if n > 1 {
      FirstIsPrefix(n - 1);
    }
  }

  /** The first cycle of the run misses a deadline. */
  lemma FirstCycleCounts(trace: seq<State>, inputs: seq<Input>)
    requires inputs == Cycles(WRAP, false) + Cycle(WRAP + 1, true) && trace == TraceOf(Boot(false), inputs)
    ensures DeadlineFaults(trace, inputs) > 0
  {
    hide Cycles, Cycle, After, Step, TraceOf, DeadlineFaults, IsDeadlineFault;
    var first := Cycles(1, false);
    var m := |first|;
    FirstIsPrefix(WRAP);
    CyclesCount(1, false);
    TraceIsRun(Boot(false), inputs);
    TraceIsRun(Boot(false), first);
    assert inputs == first + inputs[m..];
    TraceConcat(Boot(false), first, inputs[m..]);
    assert trace[m] == trace[..m + 1][m];
    FaultCountExact(trace, inputs, false, m);
    FaultsGrow(trace, inputs, m, |inputs|);
    assert trace[..|inputs| + 1] == trace && inputs[..|inputs|] == inputs;
  }
}
