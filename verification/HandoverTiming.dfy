/**
 * When a handover succeeds and what it is for: with ready clocks ahead of the start every write is
 * acknowledged, and endpoints that open do so together.
 */
module HandoverTiming {
  import opened Bytes
  import opened Handover
  import opened AemProgram
  import opened EndpointModel
  import opened EndpointSafety
  import opened HandoverExecution

  // --- Opening together ----------------------------------------------------------------------------

  /** The endpoint of module `m` is audible in the epoch of the plan. */
  predicate OpenIn(h: Deployment, sys: System, m: string) {
    && HasEntity(h, m) && EntityOf(h, m) in sys
    && sys[EntityOf(h, m)].activeEpoch == h.plan.epoch && !sys[EntityOf(h, m)].muted
  }

  /** When that endpoint read the clock that opened it. */
  function OpenedAtNs(h: Deployment, sys: System, m: string): u64
    requires OpenIn(h, sys, m)
  {
    sys[EntityOf(h, m)].schedulerUnmute
  }

  /** An endpoint of the handover that is open was opened at the PTP time of the start frame, or at most
      2 ms later. */
  lemma OpenIsOnTime(h: Deployment, sys: System, n: nat, m: string)
    requires n <= |h.plan.commands| && AllReflect(h, sys, n, false) && Addressed(h, m) && OpenIn(h, sys, m)
    ensures PtpTimeForFrame(h.anchor, h.plan.startFrame).Success?
    ensures InWindow(PtpTimeForFrame(h.anchor, h.plan.startFrame).value, OpenedAtNs(h, sys, m))
  {
    hide RolesInstalled, PtpTimeForFrame, CountFor, ValidReading, InWindow;
    assert ModuleReflects(h, sys, n, m, false);
  }

  /** The point of the handover: however far the controller gets, and whatever callbacks run during and
      after, any two endpoints that are open in its epoch opened within 2 ms of one another, each in the
      window of the start frame. */
  lemma OpenTogether(h: Deployment, envelopes: seq<Envelope>, sys: System, slots: seq<Slot>, later: seq<Dispatched>,
                     m: string, n: string)
    requires Compiles(h, envelopes) && Executable(h) && Initial(h, sys)
    requires |slots| <= |ProgramOf(h, envelopes, |envelopes|)| && Addressed(h, m) && Addressed(h, n)
    ensures var writes := ProgramOf(h, envelopes, |envelopes|)[..|slots|];
            && Sendable(writes)
            && var end := Fire(Exec(sys, writes, slots).system, later);
            OpenIn(h, end, m) && OpenIn(h, end, n) ==>
              && -MAX_LATE_NS <= OpenedAtNs(h, end, m) - OpenedAtNs(h, end, n) <= MAX_LATE_NS
              && PtpTimeForFrame(h.anchor, h.plan.startFrame).Success?
              && InWindow(PtpTimeForFrame(h.anchor, h.plan.startFrame).value, OpenedAtNs(h, end, m))
  {
    hide Compiles, Executable, Initial, ProgramOf, Exec, Fire, AllReflect, OpenIn, OpenedAtNs, Addressed;
    var j := ExecutionReflectsPlan(h, envelopes, sys, slots);
    var o := Exec(sys, ProgramOf(h, envelopes, |envelopes|)[..|slots|], slots);
    WeakenClean(h, o.system, j, Quiet(slots) && o.acknowledged == |slots|);
    FireKeeps(h, o.system, later, j, false);
    var end := Fire(o.system, later);
    if OpenIn(h, end, m) && OpenIn(h, end, n) {
      OpenIsOnTime(h, end, j, m);
      OpenIsOnTime(h, end, j, n);
    }
  }

  // --- A timely handover is acknowledged ----------------------------------------------------------------

  /** The scheduler finds a ready clock before the start and its timer calls succeed. */
  predicate Timely(h: Deployment, a: Answers) {
    var start := PtpTimeForFrame(h.anchor, h.plan.startFrame);
    && start.Success? && a.scheduleClock.ready && a.timerCreated && a.timerStarted
    && 0 < TimespecNs(a.scheduleClock.now) < start.value
  }

  /** The deadline of the endpoint is pending and its timer runs. */
  predicate Waiting(s: State) {
    Due(s) && s.timer == Running
  }

  lemma ArmedForCommit(h: Deployment, n: nat, s: State)
    requires Accepts(h.plan, h.bindings) && n < |h.plan.commands| && h.plan.commands[n].Commit?
    requires var c := h.plan.commands[n];
             && EnvelopeError(Translate(c), h.anchor) == None
             && StagedFor(StagedOf(s), Translate(c), h.anchor)
             && Reflects(s, h.plan, h.anchor, h.plan.commands[..n], ModuleOf(c), false)
    ensures Inv(s) && s.phase == Armed && s.stagedEpoch == s.activeEpoch
    ensures PtpTimeForFrame(h.anchor, h.plan.startFrame) == Success(s.armedStart)
  {
    assert CommandError(h.plan, h.bindings, n) == None;
  }

  /** A timely COMMIT, delivered after arbitrary callbacks, is acknowledged. */
  lemma CommitIsAcknowledged(h: Deployment, n: nat, sys: System, w: AemWrite, slot: Slot)
    requires Sound(h) && n < |h.plan.commands| && h.plan.commands[n].Commit?
    requires ReadyFor(h, sys, n, false) && Executes(h, n, w) && Timely(h, slot.answers)
    ensures var o := Exec(sys, [w], [slot]);
            o.acknowledged == 1 && w.target in o.system && Waiting(o.system[w.target])
  {
    var c, m := h.plan.commands[n], ModuleOf(h.plan.commands[n]);
    var now := Fire(sys, slot.callbacks);
    FireKeeps(h, sys, slot.callbacks, n, false);
    assert ModuleReflects(h, now, n, m, false) by {
      assert Addressed(h, m);
    }
    ArmedForCommit(h, n, now[w.target]);
    hide Reflects, AllReflect, Fire, Command, Inv;
    CommitAccepted(now[w.target], slot.answers);
    DeliverCommand(now, w, CMD_COMMIT, slot.answers);
    ExecOne(sys, w, slot);
  }

  /** Every COMMIT among the first `n` commands meets a timely answer. */
  predicate CommitsTimely(h: Deployment, blocks: seq<seq<AemWrite>>, n: nat, slots: seq<Slot>)
    requires n <= |blocks| == |h.plan.commands| && |slots| == |Prog(blocks, n)|
  {
    forall k :: 0 <= k < n && h.plan.commands[k].Commit? ==>
      var i := |Prog(blocks, k + 1)| - 1; 0 <= i < |slots| && Timely(h, slots[i].answers)
  }

  /** All writes of one more command that is a timely COMMIT. */
  lemma TimelyCommitBlock(h: Deployment, n: nat, sys: System, block: seq<AemWrite>, slots: seq<Slot>)
    requires Sound(h) && n < |h.plan.commands| && IsBlock(h, n, block) && |slots| == |block|
    requires AllReflect(h, sys, n, false) && EntityOf(h, ModuleOf(h.plan.commands[n])) in sys
    requires h.plan.commands[n].Commit? && Timely(h, slots[|slots| - 1].answers)
    ensures Sendable(block) && Exec(sys, block, slots).acknowledged == |block|
  {
    var last := |block| - 1;
    var staging, command := block[..last], block[last];
    StagedBlock(h, n, sys, block, slots[..last], false);
    BlockSendable(h, n, block);
    hide AllReflect, Exec, Sound, ReadyFor, IsBlock, Executes, Timely;
    CommitIsAcknowledged(h, n, Exec(sys, staging, slots[..last]).system, command, slots[last]);
    ExecLast(sys, block, slots);
  }

  /** All writes of one more command, its COMMIT timely if it is one. */
  lemma TimelyBlock(h: Deployment, n: nat, sys: System, block: seq<AemWrite>, slots: seq<Slot>)
    requires Sound(h) && n < |h.plan.commands| && !Refusable(h, n) && IsBlock(h, n, block) && |slots| == |block|
    requires AllReflect(h, sys, n, false) && EntityOf(h, ModuleOf(h.plan.commands[n])) in sys
    requires h.plan.commands[n].Commit? ==> Timely(h, slots[|slots| - 1].answers)
    ensures Sendable(block)
    ensures var o := Exec(sys, block, slots); o.acknowledged == |block| && AllReflect(h, o.system, n + 1, false)
  {
    hide AllReflect, Exec, Sound, Refusable, IsBlock, Timely, EntityOf;
    FullBlock(h, n, sys, block, slots, false);
    if h.plan.commands[n].Commit? {
      TimelyCommitBlock(h, n, sys, block, slots);
    }
  }

  /** Every module the first `n` commands take through COMMIT waits for its deadline. */
  ghost predicate AllWaiting(h: Deployment, sys: System, n: nat)
    requires n <= |h.plan.commands|
  {
    forall m :: Addressed(h, m) && CountFor(h.plan.commands[..n], m) >= 4 ==> ModuleWaits(h, sys, m)
  }

  predicate ModuleWaits(h: Deployment, sys: System, m: string) {
    HasEntity(h, m) && EntityOf(h, m) in sys && Waiting(sys[EntityOf(h, m)])
  }

  lemma NoneWaitingYet(h: Deployment, sys: System)
    ensures AllWaiting(h, sys, 0)
  {
  }

  /** Staging without callbacks disturbs no pending deadline. */
  lemma {:induction false} StagingKeepsWaiting(sys: System, e: EntityId, writes: seq<AemWrite>, slots: seq<Slot>)
    requires |slots| == |writes| && Quiet(slots) && e in sys
    requires forall k :: 0 <= k < |writes| ==> IsStaging(writes[k]) && writes[k].target == e
    ensures Sendable(writes)
    ensures var end := Exec(sys, writes, slots).system;
            forall x :: x in sys && Waiting(sys[x]) ==> x in end && Waiting(end[x])
    decreases |writes|
  {
    if writes != [] {
      var (next, ok) := Deliver(sys, writes[0], slots[0].answers);
      StagingIsInert(sys[e], writes[0], slots[0].answers);
      assert Fire(sys, slots[0].callbacks) == sys;
      hide SetControl, IsStaging;
      StagingKeepsWaiting(next, e, writes[1..], slots[1..]);
    }
  }

  /** One more command, without callbacks and with a timely COMMIT, leaves everyone waiting who should. */
  lemma WaitingBlock(h: Deployment, n: nat, sys: System, block: seq<AemWrite>, slots: seq<Slot>)
    requires Sound(h) && n < |h.plan.commands| && !Refusable(h, n) && IsBlock(h, n, block) && |slots| == |block|
    requires AllReflect(h, sys, n, false) && EntityOf(h, ModuleOf(h.plan.commands[n])) in sys
    requires h.plan.commands[n].Commit? ==> Timely(h, slots[|slots| - 1].answers)
    requires Quiet(slots) && AllWaiting(h, sys, n)
    ensures Sendable(block) && AllWaiting(h, Exec(sys, block, slots).system, n + 1)
  {
    var last := |block| - 1;
    var staging, command := block[..last], block[last];
    var e := EntityOf(h, ModuleOf(h.plan.commands[n]));
    StagedBlock(h, n, sys, block, slots[..last], false);
    BlockSendable(h, n, block);
    StagingKeepsWaiting(sys, e, staging, slots[..last]);
    var staged := Exec(sys, staging, slots[..last]).system;
    assert slots[last].callbacks == [];
    if h.plan.commands[n].Commit? {
      CommitIsAcknowledged(h, n, staged, command, slots[last]);
    }
    ExecOne(staged, command, slots[last]);
    ExecLast(sys, block, slots);
    hide Exec, ReadyFor, Refusable, IsBlock, Timely, Waiting, AllReflect, SetControl;
    WaitingAdvances(h, n, sys, Exec(sys, block, slots).system);
  }

  /** One command moves no module but its own, and only a COMMIT completes the protocol. */
  lemma WaitingAdvances(h: Deployment, n: nat, sys: System, end: System)
    requires Sound(h) && n < |h.plan.commands| && AllWaiting(h, sys, n)
    requires HasEntity(h, ModuleOf(h.plan.commands[n]))
    requires var e := EntityOf(h, ModuleOf(h.plan.commands[n]));
             forall x :: x in sys && x != e && Waiting(sys[x]) ==> x in end && Waiting(end[x])
    requires h.plan.commands[n].Commit? ==> ModuleWaits(h, end, ModuleOf(h.plan.commands[n]))
    ensures AllWaiting(h, end, n + 1)
  {
    var before, after, c := h.plan.commands[..n], h.plan.commands[..n + 1], h.plan.commands[n];
    assert after == before + [c];
    assert CommandError(h.plan, h.bindings, n) == None;
    forall m | Addressed(h, m) && CountFor(after, m) >= 4 ensures ModuleWaits(h, end, m) {
      CountForStep(before, c, m);
      if m != ModuleOf(c) {
        assert ModuleWaits(h, sys, m);
        EntitiesDistinct(h, m, ModuleOf(c));
      }
    }
  }

  lemma EntityIsThere(h: Deployment, sys: System, n: nat, k: nat, clean: bool)
    requires n <= |h.plan.commands| && AllReflect(h, sys, n, clean) && k < |h.plan.commands|
    ensures HasEntity(h, ModuleOf(h.plan.commands[k])) && EntityOf(h, ModuleOf(h.plan.commands[k])) in sys
  {
    hide Reflects;
    assert Addressed(h, ModuleOf(h.plan.commands[k]));
    assert ModuleReflects(h, sys, n, ModuleOf(h.plan.commands[k]), clean);
  }

  lemma TimelyPrefix(h: Deployment, blocks: seq<seq<AemWrite>>, n: nat, slots: seq<Slot>)
    requires 0 < n <= |blocks| == |h.plan.commands| && |slots| == |Prog(blocks, n)|
    requires CommitsTimely(h, blocks, n, slots)
    ensures |Prog(blocks, n - 1)| <= |slots|
    ensures CommitsTimely(h, blocks, n - 1, slots[..|Prog(blocks, n - 1)|])
    ensures h.plan.commands[n - 1].Commit? ==> |slots| > 0 && Timely(h, slots[|slots| - 1].answers)
  {
    hide Timely, Prog;
    ProgMonotone(blocks, n - 1, n);
    forall k | 0 <= k < n - 1 && h.plan.commands[k].Commit?
      ensures |Prog(blocks, k + 1)| <= |Prog(blocks, n - 1)|
    {
      ProgMonotone(blocks, k + 1, n - 1);
    }
  }

  /** How a timely run of `n` commands ends. */
  ghost predicate EndsTimely(h: Deployment, n: nat, slots: seq<Slot>, o: Outcome)
    requires n <= |h.plan.commands|
  {
    && o.acknowledged == |slots| && AllReflect(h, o.system, n, false)
    && (Quiet(slots) ==> AllWaiting(h, o.system, n))
  }

  lemma QuietSplits(a: seq<Slot>, b: seq<Slot>)
    ensures Quiet(a + b) <==> Quiet(a) && Quiet(b)
  {
    assert forall k :: 0 <= k < |a| ==> a[k] == (a + b)[k];
    assert forall k :: 0 <= k < |b| ==> b[k] == (a + b)[|a| + k];
  }

  /** One more command after a timely run. */
  lemma TimelyExtension(h: Deployment, n: nat, sys: System, front: seq<AemWrite>, block: seq<AemWrite>,
                        early: seq<Slot>, late: seq<Slot>)
    requires Sound(h) && n < |h.plan.commands| && !Refusable(h, n) && IsBlock(h, n, block)
    requires |early| == |front| && Sendable(front) && |late| == |block| > 0
    requires h.plan.commands[n].Commit? ==> Timely(h, late[|late| - 1].answers)
    requires EndsTimely(h, n, early, Exec(sys, front, early))
    ensures Sendable(front + block)
    ensures EndsTimely(h, n + 1, early + late, Exec(sys, front + block, early + late))
  {
    hide Sound, AllReflect, IsBlock, Refusable, Timely, AllWaiting, Exec, Quiet, EntityOf, HasEntity;
    BlockSendable(h, n, block);
    var first := Exec(sys, front, early);
    EntityIsThere(h, first.system, n, n, false);
    TimelyBlock(h, n, first.system, block, late);
    QuietSplits(early, late);
    if Quiet(early + late) {
      WaitingBlock(h, n, first.system, block, late);
    }
    ExecSplits(sys, front, block, early, late);
  }

  lemma TimelyStep(h: Deployment, blocks: seq<seq<AemWrite>>, n: nat, sys: System, slots: seq<Slot>)
    requires Sound(h) && AreBlocks(h, blocks) && 0 < n <= |blocks| && ExecutableUpTo(h, n)
    requires |Prog(blocks, n - 1)| <= |slots| == |Prog(blocks, n)| && Sendable(Prog(blocks, n - 1))
    requires h.plan.commands[n - 1].Commit? ==> |slots| > 0 && Timely(h, slots[|slots| - 1].answers)
    requires var early := slots[..|Prog(blocks, n - 1)|];
             EndsTimely(h, n - 1, early, Exec(sys, Prog(blocks, n - 1), early))
    ensures Sendable(Prog(blocks, n)) && EndsTimely(h, n, slots, Exec(sys, Prog(blocks, n), slots))
  {
    hide Sound, EndsTimely, IsBlock, Refusable, Timely, Exec;
    var q, block := Prog(blocks, n - 1), blocks[n - 1];
    var early, late := slots[..|q|], slots[|q|..];
    ProgGrows(blocks, n - 1);
    BlockLength(h, blocks, n - 1);
    assert late[|late| - 1] == slots[|slots| - 1] && slots == early + late;
    TimelyExtension(h, n - 1, sys, q, block, early, late);
  }

  /** The first `n` commands, sent in full with timely commits, are acknowledged in full. */
  lemma {:induction false} TimelyRun(h: Deployment, blocks: seq<seq<AemWrite>>, n: nat, sys: System, slots: seq<Slot>)
    requires Sound(h) && AreBlocks(h, blocks) && n <= |blocks| && ExecutableUpTo(h, n)
    requires |slots| == |Prog(blocks, n)| && AllReflect(h, sys, 0, false) && CommitsTimely(h, blocks, n, slots)
    ensures Sendable(Prog(blocks, n)) && EndsTimely(h, n, slots, Exec(sys, Prog(blocks, n), slots))
    decreases n
  {
    hide Sound, AllReflect, IsBlock, Refusable, Timely, CommitsTimely, AllWaiting;
    ProgSendable(h, blocks, n);
    if n == 0 {
      NoneWaitingYet(h, sys);
      assert Prog(blocks, 0) == [];
      assert Exec(sys, Prog(blocks, 0), slots) == Outcome(sys, 0);
    } else {
      hide Exec, EndsTimely;
      TimelyPrefix(h, blocks, n, slots);
      TimelyRun(h, blocks, n - 1, sys, slots[..|Prog(blocks, n - 1)|]);
      TimelyStep(h, blocks, n, sys, slots);
    }
  }

  /** The COMMIT writes of the program are the last writes of the COMMIT commands. */
  lemma CommitWrites(h: Deployment, blocks: seq<seq<AemWrite>>, n: nat, slots: seq<Slot>)
    requires AreBlocks(h, blocks) && n <= |blocks| && |Prog(blocks, n)| <= |slots| <= |Prog(blocks, |blocks|)|
    requires forall i :: 0 <= i < |slots| && IsCommitWrite(Prog(blocks, |blocks|)[i]) ==> Timely(h, slots[i].answers)
    ensures CommitsTimely(h, blocks, n, slots[..|Prog(blocks, n)|])
  {
    hide IsBlock, IsCommitWrite, Timely, Prog;
    forall k | 0 <= k < n && h.plan.commands[k].Commit?
      ensures var i := |Prog(blocks, k + 1)| - 1; 0 <= i < |Prog(blocks, n)| && Timely(h, slots[i].answers)
    {
      BlockLength(h, blocks, k);
      ProgMonotone(blocks, k + 1, n);
      ProgPrefix(blocks, k + 1, |blocks|);
      ProgGrows(blocks, k);
      BlockEnd(h, k, blocks[k]);
      var i := |Prog(blocks, k + 1)| - 1;
      assert Prog(blocks, |blocks|)[i] == Prog(blocks, k + 1)[i] == blocks[k][|blocks[k]| - 1];
    }
  }

  /** No write is refused before the end of a timely prefix. */
  lemma PrefixAcknowledged(sys: System, writes: seq<AemWrite>, slots: seq<Slot>, n: nat)
    requires |slots| == |writes| && Sendable(writes) && n <= |writes|
    ensures Sendable(writes[..n])
    ensures Exec(sys, writes[..n], slots[..n]).acknowledged == n ==> n <= Exec(sys, writes, slots).acknowledged
  {
    hide Exec;
    assert writes == writes[..n] + writes[n..] && slots == slots[..n] + slots[n..];
    ExecSplits(sys, writes[..n], writes[n..], slots[..n], slots[n..]);
  }

  lemma AnyTimelyCut(h: Deployment, blocks: seq<seq<AemWrite>>, sys: System, slots: seq<Slot>)
    requires Sound(h) && AreBlocks(h, blocks) && Executable(h) && AllReflect(h, sys, 0, false)
    requires |slots| <= |Prog(blocks, |blocks|)|
    requires forall i :: 0 <= i < |slots| && IsCommitWrite(Prog(blocks, |blocks|)[i]) ==> Timely(h, slots[i].answers)
    ensures var writes := Prog(blocks, |blocks|)[..|slots|];
            Sendable(writes) && Exec(sys, writes, slots).acknowledged == |slots|
  {
    hide Sound, IsBlock, AllReflect, Refusable, Timely, IsCommitWrite, Exec, EndsTimely, CommitsTimely, Prog;
    var n := |blocks|;
    var j := ProgramRun(h, blocks, n, sys, slots, false);
    var writes := Prog(blocks, n)[..|slots|];
    var done := |Prog(blocks, j)|;
    ProgPrefix(blocks, j, n);
    assert writes[..done] == Prog(blocks, j);
    CommitWrites(h, blocks, j, slots);
    TimelyRun(h, blocks, j, sys, slots[..done]);
    PrefixAcknowledged(sys, writes, slots, done);
    TimelyMeans(h, j, slots[..done], Exec(sys, writes[..done], slots[..done]));
  }

  lemma TimelyMeans(h: Deployment, n: nat, slots: seq<Slot>, o: Outcome)
    requires n <= |h.plan.commands| && EndsTimely(h, n, slots, o)
    ensures o.acknowledged == |slots|
  {
  }

  lemma WaitingAtTheEnd(h: Deployment, sys: System)
    requires Accepts(h.plan, h.bindings) && AllWaiting(h, sys, |h.plan.commands|)
    ensures forall m, k :: Issues(h, k, m, 3) ==> ModuleWaits(h, sys, m)
  {
    hide ModuleWaits, Accepts, CountFor;
    var n := |h.plan.commands|;
    assert h.plan.commands[..n] == h.plan.commands;
    forall m, k | Issues(h, k, m, 3) ensures ModuleWaits(h, sys, m) {
      CountMeansRanks(h, n, m, k, 3);
      assert Addressed(h, m);
    }
  }

  /** A timely run in full and without callbacks. */
  lemma TimelyAndQuiet(h: Deployment, blocks: seq<seq<AemWrite>>, sys: System, slots: seq<Slot>)
    requires Sound(h) && AreBlocks(h, blocks) && Executable(h) && AllReflect(h, sys, 0, false) && Quiet(slots)
    requires |slots| == |Prog(blocks, |blocks|)|
    requires forall i :: 0 <= i < |slots| && IsCommitWrite(Prog(blocks, |blocks|)[i]) ==> Timely(h, slots[i].answers)
    ensures Sendable(Prog(blocks, |blocks|))
    ensures var end := Exec(sys, Prog(blocks, |blocks|), slots).system;
            forall m, k :: Issues(h, k, m, 3) ==> ModuleWaits(h, end, m)
  {
    hide IsBlock, AllReflect, Refusable, Timely, IsCommitWrite, Exec, CommitsTimely, Prog, ModuleWaits, Issues, Quiet;
    CommitWrites(h, blocks, |blocks|, slots);
    assert slots[..|slots|] == slots;
    TimelyRun(h, blocks, |blocks|, sys, slots);
    WaitingAtTheEnd(h, Exec(sys, Prog(blocks, |blocks|), slots).system);
  }

  /** When every COMMIT finds a ready clock before the start frame and working timer calls, every write of an
      executable compiled handover is acknowledged, whatever callbacks run in between. Without
      callbacks every committed endpoint then waits for the common deadline. */
  lemma TimelyHandover(h: Deployment, envelopes: seq<Envelope>, sys: System, slots: seq<Slot>)
    requires Compiles(h, envelopes) && Executable(h) && Initial(h, sys)
    requires |slots| <= |ProgramOf(h, envelopes, |envelopes|)|
    requires forall i :: 0 <= i < |slots| && IsCommitWrite(ProgramOf(h, envelopes, |envelopes|)[i]) ==>
               Timely(h, slots[i].answers)
    ensures var writes := ProgramOf(h, envelopes, |envelopes|)[..|slots|];
            Sendable(writes) && Exec(sys, writes, slots).acknowledged == |slots|
    ensures var writes := ProgramOf(h, envelopes, |envelopes|);
            |slots| == |writes| && Quiet(slots) ==>
              && Sendable(writes)
              && forall m, k :: Issues(h, k, m, 3) ==> ModuleWaits(h, Exec(sys, writes, slots).system, m)
  {
    var n := |envelopes|;
    var blocks := CompiledBlocks(h, envelopes, n);
    InitiallyReflects(h, envelopes, sys, false);
    CompilesIsSound(h, envelopes);
    hide *;
    AnyTimelyCut(h, blocks, sys, slots);
    if |slots| == |Prog(blocks, n)| && Quiet(slots) {
      assert Prog(blocks, n)[..|slots|] == Prog(blocks, n);
      TimelyAndQuiet(h, blocks, sys, slots);
    }
  }
}
