/**
 * What becomes of a handover the host compiles although an endpoint must refuse it: a module
 * given one role twice, or armed with the activation time 0.
 */
module HandoverRefusal {
  import opened Bytes
  import opened Handover
  import opened AemProgram
  import opened EndpointModel
  import opened EndpointSafety
  import opened HandoverExecution

  /** Command `b` is the first one an endpoint must refuse. */
  predicate FirstRefusable(h: Deployment, b: nat) {
    b < |h.plan.commands| && Refusable(h, b) && ExecutableUpTo(h, b)
  }

  /** The endpoint of command `n` has failed closed. */
  predicate Faulted(h: Deployment, n: nat, sys: System)
    requires n < |h.plan.commands|
  {
    var m := ModuleOf(h.plan.commands[n]);
    HasEntity(h, m) && EntityOf(h, m) in sys && sys[EntityOf(h, m)].phase == Fault && sys[EntityOf(h, m)].muted
  }

  lemma RefusedFaults(s: State, command: byte, a: Answers)
    requires Inv(s) && command != CMD_COMMIT && Command(s, command, a).1 != Ok
    ensures Command(s, command, a).0.phase == Fault && Command(s, command, a).0.muted
  {
  }

  /** Delivered to an endpoint that reflects its predecessors, a refusable command is refused. */
  lemma CommandRefused(h: Deployment, n: nat, sys: System, w: AemWrite, a: Answers)
    requires Sound(h) && n < |h.plan.commands| && Refusable(h, n)
    requires ReadyFor(h, sys, n, false) && Executes(h, n, w)
    ensures var (next, ok) := Deliver(sys, w, a); !ok && Faulted(h, n, next)
  {
    var c, m := h.plan.commands[n], ModuleOf(h.plan.commands[n]);
    assert ModuleReflects(h, sys, n, m, false) by {
      assert Addressed(h, m);
    }
    RefusalExactly(h, n, sys[w.target], a, false);
    DeliverCommand(sys, w, CommandCode(Translate(c)), a);
    RefusedFaults(sys[w.target], CommandCode(Translate(c)), a);
  }

  lemma WriteRefused(h: Deployment, n: nat, sys: System, w: AemWrite, slot: Slot)
    requires Sound(h) && n < |h.plan.commands| && Refusable(h, n)
    requires ReadyFor(h, sys, n, false) && Executes(h, n, w)
    ensures var o := Exec(sys, [w], [slot]); o.acknowledged == 0 && Faulted(h, n, o.system)
  {
    FireKeeps(h, sys, slot.callbacks, n, false);
    CommandRefused(h, n, Fire(sys, slot.callbacks), w, slot.answers);
    ExecOne(sys, w, slot);
  }

  /** All writes of a refusable command: the staging is acknowledged, the executing write is not. */
  lemma BlockRefused(h: Deployment, n: nat, sys: System, block: seq<AemWrite>, slots: seq<Slot>)
    requires Sound(h) && n < |h.plan.commands| && Refusable(h, n) && IsBlock(h, n, block) && |slots| == |block|
    requires AllReflect(h, sys, n, false) && EntityOf(h, ModuleOf(h.plan.commands[n])) in sys
    ensures Sendable(block)
    ensures var o := Exec(sys, block, slots); o.acknowledged == |block| - 1 && Faulted(h, n, o.system)
  {
    var last := |block| - 1;
    var staging, command := block[..last], block[last];
    StagedBlock(h, n, sys, block, slots[..last], false);
    BlockSendable(h, n, block);
    hide AllReflect, Exec, Sound, ReadyFor, Refusable, IsBlock, Executes, Faulted;
    WriteRefused(h, n, Exec(sys, staging, slots[..last]).system, command, slots[last]);
    ExecLast(sys, block, slots);
  }

  /** `o` shows a refusal by the scheduler: the refused write executes the COMMIT of an earlier command. */
  ghost predicate CommitRefused(h: Deployment, blocks: seq<seq<AemWrite>>, b: nat, o: Outcome)
    requires b <= |blocks| == |h.plan.commands|
  {
    exists k :: 0 <= k < b && h.plan.commands[k].Commit? && |Prog(blocks, k + 1)| == o.acknowledged + 1
  }

  lemma ProgressRefusal(h: Deployment, blocks: seq<seq<AemWrite>>, n: nat, cut: nat, o: Outcome, j: nat)
    requires n <= |blocks| == |h.plan.commands| && Progress(h, blocks, n, cut, o, j, false)
    ensures o.acknowledged != cut ==> CommitRefused(h, blocks, n, o) && o.acknowledged < cut
  {
    if o.acknowledged != cut {
      assert h.plan.commands[j - 1].Commit? && |Prog(blocks, j - 1 + 1)| == o.acknowledged + 1;
    }
  }

  /** A program in blocks whose first refusable command is `b`, about to meet its endpoints. */
  ghost predicate Setting(h: Deployment, blocks: seq<seq<AemWrite>>, b: nat, sys: System) {
    Sound(h) && AreBlocks(h, blocks) && FirstRefusable(h, b) && AllReflect(h, sys, 0, false)
  }

  /** The lengths and the make-up of the program around command `b`. */
  lemma Layout(h: Deployment, blocks: seq<seq<AemWrite>>, b: nat, sys: System)
    requires Setting(h, blocks, b, sys)
    ensures b < |blocks| == |h.plan.commands|
    ensures |Prog(blocks, b)| < |Prog(blocks, b + 1)| <= |Prog(blocks, |blocks|)|
    ensures Prog(blocks, b + 1) == Prog(blocks, b) + blocks[b]
    ensures Prog(blocks, |blocks|)[..|Prog(blocks, b + 1)|] == Prog(blocks, b + 1)
    ensures Sendable(Prog(blocks, |blocks|)) && Sendable(Prog(blocks, b + 1)) && Sendable(Prog(blocks, b))
  {
    hide IsBlock, Sound, AllReflect, Refusable, Prog;
    BlockLength(h, blocks, b);
    ProgGrows(blocks, b);
    ProgPrefix(blocks, b + 1, |blocks|);
    ProgSendable(h, blocks, b);
    ProgSendable(h, blocks, b + 1);
    ProgSendable(h, blocks, |blocks|);
  }

  /** The part of the program before the refusable command, sent in full. */
  lemma UpToRefusable(h: Deployment, blocks: seq<seq<AemWrite>>, b: nat, sys: System, early: seq<Slot>)
    requires Setting(h, blocks, b, sys) && b < |blocks|
    requires |early| == |Prog(blocks, b)|
    ensures Sendable(Prog(blocks, b))
    ensures var first := Exec(sys, Prog(blocks, b), early);
            if first.acknowledged == |early| then AllReflect(h, first.system, b, false)
            else first.acknowledged < |early| && CommitRefused(h, blocks, b, first)
  {
    hide Sound, AllReflect, IsBlock, Refusable, CommitRefused, Exec;
    ProgSendable(h, blocks, b);
    assert Prog(blocks, b)[..|early|] == Prog(blocks, b);
    var j := ProgramRun(h, blocks, b, sys, early, false);
    var first := Exec(sys, Prog(blocks, b), early);
    ProgressRefusal(h, blocks, b, |early|, first, j);
    ProgressComplete(h, blocks, b, first, j, false);
  }

  /** How a run of `cut` writes ends when command `b` is the first refusable one. */
  ghost predicate EndsAtRefusal(h: Deployment, blocks: seq<seq<AemWrite>>, b: nat, cut: nat, o: Outcome)
    requires b < |blocks| == |h.plan.commands|
  {
    var i := |Prog(blocks, b + 1)| - 1;
    && o.acknowledged <= cut && o.acknowledged <= i
    && (o.acknowledged < cut ==>
          || CommitRefused(h, blocks, b, o)
          || (o.acknowledged == i && Faulted(h, b, o.system)))
  }

  /** Up to and including the refusable command. */
  lemma RunIntoRefusal(
      h: Deployment, blocks: seq<seq<AemWrite>>, b: nat, sys: System, writes: seq<AemWrite>, slots: seq<Slot>)
    requires Setting(h, blocks, b, sys) && b < |blocks| == |h.plan.commands|
    requires |Prog(blocks, b)| <= |slots| == |writes| && Sendable(writes)
    requires writes[..|Prog(blocks, b)|] == Prog(blocks, b)
    requires |writes| - |Prog(blocks, b)| <= |blocks[b]|
    requires writes[|Prog(blocks, b)|..] == blocks[b][..|writes| - |Prog(blocks, b)|]
    requires |Prog(blocks, b)| < |Prog(blocks, b + 1)| == |Prog(blocks, b)| + |blocks[b]|
    ensures EndsAtRefusal(h, blocks, b, |writes|, Exec(sys, writes, slots))
    ensures |writes| == |Prog(blocks, b + 1)| ==> Exec(sys, writes, slots).acknowledged < |writes|
  {
    hide *;
    var n := |Prog(blocks, b)|;
    UpToRefusable(h, blocks, b, sys, slots[..n]);
    ExecTwice(sys, writes, slots, n);
    var first := Exec(sys, writes[..n], slots[..n]);
    if first.acknowledged == n {
      RefusableBlock(h, blocks, b, sys, first.system, slots[n..]);
      RefusalAfter(h, blocks, b, |writes|, Exec(first.system, writes[n..], slots[n..]));
    } else {
      RefusalBefore(h, blocks, b, |writes|, first);
    }
  }

  /** The first writes of the refusable command, sent after everything before it was acknowledged. */
  lemma RefusableBlock(h: Deployment, blocks: seq<seq<AemWrite>>, b: nat, start: System, sys: System, late: seq<Slot>)
    requires Setting(h, blocks, b, start) && b < |blocks| == |h.plan.commands| && AllReflect(h, sys, b, false)
    requires |late| <= |blocks[b]|
    ensures Sendable(blocks[b][..|late|])
    ensures var o := Exec(sys, blocks[b][..|late|], late);
            if |late| < |blocks[b]| then o.acknowledged == |late|
            else o.acknowledged == |late| - 1 && Faulted(h, b, o.system)
  {
    var block := blocks[b];
    assert IsBlock(h, b, block);
    EntityPresent(h, b, sys, block);
    hide Sound, AllReflect, IsBlock, AreBlocks, Exec, Faulted;
    if |late| < |block| {
      PartialBlock(h, b, sys, block, late, false);
      PartialMeans(h, b, |block|, |late|, Exec(sys, block[..|late|], late));
    } else {
      assert block[..|late|] == block;
      BlockRefused(h, b, sys, block, late);
    }
  }

  lemma RefusalAfter(h: Deployment, blocks: seq<seq<AemWrite>>, b: nat, cut: nat, second: Outcome)
    requires b < |blocks| == |h.plan.commands| && |Prog(blocks, b)| <= cut <= |Prog(blocks, b + 1)|
    requires |Prog(blocks, b + 1)| == |Prog(blocks, b)| + |blocks[b]|
    requires var late := cut - |Prog(blocks, b)|;
             if late < |blocks[b]| then second.acknowledged == late
             else second.acknowledged == late - 1 && Faulted(h, b, second.system)
    ensures var o := Outcome(second.system, |Prog(blocks, b)| + second.acknowledged);
            EndsAtRefusal(h, blocks, b, cut, o) && (cut == |Prog(blocks, b + 1)| ==> o.acknowledged < cut)
  {
    hide Faulted, CommitRefused, Prog;
  }

  lemma RefusalBefore(h: Deployment, blocks: seq<seq<AemWrite>>, b: nat, cut: nat, o: Outcome)
    requires b < |blocks| == |h.plan.commands|
    requires |Prog(blocks, b)| <= cut && |Prog(blocks, b)| < |Prog(blocks, b + 1)|
    requires CommitRefused(h, blocks, b, o) && o.acknowledged < |Prog(blocks, b)|
    ensures EndsAtRefusal(h, blocks, b, cut, o) && o.acknowledged < cut
  {
    hide Faulted, CommitRefused, Prog;
  }

  lemma EntityPresent(h: Deployment, n: nat, sys: System, block: seq<AemWrite>)
    requires n < |h.plan.commands| && IsBlock(h, n, block) && AllReflect(h, sys, n, false)
    ensures EntityOf(h, ModuleOf(h.plan.commands[n])) in sys
  {
    var m := ModuleOf(h.plan.commands[n]);
    assert Addressed(h, m);
    assert ModuleReflects(h, sys, n, m, false);
  }

  lemma PartialMeans(h: Deployment, n: nat, size: nat, cut: nat, o: Outcome)
    requires n < |h.plan.commands| && cut < size && BlockOutcome(h, n, size, cut, o, false)
    ensures o.acknowledged == cut
  {
  }

  /** Before the refusable command nothing is different. */
  lemma RunBeforeRefusal(h: Deployment, blocks: seq<seq<AemWrite>>, b: nat, sys: System, slots: seq<Slot>)
    requires Setting(h, blocks, b, sys) && b < |blocks| == |h.plan.commands|
    requires |slots| <= |Prog(blocks, b)| < |Prog(blocks, b + 1)|
    ensures Sendable(Prog(blocks, b)[..|slots|])
    ensures EndsAtRefusal(h, blocks, b, |slots|, Exec(sys, Prog(blocks, b)[..|slots|], slots))
  {
    hide Sound, AllReflect, IsBlock, Refusable, CommitRefused, Exec, Faulted, Prog;
    var j := ProgramRun(h, blocks, b, sys, slots, false);
    ProgressRefusal(h, blocks, b, |slots|, Exec(sys, Prog(blocks, b)[..|slots|], slots), j);
  }

  /** A run refused by then ends the same way however many writes follow. */
  lemma EndsWithin(h: Deployment, blocks: seq<seq<AemWrite>>, b: nat, cut: nat, more: nat, o: Outcome)
    requires b < |blocks| == |h.plan.commands|
    requires EndsAtRefusal(h, blocks, b, cut, o) && o.acknowledged < cut <= more
    ensures EndsAtRefusal(h, blocks, b, more, o)
  {
  }

  lemma SendableParts(writes: seq<AemWrite>, n: nat)
    requires n <= |writes| && Sendable(writes)
    ensures Sendable(writes[..n])
  {
  }

  lemma RunToBlock(h: Deployment, blocks: seq<seq<AemWrite>>, b: nat, sys: System, slots: seq<Slot>)
    requires Setting(h, blocks, b, sys) && b < |blocks| == |h.plan.commands|
    requires |Prog(blocks, b)| < |slots| <= |Prog(blocks, b + 1)|
    ensures Sendable(Prog(blocks, b + 1)[..|slots|])
    ensures var o := Exec(sys, Prog(blocks, b + 1)[..|slots|], slots);
            EndsAtRefusal(h, blocks, b, |slots|, o) && (|slots| == |Prog(blocks, b + 1)| ==> o.acknowledged < |slots|)
  {
    hide *;
    Layout(h, blocks, b, sys);
    SendableParts(Prog(blocks, b + 1), |slots|);
    RunIntoRefusal(h, blocks, b, sys, Prog(blocks, b + 1)[..|slots|], slots);
  }

  /** The whole run: nothing after a refusal is sent. */
  lemma RunPastRefusal(
      h: Deployment, blocks: seq<seq<AemWrite>>, b: nat, sys: System, writes: seq<AemWrite>, slots: seq<Slot>)
    requires Setting(h, blocks, b, sys) && b < |blocks| == |h.plan.commands|
    requires |Prog(blocks, b)| < |Prog(blocks, b + 1)| < |writes| == |slots| && Sendable(writes)
    requires writes[..|Prog(blocks, b + 1)|] == Prog(blocks, b + 1)
    ensures EndsAtRefusal(h, blocks, b, |writes|, Exec(sys, writes, slots))
    ensures Exec(sys, writes, slots).acknowledged < |writes|
  {
    hide *;
    var n := |Prog(blocks, b + 1)|;
    RunToBlock(h, blocks, b, sys, slots[..n]);
    assert Prog(blocks, b + 1)[..n] == Prog(blocks, b + 1);
    ExecTwice(sys, writes, slots, n);
    EndsWithin(h, blocks, b, n, |writes|, Exec(sys, writes[..n], slots[..n]));
  }

  /** Any number of writes of the whole program. */
  lemma AnyRun(h: Deployment, blocks: seq<seq<AemWrite>>, b: nat, sys: System, slots: seq<Slot>)
    requires Setting(h, blocks, b, sys) && |slots| <= |Prog(blocks, |blocks|)|
    ensures b < |blocks| == |h.plan.commands| && Sendable(Prog(blocks, |blocks|)[..|slots|])
    ensures var o := Exec(sys, Prog(blocks, |blocks|)[..|slots|], slots);
            && EndsAtRefusal(h, blocks, b, |slots|, o)
            && (|Prog(blocks, b + 1)| <= |slots| ==> o.acknowledged < |slots|)
  {
    hide *;
    Layout(h, blocks, b, sys);
    SendableParts(Prog(blocks, |blocks|), |slots|);
    var whole := Prog(blocks, |blocks|)[..|slots|];
    if |slots| <= |Prog(blocks, b)| {
      assert whole == Prog(blocks, b)[..|slots|];
      RunBeforeRefusal(h, blocks, b, sys, slots);
    } else if |slots| <= |Prog(blocks, b + 1)| {
      assert whole == Prog(blocks, b + 1)[..|slots|];
      RunToBlock(h, blocks, b, sys, slots);
    } else {
      assert whole[..|Prog(blocks, b + 1)|] == Prog(blocks, b + 1);
      RunPastRefusal(h, blocks, b, sys, whole, slots);
    }
  }

  /** The controller sends any number of writes of a compiled handover whose first refusable command is
      `b`, to endpoints in arbitrary reachable states and with arbitrary callbacks in between. It never
      gets past the executing write of `b`; a write is refused only if it is that one, and then the
      endpoint has failed closed, or if it is the COMMIT of an earlier command; and once the executing
      write of `b` is sent, one of them is refused. */
  lemma FirstRefusal(h: Deployment, envelopes: seq<Envelope>, sys: System, slots: seq<Slot>, b: nat, i: nat)
    requires Compiles(h, envelopes) && Initial(h, sys) && FirstRefusable(h, b)
    requires |slots| <= |ProgramOf(h, envelopes, |envelopes|)|
    requires b < |envelopes| && ExecutedBy(h, envelopes, b, i)
    ensures var writes := ProgramOf(h, envelopes, |envelopes|)[..|slots|];
            && Sendable(writes)
            && var o := Exec(sys, writes, slots);
            && o.acknowledged <= i && o.acknowledged <= |slots|
            && (i < |slots| ==> o.acknowledged < |slots|)
            && (o.acknowledged < |slots| ==>
                  || (o.acknowledged == i && Faulted(h, b, o.system))
                  || CommitRefusedIn(h, envelopes, b, o))
  {
    var n := |envelopes|;
    var blocks := CompiledBlocks(h, envelopes, n);
    InitiallyReflects(h, envelopes, sys, false);
    CompilesIsSound(h, envelopes);
    BlocksOf(h, blocks);
    assert Setting(h, blocks, b, sys);
    hide *;
    AnyRun(h, blocks, b, sys, slots);
    RefusalMeans(h, envelopes, blocks, b, i, |slots|, Exec(sys, Prog(blocks, n)[..|slots|], slots));
  }

  lemma BlocksOf(h: Deployment, blocks: seq<seq<AemWrite>>)
    requires |blocks| == |h.plan.commands| && forall k :: 0 <= k < |blocks| ==> IsBlock(h, k, blocks[k])
    ensures AreBlocks(h, blocks)
  {
  }

  /** The same in terms of the compiled program. */
  lemma RefusalMeans(
      h: Deployment, envelopes: seq<Envelope>, blocks: seq<seq<AemWrite>>, b: nat, i: nat, cut: nat, o: Outcome)
    requires Compiles(h, envelopes) && b < |envelopes| == |blocks| == |h.plan.commands|
    requires forall k :: 0 <= k <= |envelopes| ==> Prog(blocks, k) == ProgramOf(h, envelopes, k)
    requires ExecutedBy(h, envelopes, b, i) && EndsAtRefusal(h, blocks, b, cut, o)
    requires |Prog(blocks, b + 1)| <= cut ==> o.acknowledged < cut
    ensures o.acknowledged <= i && o.acknowledged <= cut && (i < cut ==> o.acknowledged < cut)
    ensures o.acknowledged < cut ==>
              (o.acknowledged == i && Faulted(h, b, o.system)) || CommitRefusedIn(h, envelopes, b, o)
  {
    hide Compiles, Prog, ProgramOf, Faulted;
    assert |Prog(blocks, b + 1)| == i + 1;
    if CommitRefused(h, blocks, b, o) {
      CommitRefusedIsExecuted(h, envelopes, blocks, b, o);
    }
  }

  /** The refused write executes the COMMIT of a command before `b`. */
  ghost predicate CommitRefusedIn(h: Deployment, envelopes: seq<Envelope>, b: nat, o: Outcome)
    requires Compiles(h, envelopes) && b <= |envelopes|
  {
    exists k ::
      && 0 <= k < b && k < |h.plan.commands| && h.plan.commands[k].Commit?
      && ExecutedBy(h, envelopes, k, o.acknowledged)
  }

  lemma CommitRefusedIsExecuted(h: Deployment, envelopes: seq<Envelope>, blocks: seq<seq<AemWrite>>, b: nat, o: Outcome)
    requires Compiles(h, envelopes) && b <= |envelopes| == |blocks| == |h.plan.commands|
    requires forall k :: 0 <= k <= |envelopes| ==> Prog(blocks, k) == ProgramOf(h, envelopes, k)
    requires CommitRefused(h, blocks, b, o)
    ensures CommitRefusedIn(h, envelopes, b, o)
  {
    hide Compiles, Prog, ProgramOf;
    var k :| 0 <= k < b && h.plan.commands[k].Commit? && |Prog(blocks, k + 1)| == o.acknowledged + 1;
    assert ExecutedBy(h, envelopes, k, o.acknowledged);
  }

  // --- A plan that compiles and must be refused ------------------------------------------------------

  /** One wireless pod, given the front-left role on both lanes. */
  function TwiceFrontLeft(): Deployment {
    Deployment(
      Plan(1, 96_000, [Mute("pod", 1), Prepare(Assignment("pod", WirelessNetwork, Ptp, [FrontLeft, FrontLeft]), 1)]),
      [Binding("pod", "esp-c6", 1, WirelessEsp32C6)],
      [Target("esp-c6", [0, 0, 0, 0, 0, 0, 0, 1])],
      Anchor(0, 0, 48_000))
  }

  /** What the host compiles that plan to: an envelope for each command. */
  function TwiceFrontLeftEnvelopes(): seq<Envelope> {
    [Envelope("esp-c6", 1, WirelessEsp32C6, MuteEndpoint("pod", 1)),
     Envelope("esp-c6", 1, WirelessEsp32C6, PrepareEndpoint("pod", 1, WirelessNetwork, Ptp, [FrontLeft, FrontLeft]))]
  }

  lemma RepeatedRoleIsAccepted()
    ensures var h := TwiceFrontLeft();
            Accepts(h.plan, h.bindings) && Compiled(h.plan, h.bindings, TwiceFrontLeftEnvelopes())
  {
    var h := TwiceFrontLeft();
    assert h.bindings[0].moduleId == "pod" && IsBound(h.bindings, "pod");
    assert BindingOf(h.bindings, "pod") == h.bindings[0];
    assert h.plan.commands[..0] == [] && h.plan.commands[..1] == [h.plan.commands[0]];
    assert [h.plan.commands[0]][..0] == [];
    assert CountFor([], "pod") == 0 && CountFor([h.plan.commands[0]], "pod") == 1;
  }

  /** Both compilers accept a repeated role. */
  lemma RepeatedRoleCompiles()
    ensures Compiles(TwiceFrontLeft(), TwiceFrontLeftEnvelopes()) && FirstRefusable(TwiceFrontLeft(), 1)
  {
    var h := TwiceFrontLeft();
    RepeatedRoleIsAccepted();
    hide Accepts, Compiled;
    assert h.targets[0].endpointId == "esp-c6" && HasTarget(h.targets, "esp-c6");
    assert h.targets[0].entityId[7] == 1 && ZERO_ENTITY[7] == 0;
  }

  /** A plan of `n` commands whose last one is the first that can be refused, sent in full: if it has no
      COMMIT, its program stops at the last write, and that endpoint has failed closed. */
  lemma LastIsRefused(h: Deployment, envelopes: seq<Envelope>, sys: System, slots: seq<Slot>, n: nat)
    requires Compiles(h, envelopes) && Initial(h, sys) && |envelopes| == n + 1 == |h.plan.commands|
    requires FirstRefusable(h, n) && forall k :: 0 <= k < n ==> !h.plan.commands[k].Commit?
    ensures var writes := ProgramOf(h, envelopes, n + 1);
            |slots| == |writes| ==>
              && Sendable(writes) && Exec(sys, writes, slots).acknowledged == |writes| - 1
              && Faulted(h, n, Exec(sys, writes, slots).system)
  {
    var writes := ProgramOf(h, envelopes, n + 1);
    if |slots| == |writes| {
      hide Compiles, FirstRefusable, Exec, Faulted, ProgramOf, Initial;
      AllExecuted(h, envelopes, n);
      assert writes[..|slots|] == writes;
      FirstRefusal(h, envelopes, sys, slots, n, |writes| - 1);
    }
  }

  /** An endpoint in any reachable state refuses the plan with the repeated role. */
  lemma RepeatedRoleIsRefused(sys: System, slots: seq<Slot>)
    requires Initial(TwiceFrontLeft(), sys)
    ensures Compiles(TwiceFrontLeft(), TwiceFrontLeftEnvelopes())
    ensures var h, envelopes := TwiceFrontLeft(), TwiceFrontLeftEnvelopes();
            var writes := ProgramOf(h, envelopes, 2);
            |slots| == |writes| ==>
              && Sendable(writes) && Exec(sys, writes, slots).acknowledged == |writes| - 1
              && Faulted(h, 1, Exec(sys, writes, slots).system)
  {
    RepeatedRoleCompiles();
    hide Compiles, FirstRefusable, Exec, Faulted, ProgramOf, Initial;
    LastIsRefused(TwiceFrontLeft(), TwiceFrontLeftEnvelopes(), sys, slots, 1);
  }

  // --- A plan armed with the reserved time 0 ---------------------------------------------------------

  /** One wireless pod, started at the very frame that the media anchor maps to PTP time 0. */
  function ArmedWithZero(): Deployment {
    Deployment(
      Plan(1, 96_000,
           [Mute("pod", 1), Prepare(Assignment("pod", WirelessNetwork, Ptp, [FrontLeft, FrontRight]), 1),
            Arm("pod", 1, 96_000)]),
      [Binding("pod", "esp-c6", 1, WirelessEsp32C6)],
      [Target("esp-c6", [0, 0, 0, 0, 0, 0, 0, 1])],
      Anchor(96_000, 0, 48_000))
  }

  function ArmedWithZeroEnvelopes(): seq<Envelope> {
    [Envelope("esp-c6", 1, WirelessEsp32C6, MuteEndpoint("pod", 1)),
     Envelope("esp-c6", 1, WirelessEsp32C6, PrepareEndpoint("pod", 1, WirelessNetwork, Ptp, [FrontLeft, FrontRight])),
     Envelope("esp-c6", 1, WirelessEsp32C6, ArmEndpoint("pod", 1, 96_000))]
  }

  lemma ZeroTimeIsAccepted()
    ensures var h := ArmedWithZero();
            Accepts(h.plan, h.bindings) && Compiled(h.plan, h.bindings, ArmedWithZeroEnvelopes())
  {
    var h := ArmedWithZero();
    assert h.bindings[0].moduleId == "pod" && IsBound(h.bindings, "pod");
    assert BindingOf(h.bindings, "pod") == h.bindings[0];
    var c := h.plan.commands;
    assert c[..0] == [] && c[..1] == [c[0]] && c[..2] == [c[0], c[1]];
    assert [c[0]][..0] == [] && [c[0], c[1]][..1] == [c[0]];
    assert CountFor([], "pod") == 0 && CountFor([c[0]], "pod") == 1 && CountFor([c[0], c[1]], "pod") == 2;
  }

  /** Both compilers accept a start frame whose PTP time is 0. */
  lemma ZeroTimeCompiles()
    ensures Compiles(ArmedWithZero(), ArmedWithZeroEnvelopes()) && FirstRefusable(ArmedWithZero(), 2)
  {
    var h := ArmedWithZero();
    ZeroTimeIsAccepted();
    hide Accepts, Compiled;
    assert h.targets[0].endpointId == "esp-c6" && HasTarget(h.targets, "esp-c6");
    assert h.targets[0].entityId[7] == 1 && ZERO_ENTITY[7] == 0;
  }

  /** An endpoint in any reachable state refuses that ARM: 0 is its mark for "not armed". */
  lemma ZeroTimeIsRefused(sys: System, slots: seq<Slot>)
    requires Initial(ArmedWithZero(), sys)
    ensures Compiles(ArmedWithZero(), ArmedWithZeroEnvelopes())
    ensures var h, envelopes := ArmedWithZero(), ArmedWithZeroEnvelopes();
            var writes := ProgramOf(h, envelopes, 3);
            |slots| == |writes| ==>
              && Sendable(writes) && Exec(sys, writes, slots).acknowledged == |writes| - 1
              && Faulted(h, 2, Exec(sys, writes, slots).system)
  {
    ZeroTimeCompiles();
    hide Compiles, FirstRefusable, Exec, Faulted, ProgramOf, Initial;
    LastIsRefused(ArmedWithZero(), ArmedWithZeroEnvelopes(), sys, slots, 2);
  }
}
