/**
 * A compiled handover program meeting the endpoint firmware. The controller sends the
 * writes in order, requires each to be acknowledged and abandons the program at the
 * first one that is not; timer callbacks of any endpoint may run before any write.
 */
module HandoverExecution {
  import opened Bytes
  import opened Handover
  import opened AemProgram
  import opened EndpointModel
  import opened EndpointSafety

  type System = map<EntityId, State>

  datatype Dispatched = Dispatched(entity: EntityId, answers: Answers)

  /** Callbacks that run before one write, and the outside answers during that write. */
  datatype Slot = Slot(callbacks: seq<Dispatched>, answers: Answers)

  datatype Outcome = Outcome(system: System, acknowledged: nat)

  function Fire(sys: System, callbacks: seq<Dispatched>): System {
    if callbacks == [] then sys
    else
      var c := callbacks[0];
      Fire(if c.entity in sys then sys[c.entity := Callback(sys[c.entity], c.answers)] else sys, callbacks[1..])
  }

  /** Delivers one write to the entity it addresses; an absent entity never acknowledges. */
  function Deliver(sys: System, w: AemWrite, a: Answers): (System, bool)
    requires w.valueLen <= |w.value|
  {
    if w.target !in sys then (sys, false)
    else
      var (s, status) := SetControl(sys[w.target], w.control, w.value[..w.valueLen], a);
      (sys[w.target := s], status == Ok)
  }

  predicate Sendable(writes: seq<AemWrite>) {
    forall k :: 0 <= k < |writes| ==> writes[k].valueLen <= |writes[k].value|
  }

  function Exec(sys: System, writes: seq<AemWrite>, slots: seq<Slot>): Outcome
    requires |slots| == |writes| && Sendable(writes)
    decreases |writes|
  {
    if writes == [] then Outcome(sys, 0)
    else
      var (next, ok) := Deliver(Fire(sys, slots[0].callbacks), writes[0], slots[0].answers);
      if !ok then Outcome(next, 0)
      else var rest := Exec(next, writes[1..], slots[1..]); Outcome(rest.system, rest.acknowledged + 1)
  }

  // --- How runs compose ---------------------------------------------------------

  lemma {:induction false} ExecSplits(sys: System, v: seq<AemWrite>, w: seq<AemWrite>, s: seq<Slot>, t: seq<Slot>)
    requires |s| == |v| && |t| == |w| && Sendable(v) && Sendable(w)
    ensures Sendable(v + w)
    ensures var first := Exec(sys, v, s);
            Exec(sys, v + w, s + t) ==
            if first.acknowledged < |v| then first
            else var second := Exec(first.system, w, t); Outcome(second.system, |v| + second.acknowledged)
    ensures Exec(sys, v, s).acknowledged <= |v|
    decreases |v|
  {
    if v == [] {
      assert v + w == w && s + t == t;
    } else {
      var (next, ok) := Deliver(Fire(sys, s[0].callbacks), v[0], s[0].answers);
      assert (v + w)[1..] == v[1..] + w && (s + t)[1..] == s[1..] + t;
      ExecSplits(next, v[1..], w, s[1..], t);
    }
  }

  /** A run in two parts: the second is sent only if the first was acknowledged in full. */
  lemma ExecTwice(sys: System, writes: seq<AemWrite>, slots: seq<Slot>, n: nat)
    requires |slots| == |writes| && n <= |writes| && Sendable(writes)
    ensures Sendable(writes[..n]) && Sendable(writes[n..])
    ensures var first := Exec(sys, writes[..n], slots[..n]);
            && first.acknowledged <= n
            && Exec(sys, writes, slots) ==
               if first.acknowledged < n then first
               else var second := Exec(first.system, writes[n..], slots[n..]);
                    Outcome(second.system, n + second.acknowledged)
  {
    hide Exec;
    assert writes == writes[..n] + writes[n..] && slots == slots[..n] + slots[n..];
    ExecSplits(sys, writes[..n], writes[n..], slots[..n], slots[n..]);
  }

  /** A run that acknowledges all but the last write ends as the last write leaves it. */
  lemma ExecLast(sys: System, writes: seq<AemWrite>, slots: seq<Slot>)
    requires |slots| == |writes| > 0 && Sendable(writes)
    requires Sendable(writes[..|writes| - 1]) && Sendable([writes[|writes| - 1]])
    requires Exec(sys, writes[..|writes| - 1], slots[..|writes| - 1]).acknowledged == |writes| - 1
    ensures var last := |writes| - 1;
            var o := Exec(Exec(sys, writes[..last], slots[..last]).system, [writes[last]], [slots[last]]);
            Exec(sys, writes, slots) == Outcome(o.system, last + o.acknowledged)
  {
    hide Exec;
    var last := |writes| - 1;
    assert writes == writes[..last] + [writes[last]] && slots == slots[..last] + [slots[last]];
    ExecSplits(sys, writes[..last], [writes[last]], slots[..last], [slots[last]]);
  }

  // --- What one endpoint shows ---------------------------------------------------

  /** The state that the commands of module `m` among `commands` must have produced. A
      `clean` run had no callbacks and no refusal; otherwise a committed endpoint may
      since have failed closed. */
  predicate Reflects(s: State, plan: Plan, anchor: Anchor, commands: seq<PlanCommand>, m: string, clean: bool) {
    var count := CountFor(commands, m);
    && Inv(s)
    && (if count == 0 then s.activeEpoch < plan.epoch else s.activeEpoch == plan.epoch)
    && (count == 1 ==> s.phase == Muted)
    && (count == 2 ==> s.phase == Prepared)
    && (count == 3 ==> s.phase == Armed)
    && (count >= 4 ==> s.phase == Committed || (!clean && s.phase == Fault))
    && (count >= 2 ==> RolesInstalled(s, commands, m))
    && (count >= 3 ==> PtpTimeForFrame(anchor, plan.startFrame) == Success(s.armedStart))
  }

  /** The roles of the PREPARE commands of module `m`. */
  predicate RolesInstalled(s: State, commands: seq<PlanCommand>, m: string) {
    forall j :: 0 <= j < |commands| && commands[j].Prepare? && ModuleOf(commands[j]) == m ==>
      HasRoles(s, commands[j].assignment.roles)
  }

  predicate HasRoles(s: State, roles: seq<ChannelRole>) {
    Encodable(roles) && s.activeRole0 == RoleCode(roles, 0) && s.activeRole1 == RoleCode(roles, 1)
  }

  datatype Staged = Staged(epoch: u64, role0: byte, role1: byte, start: u64)

  function StagedOf(s: State): Staged {
    Staged(s.stagedEpoch, s.stagedRole0, s.stagedRole1, s.stagedStart)
  }

  /** A callback touches neither staging nor the activation data, and only moves Committed to Fault. */
  lemma CallbackFrame(s: State, a: Answers)
    ensures var t := Callback(s, a);
            && StagedOf(t) == StagedOf(s)
            && t.activeEpoch == s.activeEpoch && t.armedStart == s.armedStart
            && t.activeRole0 == s.activeRole0 && t.activeRole1 == s.activeRole1
            && (t.phase == s.phase || (s.phase == Committed && t.phase == Fault))
  {
  }

  lemma CallbackKeepsReflects(s: State, a: Answers, plan: Plan, anchor: Anchor, commands: seq<PlanCommand>, m: string)
    requires Reflects(s, plan, anchor, commands, m, false)
    ensures Reflects(Callback(s, a), plan, anchor, commands, m, false)
  {
    CallbackKeepsInv(s, a);
    CallbackFrame(s, a);
  }

  // --- A handover and its system -------------------------------------------------

  /** Everything that is fixed while one handover is executed. */
  datatype Deployment = Deployment(plan: Plan, bindings: seq<Binding>, targets: seq<Target>, anchor: Anchor)

  predicate Addressed(h: Deployment, m: string) {
    exists k :: 0 <= k < |h.plan.commands| && ModuleOf(h.plan.commands[k]) == m
  }

  /** Both compilers accept; `Envelopes` is what the first hands to the second. */
  ghost predicate Compiles(h: Deployment, envelopes: seq<Envelope>) {
    && Accepts(h.plan, h.bindings) && Compiled(h.plan, h.bindings, envelopes)
    && Programmable(envelopes, h.targets, h.anchor)
  }

  /** What the host does not check itself: command `k` gives a module one role twice, or arms it with
      the reserved activation time 0. */
  predicate Refusable(h: Deployment, k: nat)
    requires k < |h.plan.commands|
  {
    var c := h.plan.commands[k];
    || (c.Prepare? && |c.assignment.roles| == 2 && c.assignment.roles[0] == c.assignment.roles[1])
    || (c.Arm? && PtpTimeForFrame(h.anchor, h.plan.startFrame) == Success(0))
  }

  predicate ExecutableUpTo(h: Deployment, n: nat)
    requires n <= |h.plan.commands|
  {
    forall k :: 0 <= k < n ==> !Refusable(h, k)
  }

  predicate Executable(h: Deployment) {
    ExecutableUpTo(h, |h.plan.commands|)
  }

  predicate HasEntity(h: Deployment, m: string) {
    IsBound(h.bindings, m) && HasTarget(h.targets, BindingOf(h.bindings, m).endpointId)
  }

  function EntityOf(h: Deployment, m: string): EntityId
    requires HasEntity(h, m)
  {
    TargetOf(h.targets, BindingOf(h.bindings, m).endpointId).entityId
  }

  lemma AddressedHasEntity(h: Deployment, envelopes: seq<Envelope>, k: nat)
    requires Compiles(h, envelopes) && k < |h.plan.commands|
    ensures HasEntity(h, ModuleOf(h.plan.commands[k]))
    ensures envelopes[k].endpointId == BindingOf(h.bindings, ModuleOf(h.plan.commands[k])).endpointId
  {
    assert CommandError(h.plan, h.bindings, k) == None;
    assert ProgramError(envelopes, h.targets, h.anchor, k) == None;
    assert envelopes[k] == EnvelopeFor(h.bindings, h.plan.commands[k]);
  }

  /** Different modules live on different entities. */
  lemma EntitiesDistinct(h: Deployment, m: string, n: string)
    requires ValidBindings(h.bindings) && ValidTargets(h.targets)
    requires HasEntity(h, m) && HasEntity(h, n) && m != n
    ensures EntityOf(h, m) != EntityOf(h, n)
  {
    var b, c := BindingOf(h.bindings, m), BindingOf(h.bindings, n);
    var i :| 0 <= i < |h.bindings| && h.bindings[i] == b;
    var j :| 0 <= j < |h.bindings| && h.bindings[j] == c;
    assert b.endpointId != c.endpointId by {
      if i < j {
        assert Distinct(h.bindings[i], h.bindings[j]);
      } else {
        assert Distinct(h.bindings[j], h.bindings[i]);
      }
    }
    var s, t := TargetOf(h.targets, b.endpointId), TargetOf(h.targets, c.endpointId);
    var k :| 0 <= k < |h.targets| && h.targets[k] == s;
    var l :| 0 <= l < |h.targets| && h.targets[l] == t;
    assert k < l || l < k;
  }

  /** Every addressed module's endpoint reflects the first `n` commands. */
  ghost predicate AllReflect(h: Deployment, sys: System, n: nat, clean: bool)
    requires n <= |h.plan.commands|
  {
    forall m :: Addressed(h, m) ==> ModuleReflects(h, sys, n, m, clean)
  }

  predicate ModuleReflects(h: Deployment, sys: System, n: nat, m: string, clean: bool)
    requires n <= |h.plan.commands|
  {
    && HasEntity(h, m) && EntityOf(h, m) in sys
    && Reflects(sys[EntityOf(h, m)], h.plan, h.anchor, h.plan.commands[..n], m, clean)
  }

  lemma {:induction false} FireKeeps(h: Deployment, sys: System, callbacks: seq<Dispatched>, n: nat, clean: bool)
    requires n <= |h.plan.commands| && AllReflect(h, sys, n, clean)
    requires clean ==> callbacks == []
    ensures AllReflect(h, Fire(sys, callbacks), n, clean)
    ensures Fire(sys, callbacks).Keys == sys.Keys
    ensures forall e :: e in sys ==> StagedOf(Fire(sys, callbacks)[e]) == StagedOf(sys[e])
    decreases |callbacks|
  {
    if callbacks != [] {
      var c := callbacks[0];
      if c.entity in sys {
        var next := sys[c.entity := Callback(sys[c.entity], c.answers)];
        CallbackFrame(sys[c.entity], c.answers);
        forall m | Addressed(h, m) ensures ModuleReflects(h, next, n, m, clean) {
          assert ModuleReflects(h, sys, n, m, clean);
          if EntityOf(h, m) == c.entity {
            CallbackKeepsReflects(sys[c.entity], c.answers, h.plan, h.anchor, h.plan.commands[..n], m);
          }
        }
        FireKeeps(h, next, callbacks[1..], n, clean);
      } else {
        FireKeeps(h, sys, callbacks[1..], n, clean);
      }
    }
  }

  // --- Staging -------------------------------------------------------------------

  predicate IsStaging(w: AemWrite) {
    && w.valueLen <= |w.value|
    && ((w.control in {CONTROL_EPOCH, CONTROL_START} && w.valueLen == 8)
        || (w.control in {CONTROL_ROLE0, CONTROL_ROLE1} && w.valueLen == 1))
  }

  /** What a staging write leaves in the endpoint's staging area. */
  function StageWrite(g: Staged, w: AemWrite): Staged
    requires IsStaging(w)
  {
    var values := w.value[..w.valueLen];
    if w.control == CONTROL_EPOCH then g.(epoch := Word64(values))
    else if w.control == CONTROL_START then g.(start := Word64(values))
    else if w.control == CONTROL_ROLE0 then g.(role0 := values[0])
    else g.(role1 := values[0])
  }

  function StageWrites(g: Staged, writes: seq<AemWrite>): Staged
    requires forall k :: 0 <= k < |writes| ==> IsStaging(writes[k])
    decreases |writes|
  {
    if writes == [] then g else StageWrites(StageWrite(g, writes[0]), writes[1..])
  }

  /** A staging write is acknowledged and changes the staging area only. */
  lemma StagingIsInert(s: State, w: AemWrite, a: Answers)
    requires IsStaging(w)
    ensures var (t, status) := SetControl(s, w.control, w.value[..w.valueLen], a);
            && status == Ok && StagedOf(t) == StageWrite(StagedOf(s), w)
            && t.(stagedEpoch := s.stagedEpoch, stagedRole0 := s.stagedRole0,
                  stagedRole1 := s.stagedRole1, stagedStart := s.stagedStart) == s
  {
    var values := w.value[..w.valueLen];
    if w.valueLen == 8 {
      assert values[..8] == values;
    }
  }

  lemma StagingKeepsReflects(
      s: State, t: State, plan: Plan, anchor: Anchor, commands: seq<PlanCommand>, m: string, clean: bool)
    requires Reflects(s, plan, anchor, commands, m, clean)
    requires t.(stagedEpoch := s.stagedEpoch, stagedRole0 := s.stagedRole0,
                stagedRole1 := s.stagedRole1, stagedStart := s.stagedStart) == s
    ensures Reflects(t, plan, anchor, commands, m, clean)
  {
  }

  predicate Quiet(slots: seq<Slot>) {
    forall k :: 0 <= k < |slots| ==> slots[k].callbacks == []
  }

  /** Any run of staging writes to one entity is acknowledged in full and moves no endpoint. */
  lemma {:induction false} StagingRun(h: Deployment, sys: System, n: nat, clean: bool, e: EntityId,
                                      writes: seq<AemWrite>, slots: seq<Slot>)
    requires n <= |h.plan.commands| && AllReflect(h, sys, n, clean) && e in sys
    requires |slots| == |writes| && (clean ==> Quiet(slots))
    requires forall k :: 0 <= k < |writes| ==> IsStaging(writes[k]) && writes[k].target == e
    ensures Sendable(writes)
    ensures var o := Exec(sys, writes, slots);
            && o.acknowledged == |writes| && AllReflect(h, o.system, n, clean) && e in o.system
            && StagedOf(o.system[e]) == StageWrites(StagedOf(sys[e]), writes)
    decreases |writes|
  {
    if writes != [] {
      var fired := Fire(sys, slots[0].callbacks);
      FireKeeps(h, sys, slots[0].callbacks, n, clean);
      var (next, ok) := Deliver(fired, writes[0], slots[0].answers);
      StagingIsInert(fired[e], writes[0], slots[0].answers);
      forall m | Addressed(h, m) ensures ModuleReflects(h, next, n, m, clean) {
        assert ModuleReflects(h, fired, n, m, clean);
        if EntityOf(h, m) == e {
          StagingKeepsReflects(fired[e], next[e], h.plan, h.anchor, h.plan.commands[..n], m, clean);
        }
      }
      StagingRun(h, next, n, clean, e, writes[1..], slots[1..]);
    }
  }

  // --- One command ----------------------------------------------------------------

  /** What the staging writes of a command leave staged. */
  predicate StagedFor(g: Staged, c: EndpointCommand, anchor: Anchor)
    requires EnvelopeError(c, anchor) == None
  {
    && g.epoch == c.epoch
    && (c.PrepareEndpoint? ==> g.role0 == RoleCode(c.roles, 0) && g.role1 == RoleCode(c.roles, 1))
    && (c.ArmEndpoint? ==> PtpTimeForFrame(anchor, c.startFrame) == Success(g.start))
  }

  /** The staging writes survive the network encoding: the endpoint stages what the host meant. */
  lemma StagingDelivers(g: Staged, e: Envelope, id: EntityId, anchor: Anchor)
    requires EnvelopeError(e.command, anchor) == None
    ensures var writes := Staging(e, id, anchor);
            && (forall k :: 0 <= k < |writes| ==> IsStaging(writes[k]) && writes[k].target == id)
            && StagedFor(StageWrites(g, writes), e.command, anchor)
  {
    var writes := Staging(e, id, anchor);
    var c := e.command;
    WordRoundTrip(c.epoch);
    var epoch := writes[0];
    assert epoch.value[..8] == BigEndian(c.epoch, 8);
    var g1 := StageWrite(g, epoch);
    match c
    case PrepareEndpoint(_, _, _, _, roles) =>
      assert writes[1..] == [writes[1], writes[2]];
      assert StageWrites(g, writes) == StageWrites(g1, [writes[1], writes[2]]);
      assert [writes[1], writes[2]][1..] == [writes[2]];
      assert StageWrites(StageWrite(g1, writes[1]), [writes[2]])
          == StageWrites(StageWrite(StageWrite(g1, writes[1]), writes[2]), []);
    case ArmEndpoint(_, _, start) =>
      var ptp := PtpTimeForFrame(anchor, start).value;
      WordRoundTrip(ptp);
      assert writes[1].value[..8] == BigEndian(ptp, 8);
      assert writes[1..] == [writes[1]];
      assert StageWrites(g, writes) == StageWrites(StageWrite(g1, writes[1]), []);
    case _ =>
      assert StageWrites(g, writes) == StageWrites(g1, []);
  }

  lemma DistinctRolesAreLegal(roles: seq<ChannelRole>)
    requires 1 <= |roles| <= 2 && Encodable(roles)
    ensures RolesLegal(RoleCode(roles, 0), RoleCode(roles, 1)) <==> (|roles| == 2 ==> roles[0] != roles[1])
  {
  }

  /** A command of the plan, executed by an endpoint that reflects its predecessors and has its
      arguments staged, is acknowledged and advances the endpoint; only COMMIT can be refused,
      by the deadline scheduler, and then the endpoint is in Fault. */
  lemma CommandAdvances(h: Deployment, n: nat, s: State, a: Answers, clean: bool)
    requires Accepts(h.plan, h.bindings) && n < |h.plan.commands| && !Refusable(h, n)
    requires var c := h.plan.commands[n];
             && EnvelopeError(Translate(c), h.anchor) == None
             && StagedFor(StagedOf(s), Translate(c), h.anchor)
             && Reflects(s, h.plan, h.anchor, h.plan.commands[..n], ModuleOf(c), clean)
    ensures var c := h.plan.commands[n];
            var (t, status) := Command(s, CommandCode(Translate(c)), a);
            && (status == Ok || c.Commit?)
            && Reflects(t, h.plan, h.anchor, h.plan.commands[..n + 1], ModuleOf(c), clean && status == Ok)
  {
    var c, m := h.plan.commands[n], ModuleOf(h.plan.commands[n]);
    var before, after := h.plan.commands[..n], h.plan.commands[..n + 1];
    assert after[..n] == before;
    assert CommandError(h.plan, h.bindings, n) == None;
    assert CountFor(before, m) == Rank(c) && CountFor(after, m) == Rank(c) + 1;
    var (t, status) := Command(s, CommandCode(Translate(c)), a);
    CommandKeepsInv(s, CommandCode(Translate(c)), a);
    match c
    case Mute(_, _) =>
    case Prepare(assignment, _) =>
      DistinctRolesAreLegal(assignment.roles);
      OnlyPrepare(h, n);
    case Arm(_, _, _) =>
      assert RolesInstalled(t, after, m) by { RolesCarryOver(s, t, before, after, m); }
    case Commit(_, _) =>
      CommitFrame(s, a);
      assert RolesInstalled(t, after, m) by { RolesCarryOver(s, t, before, after, m); }
  }

  /** The two things the host does not check are exactly what the endpoint then refuses: a
      module given one role twice fails its PREPARE, a zero activation time fails its ARM. */
  lemma RefusalExactly(h: Deployment, n: nat, s: State, a: Answers, clean: bool)
    requires Accepts(h.plan, h.bindings) && n < |h.plan.commands|
    requires var c := h.plan.commands[n];
             && EnvelopeError(Translate(c), h.anchor) == None
             && StagedFor(StagedOf(s), Translate(c), h.anchor)
             && Reflects(s, h.plan, h.anchor, h.plan.commands[..n], ModuleOf(c), clean)
    ensures var c := h.plan.commands[n];
            var status := Command(s, CommandCode(Translate(c)), a).1;
            !c.Commit? ==> (status == Ok <==> !Refusable(h, n))
  {
    assert CommandError(h.plan, h.bindings, n) == None;
    if h.plan.commands[n].Prepare? {
      DistinctRolesAreLegal(h.plan.commands[n].assignment.roles);
    }
  }

  lemma RolesCarryOver(s: State, t: State, before: seq<PlanCommand>, after: seq<PlanCommand>, m: string)
    requires RolesInstalled(s, before, m)
    requires t.activeRole0 == s.activeRole0 && t.activeRole1 == s.activeRole1
    requires |after| == |before| + 1 && after[..|before|] == before
    requires !(after[|before|].Prepare? && ModuleOf(after[|before|]) == m)
    ensures RolesInstalled(t, after, m)
  {
    forall j | 0 <= j < |after| && after[j].Prepare? && ModuleOf(after[j]) == m
      ensures HasRoles(t, after[j].assignment.roles)
    {
      assert before[j] == after[j];
    }
  }

  /** A module's PREPARE is preceded by no other PREPARE of that module. */
  lemma OnlyPrepare(h: Deployment, n: nat)
    requires Accepts(h.plan, h.bindings) && n < |h.plan.commands| && h.plan.commands[n].Prepare?
    ensures forall j :: 0 <= j < n && h.plan.commands[j].Prepare? ==>
              ModuleOf(h.plan.commands[j]) != ModuleOf(h.plan.commands[n])
  {
    ModuleFollowsProtocol(h.plan, h.bindings, n + 1, ModuleOf(h.plan.commands[n]));
  }

  lemma CommitFrame(s: State, a: Answers)
    requires s.phase == Armed && s.stagedEpoch == s.activeEpoch != 0
    ensures var (t, status) := Command(s, CMD_COMMIT, a);
            && t.activeEpoch == s.activeEpoch && t.armedStart == s.armedStart
            && t.activeRole0 == s.activeRole0 && t.activeRole1 == s.activeRole1
            && (status == Ok ==> t.phase == Committed)
            && (status != Ok ==> t.phase == Fault)
  {
    var (d, accepted) := Schedule(s.(phase := Committed, muted := true), a);
    assert accepted ==> d.phase == Committed;
  }

  lemma OthersUnmoved(h: Deployment, s: State, n: nat, m: string, clean: bool)
    requires n < |h.plan.commands| && m != ModuleOf(h.plan.commands[n])
    requires Reflects(s, h.plan, h.anchor, h.plan.commands[..n], m, clean)
    ensures Reflects(s, h.plan, h.anchor, h.plan.commands[..n + 1], m, clean)
  {
    var before, after := h.plan.commands[..n], h.plan.commands[..n + 1];
    assert after[..n] == before;
    if CountFor(before, m) >= 2 {
      RolesCarryOver(s, s, before, after, m);
    }
  }

  lemma WeakenClean(h: Deployment, sys: System, n: nat, clean: bool)
    requires n <= |h.plan.commands| && AllReflect(h, sys, n, clean)
    ensures AllReflect(h, sys, n, false)
  {
    forall m | Addressed(h, m) ensures ModuleReflects(h, sys, n, m, false) {
      assert ModuleReflects(h, sys, n, m, clean);
    }
  }

  /** Advancing one module's endpoint advances the whole system by one command. */
  lemma SystemAdvances(h: Deployment, n: nat, sys: System, t: State, clean: bool, ok: bool)
    requires n < |h.plan.commands| && AllReflect(h, sys, n, clean)
    requires ValidBindings(h.bindings) && ValidTargets(h.targets)
    requires var m := ModuleOf(h.plan.commands[n]);
             && HasEntity(h, m) && EntityOf(h, m) in sys
             && Reflects(t, h.plan, h.anchor, h.plan.commands[..n + 1], m, clean && ok)
    ensures AllReflect(h, sys[EntityOf(h, ModuleOf(h.plan.commands[n])) := t], n + 1, clean && ok)
  {
    var m := ModuleOf(h.plan.commands[n]);
    var next := sys[EntityOf(h, m) := t];
    WeakenClean(h, sys, n, clean);
    forall k | Addressed(h, k) ensures ModuleReflects(h, next, n + 1, k, clean && ok) {
      assert ModuleReflects(h, sys, n, k, clean && ok);
      if k != m {
        EntitiesDistinct(h, k, m);
        OthersUnmoved(h, sys[EntityOf(h, k)], n, k, clean && ok);
      }
    }
  }

  lemma ExecOne(sys: System, w: AemWrite, slot: Slot)
    requires w.valueLen <= |w.value|
    ensures var (next, ok) := Deliver(Fire(sys, slot.callbacks), w, slot.answers);
            Exec(sys, [w], [slot]) == Outcome(next, if ok then 1 else 0)
  {
    assert [w][1..] == [] && [slot][1..] == [];
  }

  /** Plan command `n` is ready to execute: predecessors reflected, arguments staged. */
  ghost predicate ReadyFor(h: Deployment, sys: System, n: nat, clean: bool)
    requires n < |h.plan.commands|
  {
    var m := ModuleOf(h.plan.commands[n]);
    && AllReflect(h, sys, n, clean)
    && HasEntity(h, m) && EntityOf(h, m) in sys
    && EnvelopeError(Translate(h.plan.commands[n]), h.anchor) == None
    && StagedFor(StagedOf(sys[EntityOf(h, m)]), Translate(h.plan.commands[n]), h.anchor)
  }

  /** `w` is the write that executes plan command `n`. */
  predicate Executes(h: Deployment, n: nat, w: AemWrite)
    requires n < |h.plan.commands|
  {
    var c := h.plan.commands[n];
    && HasEntity(h, ModuleOf(c)) && w.target == EntityOf(h, ModuleOf(c))
    && w.control == CONTROL_COMMAND && w.valueLen == 1 <= |w.value| && w.value[0] == CommandCode(Translate(c))
  }

  lemma DeliverCommand(sys: System, w: AemWrite, code: byte, a: Answers)
    requires w.target in sys && w.control == CONTROL_COMMAND && w.valueLen == 1 <= |w.value| && w.value[0] == code
    ensures var (t, status) := Command(sys[w.target], code, a);
            Deliver(sys, w, a) == (sys[w.target := t], status == Ok)
  {
    assert w.value[..1] == [code];
  }

  lemma CommandDelivered(h: Deployment, n: nat, sys: System, w: AemWrite, a: Answers, clean: bool)
    requires Sound(h) && n < |h.plan.commands| && !Refusable(h, n)
    requires ReadyFor(h, sys, n, clean) && Executes(h, n, w)
    ensures var (next, ok) := Deliver(sys, w, a);
            (ok || h.plan.commands[n].Commit?) && AllReflect(h, next, n + 1, clean && ok)
  {
    var c, m := h.plan.commands[n], ModuleOf(h.plan.commands[n]);
    assert ModuleReflects(h, sys, n, m, clean) by {
      assert Addressed(h, m);
    }
    CommandAdvances(h, n, sys[w.target], a, clean);
    var (t, status) := Command(sys[w.target], CommandCode(Translate(c)), a);
    SystemAdvances(h, n, sys, t, clean, status == Ok);
    DeliverCommand(sys, w, CommandCode(Translate(c)), a);
  }

  /** The COMMAND write of plan command `n`, delivered after arbitrary callbacks. */
  lemma CommandWrite(h: Deployment, n: nat, sys: System, w: AemWrite, slot: Slot, clean: bool)
    requires Sound(h) && n < |h.plan.commands| && !Refusable(h, n)
    requires ReadyFor(h, sys, n, clean) && Executes(h, n, w)
    requires clean ==> slot.callbacks == []
    ensures var o := Exec(sys, [w], [slot]);
            && (o.acknowledged == 1 || (o.acknowledged == 0 && h.plan.commands[n].Commit?))
            && AllReflect(h, o.system, n + 1, clean && o.acknowledged == 1)
  {
    FireKeeps(h, sys, slot.callbacks, n, clean);
    CommandDelivered(h, n, Fire(sys, slot.callbacks), w, slot.answers, clean);
    ExecOne(sys, w, slot);
  }

  // --- Whole programs ---------------------------------------------------------------

  /** `block` is the writes of plan command `n`: staging, then the executing write. */
  ghost predicate IsBlock(h: Deployment, n: nat, block: seq<AemWrite>)
    requires n < |h.plan.commands|
  {
    var c := h.plan.commands[n];
    && EnvelopeError(Translate(c), h.anchor) == None
    && |block| >= 2
    && Executes(h, n, block[|block| - 1])
    && Stages(block[..|block| - 1], EntityOf(h, ModuleOf(c)), Translate(c), h.anchor)
  }

  ghost predicate Stages(writes: seq<AemWrite>, id: EntityId, c: EndpointCommand, anchor: Anchor)
    requires EnvelopeError(c, anchor) == None
  {
    && (forall k :: 0 <= k < |writes| ==> IsStaging(writes[k]) && writes[k].target == id)
    && forall g :: StagedFor(StageWrites(g, writes), c, anchor)
  }

  /** One block of writes per plan command. */
  ghost predicate AreBlocks(h: Deployment, blocks: seq<seq<AemWrite>>) {
    && |blocks| == |h.plan.commands|
    && forall n :: 0 <= n < |blocks| ==> IsBlock(h, n, blocks[n])
  }

  function Flatten(blocks: seq<seq<AemWrite>>): seq<AemWrite> {
    if blocks == [] then [] else Flatten(blocks[..|blocks| - 1]) + blocks[|blocks| - 1]
  }

  /** The writes of the first `n` commands. */
  function Prog(blocks: seq<seq<AemWrite>>, n: nat): seq<AemWrite>
    requires n <= |blocks|
  {
    Flatten(blocks[..n])
  }

  lemma BlockLength(h: Deployment, blocks: seq<seq<AemWrite>>, n: nat)
    requires AreBlocks(h, blocks) && n < |blocks|
    ensures |Prog(blocks, n)| + 2 <= |Prog(blocks, n + 1)|
  {
    ProgGrows(blocks, n);
    assert IsBlock(h, n, blocks[n]);
  }

  lemma ProgGrows(blocks: seq<seq<AemWrite>>, n: nat)
    requires n < |blocks|
    ensures Prog(blocks, n + 1) == Prog(blocks, n) + blocks[n]
  {
    assert blocks[..n + 1][..n] == blocks[..n];
  }

  lemma {:induction false} ProgMonotone(blocks: seq<seq<AemWrite>>, j: nat, n: nat)
    requires j <= n <= |blocks|
    ensures |Prog(blocks, j)| <= |Prog(blocks, n)|
  {
    if j < n {
      ProgMonotone(blocks, j, n - 1);
      ProgGrows(blocks, n - 1);
    }
  }

  lemma BlockSendable(h: Deployment, n: nat, block: seq<AemWrite>)
    requires n < |h.plan.commands| && IsBlock(h, n, block)
    ensures Sendable(block)
  {
    forall k | 0 <= k < |block| ensures block[k].valueLen <= |block[k].value| {
      if k < |block| - 1 {
        assert IsStaging(block[..|block| - 1][k]);
      }
    }
  }

  lemma {:induction false} ProgSendable(h: Deployment, blocks: seq<seq<AemWrite>>, n: nat)
    requires AreBlocks(h, blocks) && n <= |blocks|
    ensures Sendable(Prog(blocks, n))
  {
    hide IsBlock;
    if n > 0 {
      ProgSendable(h, blocks, n - 1);
      ProgGrows(blocks, n - 1);
      BlockSendable(h, n - 1, blocks[n - 1]);
    }
  }

  /** The writes compiled for the first `n` commands. */
  ghost function ProgramOf(h: Deployment, envelopes: seq<Envelope>, n: nat): seq<AemWrite>
    requires Compiles(h, envelopes) && n <= |envelopes|
  {
    NoErrorsInPrefix(envelopes, h.targets, h.anchor, n);
    Program(envelopes[..n], h.targets, h.anchor)
  }

  lemma ProgramOfGrows(h: Deployment, envelopes: seq<Envelope>, n: nat)
    requires Compiles(h, envelopes) && n < |envelopes|
    ensures HasTarget(h.targets, envelopes[n].endpointId) && EnvelopeError(envelopes[n].command, h.anchor) == None
    ensures ProgramOf(h, envelopes, n + 1) == ProgramOf(h, envelopes, n)
              + WritesFor(envelopes[n], TargetOf(h.targets, envelopes[n].endpointId).entityId, h.anchor)
  {
    hide Accepts, Compiled, ValidTargets;
    NoErrorsInPrefix(envelopes, h.targets, h.anchor, n);
    NoErrorsInPrefix(envelopes, h.targets, h.anchor, n + 1);
    assert ProgramError(envelopes, h.targets, h.anchor, n) == None;
    assert envelopes[..n + 1][..n] == envelopes[..n];
  }

  /** The program the compilers emit is made of such blocks. */
  lemma {:induction false} CompiledBlocks(h: Deployment, envelopes: seq<Envelope>, n: nat)
      returns (blocks: seq<seq<AemWrite>>)
    requires Compiles(h, envelopes) && n <= |envelopes|
    ensures |blocks| == n
    ensures forall k :: 0 <= k < n ==> IsBlock(h, k, blocks[k])
    ensures forall k :: 0 <= k <= n ==> Prog(blocks, k) == ProgramOf(h, envelopes, k)
  {
    hide IsBlock, Accepts, Compiled, Programmable;
    if n == 0 {
      blocks := [];
    } else {
      var front := CompiledBlocks(h, envelopes, n - 1);
      var block := CompiledBlock(h, envelopes, n - 1);
      blocks := front + [block];
      ProgGrows(blocks, n - 1);
      forall k | 0 <= k <= n ensures Prog(blocks, k) == ProgramOf(h, envelopes, k) {
        if k < n {
          assert blocks[..k] == front[..k];
        } else {
          assert blocks[..n - 1] == front[..n - 1];
          ProgramOfGrows(h, envelopes, n - 1);
        }
      }
    }
  }

  lemma CompiledBlock(h: Deployment, envelopes: seq<Envelope>, n: nat) returns (block: seq<AemWrite>)
    requires Compiles(h, envelopes) && n < |envelopes|
    ensures HasTarget(h.targets, envelopes[n].endpointId) && EnvelopeError(envelopes[n].command, h.anchor) == None
    ensures block == WritesFor(envelopes[n], TargetOf(h.targets, envelopes[n].endpointId).entityId, h.anchor)
    ensures IsBlock(h, n, block)
  {
    var c, e := h.plan.commands[n], envelopes[n];
    assert ProgramError(envelopes, h.targets, h.anchor, n) == None;
    AddressedHasEntity(h, envelopes, n);
    assert e == EnvelopeFor(h.bindings, c);
    var id := EntityOf(h, ModuleOf(c));
    block := WritesFor(e, id, h.anchor);
    var staging := block[..|block| - 1];
    assert staging == Staging(e, id, h.anchor);
    forall g ensures StagedFor(StageWrites(g, staging), Translate(c), h.anchor) {
      StagingDelivers(g, e, id, h.anchor);
    }
    StagingDelivers(Staged(0, 0, 0, 0), e, id, h.anchor);
  }

  /** The first `cut` of `size` writes of command `n` end in `o`. */
  ghost predicate BlockOutcome(h: Deployment, n: nat, size: nat, cut: nat, o: Outcome, clean: bool)
    requires n < |h.plan.commands|
  {
    if cut < size then o.acknowledged == cut && AllReflect(h, o.system, n, clean)
    else && (o.acknowledged == cut || (o.acknowledged == cut - 1 && h.plan.commands[n].Commit?))
         && AllReflect(h, o.system, n + 1, clean && o.acknowledged == cut)
  }

  /** Some, but not all, writes of command `n`: staging only. */
  lemma PartialBlock(h: Deployment, n: nat, sys: System, block: seq<AemWrite>, slots: seq<Slot>, clean: bool)
    requires n < |h.plan.commands| && IsBlock(h, n, block) && |slots| < |block|
    requires AllReflect(h, sys, n, clean) && (clean ==> Quiet(slots))
    requires EntityOf(h, ModuleOf(h.plan.commands[n])) in sys
    ensures Sendable(block[..|slots|])
    ensures BlockOutcome(h, n, |block|, |slots|, Exec(sys, block[..|slots|], slots), clean)
  {
    hide AllReflect, Exec, EnvelopeError;
    var id := EntityOf(h, ModuleOf(h.plan.commands[n]));
    assert block[..|slots|] == block[..|block| - 1][..|slots|];
    StagingRun(h, sys, n, clean, id, block[..|slots|], slots);
  }

  /** The staging part of a command's block leaves the command ready to execute. */
  lemma StagedBlock(h: Deployment, n: nat, sys: System, block: seq<AemWrite>, slots: seq<Slot>, clean: bool)
    requires n < |h.plan.commands| && IsBlock(h, n, block) && |slots| == |block| - 1
    requires AllReflect(h, sys, n, clean) && (clean ==> Quiet(slots))
    requires EntityOf(h, ModuleOf(h.plan.commands[n])) in sys
    ensures Sendable(block[..|block| - 1])
    ensures var o := Exec(sys, block[..|block| - 1], slots);
            o.acknowledged == |slots| && ReadyFor(h, o.system, n, clean) && Executes(h, n, block[|block| - 1])
  {
    hide AllReflect, Exec, EnvelopeError, StagedFor, EntityOf, HasEntity;
    StagingRun(h, sys, n, clean, EntityOf(h, ModuleOf(h.plan.commands[n])), block[..|block| - 1], slots);
  }

  /** All writes of command `n`. */
  lemma FullBlock(h: Deployment, n: nat, sys: System, block: seq<AemWrite>, slots: seq<Slot>, clean: bool)
    requires Sound(h) && n < |h.plan.commands| && !Refusable(h, n) && IsBlock(h, n, block) && |slots| == |block|
    requires AllReflect(h, sys, n, clean) && (clean ==> Quiet(slots))
    requires EntityOf(h, ModuleOf(h.plan.commands[n])) in sys
    ensures Sendable(block)
    ensures BlockOutcome(h, n, |block|, |slots|, Exec(sys, block, slots), clean)
  {
    var last := |block| - 1;
    var staging, command := block[..last], block[last];
    StagedBlock(h, n, sys, block, slots[..last], clean);
    BlockSendable(h, n, block);
    hide AllReflect, Exec, Sound, ReadyFor, Refusable, IsBlock, Executes;
    CommandWrite(h, n, Exec(sys, staging, slots[..last]).system, command, slots[last], clean);
    ExecLast(sys, block, slots);
  }

  /** The first `|slots|` writes of command `n`. */
  lemma BlockRun(h: Deployment, n: nat, sys: System, block: seq<AemWrite>, slots: seq<Slot>, clean: bool)
    requires Sound(h) && n < |h.plan.commands| && !Refusable(h, n) && IsBlock(h, n, block) && |slots| <= |block|
    requires AllReflect(h, sys, n, clean) && (clean ==> Quiet(slots))
    ensures Sendable(block[..|slots|])
    ensures BlockOutcome(h, n, |block|, |slots|, Exec(sys, block[..|slots|], slots), clean)
  {
    hide Sound, Exec, EnvelopeError, Reflects, BlockOutcome, Stages, Refusable;
    var m := ModuleOf(h.plan.commands[n]);
    assert ModuleReflects(h, sys, n, m, clean) by {
      assert Addressed(h, m);
    }
    if |slots| < |block| {
      PartialBlock(h, n, sys, block, slots, clean);
    } else {
      assert block[..|slots|] == block;
      FullBlock(h, n, sys, block, slots, clean);
    }
  }

  /** How far the controller got after `cut` writes: `j` commands are done. If a write was
      refused, it is the COMMIT of command `j - 1`. */
  ghost predicate Progress(h: Deployment, blocks: seq<seq<AemWrite>>, n: nat, cut: nat, o: Outcome, j: nat, clean: bool)
    requires n <= |blocks| == |h.plan.commands|
  {
    && j <= n
    && AllReflect(h, o.system, j, clean && o.acknowledged == cut)
    && |Prog(blocks, j)| <= cut
    && (if o.acknowledged == cut then j < n ==> cut < |Prog(blocks, j + 1)|
        else 0 < j && h.plan.commands[j - 1].Commit? && o.acknowledged == |Prog(blocks, j)| - 1)
  }

  /** The host-side facts an execution rests on. */
  predicate Sound(h: Deployment) {
    Accepts(h.plan, h.bindings) && ValidTargets(h.targets)
  }

  /** Progress through `n - 1` commands and the outcome of the next block give progress through `n`. */
  lemma ExtendProgress(h: Deployment, blocks: seq<seq<AemWrite>>, n: nat, cut: nat,
                       first: Outcome, second: Outcome, j: nat, clean: bool) returns (i: nat)
    requires 0 < n <= |blocks| == |h.plan.commands|
    requires |Prog(blocks, n - 1)| < cut <= |Prog(blocks, n)|
    requires Progress(h, blocks, n - 1, |Prog(blocks, n - 1)|, first, j, clean)
    requires first.acknowledged == |Prog(blocks, n - 1)| ==>
               BlockOutcome(h, n - 1, |blocks[n - 1]|, cut - |Prog(blocks, n - 1)|, second, clean)
    ensures Progress(h, blocks, n, cut,
                     if first.acknowledged < |Prog(blocks, n - 1)| then first
                     else Outcome(second.system, |Prog(blocks, n - 1)| + second.acknowledged), i, clean)
  {
    ProgGrows(blocks, n - 1);
    if first.acknowledged < |Prog(blocks, n - 1)| {
      i := j;
    } else {
      i := if cut < |Prog(blocks, n)| then n - 1 else n;
    }
  }

  lemma ProgressComplete(h: Deployment, blocks: seq<seq<AemWrite>>, n: nat, o: Outcome, j: nat, clean: bool)
    requires n <= |blocks| == |h.plan.commands|
    requires Progress(h, blocks, n, |Prog(blocks, n)|, o, j, clean)
    ensures o.acknowledged == |Prog(blocks, n)| ==> j == n && AllReflect(h, o.system, n, clean)
  {
    if o.acknowledged == |Prog(blocks, n)| && j < n {
      ProgMonotone(blocks, j + 1, n);
    }
  }

  lemma {:induction false} ProgramRun(h: Deployment, blocks: seq<seq<AemWrite>>, n: nat, sys: System, slots: seq<Slot>,
                                      clean: bool) returns (j: nat)
    requires Sound(h) && AreBlocks(h, blocks) && n <= |blocks| && ExecutableUpTo(h, n) && |slots| <= |Prog(blocks, n)|
    requires AllReflect(h, sys, 0, clean) && (clean ==> Quiet(slots))
    ensures Sendable(Prog(blocks, n)[..|slots|])
    ensures Progress(h, blocks, n, |slots|, Exec(sys, Prog(blocks, n)[..|slots|], slots), j, clean)
    decreases n
  {
    hide Sound, AllReflect, IsBlock, Refusable;
    ProgSendable(h, blocks, n);
    if n == 0 {
      j := 0;
      assert Prog(blocks, 0)[..|slots|] == [];
      assert Exec(sys, Prog(blocks, 0)[..|slots|], slots) == Outcome(sys, 0);
      assert Progress(h, blocks, n, |slots|, Outcome(sys, 0), j, clean);
    } else if |slots| <= |Prog(blocks, n - 1)| {
      ProgGrows(blocks, n - 1);
      assert Prog(blocks, n)[..|slots|] == Prog(blocks, n - 1)[..|slots|];
      j := ProgramRun(h, blocks, n - 1, sys, slots, clean);
      BlockLength(h, blocks, n - 1);
      assert Progress(h, blocks, n, |slots|, Exec(sys, Prog(blocks, n)[..|slots|], slots), j, clean);
    } else {
      j := LastCommandRun(h, blocks, n, sys, slots, clean);
    }
  }

  lemma LastCommandRun(h: Deployment, blocks: seq<seq<AemWrite>>, n: nat, sys: System, slots: seq<Slot>, clean: bool)
      returns (i: nat)
    requires Sound(h) && AreBlocks(h, blocks) && 0 < n <= |blocks| && ExecutableUpTo(h, n)
    requires |Prog(blocks, n - 1)| < |slots| <= |Prog(blocks, n)|
    requires AllReflect(h, sys, 0, clean) && (clean ==> Quiet(slots))
    requires Sendable(Prog(blocks, n)[..|slots|])
    ensures Progress(h, blocks, n, |slots|, Exec(sys, Prog(blocks, n)[..|slots|], slots), i, clean)
    decreases n, 0
  {
    hide Sound, AllReflect, IsBlock, Exec, ReadyFor, Refusable;
    var q, block := Prog(blocks, n - 1), blocks[n - 1];
    var early, late := slots[..|q|], slots[|q|..];
    ProgGrows(blocks, n - 1);
    assert q[..|q|] == q;
    var j := ProgramRun(h, blocks, n - 1, sys, early, clean);
    var first := Exec(sys, q, early);
    var second := Outcome(map[], 0);
    ProgressComplete(h, blocks, n - 1, first, j, clean);
    BlockSendable(h, n - 1, block);
    var part := block[..|late|];
    if first.acknowledged == |q| {
      BlockRun(h, n - 1, first.system, block, late, clean);
      second := Exec(first.system, part, late);
    }
    assert Prog(blocks, n)[..|slots|] == q + part by { ProgGrows(blocks, n - 1); }
    assert slots == early + late;
    ExecSplits(sys, q, part, early, late);
    i := ExtendProgress(h, blocks, n, |slots|, first, second, j, clean);
  }

  // --- The main results --------------------------------------------------------------

  /** Before the handover: every addressed endpoint exists, is in a reachable state and has
      seen only smaller epochs. Nothing is asked of any other entity. */
  ghost predicate Initial(h: Deployment, sys: System) {
    forall m :: Addressed(h, m) && HasEntity(h, m) ==>
      EntityOf(h, m) in sys && Inv(sys[EntityOf(h, m)]) && sys[EntityOf(h, m)].activeEpoch < h.plan.epoch
  }

  lemma InitiallyReflects(h: Deployment, envelopes: seq<Envelope>, sys: System, clean: bool)
    requires Compiles(h, envelopes) && Initial(h, sys)
    ensures AllReflect(h, sys, 0, clean)
  {
    forall m | Addressed(h, m) ensures ModuleReflects(h, sys, 0, m, clean) {
      var k :| 0 <= k < |h.plan.commands| && ModuleOf(h.plan.commands[k]) == m;
      AddressedHasEntity(h, envelopes, k);
      assert CountFor([], m) == 0;
    }
  }

  lemma {:induction false} ProgPrefix(blocks: seq<seq<AemWrite>>, j: nat, n: nat)
    requires j <= n <= |blocks|
    ensures |Prog(blocks, j)| <= |Prog(blocks, n)| && Prog(blocks, n)[..|Prog(blocks, j)|] == Prog(blocks, j)
  {
    if j < n {
      ProgPrefix(blocks, j, n - 1);
      ProgGrows(blocks, n - 1);
    }
  }

  /** `w` asks an endpoint to COMMIT. */
  predicate IsCommitWrite(w: AemWrite) {
    IsCommit(w.control, w.value)
  }

  /** Write `i` of the program is the one that executes plan command `k`. */
  ghost predicate ExecutedBy(h: Deployment, envelopes: seq<Envelope>, k: nat, i: nat)
    requires Compiles(h, envelopes) && k < |envelopes|
  {
    |ProgramOf(h, envelopes, k + 1)| == i + 1
  }

  lemma ProgressMeans(h: Deployment, blocks: seq<seq<AemWrite>>, cut: nat, o: Outcome, j: nat, clean: bool, k: nat)
    requires AreBlocks(h, blocks) && k < |blocks|
    requires Progress(h, blocks, |blocks|, cut, o, j, clean)
    ensures k < j <==> |Prog(blocks, k + 1)| <= cut && |Prog(blocks, k + 1)| <= o.acknowledged + 1
  {
    hide AllReflect, IsBlock;
    if k < j {
      ProgMonotone(blocks, k + 1, j);
    } else {
      BlockLength(h, blocks, j);
      ProgMonotone(blocks, j + 1, k + 1);
    }
  }

  lemma BlockEnd(h: Deployment, n: nat, block: seq<AemWrite>)
    requires n < |h.plan.commands| && IsBlock(h, n, block)
    ensures block != [] && h.plan.commands[n].Commit? ==> IsCommitWrite(block[|block| - 1])
  {
    hide Stages;
  }

  lemma RefusedIsCommit(h: Deployment, blocks: seq<seq<AemWrite>>, cut: nat, o: Outcome, j: nat, clean: bool)
    requires AreBlocks(h, blocks) && cut <= |Prog(blocks, |blocks|)|
    requires Progress(h, blocks, |blocks|, cut, o, j, clean) && o.acknowledged < cut
    ensures IsCommitWrite(Prog(blocks, |blocks|)[o.acknowledged])
  {
    hide AllReflect, IsBlock, IsCommitWrite, Prog;
    ProgGrows(blocks, j - 1);
    BlockLength(h, blocks, j - 1);
    ProgPrefix(blocks, j, |blocks|);
    var block := blocks[j - 1];
    BlockEnd(h, j - 1, block);
    assert Prog(blocks, |blocks|)[o.acknowledged] == Prog(blocks, j)[o.acknowledged] == block[|block| - 1];
  }

  lemma CompilesIsSound(h: Deployment, envelopes: seq<Envelope>)
    requires Compiles(h, envelopes)
    ensures Sound(h) && |envelopes| == |h.plan.commands|
  {
  }

  /** The controller sends the first `|slots|` writes of a compiled handover to endpoints in
      arbitrary reachable states, with arbitrary callbacks in between. `j` commands then are
      done, namely those whose executing write was sent, and every addressed endpoint is
      exactly where its share of them puts it. The only write that can be refused is a COMMIT. */
  lemma ExecutionReflectsPlan(h: Deployment, envelopes: seq<Envelope>, sys: System, slots: seq<Slot>)
      returns (j: nat)
    requires Compiles(h, envelopes) && Executable(h) && Initial(h, sys)
    requires |slots| <= |ProgramOf(h, envelopes, |envelopes|)|
    ensures var writes := ProgramOf(h, envelopes, |envelopes|)[..|slots|];
            && Sendable(writes) && j <= |envelopes| == |h.plan.commands|
            && var o := Exec(sys, writes, slots);
            && AllReflect(h, o.system, j, Quiet(slots) && o.acknowledged == |slots|)
            && o.acknowledged <= |slots|
            && (o.acknowledged < |slots| ==> IsCommitWrite(writes[o.acknowledged]))
            && (forall k, i {:trigger ExecutedBy(h, envelopes, k, i)} ::
                  0 <= k < |envelopes| && 0 <= i && ExecutedBy(h, envelopes, k, i) ==>
                  (k < j <==> i < |slots| && i <= o.acknowledged))
  {
    hide AllReflect, IsBlock, NoErrors, Accepts, CommandError, ValidTargets, Refusable, EnvelopeFor, Exec;
    var n := |envelopes|;
    assert |h.plan.commands| == n;
    var blocks := CompiledBlocks(h, envelopes, n);
    InitiallyReflects(h, envelopes, sys, Quiet(slots));
    CompilesIsSound(h, envelopes);
    j := ProgramRun(h, blocks, n, sys, slots, Quiet(slots));
    var writes := Prog(blocks, n)[..|slots|];
    var o := Exec(sys, writes, slots);
    if o.acknowledged < |slots| {
      RefusedIsCommit(h, blocks, |slots|, o, j, Quiet(slots));
    }
    forall k, i | 0 <= k < n && 0 <= i && ExecutedBy(h, envelopes, k, i)
      ensures k < j <==> i < |slots| && i <= o.acknowledged
    {
      ProgressMeans(h, blocks, |slots|, o, j, Quiet(slots), k);
    }
  }

  ghost predicate Issues(h: Deployment, k: nat, m: string, rank: nat) {
    k < |h.plan.commands| && ModuleOf(h.plan.commands[k]) == m && Rank(h.plan.commands[k]) == rank
  }

  /** After `j` commands module `m` has seen exactly the ranks below its count. */
  lemma CountMeansRanks(h: Deployment, j: nat, m: string, k: nat, rank: nat)
    requires Accepts(h.plan, h.bindings) && j <= |h.plan.commands| && Issues(h, k, m, rank)
    ensures k < j <==> rank < CountFor(h.plan.commands[..j], m)
  {
    hide Accepts, Issued, CountFor;
    ModuleFollowsProtocol(h.plan, h.bindings, j, m);
    ModuleFollowsProtocol(h.plan, h.bindings, |h.plan.commands|, m);
    var prefix := h.plan.commands[..j];
    if k < j {
      IssuedAt(prefix, m, k);
    } else if rank < CountFor(prefix, m) {
      IssuedIndex(h, j, m, rank, k);
    }
  }

  /** A rank issued among the first `j` commands is not issued again later. */
  lemma IssuedIndex(h: Deployment, j: nat, m: string, rank: nat, k: nat)
    requires Accepts(h.plan, h.bindings) && j <= k && Issues(h, k, m, rank)
    ensures !Issued(h.plan.commands[..j], m, rank)
  {
    hide Accepts;
    ModuleFollowsProtocol(h.plan, h.bindings, |h.plan.commands|, m);
  }

  /** Compile, then execute: once every write is acknowledged, the endpoint of each module that
      the plan takes through COMMIT carries the plan's epoch, its own roles and the PTP time
      of the start frame; it is committed unless a deadline callback has faulted it since. */
  lemma CompleteHandover(
      h: Deployment, envelopes: seq<Envelope>, sys: System, slots: seq<Slot>, m: string, prepare: nat, commit: nat)
    requires Compiles(h, envelopes) && Executable(h) && Initial(h, sys)
    requires |slots| == |ProgramOf(h, envelopes, |envelopes|)|
    requires Issues(h, prepare, m, 1) && Issues(h, commit, m, 3)
    ensures var writes := ProgramOf(h, envelopes, |envelopes|);
            && Sendable(writes) && HasEntity(h, m)
            && var o := Exec(sys, writes, slots);
            o.acknowledged == |writes| ==>
              && EntityOf(h, m) in o.system
              && var s := o.system[EntityOf(h, m)];
              && s.activeEpoch == h.plan.epoch
              && HasRoles(s, h.plan.commands[prepare].assignment.roles)
              && PtpTimeForFrame(h.anchor, h.plan.startFrame) == Success(s.armedStart)
              && (s.phase == Committed || s.phase == Fault)
              && (Quiet(slots) ==> s.phase == Committed)
  {
    hide Exec, ProgramOf, Accepts, Programmable, Initial, Executable, Inv, CountFor;
    var writes := ProgramOf(h, envelopes, |envelopes|);
    assert writes[..|slots|] == writes;
    var j := ExecutionReflectsPlan(h, envelopes, sys, slots);
    var o := Exec(sys, writes, slots);
    AddressedHasEntity(h, envelopes, commit);
    if o.acknowledged == |writes| {
      AllExecuted(h, envelopes, commit);
      CompilesIsSound(h, envelopes);
      assert commit < j;
      CountMeansRanks(h, j, m, commit, 3);
      CountMeansRanks(h, j, m, prepare, 1);
      assert ModuleReflects(h, o.system, j, m, Quiet(slots)) by {
        assert Addressed(h, m);
      }
      assert h.plan.commands[..j][prepare] == h.plan.commands[prepare];
    }
  }

  /** Every command's executing write lies inside the whole program. */
  lemma AllExecuted(h: Deployment, envelopes: seq<Envelope>, k: nat)
    requires Compiles(h, envelopes) && k < |envelopes|
    ensures 0 < |ProgramOf(h, envelopes, k + 1)| <= |ProgramOf(h, envelopes, |envelopes|)|
    ensures ExecutedBy(h, envelopes, k, |ProgramOf(h, envelopes, k + 1)| - 1)
  {
    hide Compiles;
    ProgramOfMonotone(h, envelopes, k + 1, |envelopes|);
    ProgramOfGrows(h, envelopes, k);
  }

  lemma {:induction false} ProgramOfMonotone(h: Deployment, envelopes: seq<Envelope>, j: nat, n: nat)
    requires Compiles(h, envelopes) && j <= n <= |envelopes|
    ensures |ProgramOf(h, envelopes, j)| <= |ProgramOf(h, envelopes, n)|
  {
    hide Compiles;
    if j < n {
      ProgramOfMonotone(h, envelopes, j, n - 1);
      ProgramOfGrows(h, envelopes, n - 1);
    }
  }

  /** Interruption: wherever the controller stops, an endpoint that has executed its MUTE but
      not its COMMIT is silent, and nothing is scheduled that could make it audible. */
  lemma InterruptedIsSilent(h: Deployment, envelopes: seq<Envelope>, sys: System, slots: seq<Slot>, m: string,
                            mute: nat, muteWrite: nat)
    requires Compiles(h, envelopes) && Executable(h) && Initial(h, sys)
    requires |slots| <= |ProgramOf(h, envelopes, |envelopes|)|
    requires Issues(h, mute, m, 0) && mute < |envelopes| && ExecutedBy(h, envelopes, mute, muteWrite)
    ensures var writes := ProgramOf(h, envelopes, |envelopes|)[..|slots|];
            && Sendable(writes) && HasEntity(h, m)
            && var o := Exec(sys, writes, slots);
            muteWrite < |slots| && muteWrite <= o.acknowledged
            && (forall k, i {:trigger Issues(h, k, m, 3), ExecutedBy(h, envelopes, k, i)} ::
                  0 <= k < |envelopes| && 0 <= i && Issues(h, k, m, 3) && ExecutedBy(h, envelopes, k, i) ==>
                    !(i < |slots| && i <= o.acknowledged)) ==>
              && EntityOf(h, m) in o.system
              && var s := o.system[EntityOf(h, m)];
              && s.activeEpoch == h.plan.epoch && s.phase in {Muted, Prepared, Armed}
              && s.muted && s.outputMuted && !s.pending
  {
    hide Exec, ProgramOf, Accepts, Programmable, Initial, Executable, CountFor;
    var writes := ProgramOf(h, envelopes, |envelopes|)[..|slots|];
    var j := ExecutionReflectsPlan(h, envelopes, sys, slots);
    var o := Exec(sys, writes, slots);
    AddressedHasEntity(h, envelopes, mute);
    if muteWrite < |slots| && muteWrite <= o.acknowledged
       && (forall k, i {:trigger Issues(h, k, m, 3), ExecutedBy(h, envelopes, k, i)} ::
             0 <= k < |envelopes| && 0 <= i && Issues(h, k, m, 3) && ExecutedBy(h, envelopes, k, i) ==>
               !(i < |slots| && i <= o.acknowledged))
    {
      CompilesIsSound(h, envelopes);
      assert mute < j;
      CountMeansRanks(h, j, m, mute, 0);
      NotFour(h, envelopes, slots, o, j, m);
      assert ModuleReflects(h, o.system, j, m, Quiet(slots) && o.acknowledged == |slots|) by {
        assert Addressed(h, m);
      }
    }
  }

  lemma NotFour(h: Deployment, envelopes: seq<Envelope>, slots: seq<Slot>, o: Outcome, j: nat, m: string)
    requires Compiles(h, envelopes) && j <= |envelopes| == |h.plan.commands|
    requires forall k, i {:trigger ExecutedBy(h, envelopes, k, i)} ::
               0 <= k < |envelopes| && 0 <= i && ExecutedBy(h, envelopes, k, i) ==>
               (k < j <==> i < |slots| && i <= o.acknowledged)
    requires forall k, i {:trigger Issues(h, k, m, 3), ExecutedBy(h, envelopes, k, i)} ::
               0 <= k < |envelopes| && 0 <= i && Issues(h, k, m, 3) && ExecutedBy(h, envelopes, k, i) ==>
                 !(i < |slots| && i <= o.acknowledged)
    ensures CountFor(h.plan.commands[..j], m) <= 3
  {
    hide Accepts, Programmable, Compiled, CountFor;
    ModuleFollowsProtocol(h.plan, h.bindings, j, m);
    if CountFor(h.plan.commands[..j], m) > 3 {
      var prefix := h.plan.commands[..j];
      assert Issued(prefix, m, 3);
      var k :| 0 <= k < |prefix| && ModuleOf(prefix[k]) == m && Rank(prefix[k]) == 3;
      assert Issues(h, k, m, 3);
      AllExecuted(h, envelopes, k);
    }
  }

  // --- Everyone else -------------------------------------------------------------------

  /** The callbacks of entity `e` among `callbacks`, and nothing else, applied to `s`. */
  function OwnCallbacks(s: State, e: EntityId, callbacks: seq<Dispatched>): State
    decreases |callbacks|
  {
    if callbacks == [] then s
    else OwnCallbacks(if callbacks[0].entity == e then Callback(s, callbacks[0].answers) else s, e, callbacks[1..])
  }

  function OwnHistory(s: State, e: EntityId, slots: seq<Slot>): State
    decreases |slots|
  {
    if slots == [] then s else OwnHistory(OwnCallbacks(s, e, slots[0].callbacks), e, slots[1..])
  }

  lemma {:induction false} FireIsLocal(sys: System, e: EntityId, callbacks: seq<Dispatched>)
    requires e in sys
    ensures e in Fire(sys, callbacks) && Fire(sys, callbacks)[e] == OwnCallbacks(sys[e], e, callbacks)
    decreases |callbacks|
  {
    if callbacks != [] {
      var c := callbacks[0];
      var fired := if c.entity in sys then sys[c.entity := Callback(sys[c.entity], c.answers)] else sys;
      FireIsLocal(fired, e, callbacks[1..]);
    }
  }

  /** An entity no write addresses ends as its own callbacks alone would have left it; without
      callbacks of its own it is untouched. */
  lemma {:induction false} OthersUntouched(sys: System, writes: seq<AemWrite>, slots: seq<Slot>, e: EntityId)
    requires |slots| == |writes| && Sendable(writes) && e in sys
    requires forall k :: 0 <= k < |writes| ==> writes[k].target != e
    ensures var o := Exec(sys, writes, slots);
            && o.acknowledged <= |writes| && e in o.system
            && o.system[e] ==
               OwnHistory(sys[e], e, slots[..if o.acknowledged < |writes| then o.acknowledged + 1 else |writes|])
    decreases |writes|
  {
    if writes != [] {
      FireIsLocal(sys, e, slots[0].callbacks);
      var (next, ok) := Deliver(Fire(sys, slots[0].callbacks), writes[0], slots[0].answers);
      assert next[e] == OwnCallbacks(sys[e], e, slots[0].callbacks);
      if ok {
        OthersUntouched(next, writes[1..], slots[1..], e);
        var o := Exec(sys, writes, slots);
        var n := if o.acknowledged < |writes| then o.acknowledged + 1 else |writes|;
        assert slots[..n][1..] == slots[1..][..n - 1];
      } else {
        assert slots[..1][1..] == [];
        assert OwnHistory(sys[e], e, slots[..1]) == OwnHistory(next[e], e, []);
      }
    }
  }
}
