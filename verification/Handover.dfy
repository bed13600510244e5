/** Host side: one modular-speaker handover plan becomes endpoint-addressed control envelopes. */
module Handover {
  import opened Bytes

  datatype ChannelRole =
    | FrontLeft | FrontRight | FrontCenter | LowFrequencyEffects
    | SurroundLeft | SurroundRight | SurroundBackLeft | SurroundBackRight
    | TopFrontLeft | TopFrontRight | TopRearLeft | TopRearRight
    | Custom(name: string)

  datatype Route = DockBus | WiredNetwork | WirelessNetwork | MutedRoute
  datatype ClockSource = DockRecovered | Ptp | AdaptivePeer | Unlocked
  datatype Medium = WiredEsp32P4 | WirelessEsp32C6

  datatype Assignment = Assignment(moduleId: string, route: Route, clockSource: ClockSource, roles: seq<ChannelRole>)

  datatype PlanCommand =
    | Mute(moduleId: string, epoch: u64)
    | Prepare(assignment: Assignment, epoch: u64)
    | Arm(moduleId: string, epoch: u64, startFrame: u64)
    | Commit(moduleId: string, epoch: u64)

  datatype Plan = Plan(epoch: u64, startFrame: u64, commands: seq<PlanCommand>)

  datatype EndpointCommand =
    | MuteEndpoint(moduleId: string, epoch: u64)
    | PrepareEndpoint(moduleId: string, epoch: u64, route: Route, clockSource: ClockSource, roles: seq<ChannelRole>)
    | ArmEndpoint(moduleId: string, epoch: u64, startFrame: u64)
    | CommitEndpoint(moduleId: string, epoch: u64)
    | StopEndpoint(moduleId: string, epoch: u64)

  datatype Binding = Binding(moduleId: string, endpointId: string, streamId: u64, medium: Medium)
  datatype Envelope = Envelope(endpointId: string, streamId: u64, medium: Medium, command: EndpointCommand)

  datatype ControlError =
    | InvalidBinding | DuplicateModule | DuplicateEndpoint | DuplicateStream | UnknownModule
    | InvalidEpoch | InvalidStartFrame | InvalidCommandOrder
    | UnsupportedRoute | UnsupportedClock | UnsupportedLaneCount | MediumRouteMismatch

  const CHANNELS_PER_STREAM := 2

  function ModuleOf(c: PlanCommand): string {
    match c
    case Prepare(assignment, _) => assignment.moduleId
    case _ => c.moduleId
  }

  /** Position of a command in the protocol mute, prepare, arm, commit. */
  function Rank(c: PlanCommand): nat {
    match c
    case Mute(_, _) => 0
    case Prepare(_, _) => 1
    case Arm(_, _, _) => 2
    case Commit(_, _) => 3
  }

  /** How many of `commands` address module `m`. */
  function CountFor(commands: seq<PlanCommand>, m: string): nat {
    if commands == [] then 0
    else CountFor(commands[..|commands| - 1], m) + (if ModuleOf(commands[|commands| - 1]) == m then 1 else 0)
  }

  predicate WellFormedBinding(b: Binding) {
    b.moduleId != "" && b.endpointId != "" && b.streamId != 0
  }

  /** No two bindings share a module, an endpoint or a stream. */
  predicate Distinct(b: Binding, c: Binding) {
    b.moduleId != c.moduleId && b.endpointId != c.endpointId && b.streamId != c.streamId
  }

  predicate ValidBindings(bindings: seq<Binding>) {
    && (forall i :: 0 <= i < |bindings| ==> WellFormedBinding(bindings[i]))
    && (forall i, j :: 0 <= i < j < |bindings| ==> Distinct(bindings[i], bindings[j]))
  }

  predicate IsBound(bindings: seq<Binding>, m: string) {
    exists i :: 0 <= i < |bindings| && bindings[i].moduleId == m
  }

  /** The first binding of module `m`. */
  function BindingOf(bindings: seq<Binding>, m: string): (b: Binding)
    requires IsBound(bindings, m)
    ensures b in bindings && b.moduleId == m
  {
    if bindings[0].moduleId == m then bindings[0] else BindingOf(bindings[1..], m)
  }

  predicate RouteFits(route: Route, medium: Medium) {
    (route == WiredNetwork && medium == WiredEsp32P4) || (route == WirelessNetwork && medium == WirelessEsp32C6)
  }

  function AssignmentError(medium: Medium, a: Assignment): Option<ControlError> {
    if |a.roles| == 0 || |a.roles| > CHANNELS_PER_STREAM then Some(UnsupportedLaneCount)
    else if a.clockSource != Ptp then Some(UnsupportedClock)
    else if RouteFits(a.route, medium) then None
    else if a.route == WiredNetwork || a.route == WirelessNetwork then Some(MediumRouteMismatch)
    else Some(UnsupportedRoute)
  }

  /** Why command `k` of the plan is refused, if it is: the earlier commands of the same
      module must be exactly its predecessors in the protocol. */
  function CommandError(plan: Plan, bindings: seq<Binding>, k: nat): Option<ControlError>
    requires k < |plan.commands|
  {
    var c := plan.commands[k];
    if c.epoch != plan.epoch then Some(InvalidEpoch)
    else if !IsBound(bindings, ModuleOf(c)) then Some(UnknownModule)
    else if CountFor(plan.commands[..k], ModuleOf(c)) != Rank(c) then Some(InvalidCommandOrder)
    else match c
      case Prepare(a, _) => AssignmentError(BindingOf(bindings, a.moduleId).medium, a)
      case Arm(_, _, start) => if start == 0 || start != plan.startFrame then Some(InvalidStartFrame) else None
      case _ => None
  }

  function Translate(c: PlanCommand): EndpointCommand {
    match c
    case Mute(m, e) => MuteEndpoint(m, e)
    case Prepare(a, e) => PrepareEndpoint(a.moduleId, e, a.route, a.clockSource, a.roles)
    case Arm(m, e, f) => ArmEndpoint(m, e, f)
    case Commit(m, e) => CommitEndpoint(m, e)
  }

  function EnvelopeFor(bindings: seq<Binding>, c: PlanCommand): Envelope
    requires IsBound(bindings, ModuleOf(c))
  {
    var b := BindingOf(bindings, ModuleOf(c));
    Envelope(b.endpointId, b.streamId, b.medium, Translate(c))
  }

  /** The plans the bridge accepts, said without an order of evaluation. */
  predicate Accepts(plan: Plan, bindings: seq<Binding>) {
    && plan.epoch != 0 && plan.startFrame != 0
    && ValidBindings(bindings)
    && forall k :: 0 <= k < |plan.commands| ==> CommandError(plan, bindings, k) == None
  }

  /** Each command becomes one envelope for the endpoint bound to its module, in plan order. */
  predicate Compiled(plan: Plan, bindings: seq<Binding>, envelopes: seq<Envelope>) {
    && |envelopes| == |plan.commands|
    && forall k :: 0 <= k < |envelopes| ==>
         IsBound(bindings, ModuleOf(plan.commands[k])) && envelopes[k] == EnvelopeFor(bindings, plan.commands[k])
  }

  /** `error` is what stops the compilation: the first refused command, after the plan-wide checks. */
  predicate Explains(plan: Plan, bindings: seq<Binding>, error: ControlError) {
    if plan.epoch == 0 then error == InvalidEpoch
    else if plan.startFrame == 0 then error == InvalidStartFrame
    else if !ValidBindings(bindings) then BindingFault(bindings, error)
    else exists k ::
        && 0 <= k < |plan.commands| && CommandError(plan, bindings, k) == Some(error)
        && forall j :: 0 <= j < k ==> CommandError(plan, bindings, j) == None
  }

  /** The named defect is really there. */
  predicate BindingFault(bindings: seq<Binding>, error: ControlError) {
    match error
    case InvalidBinding => exists i :: 0 <= i < |bindings| && !WellFormedBinding(bindings[i])
    case DuplicateModule => exists i, j :: 0 <= i < j < |bindings| && bindings[i].moduleId == bindings[j].moduleId
    case DuplicateEndpoint => exists i, j :: 0 <= i < j < |bindings| && bindings[i].endpointId == bindings[j].endpointId
    case DuplicateStream => exists i, j :: 0 <= i < j < |bindings| && bindings[i].streamId == bindings[j].streamId
    case _ => false
  }

  method ValidateBindings(bindings: seq<Binding>) returns (error: Option<ControlError>)
    ensures error.None? <==> ValidBindings(bindings)
    ensures error.Some? ==> BindingFault(bindings, error.value)
  {
    for i := 0 to |bindings|
      invariant forall k :: 0 <= k < i ==> WellFormedBinding(bindings[k])
      invariant forall k, l :: 0 <= k < i && k < l < |bindings| ==> Distinct(bindings[k], bindings[l])
    {
      var b := bindings[i];
      if b.moduleId == "" || b.endpointId == "" || b.streamId == 0 {
        return Some(InvalidBinding);
      }
      for j := i + 1 to |bindings|
        invariant forall l :: i < l < j ==> Distinct(b, bindings[l])
      {
        var other := bindings[j];
        if b.moduleId == other.moduleId {
          return Some(DuplicateModule);
        }
        if b.endpointId == other.endpointId {
          return Some(DuplicateEndpoint);
        }
        if b.streamId == other.streamId {
          return Some(DuplicateStream);
        }
      }
    }
    error := None;
  }

  method FindBinding(bindings: seq<Binding>, m: string) returns (found: Option<Binding>)
    ensures found.Some? <==> IsBound(bindings, m)
    ensures found.Some? ==> found.value == BindingOf(bindings, m)
  {
    for i := 0 to |bindings|
      invariant forall k :: 0 <= k < i ==> bindings[k].moduleId != m
      invariant IsBound(bindings, m) ==>
                IsBound(bindings[i..], m) && BindingOf(bindings, m) == BindingOf(bindings[i..], m)
    {
      if bindings[i].moduleId == m {
        return Some(bindings[i]);
      }
      assert bindings[i..][1..] == bindings[i + 1..];
      if IsBound(bindings, m) {
        var k :| 0 <= k < |bindings| && bindings[k].moduleId == m;
        assert bindings[i + 1..][k - (i + 1)].moduleId == m;
      }
    }
    found := None;
  }

  /** Checks and translates command `k`, whose module has seen `current` commands so far. */
  method CompileCommand(plan: Plan, bindings: seq<Binding>, k: nat, current: nat)
      returns (r: Result<Envelope, ControlError>)
    requires k < |plan.commands|
    requires current == CountFor(plan.commands[..k], ModuleOf(plan.commands[k]))
    ensures r.Failure? ==> CommandError(plan, bindings, k) == Some(r.error)
    ensures r.Success? ==>
              && CommandError(plan, bindings, k) == None
              && IsBound(bindings, ModuleOf(plan.commands[k]))
              && r.value == EnvelopeFor(bindings, plan.commands[k])
  {
    var c := plan.commands[k];
    if c.epoch != plan.epoch {
      return Failure(InvalidEpoch);
    }
    var binding := FindBinding(bindings, ModuleOf(c));
    if binding.None? {
      return Failure(UnknownModule);
    }
    if current != Rank(c) {
      return Failure(InvalidCommandOrder);
    }
    if c.Prepare? {
      var error := AssignmentError(binding.value.medium, c.assignment);
      if error.Some? {
        return Failure(error.value);
      }
    }
    if c.Arm? && (c.startFrame == 0 || c.startFrame != plan.startFrame) {
      return Failure(InvalidStartFrame);
    }
    r := Success(Envelope(binding.value.endpointId, binding.value.streamId, binding.value.medium, Translate(c)));
  }

  /** `phases` counts, for every module, the commands already compiled for it. */
  ghost predicate Tracks(phases: map<string, nat>, commands: seq<PlanCommand>) {
    forall m :: (if m in phases then phases[m] else 0) == CountFor(commands, m)
  }

  lemma TracksStep(phases: map<string, nat>, commands: seq<PlanCommand>, k: nat)
    requires k < |commands| && Tracks(phases, commands[..k])
    ensures var m := ModuleOf(commands[k]);
            Tracks(phases[m := CountFor(commands[..k], m) + 1], commands[..k + 1])
  {
    assert commands[..k + 1][..k] == commands[..k];
  }

  /** What compiling the first `k` commands has produced. */
  ghost predicate CompiledUpTo(plan: Plan, bindings: seq<Binding>, envelopes: seq<Envelope>, k: nat)
    requires k <= |plan.commands|
  {
    && |envelopes| == k
    && forall j {:trigger envelopes[j]} {:trigger CommandError(plan, bindings, j)} :: 0 <= j < k ==>
         && CommandError(plan, bindings, j) == None
         && IsBound(bindings, ModuleOf(plan.commands[j])) && envelopes[j] == EnvelopeFor(bindings, plan.commands[j])
  }

  lemma UpToStep(plan: Plan, bindings: seq<Binding>, envelopes: seq<Envelope>, e: Envelope, k: nat)
    requires k < |plan.commands| && CompiledUpTo(plan, bindings, envelopes, k)
    requires CommandError(plan, bindings, k) == None && IsBound(bindings, ModuleOf(plan.commands[k]))
    requires e == EnvelopeFor(bindings, plan.commands[k])
    ensures CompiledUpTo(plan, bindings, envelopes + [e], k + 1)
  {
    hide CommandError, EnvelopeFor, IsBound, ModuleOf;
    var longer := envelopes + [e];
    forall j | 0 <= j < k + 1
      ensures CommandError(plan, bindings, j) == None && IsBound(bindings, ModuleOf(plan.commands[j]))
      ensures longer[j] == EnvelopeFor(bindings, plan.commands[j])
    {
      if j < k {
        assert longer[j] == envelopes[j];
      }
    }
  }

  lemma UpToAll(plan: Plan, bindings: seq<Binding>, envelopes: seq<Envelope>)
    requires CompiledUpTo(plan, bindings, envelopes, |plan.commands|)
    ensures Compiled(plan, bindings, envelopes)
    ensures forall k :: 0 <= k < |plan.commands| ==> CommandError(plan, bindings, k) == None
  {
    hide CommandError, EnvelopeFor, IsBound;
    forall k | 0 <= k < |envelopes|
      ensures IsBound(bindings, ModuleOf(plan.commands[k])) && envelopes[k] == EnvelopeFor(bindings, plan.commands[k])
    {
      assert CommandError(plan, bindings, k) == None;
    }
  }

  /** Compiles a handover while tracking each module's phase; refuses at the first defect. */
  method CompileHandoverControl(plan: Plan, bindings: seq<Binding>) returns (r: Result<seq<Envelope>, ControlError>)
    ensures r.Success? <==> Accepts(plan, bindings)
    ensures r.Success? ==> Compiled(plan, bindings, r.value)
    ensures r.Failure? ==> Explains(plan, bindings, r.error)
  {
    hide CommandError, EnvelopeFor, IsBound, BindingOf, ValidBindings;
    if plan.epoch == 0 {
      return Failure(InvalidEpoch);
    }
    if plan.startFrame == 0 {
      return Failure(InvalidStartFrame);
    }
    var defect := ValidateBindings(bindings);
    if defect.Some? {
      return Failure(defect.value);
    }
    var phases: map<string, nat> := map[];
    var envelopes: seq<Envelope> := [];
    for k := 0 to |plan.commands|
      invariant Tracks(phases, plan.commands[..k])
      invariant CompiledUpTo(plan, bindings, envelopes, k)
    {
      var m := ModuleOf(plan.commands[k]);
      var current := if m in phases then phases[m] else 0;
      var envelope := CompileCommand(plan, bindings, k, current);
      if envelope.Failure? {
        return Failure(envelope.error);
      }
      TracksStep(phases, plan.commands, k);
      UpToStep(plan, bindings, envelopes, envelope.value, k);
      phases := phases[m := current + 1];
      envelopes := envelopes + [envelope.value];
    }
    UpToAll(plan, bindings, envelopes);
    r := Success(envelopes);
  }

  lemma CountForStep(commands: seq<PlanCommand>, c: PlanCommand, m: string)
    ensures CountFor(commands + [c], m) == CountFor(commands, m) + (if ModuleOf(c) == m then 1 else 0)
  {
    assert (commands + [c])[..|commands|] == commands;
  }

  predicate Issued(commands: seq<PlanCommand>, m: string, r: nat) {
    exists i :: 0 <= i < |commands| && ModuleOf(commands[i]) == m && Rank(commands[i]) == r
  }

  lemma IssuedAt(commands: seq<PlanCommand>, m: string, i: nat)
    requires i < |commands| && ModuleOf(commands[i]) == m
    ensures Issued(commands, m, Rank(commands[i]))
  {
  }

  lemma IssuedStep(commands: seq<PlanCommand>, c: PlanCommand, m: string, r: nat)
    ensures Issued(commands + [c], m, r) <==> Issued(commands, m, r) || (ModuleOf(c) == m && Rank(c) == r)
  {
    var now := commands + [c];
    if Issued(commands, m, r) {
      var i :| 0 <= i < |commands| && ModuleOf(commands[i]) == m && Rank(commands[i]) == r;
      assert now[i] == commands[i];
    }
    assert now[|commands|] == c;
  }

  /** In an accepted plan the commands of any one module are a prefix of mute, prepare, arm,
      commit: no command repeats, none is skipped, and at most four address a module. */
  lemma {:induction false} ModuleFollowsProtocol(plan: Plan, bindings: seq<Binding>, n: nat, m: string)
    requires Accepts(plan, bindings) && n <= |plan.commands|
    ensures CountFor(plan.commands[..n], m) <= 4
    ensures forall r: nat :: r < CountFor(plan.commands[..n], m) <==> Issued(plan.commands[..n], m, r)
    ensures forall i, j :: 0 <= i < j < n && ModuleOf(plan.commands[i]) == m && ModuleOf(plan.commands[j]) == m ==>
              Rank(plan.commands[i]) < Rank(plan.commands[j])
  {
    if n > 0 {
      var before, now := plan.commands[..n - 1], plan.commands[..n];
      assert now == before + [plan.commands[n - 1]];
      ModuleFollowsProtocol(plan, bindings, n - 1, m);
      assert CommandError(plan, bindings, n - 1) == None;
      hide Accepts, AssignmentError, Issued, ModuleOf, Rank;
      CountForStep(before, plan.commands[n - 1], m);
      forall r: nat ensures r < CountFor(now, m) <==> Issued(now, m, r) {
        IssuedStep(before, plan.commands[n - 1], m, r);
      }
      forall i | 0 <= i < n - 1 && ModuleOf(plan.commands[i]) == m && ModuleOf(plan.commands[n - 1]) == m
        ensures Rank(plan.commands[i]) < Rank(plan.commands[n - 1])
      {
        assert before[i] == plan.commands[i];
        IssuedAt(before, m, i);
      }
    }
  }
}
