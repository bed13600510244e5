/** Host side: control envelopes become AEM SET_CONTROL writes (section 7.4.25 of IEEE 1722.1-2013). */
module AemProgram {
  import opened Bytes
  import opened Handover
  import M = EndpointModel

  type EntityId = id: seq<byte> | |id| == 8 witness [0, 0, 0, 0, 0, 0, 0, 0]

  datatype Target = Target(endpointId: string, entityId: EntityId)
  datatype Anchor = Anchor(frameIndex: u64, ptpTimeNs: u64, sampleRate: u32)

  datatype ScalarType = LinearUint8 | LinearUint64

  datatype AemWrite = AemWrite(
    endpointId: string, target: EntityId, streamId: u64, control: u16,
    scalarType: ScalarType, value: seq<byte>, valueLen: nat)

  datatype AemError =
    | InvalidMediaAnchor | FrameBeforeAnchor | TimestampOverflow
    | EmptyTarget | ZeroEntityId | DuplicateTarget | UnknownTarget
    | InvalidAemEpoch | UnsupportedAemRoute | UnsupportedAemClock | UnsupportedRole | UnsupportedLanes

  // --- Media time to PTP time -------------------------------------------------

  /** Nanoseconds of `frames` media frames, rounded to nearest. */
  function RoundedNs(frames: nat): nat {
    (frames * 1_000_000_000 + 24_000) / 48_000
  }

  /** The anchor's mapping with the host's checked arithmetic. Its 128-bit intermediate cannot
      overflow (see PtpTimeExact), so only the two 64-bit checks can fail. */
  function PtpTimeForFrame(anchor: Anchor, frame: u64): Result<u64, AemError> {
    if anchor.sampleRate != MEDIA_RATE then Failure(InvalidMediaAnchor)
    else if frame < anchor.frameIndex then Failure(FrameBeforeAnchor)
    else
      var numerator := (frame - anchor.frameIndex) * 1_000_000_000;
      var rounded := (numerator + anchor.sampleRate / 2) / anchor.sampleRate;
      if rounded > U64_MAX then Failure(TimestampOverflow)
      else if anchor.ptpTimeNs + rounded > U64_MAX then Failure(TimestampOverflow)
      else Success(anchor.ptpTimeNs + rounded)
  }

  /** The mapping succeeds exactly for frames at or after a 48 kHz anchor whose time fits
      64 bits, and then lies within half a nanosecond of the exact rational time. */
  lemma PtpTimeExact(anchor: Anchor, frame: u64)
    ensures frame * 1_000_000_000 + 24_000 < 0x1_0000_0000_0000_0000_0000_0000_0000_0000
    ensures PtpTimeForFrame(anchor, frame).Success? <==>
            && anchor.sampleRate == MEDIA_RATE && anchor.frameIndex <= frame
            && anchor.ptpTimeNs + RoundedNs(frame - anchor.frameIndex) <= U64_MAX
    ensures PtpTimeForFrame(anchor, frame).Success? ==>
              var error := 48_000 * (PtpTimeForFrame(anchor, frame).value - anchor.ptpTimeNs)
                           - 1_000_000_000 * (frame - anchor.frameIndex);
              -24_000 < error <= 24_000
  {
  }

  /** Later frames get strictly later times. */
  lemma PtpTimeStrictlyIncreasing(anchor: Anchor, f: u64, g: u64)
    requires f < g && PtpTimeForFrame(anchor, f).Success? && PtpTimeForFrame(anchor, g).Success?
    ensures PtpTimeForFrame(anchor, f).value < PtpTimeForFrame(anchor, g).value
  {
  }

  /** No drift: any whole number of seconds of media advances PTP time by exactly that many seconds. */
  lemma PtpTimeHasNoDrift(anchor: Anchor, f: u64, seconds: nat)
    requires f + 48_000 * seconds <= U64_MAX
    requires PtpTimeForFrame(anchor, f).Success? && PtpTimeForFrame(anchor, f + 48_000 * seconds).Success?
    ensures PtpTimeForFrame(anchor, f + 48_000 * seconds).value ==
            PtpTimeForFrame(anchor, f).value + 1_000_000_000 * seconds
  {
    var d := f - anchor.frameIndex;
    assert (d + 48_000 * seconds) * 1_000_000_000 + 24_000
        == (d * 1_000_000_000 + 24_000) + 48_000 * (1_000_000_000 * seconds);
  }

  // --- Writes -------------------------------------------------------------------

  function EncodeRole(role: ChannelRole): Result<byte, AemError> {
    match role
    case FrontLeft => Success(0)
    case FrontRight => Success(1)
    case FrontCenter => Success(2)
    case LowFrequencyEffects => Success(3)
    case SurroundLeft => Success(4)
    case SurroundRight => Success(5)
    case SurroundBackLeft => Success(6)
    case SurroundBackRight => Success(7)
    case TopFrontLeft => Success(8)
    case TopFrontRight => Success(9)
    case TopRearLeft => Success(10)
    case TopRearRight => Success(11)
    case Custom(_) => Failure(UnsupportedRole)
  }

  function Uint8Write(e: Envelope, id: EntityId, control: u16, value: byte): AemWrite {
    AemWrite(e.endpointId, id, e.streamId, control, LinearUint8, [value, 0, 0, 0, 0, 0, 0, 0], 1)
  }

  function Uint64Write(e: Envelope, id: EntityId, control: u16, value: u64): AemWrite {
    AemWrite(e.endpointId, id, e.streamId, control, LinearUint64, BigEndian(value, 8), 8)
  }

  function CommandCode(c: EndpointCommand): byte {
    match c
    case MuteEndpoint(_, _) => M.CMD_MUTE
    case PrepareEndpoint(_, _, _, _, _) => M.CMD_PREPARE
    case ArmEndpoint(_, _, _) => M.CMD_ARM
    case CommitEndpoint(_, _) => M.CMD_COMMIT
    case StopEndpoint(_, _) => M.CMD_STOP
  }

  predicate Encodable(roles: seq<ChannelRole>) {
    forall k :: 0 <= k < |roles| ==> EncodeRole(roles[k]).Success?
  }

  function PrepareError(route: Route, clock: ClockSource, roles: seq<ChannelRole>): Option<AemError> {
    if route != WiredNetwork && route != WirelessNetwork then Some(UnsupportedAemRoute)
    else if clock != Ptp then Some(UnsupportedAemClock)
    else if |roles| == 0 || |roles| > 2 then Some(UnsupportedLanes)
    else if !Encodable(roles) then Some(UnsupportedRole)
    else None
  }

  function EnvelopeError(c: EndpointCommand, anchor: Anchor): Option<AemError> {
    if c.PrepareEndpoint? && PrepareError(c.route, c.clockSource, c.roles).Some? then
      PrepareError(c.route, c.clockSource, c.roles)
    else if c.epoch == 0 then Some(InvalidAemEpoch)
    else if c.ArmEndpoint? && PtpTimeForFrame(anchor, c.startFrame).Failure? then
      Some(PtpTimeForFrame(anchor, c.startFrame).error)
    else None
  }

  function RoleCode(roles: seq<ChannelRole>, lane: nat): byte
    requires Encodable(roles)
  {
    if lane < |roles| then EncodeRole(roles[lane]).value else M.ROLE_UNUSED
  }

  /** Staging writes of one command: the epoch first, then the command's own arguments. */
  function Staging(e: Envelope, id: EntityId, anchor: Anchor): seq<AemWrite>
    requires EnvelopeError(e.command, anchor) == None
  {
    [Uint64Write(e, id, M.CONTROL_EPOCH, e.command.epoch)] +
    match e.command
    case PrepareEndpoint(_, _, _, _, roles) =>
      [Uint8Write(e, id, M.CONTROL_ROLE0, RoleCode(roles, 0)), Uint8Write(e, id, M.CONTROL_ROLE1, RoleCode(roles, 1))]
    case ArmEndpoint(_, _, start) =>
      [Uint64Write(e, id, M.CONTROL_START, PtpTimeForFrame(anchor, start).value)]
    case _ => []
  }

  /** All writes of one command: staging, then the COMMAND write that executes it. */
  function WritesFor(e: Envelope, id: EntityId, anchor: Anchor): (w: seq<AemWrite>)
    requires EnvelopeError(e.command, anchor) == None
    ensures |w| >= 2
  {
    Staging(e, id, anchor) + [Uint8Write(e, id, M.CONTROL_COMMAND, CommandCode(e.command))]
  }

  predicate HasTarget(targets: seq<Target>, endpointId: string) {
    exists i :: 0 <= i < |targets| && targets[i].endpointId == endpointId
  }

  function TargetOf(targets: seq<Target>, endpointId: string): (t: Target)
    requires HasTarget(targets, endpointId)
    ensures t in targets && t.endpointId == endpointId
  {
    if targets[0].endpointId == endpointId then targets[0] else TargetOf(targets[1..], endpointId)
  }

  const ZERO_ENTITY: EntityId := [0, 0, 0, 0, 0, 0, 0, 0]

  predicate ValidTargets(targets: seq<Target>) {
    && (forall i :: 0 <= i < |targets| ==> targets[i].endpointId != "" && targets[i].entityId != ZERO_ENTITY)
    && (forall i, j :: 0 <= i < j < |targets| ==>
          targets[i].endpointId != targets[j].endpointId && targets[i].entityId != targets[j].entityId)
  }

  predicate TargetFault(targets: seq<Target>, error: AemError) {
    match error
    case EmptyTarget => exists i :: 0 <= i < |targets| && targets[i].endpointId == ""
    case ZeroEntityId => exists i :: 0 <= i < |targets| && targets[i].entityId == ZERO_ENTITY
    case DuplicateTarget => exists i, j ::
        && 0 <= i < j < |targets|
        && (targets[i].endpointId == targets[j].endpointId || targets[i].entityId == targets[j].entityId)
    case _ => false
  }

  /** Why envelope `k` cannot be programmed, if it cannot. */
  function ProgramError(envelopes: seq<Envelope>, targets: seq<Target>, anchor: Anchor, k: nat): Option<AemError>
    requires k < |envelopes|
  {
    if !HasTarget(targets, envelopes[k].endpointId) then Some(UnknownTarget)
    else EnvelopeError(envelopes[k].command, anchor)
  }

  predicate Programmable(envelopes: seq<Envelope>, targets: seq<Target>, anchor: Anchor) {
    anchor.sampleRate == MEDIA_RATE && ValidTargets(targets) && NoErrors(envelopes, targets, anchor)
  }

  predicate NoErrors(envelopes: seq<Envelope>, targets: seq<Target>, anchor: Anchor) {
    forall k :: 0 <= k < |envelopes| ==> ProgramError(envelopes, targets, anchor, k) == None
  }

  lemma NoErrorsInPrefix(envelopes: seq<Envelope>, targets: seq<Target>, anchor: Anchor, n: nat)
    requires n <= |envelopes|
    ensures NoErrors(envelopes[..n], targets, anchor) <==>
            forall k :: 0 <= k < n ==> ProgramError(envelopes, targets, anchor, k) == None
  {
    forall k | 0 <= k < n
      ensures ProgramError(envelopes[..n], targets, anchor, k) == ProgramError(envelopes, targets, anchor, k)
    {
      assert envelopes[..n][k] == envelopes[k];
    }
  }

  /** The program of a list of envelopes: the writes of each, one envelope after the other. */
  function Program(envelopes: seq<Envelope>, targets: seq<Target>, anchor: Anchor): seq<AemWrite>
    requires NoErrors(envelopes, targets, anchor)
  {
    if envelopes == [] then []
    else
      var n := |envelopes| - 1;
      NoErrorsInPrefix(envelopes, targets, anchor, n);
      assert ProgramError(envelopes, targets, anchor, n) == None;
      Program(envelopes[..n], targets, anchor)
      + WritesFor(envelopes[n], TargetOf(targets, envelopes[n].endpointId).entityId, anchor)
  }

  /** One more programmable envelope appends its writes. */
  lemma ProgramGrows(envelopes: seq<Envelope>, targets: seq<Target>, anchor: Anchor, k: nat)
    requires k < |envelopes| && NoErrors(envelopes[..k], targets, anchor)
    requires ProgramError(envelopes, targets, anchor, k) == None
    ensures NoErrors(envelopes[..k + 1], targets, anchor)
    ensures Program(envelopes[..k + 1], targets, anchor)
            == Program(envelopes[..k], targets, anchor)
               + WritesFor(envelopes[k], TargetOf(targets, envelopes[k].endpointId).entityId, anchor)
  {
    hide WritesFor, TargetOf, ProgramError;
    NoErrorsInPrefix(envelopes, targets, anchor, k);
    NoErrorsInPrefix(envelopes, targets, anchor, k + 1);
    assert envelopes[..k + 1][..k] == envelopes[..k];
  }

  predicate ExplainsProgram(envelopes: seq<Envelope>, targets: seq<Target>, anchor: Anchor, error: AemError) {
    if anchor.sampleRate != MEDIA_RATE then error == InvalidMediaAnchor
    else if !ValidTargets(targets) then TargetFault(targets, error)
    else exists k ::
        && 0 <= k < |envelopes| && ProgramError(envelopes, targets, anchor, k) == Some(error)
        && forall j :: 0 <= j < k ==> ProgramError(envelopes, targets, anchor, j) == None
  }

  /** The first envelope that cannot be programmed is the reported one. */
  lemma FirstErrorExplains(
      envelopes: seq<Envelope>, targets: seq<Target>, anchor: Anchor, k: nat, error: AemError)
    requires anchor.sampleRate == MEDIA_RATE && ValidTargets(targets)
    requires k < |envelopes| && NoErrors(envelopes[..k], targets, anchor)
    requires ProgramError(envelopes, targets, anchor, k) == Some(error)
    ensures !Programmable(envelopes, targets, anchor)
    ensures ExplainsProgram(envelopes, targets, anchor, error)
  {
    hide ProgramError, ValidTargets;
    NoErrorsInPrefix(envelopes, targets, anchor, k);
  }

  method ValidateTargets(targets: seq<Target>) returns (error: Option<AemError>)
    ensures error.None? <==> ValidTargets(targets)
    ensures error.Some? ==> TargetFault(targets, error.value)
  {
    for i := 0 to |targets|
      invariant forall k :: 0 <= k < i ==> targets[k].endpointId != "" && targets[k].entityId != ZERO_ENTITY
      invariant forall k, l :: 0 <= k < i && k < l < |targets| ==>
                  targets[k].endpointId != targets[l].endpointId && targets[k].entityId != targets[l].entityId
    {
      if targets[i].endpointId == "" {
        return Some(EmptyTarget);
      }
      if targets[i].entityId == ZERO_ENTITY {
        return Some(ZeroEntityId);
      }
      for j := i + 1 to |targets|
        invariant forall l :: i < l < j ==>
                    targets[i].endpointId != targets[l].endpointId && targets[i].entityId != targets[l].entityId
      {
        if targets[i].endpointId == targets[j].endpointId || targets[i].entityId == targets[j].entityId {
          return Some(DuplicateTarget);
        }
      }
    }
    error := None;
  }

  method FindTarget(targets: seq<Target>, endpointId: string) returns (found: Option<Target>)
    ensures found.Some? <==> HasTarget(targets, endpointId)
    ensures found.Some? ==> found.value == TargetOf(targets, endpointId)
  {
    for i := 0 to |targets|
      invariant forall k :: 0 <= k < i ==> targets[k].endpointId != endpointId
      invariant HasTarget(targets, endpointId) ==>
                  && HasTarget(targets[i..], endpointId)
                  && TargetOf(targets, endpointId) == TargetOf(targets[i..], endpointId)
    {
      if targets[i].endpointId == endpointId {
        return Some(targets[i]);
      }
      assert targets[i..][1..] == targets[i + 1..];
      if HasTarget(targets, endpointId) {
        var k :| 0 <= k < |targets| && targets[k].endpointId == endpointId;
        assert targets[i + 1..][k - (i + 1)].endpointId == endpointId;
      }
    }
    found := None;
  }

  method AppendCommandWrites(writes: seq<AemWrite>, e: Envelope, id: EntityId, anchor: Anchor)
      returns (r: Result<seq<AemWrite>, AemError>)
    ensures r.Success? <==> EnvelopeError(e.command, anchor) == None
    ensures r.Success? ==> r.value == writes + WritesFor(e, id, anchor)
    ensures r.Failure? ==> EnvelopeError(e.command, anchor) == Some(r.error)
  {
    var c := e.command;
    if c.PrepareEndpoint? {
      var error := PrepareError(c.route, c.clockSource, c.roles);
      if error.Some? {
        return Failure(error.value);
      }
    }
    if c.epoch == 0 {
      return Failure(InvalidAemEpoch);
    }
    var out := writes + [Uint64Write(e, id, M.CONTROL_EPOCH, c.epoch)];
    match c {
      case PrepareEndpoint(_, _, _, _, roles) =>
        var role0 := EncodeRole(roles[0]);
        var role1 := if |roles| == 2 then EncodeRole(roles[1]) else Success(M.ROLE_UNUSED);
        out := out + [Uint8Write(e, id, M.CONTROL_ROLE0, role0.value)];
        out := out + [Uint8Write(e, id, M.CONTROL_ROLE1, role1.value)];
      case ArmEndpoint(_, _, start) =>
        var ptp := PtpTimeForFrame(anchor, start);
        if ptp.Failure? {
          return Failure(ptp.error);
        }
        out := out + [Uint64Write(e, id, M.CONTROL_START, ptp.value)];
      case _ =>
    }
    out := out + [Uint8Write(e, id, M.CONTROL_COMMAND, CommandCode(c))];
    assert out == writes + WritesFor(e, id, anchor);
    r := Success(out);
  }

  method CompileAemControlProgram(envelopes: seq<Envelope>, targets: seq<Target>, anchor: Anchor)
      returns (r: Result<seq<AemWrite>, AemError>)
    ensures r.Success? <==> Programmable(envelopes, targets, anchor)
    ensures r.Success? ==> r.value == Program(envelopes, targets, anchor)
    ensures r.Failure? ==> ExplainsProgram(envelopes, targets, anchor, r.error)
  {
    if anchor.sampleRate != MEDIA_RATE {
      return Failure(InvalidMediaAnchor);
    }
    var defect := ValidateTargets(targets);
    if defect.Some? {
      return Failure(defect.value);
    }
    var writes: seq<AemWrite> := [];
    for k := 0 to |envelopes|
      invariant NoErrors(envelopes[..k], targets, anchor)
      invariant writes == Program(envelopes[..k], targets, anchor)
    {
      hide ValidTargets, Programmable, Program, NoErrors, ExplainsProgram, TargetOf, WritesFor, EnvelopeError,
           HasTarget;
      var target := FindTarget(targets, envelopes[k].endpointId);
      if target.None? {
        FirstErrorExplains(envelopes, targets, anchor, k, UnknownTarget);
        return Failure(UnknownTarget);
      }
      var extended := AppendCommandWrites(writes, envelopes[k], target.value.entityId, anchor);
      if extended.Failure? {
        FirstErrorExplains(envelopes, targets, anchor, k, extended.error);
        return Failure(extended.error);
      }
      ProgramGrows(envelopes, targets, anchor, k);
      writes := extended.value;
    }
    assert envelopes[..|envelopes|] == envelopes;
    r := Success(writes);
  }
}
