/** The six-stream AVDECC session gate: which speaker pairs are connected, and when all are. */
module GenAvbSession {
  import opened Bytes

  const STREAMS := 6

  datatype Role = Front | CenterLfe | Surround | BackSurround | TopFront | TopRear

  function Slot(r: Role): (s: nat)
    ensures s < STREAMS
  {
    match r
    case Front => 0
    case CenterLfe => 1
    case Surround => 2
    case BackSurround => 3
    case TopFront => 4
    case TopRear => 5
  }

  datatype ExpectedStream = ExpectedStream(role: Role, streamIndex: u16)

  type u48 = x: int | 0 <= x < 0x1_0000_0000_0000

  /** Stream ids and MAC addresses are the numbers their bytes denote. */
  datatype Identity = Identity(streamId: u64, destinationMac: u48, port: u16, streamClass: u16)

  datatype ConnectedStream = ConnectedStream(role: Role, streamIndex: u16, identity: Identity)

  datatype Kind = Connect | Disconnect

  datatype Event = Event(
    kind: Kind, streamIndex: u16, identity: Identity, sampleRate: u32, channels: u32, bitDepth: u32)

  datatype SessionError =
    | DuplicateExpectedRole(role: Role) | DuplicateExpectedIndex(index: u16) | MissingExpectedRole(role: Role)
    | UnknownStreamIndex(index: u16) | DuplicateConnect(index: u16)
    | DuplicateStreamId(streamId: u64) | DuplicateDestinationMac(mac: u48)
    | InvalidStreamIdentity | InvalidMediaContract(sampleRate: u32, channels: u32, bitDepth: u32)
    | DisconnectNotConnected(index: u16) | DisconnectIdentityMismatch(index: u16)
    | PartialConnectionSet(connected: nat)

  datatype Update = Update(role: Role, connected: bool, complete: bool)

  type Slots = seq<Option<ConnectedStream>>

  // --- The mapping from descriptor index to speaker pair ------------------------------------------

  /** Six streams, no role and no index twice. */
  predicate ValidMapping(expected: seq<ExpectedStream>) {
    && |expected| == STREAMS
    && forall i, j :: 0 <= i < j < STREAMS ==>
         expected[i].role != expected[j].role && expected[i].streamIndex != expected[j].streamIndex
  }

  predicate RepeatsRole(expected: seq<ExpectedStream>, j: nat)
    requires j < |expected|
  {
    exists i :: 0 <= i < j && expected[i].role == expected[j].role
  }

  predicate RepeatsIndex(expected: seq<ExpectedStream>, j: nat)
    requires j < |expected|
  {
    exists i :: 0 <= i < j && expected[i].streamIndex == expected[j].streamIndex
  }

  /** The error names the first repetition in the mapping, a role before an index. */
  predicate FirstRepetition(expected: seq<ExpectedStream>, error: SessionError) {
    exists j ::
      && 0 <= j < |expected|
      && (forall i :: 0 <= i < j ==> !RepeatsRole(expected, i) && !RepeatsIndex(expected, i))
      && if RepeatsRole(expected, j) then error == DuplicateExpectedRole(expected[j].role)
         else RepeatsIndex(expected, j) && error == DuplicateExpectedIndex(expected[j].streamIndex)
  }

  /** The first `j` entries of the mapping repeat nothing. */
  predicate DistinctBelow(expected: seq<ExpectedStream>, j: nat)
    requires j <= |expected|
  {
    forall i, k :: 0 <= i < k < j ==>
      expected[i].role != expected[k].role && expected[i].streamIndex != expected[k].streamIndex
  }

  lemma NamesFirst(expected: seq<ExpectedStream>, j: nat)
    requires j < |expected| && DistinctBelow(expected, j)
    ensures RepeatsRole(expected, j) ==> FirstRepetition(expected, DuplicateExpectedRole(expected[j].role))
    ensures RepeatsIndex(expected, j) && !RepeatsRole(expected, j) ==>
              FirstRepetition(expected, DuplicateExpectedIndex(expected[j].streamIndex))
    ensures !RepeatsRole(expected, j) && !RepeatsIndex(expected, j) ==> DistinctBelow(expected, j + 1)
  {
    forall i | 0 <= i < j ensures !RepeatsRole(expected, i) && !RepeatsIndex(expected, i) {
    }
  }

  lemma RepetitionIsInvalid(expected: seq<ExpectedStream>, error: SessionError)
    requires FirstRepetition(expected, error)
    ensures !ValidMapping(expected)
  {
  }

  /** Six different roles are all six: the check for a missing role can never fire. */
  lemma EveryRoleIsExpected(expected: seq<ExpectedStream>, role: Role)
    requires ValidMapping(expected)
    ensures exists i :: 0 <= i < STREAMS && expected[i].role == role
  {
    var a, b, c := expected[0].role, expected[1].role, expected[2].role;
    var d, e, f := expected[3].role, expected[4].role, expected[5].role;
    assert role == a || role == b || role == c || role == d || role == e || role == f;
  }

  /** The first entry of the mapping with this index. */
  function RoleFor(expected: seq<ExpectedStream>, index: u16): (r: Option<Role>)
    ensures r.None? <==> forall i :: 0 <= i < |expected| ==> expected[i].streamIndex != index
    ensures r.Some? ==> exists i :: 0 <= i < |expected| && expected[i] == ExpectedStream(r.value, index)
    decreases |expected|
  {
    if expected == [] then None
    else if expected[0].streamIndex == index then
      assert expected[0] == ExpectedStream(expected[0].role, index);
      Some(expected[0].role)
    else
      var r := RoleFor(expected[1..], index);
      assert forall i :: 0 < i < |expected| ==> expected[i] == expected[1..][i - 1];
      r
  }

  // --- Session states ---------------------------------------------------------------------------

  function Count(slots: Slots): (n: nat)
    ensures n <= |slots|
  {
    if slots == [] then 0 else Count(slots[..|slots| - 1]) + (if slots[|slots| - 1].Some? then 1 else 0)
  }

  predicate Full(slots: Slots) {
    forall s :: 0 <= s < |slots| ==> slots[s].Some?
  }

  /** The counter test `connected_count == 6` says that every slot is taken. */
  lemma {:induction false} CountIsFull(slots: Slots)
    ensures Count(slots) == |slots| <==> Full(slots)
  {
    if slots != [] {
      var rest := slots[..|slots| - 1];
      CountIsFull(rest);
      assert forall s :: 0 <= s < |rest| ==> rest[s] == slots[s];
    }
  }

  lemma {:induction false} CountUpdate(slots: Slots, s: nat, v: Option<ConnectedStream>)
    requires s < |slots|
    ensures Count(slots[s := v]) == Count(slots) + (if v.Some? then 1 else 0) - (if slots[s].Some? then 1 else 0)
  {
    var n := |slots| - 1;
    if s < n {
      CountUpdate(slots[..n], s, v);
      assert slots[s := v][..n] == slots[..n][s := v];
    } else {
      assert slots[s := v][..n] == slots[..n];
    }
  }

  lemma {:induction false} NothingCounts(slots: Slots)
    requires forall s :: 0 <= s < |slots| ==> slots[s].None?
    ensures Count(slots) == 0
  {
    if slots != [] {
      NothingCounts(slots[..|slots| - 1]);
    }
  }

  const Empty: Slots := [None, None, None, None, None, None]

  /** Every connected stream sits in its own role's slot under its expected index, with a
      non-zero identity no other stream shares. */
  predicate Sound(expected: seq<ExpectedStream>, slots: Slots) {
    && ValidMapping(expected) && |slots| == STREAMS
    && (forall s :: 0 <= s < STREAMS && slots[s].Some? ==>
          && Slot(slots[s].value.role) == s
          && RoleFor(expected, slots[s].value.streamIndex) == Some(slots[s].value.role)
          && slots[s].value.identity.streamId != 0 && slots[s].value.identity.destinationMac != 0)
    && forall s, t :: 0 <= s < t < STREAMS && slots[s].Some? && slots[t].Some? ==>
         && slots[s].value.identity.streamId != slots[t].value.identity.streamId
         && slots[s].value.identity.destinationMac != slots[t].value.identity.destinationMac
  }

  /** The first connected stream, in slot order, that shares its id or its address. */
  function Clash(slots: Slots, id: Identity): (e: Option<SessionError>)
    ensures e.None? <==> forall s :: 0 <= s < |slots| && slots[s].Some? ==>
              && slots[s].value.identity.streamId != id.streamId
              && slots[s].value.identity.destinationMac != id.destinationMac
    ensures e.Some? ==>
              e.value == DuplicateStreamId(id.streamId) || e.value == DuplicateDestinationMac(id.destinationMac)
    decreases |slots|
  {
    if slots == [] then None
    else if slots[0].Some? && slots[0].value.identity.streamId == id.streamId then Some(DuplicateStreamId(id.streamId))
    else if slots[0].Some? && slots[0].value.identity.destinationMac == id.destinationMac then
      Some(DuplicateDestinationMac(id.destinationMac))
    else
      var e := Clash(slots[1..], id);
      assert forall s :: 0 < s < |slots| ==> slots[s] == slots[1..][s - 1];
      e
  }

  predicate MeetsMediaContract(e: Event) {
    e.sampleRate == 48_000 && e.channels == 2 && e.bitDepth == 24
  }

  function StreamFor(role: Role, e: Event): ConnectedStream {
    ConnectedStream(role, e.streamIndex, e.identity)
  }

  function ApplyConnect(expected: seq<ExpectedStream>, slots: Slots, e: Event): Result<Slots, SessionError>
    requires |slots| == STREAMS
  {
    if !MeetsMediaContract(e) then Failure(InvalidMediaContract(e.sampleRate, e.channels, e.bitDepth))
    else if e.identity.streamId == 0 || e.identity.destinationMac == 0 then Failure(InvalidStreamIdentity)
    else
      var role := RoleFor(expected, e.streamIndex);
      if role.None? then Failure(UnknownStreamIndex(e.streamIndex))
      else if slots[Slot(role.value)].Some? then Failure(DuplicateConnect(e.streamIndex))
      else
        var clash := Clash(slots, e.identity);
        if clash.Some? then Failure(clash.value)
        else Success(slots[Slot(role.value) := Some(StreamFor(role.value, e))])
  }

  /** A disconnect must name the active stream by id, port and class; its MAC is not compared. */
  predicate SameStream(a: Identity, b: Identity) {
    a.streamId == b.streamId && a.port == b.port && a.streamClass == b.streamClass
  }

  function ApplyDisconnect(expected: seq<ExpectedStream>, slots: Slots, e: Event): Result<Slots, SessionError>
    requires |slots| == STREAMS
  {
    var role := RoleFor(expected, e.streamIndex);
    if role.None? then Failure(UnknownStreamIndex(e.streamIndex))
    else if slots[Slot(role.value)].None? then Failure(DisconnectNotConnected(e.streamIndex))
    else if !SameStream(slots[Slot(role.value)].value.identity, e.identity) then
      Failure(DisconnectIdentityMismatch(e.streamIndex))
    else Success(slots[Slot(role.value) := None])
  }

  function Apply(expected: seq<ExpectedStream>, slots: Slots, e: Event): (r: Result<Slots, SessionError>)
    requires |slots| == STREAMS
    ensures r.Success? ==> RoleFor(expected, e.streamIndex).Some?
  {
    if e.kind == Connect then ApplyConnect(expected, slots, e) else ApplyDisconnect(expected, slots, e)
  }

  /** What the session says of an event it took: whose stream, and whether all six are now connected. */
  function UpdateOf(expected: seq<ExpectedStream>, e: Event, after: Slots): Update
    requires RoleFor(expected, e.streamIndex).Some?
  {
    Update(RoleFor(expected, e.streamIndex).value, e.kind == Connect, e.kind == Connect && Full(after))
  }

  /** Every accepted event keeps the session sound. */
  lemma ApplyKeepsSound(expected: seq<ExpectedStream>, slots: Slots, e: Event)
    requires Sound(expected, slots) && Apply(expected, slots, e).Success?
    ensures Sound(expected, Apply(expected, slots, e).value)
  {
    hide RoleFor, Clash;
    var after := Apply(expected, slots, e).value;
    var s := Slot(RoleFor(expected, e.streamIndex).value);
    assert forall t :: 0 <= t < STREAMS && t != s ==> after[t] == slots[t];
  }

  /** A connect undone by its own disconnect leaves the session as it was. */
  lemma DisconnectUndoesConnect(expected: seq<ExpectedStream>, slots: Slots, c: Event, d: Event)
    requires |slots| == STREAMS && c.kind == Connect && d.kind == Disconnect
    requires Apply(expected, slots, c).Success? && d.streamIndex == c.streamIndex && SameStream(c.identity, d.identity)
    ensures Apply(expected, Apply(expected, slots, c).value, d) == Success(slots)
  {
    hide RoleFor, Clash;
    var s := Slot(RoleFor(expected, c.streamIndex).value);
    var after := Apply(expected, slots, c).value;
    assert after[s := None] == slots;
  }

  // --- Completing a session -----------------------------------------------------------------------

  /** Apply events one after another; the first refused one ends the run. */
  function ApplyAll(expected: seq<ExpectedStream>, slots: Slots, events: seq<Event>): (r: Result<Slots, SessionError>)
    requires |slots| == STREAMS
    ensures r.Success? ==> |r.value| == STREAMS
  {
    if events == [] then Success(slots)
    else
      var r := ApplyAll(expected, slots, events[..|events| - 1]);
      if r.Failure? then r else Apply(expected, r.value, events[|events| - 1])
  }

  /** Connects the contract allows, one for each of six descriptors, no identity twice. */
  predicate GoodConnects(expected: seq<ExpectedStream>, events: seq<Event>) {
    && (forall i :: 0 <= i < |events| ==>
          && events[i].kind == Connect && MeetsMediaContract(events[i])
          && events[i].identity.streamId != 0 && events[i].identity.destinationMac != 0
          && RoleFor(expected, events[i].streamIndex).Some?)
    && forall i, j :: 0 <= i < j < |events| ==>
         && events[i].streamIndex != events[j].streamIndex
         && events[i].identity.streamId != events[j].identity.streamId
         && events[i].identity.destinationMac != events[j].identity.destinationMac
  }

  predicate FromEvents(slots: Slots, events: seq<Event>) {
    && |slots| == STREAMS
    && Count(slots) == |events|
    && forall s :: 0 <= s < STREAMS && slots[s].Some? ==>
         exists i :: 0 <= i < |events| && slots[s].value == StreamFor(slots[s].value.role, events[i])
  }

  /** Different known indices belong to different roles. */
  lemma IndexDeterminesRole(expected: seq<ExpectedStream>, a: u16, b: u16)
    requires ValidMapping(expected) && RoleFor(expected, a).Some? && RoleFor(expected, b).Some? && a != b
    ensures RoleFor(expected, a) != RoleFor(expected, b)
  {
    var i :| 0 <= i < |expected| && expected[i] == ExpectedStream(RoleFor(expected, a).value, a);
    var j :| 0 <= j < |expected| && expected[j] == ExpectedStream(RoleFor(expected, b).value, b);
    assert i != j;
  }

  lemma NextConnectIsAccepted(expected: seq<ExpectedStream>, slots: Slots, events: seq<Event>, e: Event)
    requires Sound(expected, slots) && FromEvents(slots, events) && GoodConnects(expected, events + [e])
    ensures Apply(expected, slots, e).Success?
    ensures FromEvents(Apply(expected, slots, e).value, events + [e])
  {
    hide RoleFor, Clash;
    var all := events + [e];
    assert all[|events|] == e;
    var role := RoleFor(expected, e.streamIndex).value;
    forall i | 0 <= i < |events| ensures RoleFor(expected, events[i].streamIndex) != Some(role) {
      assert all[i] == events[i];
      IndexDeterminesRole(expected, events[i].streamIndex, e.streamIndex);
    }
    assert slots[Slot(role)].None?;
    forall s | 0 <= s < STREAMS && slots[s].Some?
      ensures slots[s].value.identity.streamId != e.identity.streamId
      ensures slots[s].value.identity.destinationMac != e.identity.destinationMac
    {
      var i :| 0 <= i < |events| && slots[s].value == StreamFor(slots[s].value.role, events[i]);
      assert all[i] == events[i];
    }
    var after := slots[Slot(role) := Some(StreamFor(role, e))];
    CountUpdate(slots, Slot(role), Some(StreamFor(role, e)));
    forall s | 0 <= s < STREAMS && after[s].Some?
      ensures exists i :: 0 <= i < |all| && after[s].value == StreamFor(after[s].value.role, all[i])
    {
      if s == Slot(role) {
        assert after[s].value == StreamFor(role, all[|events|]);
      } else {
        var i :| 0 <= i < |events| && slots[s].value == StreamFor(slots[s].value.role, events[i]);
        assert after[s].value == StreamFor(after[s].value.role, all[i]);
      }
    }
  }

  /** Good connects are all accepted, in whatever order they arrive, and any six of them
      complete the session. */
  lemma {:induction false} ConnectsComplete(expected: seq<ExpectedStream>, events: seq<Event>)
    requires ValidMapping(expected) && GoodConnects(expected, events)
    ensures ApplyAll(expected, Empty, events).Success?
    ensures var slots := ApplyAll(expected, Empty, events).value;
            && Sound(expected, slots) && FromEvents(slots, events)
            && (|events| == STREAMS ==> Full(slots))
  {
    hide RoleFor, Clash;
    if events == [] {
      NothingCounts(Empty);
    } else {
      var n := |events| - 1;
      ConnectsComplete(expected, events[..n]);
      var slots := ApplyAll(expected, Empty, events[..n]).value;
      assert events[..n] + [events[n]] == events;
      NextConnectIsAccepted(expected, slots, events[..n], events[n]);
      ApplyKeepsSound(expected, slots, events[n]);
      CountIsFull(Apply(expected, slots, events[n]).value);
    }
  }

  // --- The session object --------------------------------------------------------------------------

  class Session {
    const expected: seq<ExpectedStream>
    var connected: Slots
    var connectedCount: nat

    ghost predicate Valid()
      reads this
    {
      Sound(expected, connected) && connectedCount == Count(connected)
    }

    constructor (expected: seq<ExpectedStream>)
      requires ValidMapping(expected)
      ensures Valid() && this.expected == expected && connected == Empty
    {
      this.expected := expected;
      connected, connectedCount := Empty, 0;
      NothingCounts(Empty);
    }

    static method Create(expected: seq<ExpectedStream>) returns (r: Result<Session, SessionError>)
      requires |expected| == STREAMS
      ensures r.Success? <==> ValidMapping(expected)
      ensures r.Success? ==>
              fresh(r.value) && r.value.Valid() && r.value.expected == expected && r.value.connected == Empty
      ensures r.Failure? ==> FirstRepetition(expected, r.error)
    {
      hide FirstRepetition, Sound, Slot;
      SlotIsInjective();
      var seen := new bool[STREAMS](_ => false);
      for position := 0 to STREAMS
        invariant DistinctBelow(expected, position)
        invariant forall r: Role :: seen[Slot(r)] <==> exists i :: 0 <= i < position && expected[i].role == r
      {
        var item := expected[position];
        NamesFirst(expected, position);
        if seen[Slot(item.role)] {
          RepetitionIsInvalid(expected, DuplicateExpectedRole(item.role));
          return Failure(DuplicateExpectedRole(item.role));
        }
        seen[Slot(item.role)] := true;
        for previous := 0 to position
          invariant forall i :: 0 <= i < previous ==> expected[i].streamIndex != item.streamIndex
        {
          if expected[previous].streamIndex == item.streamIndex {
            RepetitionIsInvalid(expected, DuplicateExpectedIndex(item.streamIndex));
            return Failure(DuplicateExpectedIndex(item.streamIndex));
          }
        }
      }
      forall r: Role ensures seen[Slot(r)] {
        EveryRoleIsExpected(expected, r);
      }
      var roles := [Front, CenterLfe, Surround, BackSurround, TopFront, TopRear];
      for k := 0 to STREAMS {
        if !seen[Slot(roles[k])] {
          assert false;    // six distinct roles are all roles: the missing-role error is unreachable
        }
      }
      var session := new Session(expected);
      r := Success(session);
    }

    predicate IsComplete()
      reads this
    {
      connectedCount == STREAMS
    }

    /** The start gate: all six streams in canonical role order, or how many there are. */
    method RequireComplete() returns (r: Result<seq<ConnectedStream>, SessionError>)
      requires Valid()
      ensures r.Success? <==> Full(connected)
      ensures r.Failure? ==> r.error == PartialConnectionSet(Count(connected))
      ensures r.Success? ==>
                && |r.value| == STREAMS
                && forall s :: 0 <= s < STREAMS ==> connected[s] == Some(r.value[s]) && Slot(r.value[s].role) == s
    {
      CountIsFull(connected);
      if !IsComplete() {
        return Failure(PartialConnectionSet(connectedCount));
      }
      var slots := connected;
      r := Success(seq(STREAMS, s requires 0 <= s < STREAMS => slots[s].value));
    }

    method Reset()
      modifies this
      requires Valid()
      ensures Valid() && connected == Empty
    {
      connected, connectedCount := Empty, 0;
      NothingCounts(Empty);
    }

    method RoleForIndex(index: u16) returns (r: Option<Role>)
      ensures r == RoleFor(expected, index)
    {
      for k := 0 to |expected|
        invariant RoleFor(expected, index) == RoleFor(expected[k..], index)
      {
        if expected[k].streamIndex == index {
          return Some(expected[k].role);
        }
        assert expected[k..][1..] == expected[k + 1..];
      }
      r := None;
    }

    method FindClash(id: Identity) returns (e: Option<SessionError>)
      ensures e == Clash(connected, id)
    {
      for k := 0 to |connected|
        invariant Clash(connected, id) == Clash(connected[k..], id)
      {
        if connected[k].Some? {
          if connected[k].value.identity.streamId == id.streamId {
            return Some(DuplicateStreamId(id.streamId));
          }
          if connected[k].value.identity.destinationMac == id.destinationMac {
            return Some(DuplicateDestinationMac(id.destinationMac));
          }
        }
        assert connected[k..][1..] == connected[k + 1..];
      }
      e := None;
    }

    /** Apply one AVDECC event. A refused event changes nothing. */
    method ApplyEvent(e: Event) returns (r: Result<Update, SessionError>)
      requires Valid()
      modifies this
      ensures Valid()
      ensures var spec := Apply(expected, old(connected), e);
              && connected == (if spec.Success? then spec.value else old(connected))
              && r.Failure? == spec.Failure? && (r.Failure? ==> r.error == spec.error)
      ensures r.Success? ==>
                RoleFor(expected, e.streamIndex).Some? && r.value == UpdateOf(expected, e, connected)
    {
      hide RoleFor, Clash;
      if Apply(expected, connected, e).Success? {
        ApplyKeepsSound(expected, connected, e);
      }
      if e.kind == Connect {
        r := ConnectStream(e);
      } else {
        r := DisconnectStream(e);
      }
      CountIsFull(connected);
    }

    method ConnectStream(e: Event) returns (r: Result<Update, SessionError>)
      requires |connected| == STREAMS && connectedCount == Count(connected)
      modifies this
      ensures |connected| == STREAMS && connectedCount == Count(connected)
      ensures var spec := ApplyConnect(expected, old(connected), e);
              && connected == (if spec.Success? then spec.value else old(connected))
              && r.Failure? == spec.Failure? && (r.Failure? ==> r.error == spec.error)
      ensures r.Success? ==> && Some(r.value.role) == RoleFor(expected, e.streamIndex) && r.value.connected
                             && r.value.complete == (Count(connected) == STREAMS)
    {
      hide RoleFor, Clash;
      if !MeetsMediaContract(e) {
        return Failure(InvalidMediaContract(e.sampleRate, e.channels, e.bitDepth));
      }
      if e.identity.streamId == 0 || e.identity.destinationMac == 0 {
        return Failure(InvalidStreamIdentity);
      }
      var role := RoleForIndex(e.streamIndex);
      if role.None? {
        return Failure(UnknownStreamIndex(e.streamIndex));
      }
      var slot := Slot(role.value);
      if connected[slot].Some? {
        return Failure(DuplicateConnect(e.streamIndex));
      }
      var clash := FindClash(e.identity);
      if clash.Some? {
        return Failure(clash.value);
      }
      CountUpdate(connected, slot, Some(StreamFor(role.value, e)));
      connected := connected[slot := Some(StreamFor(role.value, e))];
      connectedCount := connectedCount + 1;
      r := Success(Update(role.value, true, IsComplete()));
    }

    method DisconnectStream(e: Event) returns (r: Result<Update, SessionError>)
      requires |connected| == STREAMS && connectedCount == Count(connected)
      modifies this
      ensures |connected| == STREAMS && connectedCount == Count(connected)
      ensures var spec := ApplyDisconnect(expected, old(connected), e);
              && connected == (if spec.Success? then spec.value else old(connected))
              && r.Failure? == spec.Failure? && (r.Failure? ==> r.error == spec.error)
      ensures r.Success? ==> && Some(r.value.role) == RoleFor(expected, e.streamIndex)
                             && !r.value.connected && !r.value.complete
    {
      hide RoleFor;
      var role := RoleForIndex(e.streamIndex);
      if role.None? {
        return Failure(UnknownStreamIndex(e.streamIndex));
      }
      var slot := Slot(role.value);
      if connected[slot].None? {
        return Failure(DisconnectNotConnected(e.streamIndex));
      }
      if !SameStream(connected[slot].value.identity, e.identity) {
        return Failure(DisconnectIdentityMismatch(e.streamIndex));
      }
      CountUpdate(connected, slot, None);
      connected := connected[slot := None];
      connectedCount := connectedCount - 1;
      r := Success(Update(role.value, false, false));
    }
  }

  lemma SlotIsInjective()
    ensures forall a: Role, b: Role :: Slot(a) == Slot(b) ==> a == b
  {
  }
}
