/** Six-way stereo fanout of a 12-channel block under a validated plan. */
module Fanout {
  import opened Bytes
  import Handover

  const CHANNELS := 12
  const LANES := 2
  const ENDPOINTS := 6

  type Sample = real

  datatype EndpointSpec = EndpointSpec(
    endpointId: string, streamId: u64, medium: Handover.Medium, left: nat, right: nat)

  datatype Format = Format(sampleRate: u32, channels: u64, blockFrames: u64)
  datatype Timestamp = Timestamp(frameIndex: u64, sampleRate: u32)
  datatype Block = Block(sequence: u64, timestamp: Timestamp, format: Format, samples: seq<Sample>)

  datatype FanoutError = InvalidPlan | InvalidFormat | InvalidEndpointIndex | NoBlockReady | TimelineDiscontinuity

  // --- Plans ------------------------------------------------------------------------------

  /** The channel an endpoint carries on its left or right lane. */
  function ChannelOf(e: EndpointSpec, right: bool): nat {
    if right then e.right else e.left
  }

  /** The twelve assigned channels, endpoint by endpoint. */
  function Assigned(plan: seq<EndpointSpec>): (c: seq<nat>)
    ensures |c| == 2 * |plan|
  {
    seq(2 * |plan|, p requires 0 <= p < 2 * |plan| => ChannelOf(plan[p / 2], p % 2 == 1))
  }

  lemma AssignedAt(plan: seq<EndpointSpec>, i: nat)
    requires i < |plan|
    ensures Assigned(plan)[2 * i] == plan[i].left && Assigned(plan)[2 * i + 1] == plan[i].right
  {
  }

  predicate DistinctUpTo(c: seq<nat>, n: nat)
    requires n <= |c|
  {
    forall p, q :: 0 <= p < q < n ==> c[p] != c[q]
  }

  predicate InRangeUpTo(c: seq<nat>, n: nat)
    requires n <= |c|
  {
    forall p :: 0 <= p < n ==> c[p] < CHANNELS
  }

  predicate UniqueIdentities(plan: seq<EndpointSpec>) {
    && (forall i :: 0 <= i < |plan| ==> plan[i].endpointId != "")
    && (forall i, j :: 0 <= i < j < |plan| ==>
          plan[i].endpointId != plan[j].endpointId && plan[i].streamId != plan[j].streamId)
  }

  /** Every endpoint is named and distinct, every channel exists, and none is assigned twice. */
  predicate ValidPlan(plan: seq<EndpointSpec>) {
    && |plan| == ENDPOINTS && UniqueIdentities(plan)
    && InRangeUpTo(Assigned(plan), CHANNELS) && DistinctUpTo(Assigned(plan), CHANNELS)
  }

  /** The channels assigned in the first `n` places. */
  function Elements(c: seq<nat>, n: nat): set<nat>
    requires n <= |c|
  {
    if n == 0 then {} else Elements(c, n - 1) + {c[n - 1]}
  }

  lemma {:induction false} ElementsAre(c: seq<nat>, n: nat, x: nat)
    requires n <= |c|
    ensures x in Elements(c, n) <==> exists p :: 0 <= p < n && c[p] == x
  {
    if n > 0 {
      ElementsAre(c, n - 1, x);
    }
  }

  lemma {:induction false} DistinctCount(c: seq<nat>, n: nat)
    requires n <= |c| && DistinctUpTo(c, n)
    ensures |Elements(c, n)| == n
  {
    if n > 0 {
      DistinctCount(c, n - 1);
      ElementsAre(c, n - 1, c[n - 1]);
    }
  }

  /** One more place keeps the assignment injective exactly when its channel is new. */
  lemma DistinctStep(c: seq<nat>, n: nat)
    requires n < |c| && DistinctUpTo(c, n)
    ensures DistinctUpTo(c, n + 1) <==> c[n] !in Elements(c, n)
  {
    ElementsAre(c, n, c[n]);
  }

  predicate Below(a: set<nat>, n: nat) {
    forall x :: x in a ==> x < n
  }

  lemma {:induction false} SubsetBound(a: set<nat>, n: nat)
    requires Below(a, n)
    ensures |a| <= n
  {
    if n > 0 {
      SubsetBound(a - {n - 1}, n - 1);
    } else {
      assert a == {};
    }
  }

  lemma {:induction false} FullSet(a: set<nat>, n: nat)
    requires Below(a, n) && |a| == n
    ensures forall x: nat :: x < n ==> x in a
  {
    if n > 0 {
      if n - 1 !in a {
        SubsetBound(a, n - 1);
      } else {
        FullSet(a - {n - 1}, n - 1);
      }
    }
  }

  lemma {:induction false} ElementsBelow(c: seq<nat>, n: nat)
    requires n <= |c| && InRangeUpTo(c, n)
    ensures Below(Elements(c, n), CHANNELS)
  {
    if n > 0 {
      ElementsBelow(c, n - 1);
    }
  }

  /** Twelve distinct channels below twelve are all twelve. */
  lemma AllAssigned(c: seq<nat>)
    requires |c| == CHANNELS && InRangeUpTo(c, CHANNELS) && DistinctUpTo(c, CHANNELS)
    ensures forall x: nat :: x < CHANNELS ==> x in Elements(c, CHANNELS)
  {
    DistinctCount(c, CHANNELS);
    ElementsBelow(c, CHANNELS);
    FullSet(Elements(c, CHANNELS), CHANNELS);
  }

  datatype Place = Place(endpoint: nat, right: bool)

  predicate Carries(plan: seq<EndpointSpec>, p: Place, channel: nat) {
    p.endpoint < |plan| && ChannelOf(plan[p.endpoint], p.right) == channel
  }

  /** A valid plan is a permutation: every channel has exactly one place. */
  lemma PlanIsPermutation(plan: seq<EndpointSpec>, channel: nat)
    requires ValidPlan(plan) && channel < CHANNELS
    ensures exists p :: Carries(plan, p, channel)
    ensures forall p, q :: Carries(plan, p, channel) && Carries(plan, q, channel) ==> p == q
  {
    var c := Assigned(plan);
    AllAssigned(c);
    ElementsAre(c, CHANNELS, channel);
    var k :| 0 <= k < CHANNELS && c[k] == channel;
    assert Carries(plan, Place(k / 2, k % 2 == 1), channel);
    forall p, q | Carries(plan, p, channel) && Carries(plan, q, channel) ensures p == q {
      AssignedAt(plan, p.endpoint);
      AssignedAt(plan, q.endpoint);
      var i, j := 2 * p.endpoint + (if p.right then 1 else 0), 2 * q.endpoint + (if q.right then 1 else 0);
      assert c[i] == c[j];
      assert i == j;
    }
  }

  method NoLaterTwin(plan: seq<EndpointSpec>, i: nat) returns (alone: bool)
    requires i < |plan|
    ensures alone <==> forall l :: i < l < |plan| ==>
              plan[i].endpointId != plan[l].endpointId && plan[i].streamId != plan[l].streamId
  {
    for j := i + 1 to |plan|
      invariant forall l :: i < l < j ==>
                  plan[i].endpointId != plan[l].endpointId && plan[i].streamId != plan[l].streamId
    {
      if plan[i].endpointId == plan[j].endpointId || plan[i].streamId == plan[j].streamId {
        return false;
      }
    }
    alone := true;
  }

  /** Pairwise checks against a table of channels already seen, as the host makes them. */
  method Validate(plan: seq<EndpointSpec>) returns (ok: bool)
    requires |plan| == ENDPOINTS
    ensures ok <==> ValidPlan(plan)
  {
    hide Assigned, DistinctUpTo;
    var seen := new bool[CHANNELS](_ => false);
    ghost var c := Assigned(plan);
    assert DistinctUpTo(c, 0) by { NoneAreDistinct(c); }
    for i := 0 to ENDPOINTS
      invariant forall k :: 0 <= k < i ==> plan[k].endpointId != ""
      invariant forall k, l :: 0 <= k < i && k < l < |plan| ==>
                  plan[k].endpointId != plan[l].endpointId && plan[k].streamId != plan[l].streamId
      invariant InRangeUpTo(c, 2 * i) && DistinctUpTo(c, 2 * i)
      invariant forall k: nat :: k < CHANNELS ==> (seen[k] <==> k in Elements(c, 2 * i))
    {
      AssignedAt(plan, i);
      var e := plan[i];
      if e.endpointId == "" {
        return false;
      }
      var alone := NoLaterTwin(plan, i);
      if !alone {
        return false;
      }
      DistinctStep(c, 2 * i);
      if e.left >= CHANNELS || seen[e.left] {
        RefusedPlace(c, 2 * i);
        return false;
      }
      seen[e.left] := true;
      DistinctStep(c, 2 * i + 1);
      if e.right >= CHANNELS || seen[e.right] {
        RefusedPlace(c, 2 * i + 1);
        return false;
      }
      seen[e.right] := true;
    }
    AllAssigned(c);
    ok := true;
    for k := 0 to CHANNELS
      invariant ok
    {
      if !seen[k] {
        ok := false;
      }
    }
  }

  lemma NoneAreDistinct(c: seq<nat>)
    ensures DistinctUpTo(c, 0)
  {
  }

  lemma RefusedPlace(c: seq<nat>, n: nat)
    requires n < |c| == CHANNELS && (c[n] >= CHANNELS || !DistinctUpTo(c, n + 1))
    ensures !(InRangeUpTo(c, CHANNELS) && DistinctUpTo(c, CHANNELS))
  {
  }

  function Canonical(medium: Handover.Medium): seq<EndpointSpec> {
    seq(ENDPOINTS, i requires 0 <= i < ENDPOINTS =>
      EndpointSpec("esp-avb-node-" + [['1', '2', '3', '4', '5', '6'][i]], 0xA700_0000 + i, medium, 2 * i, 2 * i + 1))
  }

  lemma CanonicalIsValid(medium: Handover.Medium)
    ensures ValidPlan(Canonical(medium))
  {
    var plan := Canonical(medium);
    forall p | 0 <= p < CHANNELS ensures Assigned(plan)[p] == p {
    }
    forall i, j | 0 <= i < j < ENDPOINTS
      ensures plan[i].endpointId != plan[j].endpointId
    {
      var a, b := plan[i].endpointId, plan[j].endpointId;
      assert a[|a| - 1] != b[|b| - 1];
    }
  }

  // --- Splitting and recombining ---------------------------------------------------------------

  /** Channel `c` of frame `f` in an interleaved 12-channel block. */
  function At(samples: seq<Sample>, f: nat, c: nat): Sample
    requires c < CHANNELS && 12 * f + 12 <= |samples|
  {
    samples[12 * f + c]
  }

  /** One lane of frame `f` in an interleaved stereo block. */
  function Lane(buffer: seq<Sample>, f: nat, right: bool): Sample
    requires 2 * f + 2 <= |buffer|
  {
    buffer[2 * f + (if right then 1 else 0)]
  }

  predicate InRange(e: EndpointSpec) {
    e.left < CHANNELS && e.right < CHANNELS
  }

  /** The first `n` stereo frames of `buffer` are endpoint `e`'s. */
  predicate Filled(buffer: seq<Sample>, samples: seq<Sample>, e: EndpointSpec, n: nat)
    requires InRange(e) && 12 * n <= |samples| && 2 * n <= |buffer|
  {
    forall f, right {:trigger Lane(buffer, f, right)} :: 0 <= f < n ==>
      Lane(buffer, f, right) == At(samples, f, ChannelOf(e, right))
  }

  /** The stereo samples of one endpoint. */
  function EndpointSamples(samples: seq<Sample>, e: EndpointSpec, frames: nat): (out: seq<Sample>)
    requires |samples| == CHANNELS * frames && InRange(e)
    ensures |out| == LANES * frames && Filled(out, samples, e, frames)
  {
    seq(2 * frames, k requires 0 <= k < 2 * frames => At(samples, k / 2, ChannelOf(e, k % 2 == 1)))
  }

  lemma FilledIsAll(buffer: seq<Sample>, samples: seq<Sample>, e: EndpointSpec, frames: nat)
    requires InRange(e) && |samples| == CHANNELS * frames && |buffer| == LANES * frames
    requires Filled(buffer, samples, e, frames)
    ensures buffer == EndpointSamples(samples, e, frames)
  {
    var out := EndpointSamples(samples, e, frames);
    hide EndpointSamples, At;
    forall k | 0 <= k < 2 * frames ensures buffer[k] == out[k] {
      assert Lane(buffer, k / 2, k % 2 == 1) == buffer[k];
      assert Lane(out, k / 2, k % 2 == 1) == out[k];
    }
  }

  /** Where channel `c` travels. */
  function PlaceOf(plan: seq<EndpointSpec>, c: nat): (p: Place)
    requires ValidPlan(plan) && c < CHANNELS
    ensures Carries(plan, p, c)
  {
    PlanIsPermutation(plan, c);
    var p :| Carries(plan, p, c);
    p
  }

  lemma PlanInRange(plan: seq<EndpointSpec>)
    requires ValidPlan(plan)
    ensures |plan| == ENDPOINTS && forall i :: 0 <= i < ENDPOINTS ==> InRange(plan[i])
  {
    forall i | 0 <= i < ENDPOINTS ensures InRange(plan[i]) {
      AssignedAt(plan, i);
    }
  }

  /** The six endpoint buffers of one block. */
  function Outputs(samples: seq<Sample>, plan: seq<EndpointSpec>, frames: nat): (o: seq<seq<Sample>>)
    requires ValidPlan(plan) && |samples| == CHANNELS * frames
    ensures |o| == ENDPOINTS && forall i :: 0 <= i < ENDPOINTS ==> |o[i]| == LANES * frames
  {
    PlanInRange(plan);
    seq(ENDPOINTS, i requires 0 <= i < ENDPOINTS => EndpointSamples(samples, plan[i], frames))
  }

  /** Put the six stereo buffers back into one 12-channel block. */
  function Recombine(outputs: seq<seq<Sample>>, plan: seq<EndpointSpec>, frames: nat): (samples: seq<Sample>)
    requires ValidPlan(plan) && |outputs| == ENDPOINTS
    requires forall i :: 0 <= i < ENDPOINTS ==> |outputs[i]| == LANES * frames
    ensures |samples| == CHANNELS * frames
  {
    seq(12 * frames, k requires 0 <= k < 12 * frames =>
      var p := PlaceOf(plan, k % 12); Lane(outputs[p.endpoint], k / 12, p.right))
  }

  /** The fanout is lossless: what the six endpoints get recombines to the input block. */
  lemma FanoutIsLossless(samples: seq<Sample>, plan: seq<EndpointSpec>, frames: nat)
    requires ValidPlan(plan) && |samples| == CHANNELS * frames
    ensures Recombine(Outputs(samples, plan, frames), plan, frames) == samples
  {
    hide ValidPlan, EndpointSamples, PlaceOf;
    PlanInRange(plan);
    var outputs := Outputs(samples, plan, frames);
    forall k | 0 <= k < 12 * frames ensures Recombine(outputs, plan, frames)[k] == samples[k] {
      var p := PlaceOf(plan, k % 12);
      assert Lane(outputs[p.endpoint], k / 12, p.right) == At(samples, k / 12, k % 12);
    }
  }

  // --- Timelines -------------------------------------------------------------------------------

  function Advance(t: Timestamp, frames: nat): Option<Timestamp> {
    if t.frameIndex + frames > U64_MAX then None else Some(t.(frameIndex := t.frameIndex + frames))
  }

  /** Exact interleaved shape in the timestamp's own rate domain. */
  predicate WellShaped(b: Block) {
    && b.timestamp.sampleRate == b.format.sampleRate
    && b.format.channels * b.format.blockFrames <= U64_MAX
    && |b.samples| == b.format.channels * b.format.blockFrames
  }

  /** `next` follows `b` with no gap in sequence or media time. */
  predicate Follows(b: Block, next: Block) {
    next.sequence == b.sequence + 1 && Advance(b.timestamp, b.format.blockFrames) == Some(next.timestamp)
  }

  predicate Contiguous(blocks: seq<Block>) {
    forall i :: 0 < i < |blocks| ==> Follows(blocks[i - 1], blocks[i])
  }

  lemma FollowingExtends(blocks: seq<Block>, b: Block)
    requires Contiguous(blocks) && (blocks != [] ==> Follows(blocks[|blocks| - 1], b))
    ensures Contiguous(blocks + [b])
  {
  }

  function InputFormat(frames: u64): Format {
    Format(MEDIA_RATE, CHANNELS, frames)
  }

  function OutputFormat(frames: u64): Format {
    Format(MEDIA_RATE, LANES, frames)
  }

  /** The block endpoint `e` must carry for input block `b`: same sequence, same media time. */
  function EndpointBlock(b: Block, e: EndpointSpec, frames: u64): Block
    requires |b.samples| == CHANNELS * frames && InRange(e)
  {
    Block(b.sequence, b.timestamp, OutputFormat(frames), EndpointSamples(b.samples, e, frames))
  }

  class PreparedFanout {
    const plan: seq<EndpointSpec>
    const frames: u64
    const buffers: seq<array<Sample>>
    var currentSequence: Option<u64>
    var currentTimestamp: Option<Timestamp>
    var nextSequence: Option<u64>
    var nextTimestamp: Option<Timestamp>
    ghost var accepted: seq<Block>    // blocks split successfully since the last reset
    ghost var held: seq<Sample>       // samples of the last block scattered into the buffers

    ghost predicate Shape()
    {
      && ValidPlan(plan) && |plan| == ENDPOINTS && 0 < frames && CHANNELS * frames <= U64_MAX
      && |buffers| == ENDPOINTS
      && (forall i :: 0 <= i < ENDPOINTS ==> buffers[i].Length == LANES * frames)
      && (forall i, j :: 0 <= i < j < ENDPOINTS ==> buffers[i] != buffers[j])
    }

    ghost predicate ExpectsAfter(last: Block)
      reads this
    {
      && currentSequence == Some(last.sequence) && currentTimestamp == Some(last.timestamp)
      && last.sequence < U64_MAX && nextSequence == Some(last.sequence + 1)
      && nextTimestamp == Advance(last.timestamp, frames) && nextTimestamp.Some?
    }

    /** The blocks accepted since the last reset are contiguous, and what is expected next follows them. */
    ghost predicate Timeline()
      reads this
    {
      && Contiguous(accepted)
      && (forall i :: 0 <= i < |accepted| ==> accepted[i].format == InputFormat(frames) && WellShaped(accepted[i]))
      && (accepted == [] ==>
            nextSequence == None && nextTimestamp == None && currentSequence == None && currentTimestamp == None)
      && (accepted != [] ==> ExpectsAfter(accepted[|accepted| - 1]))
    }

    ghost predicate Valid()
      reads this
    {
      Shape() && Timeline()
    }

    constructor (plan: seq<EndpointSpec>, frames: u64)
      requires ValidPlan(plan) && 0 < frames && CHANNELS * frames <= U64_MAX
      ensures Valid() && Backed() && accepted == [] && this.plan == plan && this.frames == frames
      ensures fresh(buffers)
    {
      this.plan, this.frames := plan, frames;
      var b0 := new Sample[LANES * frames](_ => 0.0);
      var b1 := new Sample[LANES * frames](_ => 0.0);
      var b2 := new Sample[LANES * frames](_ => 0.0);
      var b3 := new Sample[LANES * frames](_ => 0.0);
      var b4 := new Sample[LANES * frames](_ => 0.0);
      var b5 := new Sample[LANES * frames](_ => 0.0);
      buffers := [b0, b1, b2, b3, b4, b5];
      currentSequence, currentTimestamp, nextSequence, nextTimestamp := None, None, None, None;
      accepted, held := [], [];
    }

    /** Plan and format checks come before any allocation. */
    static method Prepare(plan: seq<EndpointSpec>, frames: u64) returns (r: Result<PreparedFanout, FanoutError>)
      requires |plan| == ENDPOINTS
      ensures r.Success? <==> ValidPlan(plan) && 0 < frames && CHANNELS * frames <= U64_MAX
      ensures r.Failure? ==> r.error == if ValidPlan(plan) then InvalidFormat else InvalidPlan
      ensures r.Success? ==> fresh(r.value) && r.value.Valid() && r.value.Backed() && r.value.accepted == []
                             && r.value.plan == plan && r.value.frames == frames && fresh(r.value.buffers)
    {
      var ok := Validate(plan);
      if !ok {
        return Failure(InvalidPlan);
      }
      if frames == 0 || LANES * frames > U64_MAX || CHANNELS * frames > U64_MAX {
        return Failure(InvalidFormat);
      }
      var fanout := new PreparedFanout(plan, frames);
      r := Success(fanout);
    }

    /** `block` may be split now: right shape, right format, and next on the timeline. */
    predicate Admits(block: Block)
      reads this
    {
      && WellShaped(block) && block.format == InputFormat(frames)
      && (nextSequence.Some? ==> block.sequence == nextSequence.value)
      && (nextTimestamp.Some? ==> block.timestamp == nextTimestamp.value)
    }

    /** Every buffer holds its endpoint's samples of `samples`. */
    ghost predicate Holds(samples: seq<Sample>)
      requires Shape() && |samples| == CHANNELS * frames
      reads buffers
    {
      PlanInRange(plan);
      forall i :: 0 <= i < ENDPOINTS ==> buffers[i][..] == EndpointSamples(samples, plan[i], frames)
    }

    /** The timeline is as it was. */
    twostate predicate TimelineKept()
      reads this
    {
      && accepted == old(accepted)
      && currentSequence == old(currentSequence) && currentTimestamp == old(currentTimestamp)
      && nextSequence == old(nextSequence) && nextTimestamp == old(nextTimestamp)
    }

    /** Once a block was accepted, the buffers hold the shares of the last block scattered. */
    ghost predicate Backed()
      requires Shape()
      reads this, buffers
    {
      accepted != [] ==> |held| == CHANNELS * frames && Holds(held)
    }

    static method WriteFrame(output: array<Sample>, samples: seq<Sample>, e: EndpointSpec, f: nat)
      requires InRange(e) && 12 * f + 12 <= |samples| && 2 * f + 2 <= output.Length
      requires Filled(output[..], samples, e, f)
      modifies output
      ensures Filled(output[..], samples, e, f + 1)
    {
      ghost var before := output[..];
      output[2 * f] := samples[12 * f + e.left];
      output[2 * f + 1] := samples[12 * f + e.right];
      forall g, right | 0 <= g < f + 1
        ensures Lane(output[..], g, right) == At(samples, g, ChannelOf(e, right))
      {
        if g < f {
          assert Lane(output[..], g, right) == Lane(before, g, right);
        }
      }
    }

    /** The nested scatter loops. */
    method Scatter(samples: seq<Sample>)
      requires Shape() && |samples| == CHANNELS * frames
      modifies buffers
      ensures Holds(samples)
    {
      hide ValidPlan;
      PlanInRange(plan);
      for f := 0 to frames
        invariant forall i :: 0 <= i < ENDPOINTS ==> Filled(buffers[i][..], samples, plan[i], f)
      {
        ghost var next := f + 1;
        for i := 0 to ENDPOINTS
          invariant forall k :: 0 <= k < i ==> Filled(buffers[k][..], samples, plan[k], next)
          invariant forall k :: i <= k < ENDPOINTS ==> Filled(buffers[k][..], samples, plan[k], f)
        {
          WriteFrame(buffers[i], samples, plan[i], f);
        }
      }
      forall i | 0 <= i < ENDPOINTS
        ensures buffers[i][..] == EndpointSamples(samples, plan[i], frames)
      {
        FilledIsAll(buffers[i][..], samples, plan[i], frames);
      }
    }

    /** Split one block. A refused block changes nothing, except that a block after which the
        timeline cannot be represented has already overwritten the buffers. */
    method Split(block: Block) returns (r: Option<FanoutError>)
      requires Valid()
      modifies this, buffers
      ensures Valid()
      ensures r.None? <==> old(Admits(block)) && block.sequence < U64_MAX && Advance(block.timestamp, frames).Some?
      ensures r.None? ==> accepted == old(accepted) + [block]
      ensures old(Admits(block)) ==> Holds(block.samples)
      ensures old(Backed()) ==> Backed()
      ensures held == if old(Admits(block)) then block.samples else old(held)
      ensures r.Some? ==> TimelineKept()
      ensures r.Some? ==>
                r.value == if WellShaped(block) && block.format == InputFormat(frames) then TimelineDiscontinuity
                           else InvalidFormat
      ensures !old(Admits(block)) ==> forall i :: 0 <= i < ENDPOINTS ==> buffers[i][..] == old(buffers[i][..])
    {
      hide ValidPlan, Contiguous;
      if !WellShaped(block) || block.format != InputFormat(frames) {
        return Some(InvalidFormat);
      }
      if nextSequence.Some? && block.sequence != nextSequence.value {
        return Some(TimelineDiscontinuity);
      }
      if nextTimestamp.Some? && block.timestamp != nextTimestamp.value {
        return Some(TimelineDiscontinuity);
      }
      Scatter(block.samples);
      held := block.samples;
      if block.sequence == U64_MAX {
        return Some(TimelineDiscontinuity);
      }
      var next := Advance(block.timestamp, frames);
      if next.None? {
        return Some(TimelineDiscontinuity);
      }
      FollowingExtends(accepted, block);
      currentSequence, currentTimestamp := Some(block.sequence), Some(block.timestamp);
      nextSequence, nextTimestamp := Some(block.sequence + 1), next;
      accepted := accepted + [block];
      r := None;
    }

    /** The stereo block of one endpoint after a split. It is that endpoint's share of the last accepted
        block exactly unless a later block, refused only because the timeline cannot go on, has put
        other samples on this endpoint's channels. */
    method ReadEndpoint(i: nat) returns (r: Result<Block, FanoutError>)
      requires Valid()
      ensures i >= ENDPOINTS ==> r == Failure(InvalidEndpointIndex)
      ensures i < ENDPOINTS && accepted == [] ==> r == Failure(NoBlockReady)
      ensures i < ENDPOINTS && accepted != [] ==>
                var last := accepted[|accepted| - 1];
                r == Success(Block(last.sequence, last.timestamp, OutputFormat(frames), buffers[i][..]))
      ensures i < ENDPOINTS && accepted != [] && Backed() ==>
                var last := accepted[|accepted| - 1];
                InRange(plan[i]) &&
                (r == Success(EndpointBlock(last, plan[i], frames)) <==>
                 EndpointSamples(held, plan[i], frames) == EndpointSamples(last.samples, plan[i], frames))
    {
      PlanInRange(plan);
      if i >= |buffers| {
        return Failure(InvalidEndpointIndex);
      }
      if currentSequence.None? || currentTimestamp.None? {
        return Failure(NoBlockReady);
      }
      r := Success(Block(currentSequence.value, currentTimestamp.value, OutputFormat(frames), buffers[i][..]));
    }

    method Reset()
      requires Valid()
      modifies this
      ensures Valid() && Backed() && accepted == []
    {
      currentSequence, currentTimestamp, nextSequence, nextTimestamp := None, None, None, None;
      accepted := [];
    }
  }

  // --- A stale share ------------------------------------------------------------------------------

  /** A block with every sample at level `x`. */
  function Level(sequence: u64, start: u64, frames: u64, x: Sample): (b: Block)
    requires CHANNELS * frames <= U64_MAX
    ensures WellShaped(b) && b.format == InputFormat(frames)
  {
    Block(sequence, Timestamp(start, MEDIA_RATE), InputFormat(frames), seq(CHANNELS * frames, _ => x))
  }

  lemma ShareOfLevel(b: Block, e: EndpointSpec, frames: u64, x: Sample)
    requires CHANNELS * frames <= U64_MAX && InRange(e) && b == Level(b.sequence, b.timestamp.frameIndex, frames, x)
    ensures EndpointSamples(b.samples, e, frames) == seq(LANES * frames, _ => x)
  {
  }

  /** Splits a silent block numbered U64_MAX - 1 and then its successor at full scale. The second is
      refused, for no block can follow it, and yet every endpoint then reads full scale under the
      first block's sequence and media time: not its share of the only block accepted. */
  method StaleShare(medium: Handover.Medium, frames: u64, i: nat)
      returns (first: Option<FanoutError>, second: Option<FanoutError>, read: Result<Block, FanoutError>)
    requires 0 < frames && CHANNELS * frames <= U64_MAX && i < ENDPOINTS
    ensures first == None && second == Some(TimelineDiscontinuity)
    ensures read == Success(Block(U64_MAX - 1, Timestamp(0, MEDIA_RATE), OutputFormat(frames),
                                  seq(LANES * frames, _ => 1.0)))
    ensures InRange(Canonical(medium)[i])
    ensures read != Success(EndpointBlock(Level(U64_MAX - 1, 0, frames, 0.0), Canonical(medium)[i], frames))
  {
    var plan := Canonical(medium);
    CanonicalIsValid(medium);
    PlanInRange(plan);
    var silent, loud := Level(U64_MAX - 1, 0, frames, 0.0), Level(U64_MAX, frames, frames, 1.0);
    hide ValidPlan, Canonical, EndpointSamples;
    ShareOfLevel(silent, plan[i], frames, 0.0);
    ShareOfLevel(loud, plan[i], frames, 1.0);
    var fanout := new PreparedFanout(plan, frames);
    first := fanout.Split(silent);
    second := fanout.Split(loud);
    read := fanout.ReadEndpoint(i);
    assert read.value.samples[0] == 1.0 && EndpointSamples(silent.samples, plan[i], frames)[0] == 0.0;
  }
}
