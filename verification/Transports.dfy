/** Fallible stereo transports, and what it means for six of them to be in lockstep with a fanout. */
module Transports {
  import opened Bytes
  import opened Fanout

  datatype Capabilities = Capabilities(avbTsn: bool, maxChannels: nat, scheduledPlayout: bool, adaptiveRate: bool)

  /** The control calls a transport may refuse. */
  datatype Call = PrepareCall | StartCall | StopCall

  /** How often each control call was made. */
  datatype Calls = Calls(prepares: nat, starts: nat, stops: nat, resets: nat)

  /** What was answered last to each call that may be refused. */
  datatype Replies = Replies(prepare: bool, start: bool, submit: bool, stop: bool)

  /** The life of a transport: the blocks it took and how many it was offered, the control calls made and
      its last answers. `ready` means that its last prepare succeeded, and `running` that its last
      start succeeded and that it was neither stopped, reset nor prepared since. */
  datatype Log = Log(accepted: seq<Block>, submits: nat, calls: Calls, last: Replies, ready: bool, running: bool) {
    function Prepare(ok: bool): Log {
      this.(calls := calls.(prepares := calls.prepares + 1), last := last.(prepare := ok),
            ready := ok, running := false)
    }

    function Start(ok: bool): Log {
      this.(calls := calls.(starts := calls.starts + 1), last := last.(start := ok), running := ok)
    }

    function Submit(b: Block, ok: bool): Log {
      this.(accepted := if ok then accepted + [b] else accepted, submits := submits + 1,
            last := last.(submit := ok))
    }

    function Stop(ok: bool): Log {
      this.(calls := calls.(stops := calls.stops + 1), last := last.(stop := ok), running := false)
    }

    /** A reset clears history and keeps prepared capacity. */
    function Reset(): Log {
      this.(calls := calls.(resets := calls.resets + 1), running := false)
    }

    function Ask(call: Call, ok: bool): Log {
      match call
      case PrepareCall => Prepare(ok)
      case StartCall => Start(ok)
      case StopCall => Stop(ok)
    }

    /** Stopped, whatever the answer, and reset. */
    predicate HaltedFrom(was: Log) {
      this == was.Stop(last.stop).Reset()
    }
  }

  /** A network transport, of which only the outcome of each call is known. Any call may fail. */
  class Transport {
    const capabilities: Capabilities
    ghost var log: Log

    constructor (capabilities: Capabilities)
      ensures this.capabilities == capabilities
      ensures log.accepted == [] && log.submits == 0 && log.calls == Calls(0, 0, 0, 0) && !log.ready && !log.running
    {
      this.capabilities := capabilities;
      log := Log([], 0, Calls(0, 0, 0, 0), Replies(false, false, false, false), false, false);
    }

    method Prepare() returns (ok: bool)
      modifies this
      ensures log == old(log).Prepare(ok)
    {
      ok := *;
      log := log.Prepare(ok);
    }

    method Start() returns (ok: bool)
      modifies this
      ensures log == old(log).Start(ok)
    {
      ok := *;
      log := log.Start(ok);
    }

    method Submit(b: Block) returns (ok: bool)
      modifies this
      ensures log == old(log).Submit(b, ok)
    {
      ok := *;
      log := log.Submit(b, ok);
    }

    method Stop() returns (ok: bool)
      modifies this
      ensures log == old(log).Stop(ok)
    {
      ok := *;
      log := log.Stop(ok);
    }

    method Reset()
      modifies this
      ensures log == old(log).Reset()
    {
      log := log.Reset();
    }
  }

  predicate Admissible(c: Capabilities) {
    c.avbTsn && c.maxChannels >= LANES && c.scheduledPlayout && !c.adaptiveRate
  }

  predicate FullBlocks(inputs: seq<Block>, frames: u64) {
    forall i :: 0 <= i < |inputs| ==>
        inputs[i].format == InputFormat(frames) && |inputs[i].samples| == CHANNELS * frames
  }

  /** The six stereo blocks one input block becomes. */
  function Shares(b: Block, plan: seq<EndpointSpec>, frames: u64): (s: seq<Block>)
    requires ValidPlan(plan) && |b.samples| == CHANNELS * frames
    ensures |s| == ENDPOINTS
  {
    PlanInRange(plan);
    seq(ENDPOINTS, e requires 0 <= e < ENDPOINTS => EndpointBlock(b, plan[e], frames))
  }

  /** What endpoint `e` must have received for these input blocks. */
  function StreamOf(inputs: seq<Block>, e: nat, plan: seq<EndpointSpec>, frames: u64): (s: seq<Block>)
    requires ValidPlan(plan) && e < ENDPOINTS && FullBlocks(inputs, frames)
    ensures |s| == |inputs|
  {
    seq(|inputs|, i requires 0 <= i < |inputs| => Shares(inputs[i], plan, frames)[e])
  }

  lemma StreamOfMore(inputs: seq<Block>, b: Block, e: nat, plan: seq<EndpointSpec>, frames: u64)
    requires ValidPlan(plan) && e < ENDPOINTS && FullBlocks(inputs, frames) && FullBlocks(inputs + [b], frames)
    ensures |b.samples| == CHANNELS * frames
    ensures StreamOf(inputs + [b], e, plan, frames) == StreamOf(inputs, e, plan, frames) + [Shares(b, plan, frames)[e]]
  {
    hide ValidPlan, Shares;
    assert (inputs + [b])[|inputs|] == b;
  }

  /** Block `k` of every stream carries the sequence number and media time of input block `k`. */
  predicate SameTimeline(stream: seq<Block>, inputs: seq<Block>, frames: u64) {
    && |stream| == |inputs|
    && forall i :: 0 <= i < |stream| ==>
         && stream[i].sequence == inputs[i].sequence && stream[i].timestamp == inputs[i].timestamp
         && stream[i].format == OutputFormat(frames) && |stream[i].samples| == LANES * frames
  }

  /** The six streams carry the same contiguous sequence numbers and timestamps, and block by
      block they recombine to the input. */
  predicate InLockstep(streams: seq<seq<Block>>, inputs: seq<Block>, plan: seq<EndpointSpec>, frames: u64)
    requires ValidPlan(plan) && |streams| == ENDPOINTS && FullBlocks(inputs, frames)
  {
    && Contiguous(inputs)
    && (forall e :: 0 <= e < ENDPOINTS ==> SameTimeline(streams[e], inputs, frames))
    && forall i :: 0 <= i < |inputs| ==>
         Recombine(SamplesAt(streams, i, |inputs|), plan, frames) == inputs[i].samples
  }

  function SamplesAt(streams: seq<seq<Block>>, i: nat, n: nat): (o: seq<seq<Sample>>)
    requires i < n && forall e :: 0 <= e < |streams| ==> |streams[e]| == n
    ensures |o| == |streams|
    ensures forall e :: 0 <= e < |o| ==> o[e] == streams[e][i].samples
  {
    seq(|streams|, e requires 0 <= e < |streams| => streams[e][i].samples)
  }

  /** Streams that each are the right projection of the input are in lockstep. */
  lemma ProjectionsAreInLockstep(streams: seq<seq<Block>>, inputs: seq<Block>, plan: seq<EndpointSpec>, frames: u64)
    requires ValidPlan(plan) && |streams| == ENDPOINTS && FullBlocks(inputs, frames) && Contiguous(inputs)
    requires forall e :: 0 <= e < ENDPOINTS ==> streams[e] == StreamOf(inputs, e, plan, frames)
    ensures InLockstep(streams, inputs, plan, frames)
  {
    hide ValidPlan;
    PlanInRange(plan);
    forall i | 0 <= i < |inputs|
      ensures Recombine(SamplesAt(streams, i, |inputs|), plan, frames) == inputs[i].samples
    {
      assert SamplesAt(streams, i, |inputs|) == Outputs(inputs[i].samples, plan, frames);
      FanoutIsLossless(inputs[i].samples, plan, frames);
    }
  }

  // --- Steps over six transports -----------------------------------------------------------

  predicate Six(transports: seq<Transport>) {
    |transports| == ENDPOINTS && forall i, j :: 0 <= i < j < ENDPOINTS ==> transports[i] != transports[j]
  }

  ghost function Logs(transports: seq<Transport>): (logs: seq<Log>)
    reads transports
    ensures |logs| == |transports| && forall e :: 0 <= e < |logs| ==> logs[e] == transports[e].log
  {
    seq(|transports|, e requires 0 <= e < |transports| reads transports => transports[e].log)
  }

  predicate AllReady(logs: seq<Log>) {
    forall e :: 0 <= e < |logs| ==> logs[e].ready
  }

  predicate AllRunning(logs: seq<Log>) {
    forall e :: 0 <= e < |logs| ==> logs[e].running
  }

  predicate NoneRunning(logs: seq<Log>) {
    forall e :: 0 <= e < |logs| ==> !logs[e].running
  }

  /** How many of six in turn answered before the first refusal. */
  function Answered(refused: Option<nat>): nat {
    if refused.None? then ENDPOINTS else refused.value
  }

  predicate InSix(was: seq<Log>, now: seq<Log>, refused: Option<nat>) {
    |was| == |now| == ENDPOINTS && (refused.Some? ==> refused.value < ENDPOINTS)
  }

  /** What asking the six in turn, up to the first refusal, makes of the log of transport `e`. */
  function AskedOf(was: Log, call: Call, refused: Option<nat>, e: nat): Log {
    if e < Answered(refused) then was.Ask(call, true)
    else if e == Answered(refused) then was.Ask(call, false)
    else was
  }

  function OfferedOf(was: Log, b: Block, refused: Option<nat>, e: nat): Log {
    if e < Answered(refused) then was.Submit(b, true)
    else if e == Answered(refused) then was.Submit(b, false)
    else was
  }

  /** The logs after the six were asked in turn: all below `refused` agreed, that one refused, and no other
      was asked. */
  function AfterAsking(was: seq<Log>, call: Call, refused: Option<nat>): (now: seq<Log>)
    ensures |now| == |was| && forall e :: 0 <= e < |now| ==> now[e] == AskedOf(was[e], call, refused, e)
  {
    seq(|was|, e requires 0 <= e < |was| => AskedOf(was[e], call, refused, e))
  }

  /** The logs after the six were offered their shares in turn, up to the first refusal. */
  function AfterOffering(was: seq<Log>, shares: seq<Block>, refused: Option<nat>): (now: seq<Log>)
    requires |shares| == |was|
    ensures |now| == |was| && forall e :: 0 <= e < |now| ==> now[e] == OfferedOf(was[e], shares[e], refused, e)
  {
    seq(|was|, e requires 0 <= e < |was| => OfferedOf(was[e], shares[e], refused, e))
  }

  /** The logs after exactly the first `k` were reset. */
  function AfterResetting(was: seq<Log>, k: nat): (now: seq<Log>)
    ensures |now| == |was| && forall e :: 0 <= e < |now| ==> now[e] == if e < k then was[e].Reset() else was[e]
  {
    seq(|was|, e requires 0 <= e < |was| => if e < k then was[e].Reset() else was[e])
  }

  /** Exactly the first `k` were stopped, whatever they answered, and reset. */
  predicate HaltedBelow(was: seq<Log>, now: seq<Log>, k: nat) {
    |was| == |now| && forall e :: 0 <= e < |now| ==> if e < k then now[e].HaltedFrom(was[e]) else now[e] == was[e]
  }

  predicate AllHalted(was: seq<Log>, now: seq<Log>) {
    |was| == |now| && forall e :: 0 <= e < |now| ==> now[e].HaltedFrom(was[e])
  }

  predicate AllStopped(was: seq<Log>, now: seq<Log>) {
    |was| == |now| && forall e :: 0 <= e < |now| ==> now[e] == was[e].Stop(now[e].last.stop)
  }

  /** Of the first `k` transports stopped, `refused` is the first that refused. */
  predicate FirstRefusedStop(now: seq<Log>, k: nat, refused: Option<nat>)
    requires k <= |now|
  {
    match refused
    case None => forall e :: 0 <= e < k ==> now[e].last.stop
    case Some(r) => r < k && !now[r].last.stop && forall e :: 0 <= e < r ==> now[e].last.stop
  }

  /** The first `k` were stopped, or stopped and reset, so far. */
  predicate StoppedUpTo(was: seq<Log>, now: seq<Log>, k: nat, refused: Option<nat>) {
    && |was| == |now| && k <= |now| && FirstRefusedStop(now, k, refused)
    && forall e :: 0 <= e < |now| ==> now[e] == if e < k then was[e].Stop(now[e].last.stop) else was[e]
  }

  predicate HaltedUpTo(was: seq<Log>, now: seq<Log>, k: nat, refused: Option<nat>) {
    HaltedBelow(was, now, k) && k <= |now| && FirstRefusedStop(now, k, refused)
  }

  function FirstOf(refused: Option<nat>, k: nat, ok: bool): Option<nat> {
    if refused.None? && !ok then Some(k) else refused
  }

  lemma StopStep(was: seq<Log>, now: seq<Log>, k: nat, refused: Option<nat>, ok: bool)
    requires StoppedUpTo(was, now, k, refused) && k < |now|
    ensures StoppedUpTo(was, now[k := now[k].Stop(ok)], k + 1, FirstOf(refused, k, ok))
  {
  }

  lemma HaltStep(was: seq<Log>, now: seq<Log>, k: nat, refused: Option<nat>, ok: bool)
    requires HaltedUpTo(was, now, k, refused) && k < |now|
    ensures HaltedUpTo(was, now[k := now[k].Stop(ok).Reset()], k + 1, FirstOf(refused, k, ok))
  {
  }

  lemma NoneStoppedYet(was: seq<Log>)
    ensures StoppedUpTo(was, was, 0, None) && HaltedUpTo(was, was, 0, None)
  {
  }

  lemma AllStoppedNow(was: seq<Log>, now: seq<Log>, refused: Option<nat>)
    requires |was| == |now|
    ensures StoppedUpTo(was, now, |now|, refused) <==> AllStopped(was, now) && FirstRefusedStop(now, |now|, refused)
    ensures HaltedUpTo(was, now, |now|, refused) <==> AllHalted(was, now) && FirstRefusedStop(now, |now|, refused)
  {
  }

  /** Prepared in turn; after a refusal those below it were reset again. */
  predicate PreparedOrReset(was: seq<Log>, now: seq<Log>, refused: Option<nat>) {
    && (refused.Some? ==> refused.value < ENDPOINTS)
    && now == AfterResetting(AfterAsking(was, PrepareCall, refused), if refused.Some? then refused.value else 0)
  }

  /** Started in turn; after a refusal those below it were stopped and reset again. */
  predicate StartedOrRolledBack(was: seq<Log>, now: seq<Log>, refused: Option<nat>) {
    && (refused.Some? ==> refused.value < ENDPOINTS)
    && HaltedBelow(AfterAsking(was, StartCall, refused), now, if refused.Some? then refused.value else 0)
  }

  /** Asked in turn; after a refusal all six were stopped and reset. */
  predicate AskedOrHalted(was: seq<Log>, now: seq<Log>, call: Call, refused: Option<nat>) {
    var asked := AfterAsking(was, call, refused);
    if refused.Some? then refused.value < ENDPOINTS && AllHalted(asked, now) else now == asked
  }

  /** Offered in turn; after a refusal all six were stopped and reset. */
  predicate OfferedOrHalted(was: seq<Log>, now: seq<Log>, shares: seq<Block>, refused: Option<nat>)
    requires |shares| == |was|
  {
    var offered := AfterOffering(was, shares, refused);
    if refused.Some? then refused.value < ENDPOINTS && AllHalted(offered, now) else now == offered
  }

  /** One stop and one reset more for each, and none runs. */
  predicate HaltedOnce(was: seq<Log>, now: seq<Log>) {
    && |was| == |now| && NoneRunning(now)
    && forall e :: 0 <= e < |now| ==>
         now[e].calls.stops == was[e].calls.stops + 1 && now[e].calls.resets == was[e].calls.resets + 1
  }

  /** Stopping and resetting leaves nothing running and prepared capacity as it was. */
  lemma HaltingMeans(was: seq<Log>, now: seq<Log>)
    requires AllHalted(was, now)
    ensures HaltedOnce(was, now) && (AllReady(was) ==> AllReady(now))
  {
    forall e | 0 <= e < |now|
      ensures !now[e].running && (was[e].ready ==> now[e].ready)
      ensures now[e].calls.stops == was[e].calls.stops + 1 && now[e].calls.resets == was[e].calls.resets + 1
    {
      assert now[e].HaltedFrom(was[e]);
    }
  }

  lemma StoppingMeans(was: seq<Log>, now: seq<Log>)
    requires AllStopped(was, now)
    ensures NoneRunning(now) && (AllReady(was) ==> AllReady(now))
  {
    forall e | 0 <= e < |now| ensures !now[e].running && (was[e].ready ==> now[e].ready) {
      assert now[e] == was[e].Stop(now[e].last.stop);
    }
  }

  lemma NoneReset(was: seq<Log>)
    ensures AfterResetting(was, 0) == was
  {
  }

  /** What preparing in turn, and resetting after a refusal, comes to. */
  lemma PreparingMeans(was: seq<Log>, now: seq<Log>, refused: Option<nat>)
    requires |was| == ENDPOINTS && (refused.Some? ==> refused.value < ENDPOINTS)
    requires var asked := AfterAsking(was, PrepareCall, refused);
             now == if refused.Some? then AfterResetting(asked, refused.value) else asked
    ensures PreparedOrReset(was, now, refused) && (refused.None? ==> AllReady(now) && NoneRunning(now))
  {
    NoneReset(AfterAsking(was, PrepareCall, refused));
  }

  /** What starting in turn, and stopping and resetting those below a refusal, comes to. */
  lemma StartingMeans(was: seq<Log>, now: seq<Log>, refused: Option<nat>)
    requires |was| == ENDPOINTS && NoneRunning(was) && (refused.Some? ==> refused.value < ENDPOINTS)
    requires var asked := AfterAsking(was, StartCall, refused);
             if refused.Some? then HaltedBelow(asked, now, refused.value) else now == asked
    ensures StartedOrRolledBack(was, now, refused) && (AllReady(was) ==> AllReady(now))
    ensures if refused.None? then AllRunning(now) else NoneRunning(now)
  {
    var asked := AfterAsking(was, StartCall, refused);
    forall e | 0 <= e < ENDPOINTS
      ensures (was[e].ready ==> now[e].ready) && now[e].running == refused.None?
    {
      assert refused.Some? ==>
               if e < refused.value then now[e].HaltedFrom(asked[e]) else now[e] == asked[e];
    }
  }

  /** What asking in turn, and aborting after a refusal, comes to. */
  lemma AskingMeans(was: seq<Log>, now: seq<Log>, call: Call, refused: Option<nat>)
    requires |was| == ENDPOINTS && (refused.Some? ==> refused.value < ENDPOINTS)
    requires var asked := AfterAsking(was, call, refused);
             if refused.Some? then AllHalted(asked, now) else now == asked
    ensures AskedOrHalted(was, now, call, refused)
    ensures refused.Some? && call != StopCall ==> HaltedOnce(was, now)
    ensures refused.None? && call == PrepareCall ==> AllReady(now) && NoneRunning(now)
    ensures refused.None? && call == StartCall ==> AllRunning(now) && (AllReady(was) ==> AllReady(now))
  {
    if refused.Some? {
      HaltingMeans(AfterAsking(was, call, refused), now);
    }
  }

  /** What offering in turn, and aborting after a refusal, comes to. */
  lemma SubmittingMeans(was: seq<Log>, now: seq<Log>, shares: seq<Block>, refused: Option<nat>)
    requires |was| == |shares| == ENDPOINTS && (refused.Some? ==> refused.value < ENDPOINTS)
    requires var offered := AfterOffering(was, shares, refused);
             if refused.Some? then AllHalted(offered, now) else now == offered
    ensures OfferedOrHalted(was, now, shares, refused) && (AllReady(was) ==> AllReady(now))
    ensures if refused.Some? then HaltedOnce(was, now) && NoneRunning(now) else AllRunning(was) ==> AllRunning(now)
  {
    var offered := AfterOffering(was, shares, refused);
    assert AllReady(was) ==> AllReady(offered);
    if refused.Some? {
      HaltingMeans(offered, now);
    }
  }

  lemma ResettingMeans(was: seq<Log>, k: nat)
    ensures AllReady(was) ==> AllReady(AfterResetting(was, k))
    ensures NoneRunning(was) ==> NoneRunning(AfterResetting(was, k))
    ensures k >= |was| ==> NoneRunning(AfterResetting(was, k))
  {
  }

  /** The fanout holds these six blocks, ready to be read. */
  ghost predicate Offers(fanout: PreparedFanout, shares: seq<Block>)
    requires fanout.Shape()
    reads fanout, fanout.buffers
  {
    && |shares| == ENDPOINTS && fanout.accepted != []
    && var last := fanout.accepted[|fanout.accepted| - 1];
       forall e :: 0 <= e < ENDPOINTS ==>
         shares[e] == Block(last.sequence, last.timestamp, OutputFormat(fanout.frames), fanout.buffers[e][..])
  }

  /** After a successful split the fanout offers exactly the shares of the block. */
  lemma SplitOffersShares(fanout: PreparedFanout, block: Block)
    requires fanout.Valid() && fanout.accepted != [] && fanout.accepted[|fanout.accepted| - 1] == block
    requires |block.samples| == CHANNELS * fanout.frames && fanout.Holds(block.samples)
    ensures Offers(fanout, Shares(block, fanout.plan, fanout.frames))
  {
    hide ValidPlan, EndpointSamples;
  }

  /** The first `k` took their shares. */
  predicate TookUpTo(was: seq<Log>, now: seq<Log>, shares: seq<Block>, k: nat) {
    && |was| == |now| == |shares| == ENDPOINTS && k <= ENDPOINTS
    && forall e :: 0 <= e < ENDPOINTS ==> now[e] == if e < k then was[e].Submit(shares[e], true) else was[e]
  }

  lemma TakingStep(was: seq<Log>, now: seq<Log>, shares: seq<Block>, k: nat)
    requires TookUpTo(was, now, shares, k) && k < ENDPOINTS
    ensures TookUpTo(was, now[k := now[k].Submit(shares[k], true)], shares, k + 1)
    ensures now[k := now[k].Submit(shares[k], false)] == AfterOffering(was, shares, Some(k))
  {
  }

  lemma TakingEnds(was: seq<Log>, now: seq<Log>, shares: seq<Block>)
    requires |was| == |shares| == ENDPOINTS
    ensures TookUpTo(was, was, shares, 0)
    ensures TookUpTo(was, now, shares, ENDPOINTS) ==> now == AfterOffering(was, shares, None)
  {
  }

  /** Hand its share to one of the six. */
  method OfferOne(transports: seq<Transport>, fanout: PreparedFanout, ghost shares: seq<Block>, k: nat)
      returns (ok: bool)
    requires Six(transports) && fanout.Valid() && Offers(fanout, shares) && k < ENDPOINTS
    modifies transports[k]
    ensures Logs(transports) == old(Logs(transports))[k := old(Logs(transports)[k]).Submit(shares[k], ok)]
  {
    hide ValidPlan;
    var share := fanout.ReadEndpoint(k);
    ok := transports[k].Submit(share.value);
  }

  /** Hand the six offered blocks to the six transports in order, up to the first refusal. */
  method Deliver(transports: seq<Transport>, fanout: PreparedFanout, ghost shares: seq<Block>)
      returns (refused: Option<nat>)
    requires Six(transports) && fanout.Valid() && Offers(fanout, shares)
    modifies transports
    ensures refused.Some? ==> refused.value < ENDPOINTS
    ensures Logs(transports) == AfterOffering(old(Logs(transports)), shares, refused)
  {
    ghost var was := Logs(transports);
    TakingEnds(was, was, shares);
    hide TookUpTo, PreparedFanout.Valid, ValidPlan;
    for endpoint := 0 to ENDPOINTS
      invariant TookUpTo(was, Logs(transports), shares, endpoint)
    {
      ghost var before := Logs(transports);
      TakingStep(was, before, shares, endpoint);
      var ok := OfferOne(transports, fanout, shares, endpoint);
      if !ok {
        return Some(endpoint);
      }
    }
    TakingEnds(was, Logs(transports), shares);
    refused := None;
  }

  /** Prepare the six in turn, up to the first refusal. */
  method PrepareEach(transports: seq<Transport>) returns (refused: Option<nat>)
    requires Six(transports)
    modifies transports
    ensures refused.Some? ==> refused.value < ENDPOINTS
    ensures Logs(transports) == AfterAsking(old(Logs(transports)), PrepareCall, refused)
  {
    ghost var was := Logs(transports);
    for endpoint := 0 to ENDPOINTS
      invariant forall e :: 0 <= e < ENDPOINTS ==>
                  transports[e].log == if e < endpoint then was[e].Prepare(true) else was[e]
    {
      var ok := transports[endpoint].Prepare();
      if !ok {
        return Some(endpoint);
      }
    }
    refused := None;
  }

  /** Start the six in turn, up to the first refusal. */
  method StartEach(transports: seq<Transport>) returns (refused: Option<nat>)
    requires Six(transports)
    modifies transports
    ensures refused.Some? ==> refused.value < ENDPOINTS
    ensures Logs(transports) == AfterAsking(old(Logs(transports)), StartCall, refused)
  {
    ghost var was := Logs(transports);
    for endpoint := 0 to ENDPOINTS
      invariant forall e :: 0 <= e < ENDPOINTS ==>
                  transports[e].log == if e < endpoint then was[e].Start(true) else was[e]
    {
      var ok := transports[endpoint].Start();
      if !ok {
        return Some(endpoint);
      }
    }
    refused := None;
  }

  /** Reset the first `k`, and no other. */
  method ResetBelow(transports: seq<Transport>, k: nat)
    requires Six(transports) && k <= ENDPOINTS
    modifies transports
    ensures Logs(transports) == AfterResetting(old(Logs(transports)), k)
  {
    ghost var was := Logs(transports);
    for endpoint := 0 to k
      invariant forall e :: 0 <= e < ENDPOINTS ==>
                  transports[e].log == if e < endpoint then was[e].Reset() else was[e]
    {
      transports[endpoint].Reset();
    }
  }

  /** Stop one of the six. */
  method StopOne(transports: seq<Transport>, k: nat) returns (ok: bool)
    requires Six(transports) && k < ENDPOINTS
    modifies transports[k]
    ensures Logs(transports) == old(Logs(transports))[k := old(Logs(transports)[k]).Stop(ok)]
  {
    ok := transports[k].Stop();
  }

  /** Stop and reset one of the six. */
  method HaltOne(transports: seq<Transport>, k: nat) returns (ok: bool)
    requires Six(transports) && k < ENDPOINTS
    modifies transports[k]
    ensures Logs(transports) == old(Logs(transports))[k := old(Logs(transports)[k]).Stop(ok).Reset()]
  {
    ok := transports[k].Stop();
    transports[k].Reset();
  }

  /** Stop and reset the first `k`, and no other, whatever each answers. */
  method StopBelow(transports: seq<Transport>, k: nat)
    requires Six(transports) && k <= ENDPOINTS
    modifies transports
    ensures HaltedBelow(old(Logs(transports)), Logs(transports), k)
  {
    ghost var was, refused := Logs(transports), None;
    NoneStoppedYet(was);
    hide FirstRefusedStop, HaltedBelow;
    for endpoint := 0 to k
      invariant HaltedUpTo(was, Logs(transports), endpoint, refused)
    {
      ghost var before := Logs(transports);
      var ok := HaltOne(transports, endpoint);
      HaltStep(was, before, endpoint, refused, ok);
      refused := FirstOf(refused, endpoint, ok);
    }
  }

  /** Stop every transport, whatever each answers; report the first refusal. */
  method StopEach(transports: seq<Transport>) returns (refused: Option<nat>)
    requires Six(transports)
    modifies transports
    ensures AllStopped(old(Logs(transports)), Logs(transports))
    ensures FirstRefusedStop(Logs(transports), ENDPOINTS, refused)
  {
    hide StoppedUpTo, AllStopped, FirstRefusedStop;
    ghost var was := Logs(transports);
    refused := None;
    NoneStoppedYet(was);
    for endpoint := 0 to ENDPOINTS
      invariant StoppedUpTo(was, Logs(transports), endpoint, refused)
    {
      ghost var before := Logs(transports);
      var ok := StopOne(transports, endpoint);
      StopStep(was, before, endpoint, refused, ok);
      if !ok && refused.None? {
        refused := Some(endpoint);
      }
    }
    AllStoppedNow(was, Logs(transports), refused);
  }

  /** Stop and reset every transport, whatever each answers; report the first refusal. */
  method StopAll(transports: seq<Transport>) returns (refused: Option<nat>)
    requires Six(transports)
    modifies transports
    ensures AllHalted(old(Logs(transports)), Logs(transports))
    ensures FirstRefusedStop(Logs(transports), ENDPOINTS, refused)
  {
    hide HaltedUpTo, AllHalted, FirstRefusedStop;
    ghost var was := Logs(transports);
    refused := None;
    NoneStoppedYet(was);
    for endpoint := 0 to ENDPOINTS
      invariant HaltedUpTo(was, Logs(transports), endpoint, refused)
    {
      ghost var before := Logs(transports);
      var ok := HaltOne(transports, endpoint);
      HaltStep(was, before, endpoint, refused, ok);
      if !ok && refused.None? {
        refused := Some(endpoint);
      }
    }
    AllStoppedNow(was, Logs(transports), refused);
  }

  /** From `start` on, the log of a transport is exactly endpoint `e`'s share of the input. */
  predicate Tracks(log: seq<Block>, start: nat, inputs: seq<Block>, e: nat, plan: seq<EndpointSpec>, frames: u64)
    requires ValidPlan(plan) && e < ENDPOINTS && FullBlocks(inputs, frames)
  {
    start <= |log| && log[start..] == StreamOf(inputs, e, plan, frames)
  }

  /** One more accepted block, handed on as its share, keeps a log on track. */
  lemma TracksMore(
      log: seq<Block>, start: nat, inputs: seq<Block>, block: Block, e: nat, plan: seq<EndpointSpec>, frames: u64)
    requires ValidPlan(plan) && e < ENDPOINTS && FullBlocks(inputs, frames) && FullBlocks(inputs + [block], frames)
    requires |block.samples| == CHANNELS * frames
    requires Tracks(log, start, inputs, e, plan, frames)
    ensures Tracks(log + [Shares(block, plan, frames)[e]], start, inputs + [block], e, plan, frames)
  {
    hide ValidPlan, Shares, StreamOf;
    StreamOfMore(inputs, block, e, plan, frames);
    assert (log + [Shares(block, plan, frames)[e]])[start..] == log[start..] + [Shares(block, plan, frames)[e]];
  }

  lemma TracksNothing(log: seq<Block>, e: nat, plan: seq<EndpointSpec>, frames: u64)
    requires ValidPlan(plan) && e < ENDPOINTS
    ensures FullBlocks([], frames) && Tracks(log, |log|, [], e, plan, frames)
  {
  }

  lemma FullBlocksMore(inputs: seq<Block>, block: Block, frames: u64)
    requires FullBlocks(inputs, frames) && block.format == InputFormat(frames) && |block.samples| == CHANNELS * frames
    ensures FullBlocks(inputs + [block], frames) && FullBlocks([], frames)
  {
  }

  lemma NoBlocksAreFull(frames: u64)
    ensures FullBlocks([], frames)
  {
  }

  /** All six transports track the input of the fanout. */
  ghost predicate InStep(transports: seq<Transport>, start: seq<nat>, fanout: PreparedFanout)
    requires fanout.Shape() && |transports| == |start| == ENDPOINTS && FullBlocks(fanout.accepted, fanout.frames)
    reads transports, fanout
  {
    forall e :: 0 <= e < ENDPOINTS ==>
      Tracks(transports[e].log.accepted, start[e], fanout.accepted, e, fanout.plan, fanout.frames)
  }

  /** Six transports in step with one fanout are in lockstep with its input. */
  lemma InStepIsLockstep(transports: seq<Transport>, start: seq<nat>, fanout: PreparedFanout, streams: seq<seq<Block>>)
    requires fanout.Valid() && FullBlocks(fanout.accepted, fanout.frames)
    requires |transports| == |start| == |streams| == ENDPOINTS && InStep(transports, start, fanout)
    requires forall e :: 0 <= e < ENDPOINTS ==>
               start[e] <= |transports[e].log.accepted| && streams[e] == transports[e].log.accepted[start[e]..]
    ensures InLockstep(streams, fanout.accepted, fanout.plan, fanout.frames)
  {
    hide ValidPlan;
    ProjectionsAreInLockstep(streams, fanout.accepted, fanout.plan, fanout.frames);
  }

  /** Where the six logs stand now: the start of a new epoch. */
  ghost function Marks(transports: seq<Transport>): (m: seq<nat>)
    reads transports
    ensures |m| == |transports| && forall e :: 0 <= e < |m| ==> m[e] == |transports[e].log.accepted|
  {
    seq(|transports|, e requires 0 <= e < |transports| reads transports => |transports[e].log.accepted|)
  }

  lemma FreshEpochIsInStep(transports: seq<Transport>, start: seq<nat>, fanout: PreparedFanout)
    requires fanout.Shape() && |transports| == |start| == ENDPOINTS && fanout.accepted == []
    requires forall e :: 0 <= e < ENDPOINTS ==> start[e] == |transports[e].log.accepted|
    ensures FullBlocks(fanout.accepted, fanout.frames) && InStep(transports, start, fanout)
  {
    hide ValidPlan;
    forall e | 0 <= e < ENDPOINTS
      ensures Tracks(transports[e].log.accepted, start[e], [], e, fanout.plan, fanout.frames)
    {
      TracksNothing(transports[e].log.accepted, e, fanout.plan, fanout.frames);
    }
  }

  datatype Delivery = Unsplit(cause: FanoutError) | Refused(endpoint: nat) | Delivered

  function RefusedBy(d: Delivery): Option<nat> {
    if d.Refused? then Some(d.endpoint) else None
  }

  /** The step both coordinators share: split a block and hand out its shares. The fanout refuses
      exactly what it cannot place on its timeline; after a refusal at endpoint `k` exactly the
      endpoints below `k` hold one more block; with none, all six stay in step. */
  method SplitAndDeliver(transports: seq<Transport>, fanout: PreparedFanout, ghost start: seq<nat>, block: Block)
      returns (d: Delivery)
    requires Six(transports) && fanout.Valid() && FullBlocks(fanout.accepted, fanout.frames)
    requires |start| == ENDPOINTS && InStep(transports, start, fanout)
    modifies fanout, fanout.buffers, transports
    ensures fanout.Valid() && FullBlocks(fanout.accepted, fanout.frames)
    ensures d.Unsplit? <==>
            !(old(fanout.Admits(block)) && block.sequence < U64_MAX && Advance(block.timestamp, fanout.frames).Some?)
    ensures d.Unsplit? ==> fanout.TimelineKept() && Logs(transports) == old(Logs(transports))
    ensures d.Refused? ==> d.endpoint < ENDPOINTS
    ensures !d.Unsplit? ==>
              && fanout.accepted == old(fanout.accepted) + [block] && |block.samples| == CHANNELS * fanout.frames
              && Logs(transports) ==
                 AfterOffering(old(Logs(transports)), Shares(block, fanout.plan, fanout.frames), RefusedBy(d))
    ensures !d.Refused? ==> InStep(transports, start, fanout)
  {
    hide ValidPlan, Shares, Tracks, Contiguous, FullBlocks, Offers;
    ghost var was := Logs(transports);
    var split := fanout.Split(block);
    if split.Some? {
      return Unsplit(split.value);
    }
    FullBlocksMore(old(fanout.accepted), block, fanout.frames);
    SplitOffersShares(fanout, block);
    ghost var shares := Shares(block, fanout.plan, fanout.frames);
    var refused := Deliver(transports, fanout, shares);
    if refused.Some? {
      return Refused(refused.value);
    }
    forall e | 0 <= e < ENDPOINTS
      ensures Tracks(transports[e].log.accepted, start[e], fanout.accepted, e, fanout.plan, fanout.frames)
    {
      assert transports[e].log == was[e].Submit(shares[e], true);
      TracksMore(was[e].accepted, start[e], old(fanout.accepted), block, e, fanout.plan, fanout.frames);
    }
    d := Delivered;
  }
}
