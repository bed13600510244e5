# Aurora verification model

A Dafny model of the parts of Aurora where correctness is hardest to see by reading: the
detachable-speaker handover (host compilers, endpoint firmware, PTP deadline), the IEC 61937
ingress chain, the six-way stereo fanout with its two coordinators, and the output side (AOO
adapter, audio DMA device, asynchronous USB feedback). `dafny verify dfyconfig.toml` checks it.

## How the model is laid out

| files | what they model |
|---|---|
| `Bytes.dfy` | machine integers, big-endian words, option and result |
| `EndpointModel.dfy`, `Endpoint.dfy`, `EndpointSafety.dfy`, `Acceptance.dfy`, `CounterWrap.dfy` | the firmware of one detachable endpoint after the AEM-endpoint, PTP-deadline and telemetry patches: its transition function, its imperative C form, what every run keeps, what a physical trial accepts, and runs on which its counters wrap |
| `Handover.dfy`, `AemProgram.dfy`, `HandoverExecution.dfy` | the host: plan to envelopes, envelopes to SET_CONTROL writes (IEEE 1722.1-2013, section 7.4.25), and the execution of those writes on many endpoints with callbacks in between |
| `HandoverTiming.dfy`, `HandoverRefusal.dfy`, `HandoverRetry.dfy` | the same execution on the clock, when an endpoint must refuse a compiled command, and when acknowledged writes are delivered again |
| `Iec61937.dfy`, `IngressModel.dfy`, `IngressLock.dfy`, `IngressRelocks.dfy`, `LiveIngress.dfy` | bursts, the live classifier as a function of the stream, its lock and counters, its imperative form |
| `StrictGate.dfy` | the whole-capture gate and the matching capture builder |
| `WordLayout.dfy`, `StreamConverter.dfy`, `ChannelOrder.dfy` | S32 slot layouts, layout scoring and choice, the streaming converter, the chain into the classifier, and the choice when the channel order is free too |
| `Fanout.dfy`, `Transports.dfy`, `TransportSet.dfy` | fanout plans and buffers, six fallible transports, the ESP-AVB coordinator |
| `GenAvbSession.dfy`, `GenAvbRuntime.dfy` | the AVDECC session gate and the GenAVB runtime |
| `EventRing.dfy`, `AooTransport.dfy` | the AOO adapter and its native shim |
| `AudioDmaModel.dfy`, `AudioDma.dfy` | the two-entry audio DMA device |
| `UsbFeedback.dfy` | packetising with feedback and the buffer it feeds, over the reals |

Code that changes state is a class or a method with the source's fields, branches and loops. Each
such method is proved equal to a function of the old state; the properties over runs are lemmas
about those functions. Clock readings, gPTP status, timer calls, native calls, network outcomes
and memory contents are arbitrary inputs, so a statement about a run holds for every answer they
may give.

## Main results

- Deadline safety: in every state of every run of the endpoint, an unmuted output means a
  committed endpoint that read a ready gPTP clock between the armed start and 2 ms after it, and it
  has been open for that same epoch, start and roles ever since.
- Compile, then execute: however far the controller gets through a compiled program, and whatever
  deadline callbacks fire in between, every endpoint is exactly where its share of the plan puts
  it; only a COMMIT can be refused. A cut between MUTE and COMMIT leaves the endpoint silent. Where the
  host compiles something an endpoint must refuse, the run never gets past the first such command.
  Writes delivered several times, with any callbacks in between, leave what single deliveries leave.
- What the handover is for: at every cut, any two of its endpoints that are open opened within 2 ms of
  one another, in the window of the start frame; and if every COMMIT finds a ready clock before the
  start and working timers, every write is acknowledged.
- Chunk independence: any chunking of a stream followed by the flush is one parse of the whole
  stream, and the pieces logged are the stream byte for byte.
- The classifier is locked exactly when the stream ends in a long enough train of valid frames of
  one type; its relock counter is exactly the number of interruptions of a locked stream, and its
  lock losses are exactly those and the unsupported headers met while locked.
- The strict gate passes exactly the captures made of zeros, framed payloads and zeros.
- A locked layout is the unique strict maximum of the input it was decided on, and everything emitted
  since is the batch conversion of everything fed. From slots to lock, under any chunking: the slot half
  of an embedded train of bursts is always found and, with the channel order given, the train recovered
  byte for byte and locked on; with the order free too, that happens unless the exchanged reading has
  as many bursts and more syncs, and then the wrong order is locked.
- The fanout is lossless for every valid plan; six fallible transports are prepared and started as
  one, stay in lockstep or stop as one, and after a refusal take no block before a fresh prepare and
  start of all six; whichever transport refuses is the one reported, and every log is exact. The GenAVB
  runtime is prepared or started only with six connected streams, except after exactly one kind of call.
- The DMA device plays or discards descriptors in submit order, and over any run the PCM it consumed
  is what memory held at each playing event, in that order; the USB buffer stays within one
  frame for any duration with feedback, and fails at a computed microframe without it.

## Where the code differs from what one would expect

- `aurora_live_ingress.py:234-239`: an unsupported header leaves LOCKED, but is not counted as a
  relock and does not restart the candidate (`IngressRelocks.RelocksAreInterruptions`), so lock losses
  are relocks plus such headers (`IngressRelocks.LossesSplit`), and a stray sync costs a lock that no
  relock shows (`IngressRelocks.LossesGoUncounted`).
- `aurora_alsa_iec61937_stream.py:44-63` ranks layouts by syncs found anywhere in a burst, so with lane
  and order on auto a train may be converted in the wrong channel order: exactly when its words, exchanged
  in every frame, show as many bursts and more syncs in all (`ChannelOrder.FreeStandsOut`,
  `ChannelOrder.FreeLock`; `ChannelOrder.WrongOrderStandsOut` gives one for every threshold). A train whose
  exchanged words hold no sync is safe (`ChannelOrder.FreeTrainThroughChain`).
- `aem_control.rs` never checks that a module's two roles differ nor that the activation time is
  not 0; the endpoint refuses both (`HandoverExecution.RefusalExactly`). A plan with a repeated role
  does compile (`HandoverRefusal.RepeatedRoleCompiles`) and stops there
  (`HandoverRefusal.RepeatedRoleIsRefused`), and so does one whose start frame the anchor maps to time 0
  (`HandoverRefusal.ZeroTimeCompiles`, `HandoverRefusal.ZeroTimeIsRefused`);
  `HandoverRefusal.FirstRefusal` says where any such run stops.
- `aurora_patch_esp_avb_ptp_deadline.py:94-98`: the rounding sum wraps for a deadline within 999 ns
  of 2^64; otherwise the timer is never early (`EndpointSafety.DelayNeverEarly`). The requested delay
  is not part of the endpoint's state: the statements about runs let the timer fire at any time.
- Both 32-bit telemetry counters wrap, so a trial rejects an endpoint after an exact multiple of
  2^32 activations and accepts one after an exact multiple of 2^32 deadline faults
  (`Acceptance.PassesExactly`). Both runs exist (`CounterWrap.WrappedActivationsAreRejected`,
  `CounterWrap.WrappedFaultsAreAccepted`).
- `aurora-network-esp-avb/src/lib.rs:231-249`: a block after which the timeline cannot be
  represented is refused only after it has overwritten the buffers (`Fanout.PreparedFanout.Split`), so
  an endpoint read after that may carry the old sequence number with new samples
  (`Fanout.PreparedFanout.ReadEndpoint` says exactly when, `Fanout.StaleShare` shows it happen).
- `aurora-network-esp-avb/src/coordinator.rs:200-205`: a reset keeps a started set started, but a
  transport may stop when it is reset, as the GenAVB one does
  (`aurora-network-genavb/src/lib.rs:402-411`). A started set is known to run in all six only while
  it has not been reset (`TransportSet.EspAvbTransportSet.Reset`).
- `aurora-network-genavb-runtime/src/lib.rs:394-397`: the session is emptied before a native close
  that may fail, so a failed close from Prepared or Started keeps that lifecycle without a single
  connected stream (`GenAvbRuntime.FailedCloseLeavesStarted`); `GenAvbRuntime.RunIsGuarded` shows
  that this is the only way.
- `aurora-network-genavb-session/src/lib.rs:168-172`: the missing-role error is unreachable
  (`GenAvbSession.EveryRoleIsExpected`).
- `aurora_audio_device.py:100-114`: the length of a descriptor is compared with PERIOD only when it
  is submitted, and PERIOD may change before the device runs, so counted frames and consumed bytes
  can disagree (`AudioDmaModel.ShortPeriodIsCountedInFull`). They agree throughout a run if and only if
  every descriptor it plays has 240 frames (`AudioDmaModel.FramesMatchBytes`), which a driver gets by
  leaving PERIOD at 240 whenever it submits (`AudioDmaModel.FullPeriodsMatch`).
- `aurora_aoo_shim.c:197-199`: a handle can be prepared only once, so a second prepare of the same
  AOO transport always fails; and because the host ignores a failed native reset, the shim's old
  time base may outlive the host's timeline (`AooTransport.Transport.Reset`), and the next block is
  then a timeline error (`AooTransport.FailedResetMeetsTimelineError`).

## Model

| member | source | states |
|---|---|---|
| Bytes.WordRoundTrip | adapters/aurora-network-esp-avb/src/aem_control.rs:112-131 | a 64-bit control value survives the big-endian encoding of a write |
| Endpoint.Endpoint.constructor | validation/physical/aurora_patch_esp_avb_aem_endpoint.py:78-85 | boot is fail-closed: muted, no epoch, no roles, no timer |
| Endpoint.Endpoint.CancelDeadline | validation/physical/aurora_patch_esp_avb_ptp_deadline.py:54-60 | cancelling leaves no pending deadline, stops an existing timer and drives the output muted |
| Endpoint.Endpoint.Fail | validation/physical/aurora_patch_esp_avb_ptp_deadline.py:169-175 | a refused command ends in Fault with no deadline and a muted output |
| Endpoint.Endpoint.DeadlineFault | validation/physical/aurora_patch_esp_avb_endpoint_telemetry.py:109-116 | a deadline fault also counts itself, modulo 2^32 |
| Endpoint.Endpoint.UnmuteDeadline | validation/physical/aurora_patch_esp_avb_ptp_deadline.py:70-114 | the callback refines the deadline step: ignore, re-arm, unmute in the window, or fault |
| Endpoint.Endpoint.ScheduleUnmute | validation/physical/aurora_patch_esp_avb_ptp_deadline.py:116-158 | the scheduler refines its step: whole new state and whether COMMIT is accepted |
| Endpoint.Endpoint.Mute | validation/physical/aurora_patch_esp_avb_aem_endpoint.py:198-213 | MUTE begins an epoch, refuses stale epochs and refuses to leave Fault without a larger one |
| Endpoint.Endpoint.Prepare | validation/physical/aurora_patch_esp_avb_aem_endpoint.py:220-235 | PREPARE installs legal roles from Muted, repeats harmlessly, and otherwise fails closed |
| Endpoint.Endpoint.Arm | validation/physical/aurora_patch_esp_avb_aem_endpoint.py:237-250 | ARM takes a non-zero start from Prepared, repeats harmlessly, and otherwise fails closed |
| Endpoint.Endpoint.Commit | validation/physical/aurora_patch_esp_avb_ptp_deadline.py:194-198 | COMMIT stays muted and is acknowledged only if the scheduler accepts the deadline |
| Endpoint.Endpoint.Stop | validation/physical/aurora_patch_esp_avb_ptp_deadline.py:205-209 | STOP mutes and cancels, but never recovers a fault |
| Endpoint.Endpoint.ApplyCommand | validation/physical/aurora_patch_esp_avb_aem_endpoint.py:194-279 | the C command machine refines the command step, epoch check and status included |
| Endpoint.Endpoint.SetControl | validation/physical/aurora_patch_esp_avb_aem_endpoint.py:334-384 | one SET_CONTROL refines the write step: length check, staging cases 3-6, command case 7 |
| Endpoint.Endpoint.TimerDispatch | validation/physical/aurora_patch_esp_avb_ptp_deadline.py:127-136 | a timer dispatch refines the callback step; a timer never created cannot fire |
| EndpointSafety.RunKeepsInv | validation/physical/aurora_patch_esp_avb_ptp_deadline.py:54-158 | over every interleaving of writes, dispatches and clock readings: unmuted means committed and activated in the window; committed and muted is the same as a pending deadline for the active epoch; the driven output equals the muted flag |
| EndpointSafety.StepKeepsInv | validation/physical/aurora_patch_esp_avb_aem_endpoint.py:194-279 | any single write or dispatch keeps that invariant |
| EndpointSafety.UnmuteStep | validation/physical/aurora_patch_esp_avb_ptp_deadline.py:81-113 | a step that unmutes read a ready clock inside the window and recorded exactly that reading |
| EndpointSafety.UnmutedHasWitness | validation/physical/aurora_patch_esp_avb_ptp_deadline.py:70-114 | whenever the output is open, one identified earlier step opened it in the window and nothing of the activation changed since |
| EndpointSafety.EpochMonotone | validation/physical/aurora_patch_esp_avb_aem_endpoint.py:198-213 | along any run the active epoch never goes back |
| EndpointSafety.EpochMonotoneAndFaultExit | validation/physical/aurora_patch_esp_avb_aem_endpoint.py:201-203 | a fault is left only by MUTE staged with a strictly larger epoch |
| EndpointSafety.UnmuteCountExact | validation/physical/aurora_patch_esp_avb_endpoint_telemetry.py:124-130 | the telemetry counter is the number of activations of the run, modulo its 32 bits |
| EndpointSafety.FaultCountExact | validation/physical/aurora_patch_esp_avb_endpoint_telemetry.py:109-116 | the fault counter is the number of deadline faults of the run, told from its inputs alone, modulo its 32 bits |
| EndpointSafety.AcknowledgedWriteIsIdempotent | validation/physical/aurora_patch_esp_avb_aem_endpoint.py:223-255 | repeating an acknowledged write is acknowledged and changes nothing, whatever the clock then says |
| EndpointSafety.AcknowledgedIsAbsorbed | validation/physical/aurora_patch_esp_avb_aem_endpoint.py:223-255 | an acknowledged write is absorbed from then on |
| EndpointSafety.RetriesAreIdempotent | validation/physical/aurora_patch_esp_avb_aem_endpoint.py:223-255 | repetitions of an acknowledged write, with any callbacks in between, leave exactly what the callbacks alone leave; every repetition is acknowledged, but for a COMMIT whose deadline has faulted, which is refused |
| EndpointSafety.SettledChangesNothing | validation/physical/aurora_patch_esp_avb_ptp_deadline.py:169-198 | a write that is absorbed, or a COMMIT whose deadline has faulted, changes nothing, and only the latter is refused |
| EndpointSafety.RefusedWriteFailsClosed | validation/physical/aurora_patch_esp_avb_ptp_deadline.py:169-175 | a refused write changes nothing or leaves the endpoint in Fault, muted, with no deadline |
| EndpointSafety.DelayNeverEarly | validation/physical/aurora_patch_esp_avb_ptp_deadline.py:94-98 | the microsecond delay is never early and overshoots by under 1 us, if and only if the C sum does not wrap |
| EndpointSafety.TimespecExact | validation/physical/aurora_patch_esp_avb_ptp_deadline.py:39-46 | a non-negative timespec that fits 64 bits is converted exactly; otherwise a marker results |
| EndpointSafety.CommitAccepted | validation/physical/aurora_patch_esp_avb_ptp_deadline.py:116-158 | an armed endpoint with a ready clock, a future start and working timer calls acknowledges COMMIT |
| Acceptance.PassesExactly | validation/physical/aurora_detachable_physical_acceptance.py:224-253 | an endpoint in a run passes the scheduler checks exactly when its output is open, the deadline faults of the run are a multiple of 2^32, its activations are not, and it was punctual |
| Acceptance.DefaultLimitIsTheFirmwareWindow | validation/physical/aurora_detachable_physical_acceptance.py:241-253 | at 2000 us no endpoint in a run is rejected for its roles or its timing, and an open one without a deadline fault passes until its activations reach 2^32 |
| CounterWrap.WrappedActivationsAreRejected | validation/physical/aurora_detachable_physical_acceptance.py:224-253 | a run from boot opens the endpoint 2^32 times, ends open, and the trial rejects it for having no unmute event |
| CounterWrap.WrappedFaultsAreAccepted | validation/physical/aurora_detachable_physical_acceptance.py:224-253 | a run from boot misses at least 2^32 deadlines and the trial accepts it |
| CounterWrap.CycleCounts | validation/physical/aurora_patch_esp_avb_endpoint_telemetry.py:109-130 | from any state with a smaller epoch one full command cycle moves exactly one of the two counters by one, modulo 2^32 |
| Handover.ValidateBindings | adapters/aurora-network-esp-avb/src/control.rs:181-200 | accepts exactly the well-formed bindings without a repeated module, endpoint or stream, and names a defect that is really there |
| Handover.FindBinding | adapters/aurora-network-esp-avb/src/control.rs:117-120 | finds the first binding of a module, or that there is none |
| Handover.CompileCommand | adapters/aurora-network-esp-avb/src/control.rs:111-175 | translates one command, or names the first check it fails |
| Handover.CompileHandoverControl | adapters/aurora-network-esp-avb/src/control.rs:95-179 | succeeds exactly for acceptable plans, yields one envelope per command in plan order, and otherwise explains the first refused command |
| Handover.ModuleFollowsProtocol | adapters/aurora-network-esp-avb/src/control.rs:225-237 | in an accepted plan the commands of a module are a prefix of mute, prepare, arm, commit |
| AemProgram.PtpTimeExact | adapters/aurora-network-esp-avb/src/aem_control.rs:49-68 | the mapping succeeds exactly when the time fits, is within half a nanosecond, and its 128-bit intermediate cannot overflow |
| AemProgram.PtpTimeStrictlyIncreasing | adapters/aurora-network-esp-avb/src/aem_control.rs:49-68 | later frames get strictly later PTP times |
| AemProgram.PtpTimeHasNoDrift | adapters/aurora-network-esp-avb/src/aem_control.rs:49-68 | 48000 frames are exactly one second, however many times |
| AemProgram.ValidateTargets | adapters/aurora-network-esp-avb/src/aem_control.rs:309-324 | accepts exactly named, routable, distinct targets, and otherwise names a defect that is there |
| AemProgram.FindTarget | adapters/aurora-network-esp-avb/src/aem_control.rs:197-200 | finds the first target of an endpoint, or that there is none |
| AemProgram.AppendCommandWrites | adapters/aurora-network-esp-avb/src/aem_control.rs:206-284 | appends the staging writes and then the executing write, or the first reason why not |
| AemProgram.CompileAemControlProgram | adapters/aurora-network-esp-avb/src/aem_control.rs:185-204 | succeeds exactly for programmable envelopes and yields their writes in order; otherwise explains the first refused envelope |
| HandoverExecution.StagingDelivers | adapters/aurora-network-esp-avb/src/aem_control.rs:232-275 | after the staging writes of a command the endpoint has staged exactly what the host meant |
| HandoverExecution.StagingIsInert | adapters/aurora-network-esp-avb/src/aem_control.rs:232-234 | a staging write is acknowledged and moves nothing but the staging area |
| HandoverExecution.DistinctRolesAreLegal | validation/physical/aurora_patch_esp_avb_aem_endpoint.py:182-192 | the endpoint accepts encoded roles exactly when a pair differs |
| HandoverExecution.RefusalExactly | validation/physical/aurora_patch_esp_avb_aem_endpoint.py:220-239 | an endpoint that reflects its predecessors and has the arguments staged refuses PREPARE exactly for a repeated role and ARM exactly for a zero time |
| HandoverExecution.CommandAdvances | validation/physical/aurora_patch_esp_avb_aem_endpoint.py:194-279 | a command reaching an endpoint that reflects its predecessors advances it; only COMMIT can be refused |
| HandoverExecution.ExecutionReflectsPlan | adapters/aurora-network-esp-avb/src/aem_control.rs:181-204 | after any number of writes with any callbacks, every addressed endpoint is exactly where its share of the executed commands puts it |
| HandoverExecution.CompleteHandover | adapters/aurora-network-esp-avb/src/control.rs:88-179 | once all is acknowledged, each committed module's endpoint has the plan's epoch, its own roles and the PTP time of the start frame |
| HandoverExecution.InterruptedIsSilent | adapters/aurora-network-esp-avb/src/aem_control.rs:232-234 | wherever the controller stops, an endpoint past MUTE and before COMMIT is muted with no pending deadline |
| HandoverExecution.OthersUntouched | adapters/aurora-network-esp-avb/src/aem_control.rs:185-204 | an entity no write addresses ends as its own callbacks alone would have left it |
| HandoverExecution.EntitiesDistinct | adapters/aurora-network-esp-avb/src/control.rs:187-197 | different modules end up on different entities |
| HandoverTiming.OpenIsOnTime | validation/physical/aurora_patch_esp_avb_ptp_deadline.py:81-113 | an endpoint of the handover that is open was opened in the 2 ms from the PTP time of the start frame on |
| HandoverTiming.OpenTogether | adapters/aurora-network-esp-avb/src/control.rs:88-179 | however far the controller gets and whatever callbacks run during and after, any two open endpoints of the handover opened within 2 ms of one another, in the window of the start frame |
| HandoverTiming.CommitIsAcknowledged | validation/physical/aurora_patch_esp_avb_ptp_deadline.py:116-158 | a COMMIT of a handover that finds a ready clock before the start frame and working timer calls is acknowledged, after any callbacks |
| HandoverTiming.TimelyHandover | adapters/aurora-network-esp-avb/src/aem_control.rs:181-204 | if every COMMIT of an executable compiled handover is timely, every write is acknowledged at every cut; without callbacks every committed module then waits with its deadline pending and its timer running |
| HandoverRefusal.FirstRefusal | validation/physical/aurora_patch_esp_avb_aem_endpoint.py:220-239 | a run of a compiled plan never gets past the executing write of the first PREPARE with a repeated role or ARM with a zero time: the refused write is that one, and its endpoint fails closed, or the COMMIT of an earlier command; once that write is sent one of them is refused |
| HandoverRefusal.RepeatedRoleCompiles | adapters/aurora-network-esp-avb/src/aem_control.rs:206-284 | both compilers accept a concrete plan that gives a pod one role twice |
| HandoverRefusal.RepeatedRoleIsRefused | validation/physical/aurora_patch_esp_avb_aem_endpoint.py:182-192 | sent in full to an endpoint in any reachable state, its program stops at the last write with the endpoint failed closed |
| HandoverRefusal.ZeroTimeCompiles | adapters/aurora-network-esp-avb/src/aem_control.rs:49-68 | both compilers accept a concrete plan whose start frame the anchor maps to PTP time 0 |
| HandoverRefusal.ZeroTimeIsRefused | validation/physical/aurora_patch_esp_avb_aem_endpoint.py:237-250 | sent in full to an endpoint in any reachable state, its program stops at the last write, the ARM, with the endpoint failed closed |
| HandoverRetry.RepeatIsCallbacks | validation/physical/aurora_patch_esp_avb_aem_endpoint.py:223-255 | further deliveries of an acknowledged write, with any callbacks of any endpoint in between, leave the system as the callbacks alone leave it |
| HandoverRetry.RedeliveryChangesNothing | validation/physical/aurora_patch_esp_avb_ptp_deadline.py:169-198 | one redelivery changes nothing, and is refused exactly if it is a COMMIT whose deadline has faulted |
| HandoverRetry.RetriesAreTransparent | adapters/aurora-network-esp-avb/src/aem_control.rs:181-204 | a program whose acknowledged writes are delivered any number of times, with any callbacks in between, is acknowledged as far and leaves the same system as one sent once |
| Iec61937.Swap16Involution | validation/physical/aurora_physical_ingress.py:95-101 | swapping the bytes of every word twice gives the payload back |
| Iec61937.FrameFields | validation/physical/aurora_live_ingress.py:325-331 | a framed burst reads back as its header words, payload and zero padding |
| Iec61937.FieldsDetermineFrame | validation/physical/aurora_physical_ingress.py:300-315 | conversely those fields determine the burst |
| IngressModel.ChunkIndependence | validation/physical/aurora_live_ingress.py:212-260 | feeding chunks one by one leaves what one feed of their concatenation leaves |
| IngressModel.ChunkedFlush | validation/physical/aurora_live_ingress.py:212-260 | any chunking plus the final flush equals one parse of the whole stream |
| IngressModel.DrainSplits | validation/physical/aurora_live_ingress.py:212-260 | stopping and resuming the loop at any byte changes nothing |
| IngressModel.GapsMerge | validation/physical/aurora_live_ingress.py:126-148 | two adjacent gaps count as one longer gap in everything but the gap records |
| IngressModel.UndecidedIsShort | validation/physical/aurora_live_ingress.py:228-244 | the buffer left between feeds is a short tail or one incomplete burst, under 24576 bytes |
| IngressModel.DrainConserves | validation/physical/aurora_live_ingress.py:212-260 | the logged pieces followed by the buffer are exactly the bytes fed |
| IngressLock.FeedsKeepSound | validation/physical/aurora_live_ingress.py:198-260 | after any feeds every counter counts what it names, and candidate and lock are determined by the logged stream |
| IngressLock.LockedIffTrain | validation/physical/aurora_live_ingress.py:198-210 | locked to a type if and only if the stream ends in a gap-free train of enough valid frames of it |
| IngressLock.RunIsLongestTrain | validation/physical/aurora_live_ingress.py:198-210 | the candidate count is the length of the longest such train |
| IngressLock.BuiltBurstIsValid | validation/physical/aurora_live_ingress.py:325-331 | every built burst parses as valid with its own type and length |
| IngressLock.TrainLocks | validation/physical/aurora_live_ingress.py:325-343 | a gap-free train of enough built bursts locks, however chunked, with nothing invalid, skipped or relocked |
| IngressRelocks.RelocksAreInterruptions | validation/physical/aurora_live_ingress.py:126-148 | the relock counter is the number of interruptions of a locked stream; an unsupported header is none |
| IngressRelocks.LossesSplit | validation/physical/aurora_live_ingress.py:234-257 | the lock losses of a stream are its relocks and the unsupported headers that met it locked |
| IngressRelocks.StraySyncLosesLockUncounted | validation/physical/aurora_live_ingress.py:234-239 | a locked train, a stray sync and more of the train: one lock loss, no relock, no skipped byte, locked again |
| IngressRelocks.LossesGoUncounted | validation/physical/aurora_live_ingress.py:234-239 | an actual stream loses its lock without a relock being counted |
| LiveIngress.Classifier.Create | validation/physical/aurora_live_ingress.py:86-103 | only sensible thresholds build a classifier, and it starts empty |
| LiveIngress.Classifier.MarkGap | validation/physical/aurora_live_ingress.py:126-148 | marking a gap refines the gap step and keeps the records bounded |
| LiveIngress.Classifier.AcceptValidBurst | validation/physical/aurora_live_ingress.py:198-210 | a valid burst refines nomination and lock |
| LiveIngress.Classifier.RejectBurst | validation/physical/aurora_live_ingress.py:251-257 | an invalid burst loses a lock, counting it, and restarts the candidate |
| LiveIngress.Classifier.TakeBurst | validation/physical/aurora_live_ingress.py:244-259 | a whole burst at the front refines the burst step and is recorded at its stream offset |
| LiveIngress.Classifier.SkipHeader | validation/physical/aurora_live_ingress.py:234-239 | an unsupported header unlocks and counts as invalid, keeping candidate and relock count |
| LiveIngress.Classifier.Feed | validation/physical/aurora_live_ingress.py:212-260 | one feed leaves exactly the drained stream and buffer, with exact totals and bounded records; a final feed leaves the flush |
| StrictGate.ConsecutiveBurstOffsets | validation/physical/aurora_physical_ingress.py:104-116 | returns the longest run of syncs on the fixed grid |
| StrictGate.CheckTrain | validation/physical/aurora_physical_ingress.py:185-245 | collects all failures and the payloads of all readable bursts, in order |
| StrictGate.ParseCapture | validation/physical/aurora_physical_ingress.py:119-297 | the gate's loops refine its specification: failures, counts, margins and payload |
| StrictGate.GateExact | validation/physical/aurora_physical_ingress.py:119-297 | passes if and only if the capture is zeros, framed payloads, zeros meeting the configuration, and reconstructs exactly those payloads |
| StrictGate.CapturePasses | validation/physical/aurora_physical_ingress.py:141-265 | every such capture passes with its payloads and burst count |
| StrictGate.PassIsCapture | validation/physical/aurora_physical_ingress.py:141-265 | every pass exhibits such a decomposition, up to the high byte of Pc |
| StrictGate.BuildSyntheticCapture | validation/physical/aurora_physical_ingress.py:300-315 | builds exactly prefix, framed payloads, suffix, or refuses an unframeable payload |
| StrictGate.BuiltCapturePasses | validation/physical/aurora_physical_ingress.py:300-315 | round trip: zeros, built bursts, zeros pass and give back the payloads |
| WordLayout.ExtractWords | validation/physical/aurora_alsa_iec61937_capture.py:133-154 | the packing loop computes the extraction, and refuses partial frames |
| WordLayout.CanonicalToS32 | validation/physical/aurora_alsa_iec61937_capture.py:404-418 | the embedding loop computes the embedding, and refuses partial frames |
| WordLayout.LayoutRoundTrip | validation/physical/aurora_alsa_iec61937_capture.py:404-418 | extraction undoes embedding for all four layouts and every whole-frame stream |
| WordLayout.ExtractSplits | validation/physical/aurora_alsa_iec61937_capture.py:133-154 | extraction may be done block by block |
| WordLayout.WrongLaneHasNoSync | validation/physical/aurora_alsa_iec61937_capture.py:157-166 | read through the wrong half of the slots an embedded stream holds no sync |
| WordLayout.CountOccurrences | validation/physical/aurora_alsa_iec61937_capture.py:122-130 | counts every occurrence, overlapping ones included |
| WordLayout.ScoreCandidate | validation/physical/aurora_alsa_iec61937_capture.py:157-177 | the score is first sync, grid run and total of the extracted stream |
| StreamConverter.SortScores | validation/physical/aurora_alsa_iec61937_stream.py:50-52 | a descending permutation of the scores in which equal keys keep their order |
| StreamConverter.TryLock | validation/physical/aurora_alsa_iec61937_stream.py:44-63 | selects a layout exactly when it reaches the threshold and is strictly ahead of every other |
| StreamConverter.ScoreIsCoherent | validation/physical/aurora_alsa_iec61937_capture.py:157-166 | a first sync is found exactly when one is counted |
| StreamConverter.Converter.Feed | validation/physical/aurora_alsa_iec61937_stream.py:65-85 | before the lock nothing is emitted, after it everything emitted is the extraction of everything fed; a call that completes no frame changes no decision; otherwise it locks exactly the layout that stands out on all input, or fails exactly when the probe is full; a lock never changes and keeps the input it was decided on |
| StreamConverter.Converter.Finish | validation/physical/aurora_alsa_iec61937_stream.py:86-90 | a finished stream has emitted the extraction of the whole input |
| StreamConverter.Converter.BytesConserved | validation/physical/aurora_alsa_iec61937_stream.py:65-85 | raw bytes are remainder, probe and twice the emitted bytes |
| StreamConverter.SelectCandidate | validation/physical/aurora_alsa_iec61937_capture.py:180-216 | the batch choice is the unique strict maximum with a burst; otherwise the error tells ambiguity from absence |
| StreamConverter.StreamingChoiceIsBatchChoice | validation/physical/aurora_alsa_iec61937_stream.py:44-63 | a streaming lock is the one layout the batch choice would take |
| StreamConverter.ChainLocks | validation/physical/aurora_alsa_iec61937_stream.py:65-85 | a burst train carried in a layout and read through it comes out byte for byte and locks the classifier, however cut |
| StreamConverter.FreeLaneStandsOut | validation/physical/aurora_alsa_iec61937_capture.py:180-216 | with the channel order fixed and the lane free, a carried train of enough bursts stands out in its own layout |
| StreamConverter.LockFindsLane | validation/physical/aurora_alsa_iec61937_capture.py:157-216 | whatever stands out on any whole-frame beginning of an embedded stream reads the right half of the slots |
| StreamConverter.Converter.LockIsOnTheLane | validation/physical/aurora_alsa_iec61937_stream.py:44-63 | whenever it locked, a converter fed embedded words is on their half of the slots, and with the channel order given on their layout |
| StreamConverter.Converter.EmbeddedTrainLocks | validation/physical/aurora_alsa_iec61937_stream.py:44-85 | a free-lane converter that was fed an embedded train, in any pieces, has selected its layout, emitted the train byte for byte, and locks the classifier fed with it in any pieces; a train longer than the probe need only have locked at all |
| StreamConverter.StreamAll | validation/physical/aurora_alsa_iec61937_stream.py:128-158 | the capture loop: every outcome of feeding all chunks and finishing, with what was converted then |
| StreamConverter.TrainThroughChain | validation/physical/aurora_alsa_iec61937_stream.py:168-192 | a new free-lane converter fed an embedded train in any chunks ends with its layout, and the classifier fed with its output is locked on the train |
| ChannelOrder.OtherOrderReads | validation/physical/aurora_alsa_iec61937_capture.py:133-154 | read in the other channel order an embedded stream comes out with the two words of every frame exchanged |
| ChannelOrder.OwnOrderLeads | validation/physical/aurora_alsa_iec61937_capture.py:157-177 | on any whole-frame beginning of a train its own order finds a sync at once and never fewer bursts than the other |
| ChannelOrder.FreeStandsOut | validation/physical/aurora_alsa_iec61937_stream.py:44-63 | with lane and order free, the layout that stands out on any beginning of an embedded train is its own, or the other order if and only if that has as many bursts and more syncs |
| ChannelOrder.FreeLock | validation/physical/aurora_alsa_iec61937_stream.py:44-85 | the layout a converter locked on, whatever the chunking, is that of the train unless the other order had outvoted it on the input the lock was decided on |
| ChannelOrder.FreeTrainLocks | validation/physical/aurora_alsa_iec61937_stream.py:44-90 | fed a whole embedded train it has locked, and has emitted the train byte for byte or, if outvoted, with the words of every frame exchanged |
| ChannelOrder.FreeTrainThroughChain | validation/physical/aurora_alsa_iec61937_stream.py:168-192 | a new converter on auto, fed in any chunks an embedded train whose exchanged words hold no sync, finds its layout, and the classifier fed with its output is locked on the train |
| ChannelOrder.WrongOrderStandsOut | validation/physical/aurora_alsa_iec61937_stream.py:44-63 | for every threshold, an actual train of that many bursts for which streaming and batch both take the wrong order |
| StreamConverter.Converter.EmittedGivesBatchCounters | validation/physical/aurora_alsa_iec61937_stream.py:65-85 | however its output is cut, a classifier fed with it ends with the counters of one batch pass over everything fed to the converter |
| Fanout.Validate | adapters/aurora-network-esp-avb/src/lib.rs:92-118 | accepts exactly named, distinct endpoints whose twelve channels exist and are assigned once |
| Fanout.PlanIsPermutation | adapters/aurora-network-esp-avb/src/lib.rs:92-118 | under a valid plan every channel has exactly one place |
| Fanout.CanonicalIsValid | adapters/aurora-network-esp-avb/src/lib.rs:79-89 | the canonical plan is valid |
| Fanout.FanoutIsLossless | adapters/aurora-network-esp-avb/src/lib.rs:231-240 | the six buffers recombine to the input block |
| Fanout.PreparedFanout.Prepare | adapters/aurora-network-esp-avb/src/lib.rs:177-207 | succeeds exactly for a valid plan and a representable block size |
| Fanout.PreparedFanout.Scatter | adapters/aurora-network-esp-avb/src/lib.rs:231-240 | the nested loops leave every buffer with its endpoint's samples |
| Fanout.PreparedFanout.Split | adapters/aurora-network-esp-avb/src/lib.rs:213-256 | accepts exactly the next block of the timeline; accepted blocks stay contiguous; a refusal keeps the timeline |
| Fanout.PreparedFanout.ReadEndpoint | adapters/aurora-network-esp-avb/src/lib.rs:259-280 | yields the endpoint's buffer under the last accepted sequence and timestamp, or the error; that is its share of the last accepted block exactly unless a block refused only for its timeline put other samples there |
| Fanout.StaleShare | adapters/aurora-network-esp-avb/src/lib.rs:231-280 | an actual run: after a block the fanout refused, every endpoint reads its samples under the number of the block before |
| Fanout.PreparedFanout.Reset | adapters/aurora-network-esp-avb/src/lib.rs:288-293 | forgets the timeline |
| Transports.ProjectionsAreInLockstep | adapters/aurora-network-esp-avb/src/coordinator.rs:144-163 | six correct projections carry one contiguous timeline and recombine block by block to the input |
| Transports.SplitAndDeliver | adapters/aurora-network-esp-avb/src/coordinator.rs:149-162 | refuses what the fanout cannot place, leaving every log alone; else each transport below the first that refuses took its share, that one was offered it and refused, and none above was called; with none all six stay in step |
| Transports.Deliver | adapters/aurora-network-esp-avb/src/coordinator.rs:152-162 | offers the six shares in order up to the first refusal: each log is exactly what that makes of it, the last answer included |
| Transports.PrepareEach | adapters/aurora-network-esp-avb/src/coordinator.rs:101-110 | prepares the six in order; the reported transport is the first that answered no, those below it answered yes and none above it was called |
| Transports.StartEach | adapters/aurora-network-esp-avb/src/coordinator.rs:123-133 | starts the six in order; the reported transport is the first that answered no, those below it answered yes and none above it was called |
| Transports.StopBelow | adapters/aurora-network-esp-avb/src/coordinator.rs:123-133 | rolling back stops and resets exactly the transports below the refusing one, whatever each answers |
| Transports.StartingMeans | adapters/aurora-network-esp-avb/src/coordinator.rs:118-138 | started in turn or rolled back: all six run, or none runs and the prepared ones stay prepared |
| Transports.StopEach | adapters/aurora-network-genavb-runtime/src/lib.rs:359-382 | stops every transport once whatever each answers and reports exactly the first that refused |
| Transports.StopAll | adapters/aurora-network-esp-avb/src/coordinator.rs:181-191 | stops and resets every transport once whatever each answers and reports exactly the first that refused |
| TransportSet.EspAvbTransportSet.Create | adapters/aurora-network-esp-avb/src/coordinator.rs:41-72 | succeeds exactly for a valid plan, a representable block and six fitting transports; names the first unfit one |
| TransportSet.EspAvbTransportSet.Prepare | adapters/aurora-network-esp-avb/src/coordinator.rs:75-115 | prepares the six in turn; the endpoint reported is the first that refused, exactly those below it are reset, none above it is called, and the set falls back to New; bad timing and bad lifecycle are reported exactly when they hold |
| TransportSet.EspAvbTransportSet.Start | adapters/aurora-network-esp-avb/src/coordinator.rs:118-138 | starts the six in turn in a new epoch; the endpoint reported is the first that refused, exactly those below it are stopped and reset, none above it is called, and the set stays prepared |
| TransportSet.EspAvbTransportSet.Submit | adapters/aurora-network-esp-avb/src/coordinator.rs:144-163 | refuses exactly what the fanout refuses, or reports the first endpoint that refused its share; all six take their share undisturbed, or everything is stopped and reset with exact logs and the lifecycle is New |
| TransportSet.EspAvbTransportSet.Stop | adapters/aurora-network-esp-avb/src/coordinator.rs:176-197 | stops and resets all six once, reports exactly the first that refused to stop, and keeps them prepared |
| TransportSet.EspAvbTransportSet.AbortStream | adapters/aurora-network-esp-avb/src/coordinator.rs:166-174 | stops and resets all six once, clears the timeline and falls back to New |
| TransportSet.EspAvbTransportSet.Reset | adapters/aurora-network-esp-avb/src/coordinator.rs:200-205 | resets all six once and clears the timelines; a started set begins a new one in step, but its transports may have stopped |
| TransportSet.EspAvbTransportSet.StartedIsInLockstep | adapters/aurora-network-esp-avb/src/coordinator.rs:118-163 | while started, what the six transports took in this epoch is in lockstep with the accepted input |
| TransportSet.NoBlockBeforeFreshCycle | adapters/aurora-network-esp-avb/src/coordinator.rs:140-163 | over any run, between a refusal and the next block taken lie a successful prepare and, after it, a successful start of all six |
| GenAvbSession.EveryRoleIsExpected | adapters/aurora-network-genavb-session/src/lib.rs:168-172 | six distinct roles are all roles, so the missing-role check cannot fire |
| GenAvbSession.Session.Create | adapters/aurora-network-genavb-session/src/lib.rs:154-179 | accepts exactly mappings without a repeated role or index, and otherwise names the first repetition, a role before an index |
| GenAvbSession.Session.ApplyEvent | adapters/aurora-network-genavb-session/src/lib.rs:181-288 | applies an event exactly as specified, error order included; a refused event changes nothing; `complete` means all six |
| GenAvbSession.Session.RequireComplete | adapters/aurora-network-genavb-session/src/lib.rs:198-214 | opens exactly with all six slots taken, in canonical role order |
| GenAvbSession.CountIsFull | adapters/aurora-network-genavb-session/src/lib.rs:192-194 | the counter reaches six exactly when every slot is taken |
| GenAvbSession.ApplyKeepsSound | adapters/aurora-network-genavb-session/src/lib.rs:221-288 | connected streams always sit in their role's slot with non-zero identities nobody shares |
| GenAvbSession.DisconnectUndoesConnect | adapters/aurora-network-genavb-session/src/lib.rs:269-288 | a connect followed by its own disconnect restores the session |
| GenAvbSession.ConnectsComplete | adapters/aurora-network-genavb-session/src/lib.rs:221-267 | good connects are accepted in any order, and six of them complete the session |
| GenAvbRuntime.StepKeepsGuard | adapters/aurora-network-genavb-runtime/src/lib.rs:195-408 | one call keeps "prepared or started only with six streams" exactly unless it is a failed close from those states |
| GenAvbRuntime.RunIsGuarded | adapters/aurora-network-genavb-runtime/src/lib.rs:195-408 | over any run every state is guarded if and only if no such close failed |
| GenAvbRuntime.FailedCloseLeavesStarted | adapters/aurora-network-genavb-runtime/src/lib.rs:392-400 | a concrete run ends started with no stream connected |
| GenAvbRuntime.SixConnectsStart | adapters/aurora-network-genavb-runtime/src/lib.rs:220-320 | six good connects in any order, prepare and start bring all streams up |
| GenAvbRuntime.BringUp | adapters/aurora-network-genavb-runtime/src/lib.rs:220-320 | six good connects in any order, prepare and start of the runtime itself end with six connected streams and six running talkers, or with the first talker that refused reported and all six stopped and reset |
| GenAvbRuntime.ValidateFanoutOrder | adapters/aurora-network-genavb-runtime/src/lib.rs:434-445 | comparing role names accepts exactly endpoint e carrying channels 2e and 2e+1, and otherwise names the first endpoint that does not |
| GenAvbRuntime.SixStreamGenAvbRuntime.Load | adapters/aurora-network-genavb-runtime/src/lib.rs:139-181 | loads exactly 48-frame blocks, the canonical order and a complete mapping, and otherwise reports the first of these that is wrong |
| GenAvbRuntime.SixStreamGenAvbRuntime.Open | adapters/aurora-network-genavb-runtime/src/lib.rs:195-208 | opens from Loaded or ControlOpen exactly when the native call succeeds, and tells a wrong lifecycle from a failed call |
| GenAvbRuntime.SixStreamGenAvbRuntime.ReceiveControl | adapters/aurora-network-genavb-runtime/src/lib.rs:220-252 | answers exactly the update the session made of the event, or why it refused; an accepted connect leaves every talker alone; a refused event or a disconnect ends in ControlOpen with every talker stopped and reset and the timeline clear |
| GenAvbRuntime.SixStreamGenAvbRuntime.Prepare | adapters/aurora-network-genavb-runtime/src/lib.rs:255-291 | reports a wrong lifecycle, an incomplete session and a zero latency exactly when they hold, and then calls nobody; else asks the talkers in turn, and the first that refuses is reported, with all six stopped and reset and none above it asked |
| GenAvbRuntime.SixStreamGenAvbRuntime.Start | adapters/aurora-network-genavb-runtime/src/lib.rs:294-318 | starts the talkers in turn, exactly from Prepared; the first that refuses is reported, with all six stopped and reset and none above it asked |
| GenAvbRuntime.SixStreamGenAvbRuntime.Submit | adapters/aurora-network-genavb-runtime/src/lib.rs:322-356 | all six take their share and stay in lockstep; a block the fanout refuses, and the first talker that refuses its share, are reported exactly and abort with exact logs |
| GenAvbRuntime.SixStreamGenAvbRuntime.Stop | adapters/aurora-network-genavb-runtime/src/lib.rs:359-382 | stops all six once without resetting them, reports exactly the first that refused, and keeps the session |
| GenAvbRuntime.SixStreamGenAvbRuntime.DropDataPlane | adapters/aurora-network-genavb-runtime/src/lib.rs:385-390 | stops and resets all six, clears the timeline, keeps the session and returns an open control channel to ControlOpen |
| GenAvbRuntime.SixStreamGenAvbRuntime.Close | adapters/aurora-network-genavb-runtime/src/lib.rs:392-400 | aborts, empties the session, and returns to Loaded only if the native close succeeds; the runtime stays intact exactly unless that close failed while prepared or started |
| EventRing.KeepsTheLatest | adapters/aurora-network-aoo/src/lib.rs:220-228 | between polls the queue is exactly the latest eight events |
| EventRing.Ring.Push | adapters/aurora-network-aoo/src/lib.rs:220-228 | the ring refines a queue that drops its oldest entry when full |
| EventRing.Ring.Pop | adapters/aurora-network-aoo/src/lib.rs:230-238 | takes the oldest entry, or none |
| AooTransport.Shim.Prepare | adapters/aurora-network-aoo/native/aurora_aoo_shim.c:189-318 | prepares once; a failure leaves the handle unprepared |
| AooTransport.Shim.Start | adapters/aurora-network-aoo/native/aurora_aoo_shim.c:320-336 | starts only a prepared, stopped handle, without a time base; a failure changes nothing |
| AooTransport.Shim.Deinterleave | adapters/aurora-network-aoo/native/aurora_aoo_shim.c:348-354 | the planar buffers hold every channel of every frame |
| AooTransport.Shim.Submit | adapters/aurora-network-aoo/native/aurora_aoo_shim.c:338-385 | fixes the time base once, refuses exactly earlier frames, and dates a block by its distance from the base |
| AooTransport.Shim.Stop | adapters/aurora-network-aoo/native/aurora_aoo_shim.c:387-403 | stops a running stream and drops its time base, is a no-op on a stopped one; a failure changes nothing |
| AooTransport.Shim.Reset | adapters/aurora-network-aoo/native/aurora_aoo_shim.c:405-416 | the time base survives exactly a failed reset |
| AooTransport.OffsetsAreGapless | adapters/aurora-network-aoo/native/aurora_aoo_shim.c:356-370 | contiguous blocks are due exactly one block length apart |
| AooTransport.Transport.Prepare | adapters/aurora-network-aoo/src/lib.rs:268-312 | succeeds exactly from Loaded with a preparable format; otherwise nothing changes |
| AooTransport.Transport.Start | adapters/aurora-network-aoo/src/lib.rs:314-325 | host and shim start together or not at all |
| AooTransport.Transport.Submit | adapters/aurora-network-aoo/src/lib.rs:327-360 | accepted blocks stay contiguous; the shim's timeline error is unreachable while the time base belongs to the timeline, and exactly a first block AOO fails to process loses that |
| AooTransport.Transport.PollEvent | adapters/aurora-network-aoo/src/lib.rs:362-364 | hands out the oldest retained event, once |
| AooTransport.Transport.Stop | adapters/aurora-network-aoo/src/lib.rs:366-377 | stops host and shim together, or changes nothing |
| AooTransport.Transport.Reset | adapters/aurora-network-aoo/src/lib.rs:379-384 | clears the timeline; the time base stays aligned exactly unless a native reset fails with one set |
| AooTransport.FailedResetMeetsTimelineError | adapters/aurora-network-aoo/src/lib.rs:379-384 | a first block, a failed native reset and an earlier block: the timeline error occurs |
| AudioDmaModel.RunKeepsInv | validation/simics/aurora_audio_device.py:43-155 | over any accesses and events: descriptors are played or discarded in submit order, each played one in full, at most two wait, one event is outstanding exactly while running, running means 48000/12/240, frames are 240 x DONE |
| AudioDmaModel.TickKeepsInv | validation/simics/aurora_audio_device.py:118-155 | a period event plays the oldest descriptor with what memory holds then |
| AudioDmaModel.RunPlaysMemory | validation/simics/aurora_audio_device.py:100-155 | over any run the descriptors played are those of the playing events, accepted by SUBMIT in that order, and the consumed PCM is, in order, what memory held for each at its own event |
| AudioDmaModel.FaultIsLatched | validation/simics/aurora_audio_device.py:74-80 | after a fault nothing is queued or consumed and the output stays silent until CTRL is written 2 |
| AudioDmaModel.LanesWeave | validation/simics/aurora_audio_device.py:137-140 | weaving the two lanes gives each frame followed by four silent slots |
| AudioDmaModel.WireRoundTrip | validation/simics/aurora_audio_device.py:137-140 | the consumed PCM comes back from the wire frames |
| AudioDmaModel.PlayedBytesMatchFrames | validation/simics/aurora_audio_device.py:100-114 | one event that plays adds 48 bytes per counted frame if and only if its descriptor is 240 frames long |
| AudioDmaModel.FramesMatchBytes | validation/simics/aurora_audio_device.py:100-155 | counted frames and consumed bytes agree in every state of a run if and only if every event that plays, plays 240 frames |
| AudioDmaModel.FullPeriodsMatch | validation/simics/aurora_audio_device.py:100-114 | with PERIOD at 240 at every accepted SUBMIT, 48 bytes are consumed per counted frame in every state |
| AudioDmaModel.ShortPeriodIsCountedInFull | validation/simics/aurora_audio_device.py:100-114 | a concrete run counts 240 frames for one consumed frame |
| AudioDma.CutIntoLanes | validation/simics/aurora_audio_device.py:136-137 | the joins cut every frame into its two lanes |
| AudioDma.WeaveLanes | validation/simics/aurora_audio_device.py:138-139 | the join weaves two equally long lanes into wire frames |
| AudioDma.CutLanes | validation/simics/aurora_audio_device.py:136-139 | together they give each frame followed by four silent slots |
| AudioDma.ReadBursts | validation/simics/aurora_audio_device.py:126-128 | reading in 1024-byte bursts reads the descriptor's range once, in order |
| AudioDma.CheckFinite | validation/simics/aurora_audio_device.py:133-135 | accepts exactly content without an infinity or NaN |
| AudioDma.Device.WriteRegister | validation/simics/aurora_audio_device.py:74-116 | a register write refines the write step, every fault code included |
| AudioDma.Device.WriteControlRegister | validation/simics/aurora_audio_device.py:83-99 | stopping silences and drops the queue, starting checks 48000/12/240, anything else faults |
| AudioDma.Device.Submit | validation/simics/aurora_audio_device.py:100-109 | queues a descriptor, or faults with the code of the first failed check |
| AudioDma.Device.Latch | validation/simics/aurora_audio_device.py:58-68 | a fault cancels the event, drops the queue, sends silence and records its code |
| AudioDma.Device.Reset | validation/simics/aurora_audio_device.py:43-56 | a reset is the initial state, whatever came before |
| AudioDma.Device.Fire | validation/simics/aurora_audio_device.py:118-155 | a period event refines the clock step and keeps the invariant |
| AudioDma.Device.Operate | validation/simics/aurora_audio_device.py:160-173 | a bus transaction refines the access step; anything but a four-byte register access faults |
| UsbFeedback.Packetize | validation/simics/mchstreamer_contract.py:38-48 | the loop computes the packet sizes |
| UsbFeedback.SentIsExact | validation/simics/mchstreamer_contract.py:38-48 | the first n packets carry floor(n x rate / 8000 + 1e-12) frames |
| UsbFeedback.PacketSizes | validation/simics/mchstreamer_contract.py:38-48 | every packet is the rate rounded down or one frame more |
| UsbFeedback.LevelConserves | validation/simics/mchstreamer_contract.py:64-71 | level is initial plus sent less lost less consumed |
| UsbFeedback.FeedbackHoldsTheBuffer | validation/simics/mchstreamer_contract.py:51-70 | with feedback and no drops the level never leaves (initial - 1, initial + 1e-12] |
| UsbFeedback.DropsAreNeverMadeUp | validation/simics/mchstreamer_contract.py:64-71 | with feedback, drops lower that band by exactly the lost frames |
| UsbFeedback.FreeRunningUnderrun | validation/simics/mchstreamer_contract.py:54-75 | without feedback a fast device is below the bound exactly from a computed microframe on |
| UsbFeedback.FreeRunningOverrun | validation/simics/mchstreamer_contract.py:54-78 | without feedback a slow device is above the bound exactly from a computed microframe on |
| UsbFeedback.Simulate | validation/simics/mchstreamer_contract.py:51-89 | stops at the first level out of bounds and reports the exact extremes up to there |
| UsbFeedback.FeedbackIsStable | validation/simics/mchstreamer_contract.py:51-89 | with feedback, no drops and a frame of slack no run of any length fails |
| UsbFeedback.FreeRunningFails | validation/simics/mchstreamer_contract.py:51-89 | without feedback a run fails if and only if it reaches the computed microframe, on the side its sign says |

## Left out

- True concurrency between the ESP timer task and the AVB task: writes and timer callbacks are serialised atomic steps; a callback dispatched although its timer was stopped meanwhile is included.
- EndpointSafety.DelayNeverEarly: a statement about the requested delay alone; no step of the endpoint model uses it, because a dispatch may come at any time.
- GET_CONTROL, descriptor reads and the bytes of SET_CONTROL responses, and controls 0 to 2, which the patches leave alone.
- The text-anchor replacement of the patch scripts: only the resulting C code is modelled.
- `correlate_module_trial` beyond the endpoint and scheduler checks: flat field comparisons.
- Building the handover plan itself: any plan is an input of the compilers.
- Gap records, `gap_total`, `transition_total` and the SEARCHING or UNCLASSIFIED label as functions of the stream: they depend on chunking; the class keeps them, the chunk-independence theorem leaves them out.
- The verdict policy and JSON report of the live classifier: thresholds over the counters proved here.
- SHA-256: a digest is replaced by the bytes it digests, in the strict gate and in the DMA device.
- Files, JSON, argument parsing, `arecord`, metadata reports and wall-clock pacing.
- Samples are opaque values in the fanout and the AOO adapter; the 32-bit float is only seen by the DMA device's finiteness test.
- `poll_events`, the capability report of an endpoint family and the clock-discipline constant.
- GenAvbRuntime.SixStreamGenAvbRuntime.Load: takes the loaded talkers as given, because loading native libraries is foreign; so are their load errors, and which stream index each talker is bound to when it is prepared.
- AooTransport.Shim.Prepare: sink, port and source checks and the AOO, socket and thread calls are one arbitrary setup outcome; destroying the handle is not modelled.
- AooTransport.Shim.Submit: NTP time is a real offset from the base, so the rounding of C doubles is not modelled.
- UsbFeedback.Simulate: arithmetic over the reals, so the rounding of Python floats is not modelled; a device slower than a complete stop (below -1,000,000 ppm) is outside the feedback theorems.
- Quantising samples to 24-bit wire words in the USB contract.
- The frame loop of the full-system simulator: counters over profiles that would only add easy members.
- The realtime engine, source runtime, renderer, room model and Harletty bridge are not part of this model.
