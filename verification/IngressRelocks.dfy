/** What the relock counter of the live classifier counts. */
module IngressRelocks {
  import opened Bytes
  import opened Iec61937
  import opened IngressModel
  import opened IngressLock

  /** The type the classifier is locked to after this log. */
  function LockOf(k: nat, log: seq<Event>): Option<nat> {
    if log == [] || !ValidFrame(log[|log| - 1]) then None
    else
      var t := DataType(log[|log| - 1].data);
      if Run(log, t) >= k then Some(t) else None
  }

  /** A locked stream is interrupted by anything but an unsupported header or a valid frame of its type. */
  predicate Interrupts(lock: Option<nat>, e: Event) {
    lock.Some? && !e.Header? && !ValidFrameOf(e, lock.value)
  }

  /** How often a locked stream was interrupted. */
  function Relocks(k: nat, log: seq<Event>): nat {
    if log == [] then 0
    else
      var front := log[..|log| - 1];
      Relocks(k, front) + (if Interrupts(LockOf(k, front), log[|log| - 1]) then 1 else 0)
  }

  ghost predicate RelocksExact(k: nat, c: Core) {
    c.relocks == Relocks(k, c.log)
  }

  lemma LockedIsLockOf(k: nat, c: Core)
    requires Sound(k, c)
    ensures c.locked == LockOf(k, c.log)
  {
    hide Run, ParseBurst;
    match LockOf(k, c.log)
    case Some(t) => assert c.locked == Some(t);
    case None => if c.locked.Some? {
      assert ValidFrameOf(c.log[|c.log| - 1], c.locked.value) && Run(c.log, c.locked.value) >= k;
    }
  }

  lemma RelocksAppend(k: nat, log: seq<Event>, e: Event)
    ensures Relocks(k, log + [e]) == Relocks(k, log) + (if Interrupts(LockOf(k, log), e) then 1 else 0)
  {
    hide LockOf, Interrupts;
    assert (log + [e])[..|log|] == log;
  }

  /** A gap that continues a gap is the same interruption. */
  lemma RelocksGap(k: nat, log: seq<Event>, data: seq<byte>)
    ensures Relocks(k, LogGap(log, data)) == Relocks(k, log) + (if LockOf(k, log).Some? then 1 else 0)
  {
    hide LockOf, Relocks, Interrupts;
    var n := |log|;
    if log != [] && log[n - 1].Gap? {
      var front, last := log[..n - 1], log[n - 1].data;
      assert log == front + [Gap(last)];
      RelocksAppend(k, front, Gap(last));
      RelocksAppend(k, front, Gap(last + data));
      GapInterrupts(LockOf(k, front), last);
      GapInterrupts(LockOf(k, front), last + data);
      GapUnlocks(k, log);
    } else {
      RelocksAppend(k, log, Gap(data));
      GapInterrupts(LockOf(k, log), data);
    }
  }

  lemma GapInterrupts(lock: Option<nat>, data: seq<byte>)
    ensures Interrupts(lock, Gap(data)) <==> lock.Some?
  {
  }

  lemma GapUnlocks(k: nat, log: seq<Event>)
    requires log != [] && log[|log| - 1].Gap?
    ensures LockOf(k, log) == None
  {
  }

  lemma BurstKeepsRelocks(k: nat, c: Core, data: seq<byte>)
    requires k > 0 && Sound(k, c) && RelocksExact(k, c) && WellFormed(Framed(data))
    ensures RelocksExact(k, AddBurst(k, c, data))
  {
    LockedIsLockOf(k, c);
    RelocksAppend(k, c.log, Framed(data));
    ParseIgnoresOffset(data, c.offset, 0);
    if c.locked.Some? {
      LockedIsCandidate(k, c);
    }
    hide Sound, Relocks, LockOf, ParseBurst;
  }

  lemma LockedIsCandidate(k: nat, c: Core)
    requires k > 0 && Sound(k, c) && c.locked.Some?
    ensures c.candidate == c.locked
  {
    hide Tallies, Run, ParseBurst;
    assert Run(c.log, c.locked.value) > 0;
  }

  lemma TakeKeepsRelocks(k: nat, c: Core, b: seq<byte>)
    requires k > 0 && Sound(k, c) && RelocksExact(k, c)
    ensures RelocksExact(k, Take(k, c, b))
  {
    LockedIsLockOf(k, c);
    hide Sound, AddBurst, Decide, Relocks, LockOf, LogGap;
    match Decide(b)
    case Wait =>
    case TakeGap(n) => RelocksGap(k, c.log, b[..n]);
    case TakeHeader => RelocksAppend(k, c.log, Header(b[..4]));
    case TakeBurst(p) => BurstKeepsRelocks(k, c, b[..p]);
  }

  lemma {:induction false} DrainKeepsRelocks(k: nat, c: Core, b: seq<byte>)
    requires k > 0 && Sound(k, c) && RelocksExact(k, c)
    ensures RelocksExact(k, Drain(k, c, b).0)
    decreases |b|
  {
    hide Sound, Take, Decide, RelocksExact;
    if !Decide(b).Wait? {
      TakeKeepsSound(k, c, b);
      TakeKeepsRelocks(k, c, b);
      DrainKeepsRelocks(k, Take(k, c, b), b[Size(Decide(b))..]);
    }
  }

  /** The relock counter, after any chunking, counts the interruptions of a locked stream. An
      unsupported header is not one: it unlocks, but neither counts nor restarts the candidate. */
  lemma RelocksAreInterruptions(k: nat, chunks: seq<seq<byte>>)
    requires k > 0
    ensures var c := FeedAll(k, Fresh(), [], chunks).0; c.relocks == Relocks(k, c.log) && c.locked == LockOf(k, c.log)
  {
    assert Decide([]).Wait?;
    FreshIsSound(k);
    hide Sound, Drain, Relocks, LockOf, Decide;
    ChunkIndependence(k, Fresh(), [], chunks);
    assert Relocks(k, []) == 0 by { NoRelocks(k); }
    DrainKeepsSound(k, Fresh(), [] + Concat(chunks));
    DrainKeepsRelocks(k, Fresh(), [] + Concat(chunks));
    LockedIsLockOf(k, FeedAll(k, Fresh(), [], chunks).0);
  }

  lemma NoRelocks(k: nat)
    ensures Relocks(k, []) == 0
  {
  }

  // --- Losses of the lock that are not counted ------------------------------------------------------

  /** How often the lock was lost: it was held, and is not held for the same type after the next piece. */
  function LockLosses(k: nat, log: seq<Event>): nat {
    if log == [] then 0
    else
      var front := log[..|log| - 1];
      LockLosses(k, front) + (if LockOf(k, front).Some? && LockOf(k, log) != LockOf(k, front) then 1 else 0)
  }

  /** How often an unsupported header met a locked stream. */
  function HeadersWhileLocked(k: nat, log: seq<Event>): nat {
    if log == [] then 0
    else
      var front := log[..|log| - 1];
      HeadersWhileLocked(k, front) + (if LockOf(k, front).Some? && log[|log| - 1].Header? then 1 else 0)
  }

  /** A held lock is lost by an interruption or by an unsupported header, and by nothing else. */
  lemma LossStep(k: nat, front: seq<Event>, e: Event)
    requires k > 0 && LockOf(k, front).Some?
    ensures LockOf(k, front + [e]) != LockOf(k, front) <==> Interrupts(LockOf(k, front), e) || e.Header?
  {
    var t := LockOf(k, front).value;
    assert (front + [e])[..|front|] == front;
    AppendRun(front, e, t);
    hide ParseBurst, Run, WellFormed;
  }

  /** Every loss of the lock is a counted relock or an unsupported header while locked. */
  lemma {:induction false} LossesSplit(k: nat, log: seq<Event>)
    requires k > 0
    ensures LockLosses(k, log) == Relocks(k, log) + HeadersWhileLocked(k, log)
  {
    hide LockOf, ValidFrameOf;
    if log != [] {
      var front := log[..|log| - 1];
      LossesSplit(k, front);
      assert front + [log[|log| - 1]] == log;
      if LockOf(k, front).Some? {
        LossStep(k, front, log[|log| - 1]);
      }
    }
  }

  lemma HeadersAppend(k: nat, log: seq<Event>, e: Event)
    ensures HeadersWhileLocked(k, log + [e]) ==
            HeadersWhileLocked(k, log) + (if LockOf(k, log).Some? && e.Header? then 1 else 0)
  {
    hide LockOf;
    assert (log + [e])[..|log|] == log;
  }

  /** A stray sync in front of a burst is taken for a header of the unsupported type 0x72. */
  lemma StraySyncIsHeader(k: nat, c: Core, t: nat, payload: seq<byte>, tail: seq<byte>)
    requires Frameable(t, payload)
    ensures var b := BuildBurst(t, payload) + tail;
            Drain(k, c, SYNC + b) == Drain(k, AddHeader(c, SYNC), b)
  {
    BuiltStartsWithSync(t, payload);
    var b := BuildBurst(t, payload) + tail;
    hide BuildBurst, AddHeader;
    var whole := SYNC + b;
    assert SyncAt(b, 0) && SyncAt(whole, 0);
    FindIs(whole, 0);
    assert Word(whole, 4) == 0xF872;
    assert Decide(whole) == TakeHeader;
    assert whole[..4] == SYNC && whole[4..] == b;
  }

  lemma {:induction false} TrainHasNoHeaders(k: nat, c: Core, t: nat, payloads: seq<seq<byte>>)
    requires forall i :: 0 <= i < |payloads| ==> Frameable(t, payloads[i])
    ensures HeadersWhileLocked(k, Drain(k, c, Train(t, payloads)).0.log) == HeadersWhileLocked(k, c.log)
    decreases |payloads|
  {
    hide BuildBurst, WellFormed, HeadersWhileLocked, ParseBurst;
    if payloads != [] {
      var b := BuildBurst(t, payloads[0]);
      BurstIsTaken(k, c, t, payloads[0], Train(t, payloads[1..]));
      TrainHasNoHeaders(k, AddBurst(k, c, b), t, payloads[1..]);
      HeadersAppend(k, c.log, Framed(b));
    }
  }

  lemma StraySyncDrains(k: nat, t: nat, before: seq<seq<byte>>, after: seq<seq<byte>>)
    requires k > 0 && after != []
    requires forall i :: 0 <= i < |before| ==> Frameable(t, before[i])
    requires forall i :: 0 <= i < |after| ==> Frameable(t, after[i])
    ensures var d := Drain(k, Fresh(), Train(t, before)).0;
            Drain(k, Fresh(), Train(t, before) + (SYNC + Train(t, after)))
                == Drain(k, AddHeader(d, SYNC), Train(t, after))
  {
    var d := Drain(k, Fresh(), Train(t, before)).0;
    DrainTrain(k, Fresh(), t, before);
    hide BuildBurst, Frameable, Drain;
    DrainSplits(k, Fresh(), Train(t, before), SYNC + Train(t, after));
    assert [] + (SYNC + Train(t, after)) == SYNC + Train(t, after);
    StraySyncIsHeader(k, d, t, after[0], Train(t, after[1..]));
  }

  lemma StraySyncHeaders(k: nat, t: nat, before: seq<seq<byte>>, after: seq<seq<byte>>)
    requires 0 < k <= |before|
    requires forall i :: 0 <= i < |before| ==> Frameable(t, before[i])
    requires forall i :: 0 <= i < |after| ==> Frameable(t, after[i])
    ensures var d := Drain(k, Fresh(), Train(t, before)).0;
            HeadersWhileLocked(k, Drain(k, AddHeader(d, SYNC), Train(t, after)).0.log) == 1
  {
    var d := Drain(k, Fresh(), Train(t, before)).0;
    assert HeadersWhileLocked(k, Fresh().log) == 0;
    FreshIsSound(k);
    DrainTrain(k, Fresh(), t, before);
    TrainHasNoHeaders(k, Fresh(), t, before);
    TrainHasNoHeaders(k, AddHeader(d, SYNC), t, after);
    hide BuildBurst, Sound, LockOf, HeadersWhileLocked, Frameable, Drain;
    DrainKeepsSound(k, Fresh(), Train(t, before));
    LockedIsLockOf(k, d);
    HeadersAppend(k, d.log, Header(SYNC));
  }

  /** A locked train, a stray sync and more of the same train: the lock is lost once, and no counter of
      relocks or skipped bytes shows it. */
  lemma StraySyncLosesLockUncounted(k: nat, t: nat, before: seq<seq<byte>>, after: seq<seq<byte>>)
    requires 0 < k <= |before| && after != []
    requires forall i :: 0 <= i < |before| ==> Frameable(t, before[i])
    requires forall i :: 0 <= i < |after| ==> Frameable(t, after[i])
    ensures var c := Drain(k, Fresh(), Train(t, before) + (SYNC + Train(t, after))).0;
            && LockLosses(k, c.log) == 1 && c.relocks == 0 && c.unclassified == 0
            && c.invalid == 1 && c.locked == Some(t) && c.valid == |before| + |after|
  {
    var stream := Train(t, before) + (SYNC + Train(t, after));
    var d := Drain(k, Fresh(), Train(t, before)).0;
    DrainTrain(k, Fresh(), t, before);
    DrainTrain(k, AddHeader(d, SYNC), t, after);
    StraySyncDrains(k, t, before, after);
    StraySyncHeaders(k, t, before, after);
    FreshIsSound(k);
    assert RelocksExact(k, Fresh());
    hide BuildBurst, Sound, RelocksExact, Relocks, LockLosses, LockOf, HeadersWhileLocked, Frameable, Drain, Train;
    DrainKeepsSound(k, Fresh(), stream);
    DrainKeepsRelocks(k, Fresh(), stream);
    LossesSplit(k, Drain(k, Fresh(), stream).0.log);
    RelocksMeans(k, Drain(k, Fresh(), stream).0);
  }

  lemma RelocksMeans(k: nat, c: Core)
    requires RelocksExact(k, c)
    ensures c.relocks == Relocks(k, c.log)
  {
  }

  /** An actual stream that loses its lock without a relock being counted. */
  lemma LossesGoUncounted()
    ensures exists stream :: var c := Drain(1, Fresh(), stream).0; c.relocks == 0 && LockLosses(1, c.log) == 1
  {
    var payload: seq<byte> := [0x0B, 0x77];
    assert Frameable(TYPE_AC3, payload);
    hide Frameable, Drain, LockLosses, Train;
    StraySyncLosesLockUncounted(1, TYPE_AC3, [payload], [payload]);
  }
}
