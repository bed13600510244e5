/** The live classifier in the source's form: a buffer, a state label, counters and bounded
    diagnostic records that `Feed` updates chunk by chunk. */
module LiveIngress {
  import opened Bytes
  import opened Iec61937
  import opened IngressModel

  datatype Label = Searching | Unclassified | Locked(dataType: nat)
  datatype Reason = NoIecSync | RelockAfterGap | TrailingUnclassified | UnsupportedHeader(dataType: nat)
                  | FormatChange | Stable(dataType: nat) | BadBurst(failure: BurstFailure)
  datatype Transition = Transition(offset: nat, from: Label, to: Label, reason: Reason)
  datatype GapRecord = GapRecord(offset: nat, bytes: nat, nonzero: bool, reason: Reason)

  /** The newest `limit` entries, as a bounded queue retains them. */
  function Newest<T>(s: seq<T>, limit: nat): seq<T> {
    if |s| <= limit then s else s[|s| - limit..]
  }

  function LockOf(l: Label): Option<nat> {
    if l.Locked? then Some(l.dataType) else None
  }

  /** The bursts of a log with their stream offsets. */
  function BurstsOf(log: seq<Event>): seq<Burst>
    requires forall i :: 0 <= i < |log| ==> WellFormed(log[i])
  {
    if log == [] then []
    else
      var front, e := log[..|log| - 1], log[|log| - 1];
      assert WellFormed(e);
      BurstsOf(front) + (if e.Framed? then [ParseBurst(e.data, |LogBytes(front)|)] else [])
  }

  /** `offset` and `bursts` are those of the logged stream. */
  ghost predicate LogAccounts(log: seq<Event>, offset: nat, bursts: seq<Burst>) {
    && (forall i :: 0 <= i < |log| ==> WellFormed(log[i]))
    && offset == |LogBytes(log)| && bursts == BurstsOf(log)
  }

  datatype ClassifierError = InvalidThresholds

  class Classifier {
    const lockBursts: nat
    const unclassifiedBytes: nat
    const recordLimit: nat

    var buffer: seq<byte>
    var streamOffset: nat
    var state: Label
    var candidate: Option<nat>
    var candidateCount: nat
    var transitions: seq<Transition>
    var bursts: seq<Burst>
    var gaps: seq<GapRecord>
    var transitionTotal: nat
    var burstTotal: nat
    var validTotal: nat
    var gapTotal: nat
    var relocks: nat
    var invalid: nat
    var unclassifiedTotal: nat
    var ac3: nat
    var eac3: nat
    ghost var log: seq<Event>
    ghost var allBursts: seq<Burst>

    /** The chunk-independent part of the state. */
    ghost function View(): Core
      reads this
    {
      Core(streamOffset, LockOf(state), candidate, candidateCount, burstTotal, validTotal, invalid,
           relocks, unclassifiedTotal, ac3, eac3, log)
    }

    /** Exact totals, bounded records: each queue holds the newest records, at most the limit. */
    ghost predicate Records()
      reads this`transitions, this`transitionTotal, this`gaps, this`gapTotal, this`bursts, this`burstTotal,
            this`allBursts
    {
      && recordLimit > 0 && lockBursts > 0
      && |transitions| == (if transitionTotal < recordLimit then transitionTotal else recordLimit)
      && |gaps| == (if gapTotal < recordLimit then gapTotal else recordLimit)
      && |allBursts| == burstTotal && bursts == Newest(allBursts, recordLimit)
    }

    /** The offset and the burst records are those of the logged stream. */
    ghost predicate Logged()
      reads this`log, this`streamOffset, this`allBursts
    {
      LogAccounts(log, streamOffset, allBursts)
    }

    ghost predicate Valid()
      reads this
    {
      Records() && Logged()
    }

    constructor (lockBursts: nat, unclassifiedBytes: nat, recordLimit: nat)
      requires lockBursts >= 1 && unclassifiedBytes >= 4 && recordLimit >= 1
      ensures Valid() && View() == Fresh() && buffer == []
      ensures this.lockBursts == lockBursts && this.recordLimit == recordLimit
    {
      this.lockBursts, this.unclassifiedBytes, this.recordLimit := lockBursts, unclassifiedBytes, recordLimit;
      buffer, streamOffset, state, candidate, candidateCount := [], 0, Searching, None, 0;
      transitions, bursts, gaps := [], [], [];
      transitionTotal, burstTotal, validTotal, gapTotal := 0, 0, 0, 0;
      relocks, invalid, unclassifiedTotal, ac3, eac3 := 0, 0, 0, 0, 0;
      log, allBursts := [], [];
    }

    /** Thresholds out of range are refused before anything is built. */
    static method Create(lockBursts: int, unclassifiedBytes: int, recordLimit: int)
        returns (r: Result<Classifier, ClassifierError>)
      ensures r.Success? <==> lockBursts >= 1 && unclassifiedBytes >= 4 && recordLimit >= 1
      ensures r.Success? ==>
                && fresh(r.value) && r.value.Valid() && r.value.View() == Fresh() && r.value.buffer == []
                && r.value.lockBursts == lockBursts && r.value.recordLimit == recordLimit
    {
      if lockBursts < 1 || unclassifiedBytes < 4 || recordLimit < 1 {
        return Failure(InvalidThresholds);
      }
      var classifier := new Classifier(lockBursts, unclassifiedBytes, recordLimit);
      r := Success(classifier);
    }

    method ChangeState(next: Label, reason: Reason)
      requires Records()
      modifies this`state, this`transitions, this`transitionTotal
      ensures Records() && state == next
      ensures transitionTotal == old(transitionTotal) + (if next == old(state) then 0 else 1)
      ensures transitions == if next == old(state) then old(transitions)
                             else Newest(old(transitions) + [Transition(streamOffset, old(state), next, reason)],
                                 recordLimit)
    {
      if next == state {
        return;
      }
      transitionTotal := transitionTotal + 1;
      transitions := transitions + [Transition(streamOffset, state, next, reason)];
      if |transitions| > recordLimit {
        transitions := transitions[1..];
      }
      state := next;
    }

    method RecordGap(record: GapRecord)
      requires Records()
      modifies this`gaps, this`gapTotal
      ensures Records() && gapTotal == old(gapTotal) + 1
      ensures gaps == Newest(old(gaps) + [record], recordLimit)
    {
      gapTotal := gapTotal + 1;
      gaps := gaps + [record];
      if |gaps| > recordLimit {
        gaps := gaps[1..];
      }
    }

    method RecordBurst(item: Burst)
      requires Records()
      modifies this`bursts, this`burstTotal, this`allBursts
      ensures Records() && burstTotal == old(burstTotal) + 1 && allBursts == old(allBursts) + [item]
    {
      burstTotal := burstTotal + 1;
      allBursts := allBursts + [item];
      bursts := bursts + [item];
      if |bursts| > recordLimit {
        bursts := bursts[1..];
      }
    }

    /** Losing the lock is counted; the candidate starts over. */
    method LoseCandidate(next: Label, reason: Reason)
      requires Records() && !next.Locked?
      modifies this`relocks, this`candidate, this`candidateCount, this`state, this`transitions, this`transitionTotal
      ensures Records() && state == next && View() == LoseLock(old(View()))
    {
      hide Records, Newest;
      if state.Locked? {
        relocks := relocks + 1;
      }
      ChangeState(next, reason);
      candidate := None;
      candidateCount := 0;
    }

    method ExtendLog(data: seq<byte>)
      requires Logged() && data != []
      modifies this`log, this`streamOffset, this`unclassifiedTotal
      ensures Logged()
      ensures View() == old(View()).(offset := old(streamOffset) + |data|,
                                     unclassified := old(unclassifiedTotal) + |data|, log := LogGap(old(log), data))
    {
      hide LogAccounts, LogGap;
      GapAccounts(log, streamOffset, allBursts, data);
      unclassifiedTotal := unclassifiedTotal + |data|;
      streamOffset := streamOffset + |data|;
      log := LogGap(log, data);
    }

    method MarkGap(data: seq<byte>, reason: Reason)
      requires Valid()
      modifies this
      ensures Valid() && View() == AddGap(old(View()), data) && buffer == old(buffer)
      ensures data != [] ==>
                && gapTotal == old(gapTotal) + 1
                && gaps == Newest(old(gaps) + [GapRecord(old(streamOffset), |data|, !AllZero(data), reason)],
                    recordLimit)
                && state == (if |data| >= unclassifiedBytes || !AllZero(data) then Unclassified else Searching)
    {
      hide LogAccounts, LogGap, Newest, AllZero, Records;
      if data == [] {
        return;
      }
      var nonzero := !AllZero(data);
      RecordGap(GapRecord(streamOffset, |data|, nonzero, reason));
      LoseCandidate(if |data| >= unclassifiedBytes || nonzero then Unclassified else Searching, reason);
      ExtendLog(data);
    }

    method NominateType(t: nat)
      requires Records()
      modifies this`relocks, this`candidate, this`candidateCount, this`state, this`transitions, this`transitionTotal
      ensures Records() && View() == Nominate(old(View()), t)
    {
      hide Records, Newest;
      if candidate != Some(t) {
        if state.Locked? {
          relocks := relocks + 1;
          ChangeState(Searching, FormatChange);
        }
        candidate := Some(t);
        candidateCount := 1;
      } else {
        candidateCount := candidateCount + 1;
      }
    }

    method AcceptValidBurst(item: Burst)
      requires Records() && (item.dataType == TYPE_AC3 || item.dataType == TYPE_EAC3)
      modifies this`validTotal, this`ac3, this`eac3, this`relocks, this`candidate, this`candidateCount,
               this`state, this`transitions, this`transitionTotal
      ensures Records() && View() == AcceptValid(lockBursts, old(View()), item.dataType)
    {
      hide Records, Newest, Nominate, LockIfStable;
      validTotal := validTotal + 1;
      if item.dataType == TYPE_AC3 {
        ac3 := ac3 + 1;
      } else {
        eac3 := eac3 + 1;
      }
      assert View() == CountValid(old(View()), item.dataType);
      NominateType(item.dataType);
      LockStable(item.dataType);
    }

    method LockStable(t: nat)
      requires Records()
      modifies this`state, this`transitions, this`transitionTotal
      ensures Records() && View() == LockIfStable(lockBursts, old(View()), t)
    {
      hide Records, Newest;
      if candidateCount >= lockBursts {
        ChangeState(Locked(t), Stable(t));
      }
    }

    method RejectBurst(failure: BurstFailure)
      requires Records()
      modifies this`invalid, this`relocks, this`candidate, this`candidateCount, this`state, this`transitions,
               this`transitionTotal
      ensures Records() && View() == RejectInvalid(old(View()))
    {
      hide Records, LoseLock;
      invalid := invalid + 1;
      assert View() == old(View()).(invalid := old(invalid) + 1);
      LoseCandidate(Searching, BadBurst(failure));
      LoseLockKeepsInvalid(old(View()));
    }

    /** Log the burst at the front of the buffer and remove it. */
    method ConsumeBurst(raw: seq<byte>, item: Burst)
      requires Valid() && WellFormed(Framed(raw)) && raw <= buffer
      requires item == ParseBurst(raw, streamOffset)
      modifies this`bursts, this`burstTotal, this`allBursts, this`log, this`streamOffset, this`buffer
      ensures Valid() && buffer == old(buffer)[|raw|..]
      ensures View() == old(View()).(bursts := old(burstTotal) + 1, offset := old(streamOffset) + |raw|,
                                     log := old(log) + [Framed(raw)])
    {
      hide LogAccounts, ParseBurst, Records, WellFormed, Newest;
      BurstAccounts(log, streamOffset, allBursts, raw);
      RecordBurst(item);
      log := log + [Framed(raw)];
      streamOffset := streamOffset + |raw|;
      buffer := buffer[|raw|..];
    }

    /** A whole burst at the front of the buffer. */
    method TakeBurst(raw: seq<byte>)
      requires Valid() && WellFormed(Framed(raw)) && raw <= buffer
      modifies this
      ensures Valid() && View() == AddBurst(lockBursts, old(View()), raw) && buffer == old(buffer)[|raw|..]
    {
      hide LogAccounts, ParseBurst, Records, AcceptValid, RejectInvalid, Newest, Period;
      var item := ParseBurst(raw, streamOffset);
      ParsedType(raw, streamOffset);
      AcceptFrame(lockBursts, View(), item.dataType);
      if item.failure.None? {
        AcceptValidBurst(item);
      } else {
        RejectBurst(item.failure.value);
      }
      ConsumeBurst(raw, item);
    }

    /** An unsupported data type: skip the sync bytes and leave LOCKED, keeping the candidate. */
    method SkipHeader()
      requires Valid() && |buffer| >= 8
      modifies this
      ensures Valid() && View() == AddHeader(old(View()), old(buffer)[..4]) && buffer == old(buffer)[4..]
    {
      hide LogAccounts;
      HeaderAccounts(log, streamOffset, allBursts, buffer[..4]);
      invalid := invalid + 1;
      ChangeState(Searching, UnsupportedHeader(DataType(buffer)));
      log := log + [Header(buffer[..4])];
      buffer := buffer[4..];
      streamOffset := streamOffset + 4;
    }

    /** The buffer holds no sync: everything but a possible sync prefix is a gap. */
    method EmitUnsynced(final: bool)
      requires Valid() && Find(buffer) < 0
      modifies this
      ensures Valid()
      ensures !final ==> (View(), buffer) == Drain(lockBursts, old(View()), old(buffer))
      ensures final ==> buffer == [] && View() == Flush(lockBursts, old(View()), old(buffer))
    {
      hide Drain, AddGap, Records, LogAccounts, Find;
      var keep := if final then 0 else if |buffer| < 3 then |buffer| else 3;
      var emit := |buffer| - keep;
      LastGap(lockBursts, View(), buffer);
      var gap := buffer[..emit];
      assert final ==> gap == buffer && buffer[emit..] == [];
      if emit > 0 {
        buffer := buffer[emit..];
        MarkGap(gap, NoIecSync);
      } else {
        assert buffer == buffer[emit..] && gap == [];
        EmptyGap(View());
      }
    }

    /** One pass of the feed loop; `more` says whether another pass is due. */
    method Advance(final: bool) returns (more: bool)
      requires Valid()
      modifies this
      ensures Valid()
      ensures more ==> |buffer| < |old(buffer)|
                       && Drain(lockBursts, View(), buffer) == Drain(lockBursts, old(View()), old(buffer))
      ensures !more && !final ==> (View(), buffer) == Drain(lockBursts, old(View()), old(buffer))
      ensures !more && final ==> AddGap(View(), buffer) == Flush(lockBursts, old(View()), old(buffer))
    {
      hide Drain, AddGap, AddHeader, AddBurst, Records, LogAccounts;
      var sync := Find(buffer);
      if sync < 0 {
        EmitUnsynced(final);
        EmptyGap(View());
        return false;
      }
      if sync == 0 && |buffer| < 8 {
        NoStep(lockBursts, View(), buffer);
        return false;
      }
      if sync > 0 {
        OneStep(lockBursts, View(), buffer);
        var gap := buffer[..sync];
        buffer := buffer[sync..];
        MarkGap(gap, RelockAfterGap);
        return true;
      }
      var period := Period(DataType(buffer));
      if period.None? {
        OneStep(lockBursts, View(), buffer);
        SkipHeader();
        return true;
      }
      if |buffer| < period.value {
        NoStep(lockBursts, View(), buffer);
        return false;
      }
      OneStep(lockBursts, View(), buffer);
      var raw := buffer[..period.value];
      assert Word(raw, 4) == Word(buffer, 4);
      TakeBurst(raw);
      return true;
    }

    /** Feed one chunk. Without `final` the core and the buffer become what draining the old
        buffer extended by the chunk leaves; with it the undecided rest is flushed as a gap. */
    method Feed(data: seq<byte>, final: bool)
      requires Valid()
      modifies this
      ensures Valid()
      ensures !final ==> (View(), buffer) == Drain(lockBursts, old(View()), old(buffer) + data)
      ensures final ==> View() == Flush(lockBursts, old(View()), old(buffer) + data) && buffer == []
    {
      hide Drain, AddGap, Records, LogAccounts;
      ghost var target := Drain(lockBursts, View(), buffer + data);
      buffer := buffer + data;
      var more := true;
      while more
        invariant Valid()
        invariant more ==> Drain(lockBursts, View(), buffer) == target
        invariant !more && !final ==> (View(), buffer) == target
        invariant !more && final ==> AddGap(View(), buffer) == AddGap(target.0, target.1)
        decreases more, |buffer|
      {
        more := Advance(final);
      }
      if final {
        if buffer != [] {
          var tail := buffer;
          buffer := [];
          MarkGap(tail, TrailingUnclassified);
        } else {
          EmptyGap(View());
        }
      }
    }
  }

  lemma OneStep(k: nat, c: Core, b: seq<byte>)
    requires !Decide(b).Wait?
    ensures Drain(k, c, b) == Drain(k, Take(k, c, b), b[Size(Decide(b))..])
  {
  }

  lemma NoStep(k: nat, c: Core, b: seq<byte>)
    requires Decide(b).Wait?
    ensures Drain(k, c, b) == (c, b)
  {
  }

  /** Emitting everything at the final flush, or all but three bytes otherwise, agrees with draining. */
  lemma LastGap(k: nat, c: Core, b: seq<byte>)
    requires Find(b) < 0
    ensures var n := |b| - (if |b| < 3 then |b| else 3);
            && Drain(k, c, b) == (AddGap(c, b[..n]), b[n..])
            && AddGap(AddGap(c, b[..n]), b[n..]) == AddGap(c, b)
            && AddGap(AddGap(c, b), []) == AddGap(c, b)
  {
    hide AddBurst, AddHeader, AddGap;
    var n := |b| - (if |b| < 3 then |b| else 3);
    GapsMerge(c, b[..n], b[n..]);
    GapsMerge(c, b, []);
    assert b[..n] + b[n..] == b && b + [] == b;
    if |b| > 3 {
      var rest := b[n..];
      assert forall j :: SyncAt(rest, j) ==> SyncAt(b, n + j);
      NoStep(k, AddGap(c, b[..n]), rest);
    } else {
      assert b[..0] == [] && b[0..] == b;
      NoStep(k, c, b);
      EmptyGap(c);
    }
  }

  /** Classifying a frame moves neither the offset, the burst count nor the log. */
  lemma AcceptFrame(k: nat, c: Core, t: nat)
    ensures var d := AcceptValid(k, c, t); d.offset == c.offset && d.bursts == c.bursts && d.log == c.log
    ensures var d := RejectInvalid(c); d.offset == c.offset && d.bursts == c.bursts && d.log == c.log
  {
  }

  lemma LoseLockKeepsInvalid(c: Core)
    ensures LoseLock(c.(invalid := c.invalid + 1)) == RejectInvalid(c)
  {
  }

  lemma EmptyGap(c: Core)
    ensures AddGap(c, []) == c
  {
  }

  lemma BurstsAppend(log: seq<Event>, e: Event)
    requires forall i :: 0 <= i < |log| ==> WellFormed(log[i])
    requires WellFormed(e)
    ensures forall i :: 0 <= i < |log + [e]| ==> WellFormed((log + [e])[i])
    ensures BurstsOf(log + [e]) == BurstsOf(log) + (if e.Framed? then [ParseBurst(e.data, |LogBytes(log)|)] else [])
  {
    hide WellFormed, ParseBurst;
    assert (log + [e])[..|log|] == log;
  }

  lemma BurstAccounts(log: seq<Event>, offset: nat, bursts: seq<Burst>, raw: seq<byte>)
    requires LogAccounts(log, offset, bursts) && WellFormed(Framed(raw))
    ensures LogAccounts(log + [Framed(raw)], offset + |raw|, bursts + [ParseBurst(raw, offset)])
  {
    BurstsAppend(log, Framed(raw));
    LogAppend(log, Framed(raw));
  }

  lemma HeaderAccounts(log: seq<Event>, offset: nat, bursts: seq<Burst>, data: seq<byte>)
    requires LogAccounts(log, offset, bursts)
    ensures LogAccounts(log + [Header(data)], offset + |data|, bursts)
  {
    BurstsAppend(log, Header(data));
    LogAppend(log, Header(data));
  }

  lemma GapAccounts(log: seq<Event>, offset: nat, bursts: seq<Burst>, data: seq<byte>)
    requires LogAccounts(log, offset, bursts)
    ensures LogAccounts(LogGap(log, data), offset + |data|, bursts)
  {
    hide WellFormed, ParseBurst;
    LogGapBytes(log, data);
    var n := |log|;
    if log != [] && log[n - 1].Gap? {
      GapIsWellFormed(log[n - 1].data + data);
      BurstsAppend(log[..n - 1], Gap(log[n - 1].data + data));
    } else {
      GapIsWellFormed(data);
      BurstsAppend(log, Gap(data));
    }
  }

  lemma GapIsWellFormed(data: seq<byte>)
    ensures WellFormed(Gap(data))
  {
  }

  lemma ParsedType(raw: seq<byte>, offset: nat)
    requires WellFormed(Framed(raw))
    ensures var item := ParseBurst(raw, offset);
            item.dataType == DataType(raw) && (item.dataType == TYPE_AC3 || item.dataType == TYPE_EAC3)
  {
  }
}
