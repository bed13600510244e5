/**
 * Writes that are delivered more than once. A controller that misses an acknowledgement sends
 * the write again; callbacks may run between the deliveries.
 */
module HandoverRetry {
  import opened Bytes
  import opened AemProgram
  import opened EndpointModel
  import opened EndpointSafety
  import opened HandoverExecution

  /** What may happen between an acknowledged write and the next one. */
  datatype Again = Callbacks(c: Dispatched) | Redelivery(answers: Answers)

  function CallsOf(again: seq<Again>): seq<Dispatched> {
    if again == [] then []
    else if again[0].Callbacks? then [again[0].c] + CallsOf(again[1..])
    else CallsOf(again[1..])
  }

  function Repeat(sys: System, w: AemWrite, again: seq<Again>): System
    requires w.valueLen <= |w.value|
    decreases |again|
  {
    if again == [] then sys
    else
      match again[0]
      case Callbacks(c) => Repeat(Fire(sys, [c]), w, again[1..])
      case Redelivery(a) => Repeat(Deliver(sys, w, a).0, w, again[1..])
  }

  /** The write changes nothing at its target any more. */
  ghost predicate Absorbing(sys: System, w: AemWrite)
    requires w.valueLen <= |w.value|
  {
    w.target in sys && Inv(sys[w.target]) && Settled(sys[w.target], w.control, w.value[..w.valueLen])
  }

  lemma FireFirst(sys: System, c: Dispatched, rest: seq<Dispatched>)
    ensures Fire(sys, [c] + rest) == Fire(Fire(sys, [c]), rest)
  {
    assert ([c] + rest)[1..] == rest && [c][1..] == [];
  }

  lemma FireOne(sys: System, c: Dispatched)
    ensures Fire(sys, [c]) == if c.entity in sys then sys[c.entity := Callback(sys[c.entity], c.answers)] else sys
  {
    assert [c][1..] == [];
  }

  lemma CallbackStaysAbsorbing(sys: System, w: AemWrite, c: Dispatched)
    requires w.valueLen <= |w.value| && Absorbing(sys, w)
    ensures Absorbing(Fire(sys, [c]), w)
  {
    hide Callback, Inv, Settled;
    FireOne(sys, c);
    if c.entity == w.target {
      CallbackKeepsInv(sys[w.target], c.answers);
      CallbackKeepsSettled(sys[w.target], w.control, w.value[..w.valueLen], c.answers);
    }
  }

  /** A redelivery changes nothing, and is refused only if it is a COMMIT whose deadline has faulted. */
  lemma RedeliveryChangesNothing(sys: System, w: AemWrite, a: Answers)
    requires w.valueLen <= |w.value| && Absorbing(sys, w)
    ensures Deliver(sys, w, a)
            == (sys, !(IsCommit(w.control, w.value[..w.valueLen]) && sys[w.target].phase == Fault))
  {
    hide SetControl, Inv, Settled, IsCommit;
    SettledChangesNothing(sys[w.target], w.control, w.value[..w.valueLen], a);
    assert sys[w.target := sys[w.target]] == sys;
  }

  /** Deliveries of an acknowledged write, with callbacks of any endpoint in between, leave the system as
      the callbacks alone leave it, whatever these do. */
  lemma {:induction false} RepeatIsCallbacks(sys: System, w: AemWrite, again: seq<Again>)
    requires w.valueLen <= |w.value| && Absorbing(sys, w)
    ensures Repeat(sys, w, again) == Fire(sys, CallsOf(again))
    decreases |again|
  {
    hide Absorbing, Fire, Deliver;
    if again == [] {
      NoCallbacks(sys);
    } else {
      match again[0]
      case Callbacks(c) =>
        CallbackStaysAbsorbing(sys, w, c);
        RepeatIsCallbacks(Fire(sys, [c]), w, again[1..]);
        FireFirst(sys, c, CallsOf(again[1..]));
      case Redelivery(a) =>
        RedeliveryChangesNothing(sys, w, a);
        RepeatIsCallbacks(sys, w, again[1..]);
    }
  }

  lemma NoCallbacks(sys: System)
    ensures Fire(sys, []) == sys
  {
  }

  // --- Programs --------------------------------------------------------------------------------------

  /** Execution as before, but every acknowledged write may be delivered again before the next. */
  function ExecRepeating(sys: System, writes: seq<AemWrite>, slots: seq<Slot>, agains: seq<seq<Again>>): Outcome
    requires |agains| == |slots| == |writes| && Sendable(writes)
    decreases |writes|
  {
    if writes == [] then Outcome(sys, 0)
    else
      var (next, ok) := Deliver(Fire(sys, slots[0].callbacks), writes[0], slots[0].answers);
      if !ok then Outcome(next, 0)
      else
        var rest := ExecRepeating(Repeat(next, writes[0], agains[0]), writes[1..], slots[1..], agains[1..]);
        Outcome(rest.system, rest.acknowledged + 1)
  }

  /** The same slots, with the callbacks between deliveries moved in front of the next write. */
  function Moved(before: seq<Dispatched>, slots: seq<Slot>, agains: seq<seq<Again>>): (m: seq<Slot>)
    requires |agains| == |slots|
    ensures |m| == |slots|
    decreases |slots|
  {
    if slots == [] then []
    else [Slot(before + slots[0].callbacks, slots[0].answers)] + Moved(CallsOf(agains[0]), slots[1..], agains[1..])
  }

  ghost predicate AllInv(sys: System) {
    forall e :: e in sys ==> Inv(sys[e])
  }

  lemma {:induction false} FireConcat(sys: System, a: seq<Dispatched>, b: seq<Dispatched>)
    ensures Fire(sys, a + b) == Fire(Fire(sys, a), b)
    decreases |a|
  {
    if a == [] {
      assert a + b == b;
    } else {
      assert (a + b)[1..] == a[1..] + b;
      var c := a[0];
      FireConcat(if c.entity in sys then sys[c.entity := Callback(sys[c.entity], c.answers)] else sys, a[1..], b);
    }
  }

  lemma {:induction false} FireKeepsAllInv(sys: System, a: seq<Dispatched>)
    requires AllInv(sys)
    ensures AllInv(Fire(sys, a))
    decreases |a|
  {
    hide Inv, Callback;
    if a != [] {
      if a[0].entity in sys {
        CallbackKeepsInv(sys[a[0].entity], a[0].answers);
        FireKeepsAllInv(sys[a[0].entity := Callback(sys[a[0].entity], a[0].answers)], a[1..]);
      } else {
        FireKeepsAllInv(sys, a[1..]);
      }
    }
  }

  /** An acknowledged write is absorbed by its target. */
  lemma DeliveredIsAbsorbed(sys: System, w: AemWrite, a: Answers)
    requires w.valueLen <= |w.value| && AllInv(sys) && Deliver(sys, w, a).1
    ensures AllInv(Deliver(sys, w, a).0) && Absorbing(Deliver(sys, w, a).0, w)
  {
    hide Inv, SetControl, Absorbs;
    var values := w.value[..w.valueLen];
    WriteKeepsInv(sys[w.target], w.control, values, a);
    AcknowledgedIsAbsorbed(sys[w.target], w.control, values, a);
  }

  lemma WriteKeepsInv(s: State, index: u16, values: seq<byte>, a: Answers)
    requires Inv(s)
    ensures Inv(SetControl(s, index, values, a).0)
  {
    hide Inv, SetControl;
    StepKeepsInv(s, Write(index, values, a));
  }

  /** What is left to fire once every write was acknowledged. */
  function Trailing(before: seq<Dispatched>, agains: seq<seq<Again>>): seq<Dispatched> {
    if agains == [] then before else CallsOf(agains[|agains| - 1])
  }

  /** Retries are transparent: a program whose acknowledged writes are delivered any number of times, with
      callbacks in between, is acknowledged as far, and leaves the system the same, as the program sent
      once with those callbacks in front of the next write. Every result about single deliveries
      therefore holds with retries too. */
  lemma {:induction false} RetriesAreTransparent(sys: System, before: seq<Dispatched>, writes: seq<AemWrite>,
                                                 slots: seq<Slot>, agains: seq<seq<Again>>)
    requires |agains| == |slots| == |writes| && Sendable(writes) && AllInv(sys)
    ensures var once := Exec(sys, writes, Moved(before, slots, agains));
            ExecRepeating(Fire(sys, before), writes, slots, agains) ==
            if once.acknowledged < |writes| then once
            else Outcome(Fire(once.system, Trailing(before, agains)), once.acknowledged)
    decreases |writes|
  {
    hide AllInv, Absorbing, Deliver, Fire, CallsOf, Repeat;
    if writes != [] {
      var moved := Moved(before, slots, agains);
      FireConcat(sys, before, slots[0].callbacks);
      var start := Fire(Fire(sys, before), slots[0].callbacks);
      FireKeepsAllInv(sys, before);
      FireKeepsAllInv(Fire(sys, before), slots[0].callbacks);
      var (next, ok) := Deliver(start, writes[0], slots[0].answers);
      assert moved[0] == Slot(before + slots[0].callbacks, slots[0].answers);
      assert moved[1..] == Moved(CallsOf(agains[0]), slots[1..], agains[1..]);
      if ok {
        DeliveredIsAbsorbed(start, writes[0], slots[0].answers);
        RepeatIsCallbacks(next, writes[0], agains[0]);
        RetriesAreTransparent(next, CallsOf(agains[0]), writes[1..], slots[1..], agains[1..]);
      }
    }
  }
}
