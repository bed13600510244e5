/** The audio DMA device in its imperative form. */
module AudioDma {
  import opened Bytes
  import opened AudioDmaModel

  /** Cut whole frames into the two eight-slot lanes. */
  method CutIntoLanes(pcm: seq<byte>) returns (lane0: seq<byte>, lane1: seq<byte>)
    requires WholeFrames(pcm)
    ensures lane0 == Lane0Of(pcm) && lane1 == Lane1Of(pcm)
  {
    hide Lane0Of, Lane1Of;
    lane0, lane1 := [], [];
    assert pcm[0..] == pcm;
    var i := 0;
    while i < |pcm|
      invariant 0 <= i <= |pcm| && WholeFrames(pcm[i..])
      invariant lane0 + Lane0Of(pcm[i..]) == Lane0Of(pcm)
      invariant lane1 + Lane1Of(pcm[i..]) == Lane1Of(pcm)
    {
      LaneStep(pcm, i);
      lane0 := lane0 + pcm[i..i + 32];
      lane1 := lane1 + (pcm[i + 32..i + 48] + Zeros(16));
      i := i + FRAME_BYTES;
    }
    LaneStart(pcm[i..]);
  }

  /** Weave two lanes of equal length into wire frames. */
  method WeaveLanes(lane0: seq<byte>, lane1: seq<byte>) returns (tdm: seq<byte>)
    requires |lane0| == |lane1| && |lane0| % 32 == 0
    ensures tdm == Weave(lane0, lane1)
  {
    hide Weave;
    tdm := [];
    assert lane0[0..] == lane0 && lane1[0..] == lane1;
    var j := 0;
    while j < |lane0|
      invariant 0 <= j <= |lane0| && (|lane0| - j) % 32 == 0
      invariant tdm + Weave(lane0[j..], lane1[j..]) == Weave(lane0, lane1)
    {
      WeaveStep(lane0, lane1, j);
      tdm := tdm + (lane0[j..j + 32] + lane1[j..j + 32]);
      j := j + 32;
    }
    WeaveEnd(lane0[j..], lane1[j..]);
  }

  /** The lanes and the wire frames of one descriptor's content. */
  method CutLanes(pcm: seq<byte>) returns (lane0: seq<byte>, lane1: seq<byte>, tdm: seq<byte>)
    requires WholeFrames(pcm)
    ensures lane0 == Lane0Of(pcm) && lane1 == Lane1Of(pcm) && tdm == TdmOf(pcm)
  {
    lane0, lane1 := CutIntoLanes(pcm);
    LaneLengths(pcm);
    tdm := WeaveLanes(lane0, lane1);
    LanesWeave(pcm);
  }

  lemma LaneStart(pcm: seq<byte>)
    ensures pcm == [] ==> Lane0Of(pcm) == [] && Lane1Of(pcm) == []
  {
  }

  lemma WeaveEnd(lane0: seq<byte>, lane1: seq<byte>)
    ensures lane0 == [] ==> Weave(lane0, lane1) == []
  {
  }

  lemma LaneStep(pcm: seq<byte>, i: nat)
    requires i + FRAME_BYTES <= |pcm|
    ensures Lane0Of(pcm[i..]) == pcm[i..i + 32] + Lane0Of(pcm[i + FRAME_BYTES..])
    ensures Lane1Of(pcm[i..]) == pcm[i + 32..i + 48] + Zeros(16) + Lane1Of(pcm[i + FRAME_BYTES..])
  {
    assert pcm[i..][..32] == pcm[i..i + 32] && pcm[i..][32..48] == pcm[i + 32..i + 48];
    assert pcm[i..][FRAME_BYTES..] == pcm[i + FRAME_BYTES..];
  }

  lemma WeaveStep(lane0: seq<byte>, lane1: seq<byte>, j: nat)
    requires j + 32 <= |lane0| && j + 32 <= |lane1|
    ensures Weave(lane0[j..], lane1[j..])
            == lane0[j..j + 32] + lane1[j..j + 32] + Weave(lane0[j + 32..], lane1[j + 32..])
  {
    assert lane0[j..][..32] == lane0[j..j + 32] && lane0[j..][32..] == lane0[j + 32..];
    assert lane1[j..][..32] == lane1[j..j + 32] && lane1[j..][32..] == lane1[j + 32..];
  }

  lemma {:induction false} LaneLengths(pcm: seq<byte>)
    requires WholeFrames(pcm)
    ensures |Lane0Of(pcm)| == |Lane1Of(pcm)| == |pcm| / FRAME_BYTES * 32
  {
    if |pcm| >= FRAME_BYTES {
      LaneLengths(pcm[FRAME_BYTES..]);
    }
  }

  /** Read a descriptor in bursts of at most 1024 bytes. */
  method ReadBursts(at: nat -> byte, d: Descriptor) returns (pcm: seq<byte>)
    ensures pcm == Fetch(at, d)
  {
    pcm := [];
    var offset := 0;
    while offset < d.length
      invariant 0 <= offset
      invariant pcm == Fetch(at, d)[..if offset < d.length then offset else d.length]
    {
      var count := if d.length - offset < 1024 then d.length - offset else 1024;
      pcm := pcm + seq(count, i requires 0 <= i < count => at(d.source + offset + i));
      offset := offset + 1024;
    }
  }

  method CheckFinite(pcm: seq<byte>) returns (ok: bool)
    ensures ok <==> AllFinite(pcm)
  {
    for k := 0 to |pcm| / 4
      invariant forall j :: 0 <= j < k ==> !NotFinite(pcm, j)
    {
      if NotFinite(pcm, k) {
        return false;
      }
    }
    ok := true;
  }

  class Device {
    var regs: Registers
    var pending: seq<Descriptor>
    var frames: nat
    var pcm: seq<byte>
    var tdm: seq<byte>
    var lastTdm: seq<byte>
    var lane0: seq<byte>
    var lane1: seq<byte>
    var sinkMuted: bool
    var events: nat
    ghost var submitted: seq<Descriptor>
    ghost var fates: seq<Fate>

    ghost function View(): State
      reads this
    {
      State(regs, pending, frames, pcm, tdm, lastTdm, lane0, lane1, sinkMuted, events, submitted, fates)
    }

    constructor ()
      ensures View() == Initial()
    {
      regs := Registers(Idle, RAM_START, 11520, 48_000, 12, PERIOD_FRAMES, 0, false, false, 0);
      pending, frames, pcm, tdm, lastTdm, lane0, lane1 := [], 0, [], [], [], [], [];
      sinkMuted, events, submitted, fates := true, 0, [], [];
    }

    method Reset()
      modifies this
      ensures View() == Initial()
    {
      sinkMuted := true;
      regs := Registers(Idle, RAM_START, 11520, 48_000, 12, PERIOD_FRAMES, 0, false, false, 0);
      pending, frames, pcm, tdm, lastTdm, lane0, lane1 := [], 0, [], [], [], [], [];
      events, submitted, fates := 0, [], [];
    }

    /** Cancel the posted event, drop the queue and mute. */
    method GoSilent()
      modifies this
      ensures View() == Silence(old(View()))
    {
      events := 0;
      fates := fates + GivenUp(pending);
      pending := [];
      lastTdm, lane0, lane1 := Zeros(240 * 64), Zeros(240 * 32), Zeros(240 * 32);
      sinkMuted := true;
    }

    method Latch(code: nat)
      modifies this
      ensures View() == Fail(old(View()), code)
    {
      GoSilent();
      regs := regs.(status := Fault, error := code, faultIrq := true);
    }

    method WriteRegister(register: Register, value: nat)
      modifies this
      ensures View() == Write(old(View()), register, value)
    {
      if register == CTRL && value == 2 {
        Reset();
        return;
      }
      if regs.status == Fault {
        return;
      }
      match register {
        case IRQ =>
          regs := regs.(periodIrq := regs.periodIrq && value % 2 == 0, faultIrq := regs.faultIrq && value / 2 % 2 == 0);
        case CTRL =>
          WriteControlRegister(value);
        case SUBMIT =>
          Submit(value);
        case SOURCE =>
          regs := regs.(source := value);
        case LENGTH =>
          regs := regs.(length := value);
        case RATE =>
          if regs.status == Run { Latch(6); } else { regs := regs.(rate := value); }
        case CHANNELS =>
          if regs.status == Run { Latch(6); } else { regs := regs.(channels := value); }
        case PERIOD =>
          if regs.status == Run { Latch(6); } else { regs := regs.(period := value); }
        case _ =>
          Latch(7);
      }
    }

    method WriteControlRegister(value: nat)
      modifies this
      ensures View() == WriteControl(old(View()), value)
    {
      if value == 0 {
        GoSilent();
        regs := regs.(status := Idle);
      } else if value == 1 && regs.status != Run {
        if regs.rate != 48_000 || regs.channels != 12 || regs.period != PERIOD_FRAMES {
          Latch(1);
        } else {
          regs := regs.(status := Run);
          events := events + 1;
        }
      } else {
        Latch(2);
      }
    }

    method Submit(value: nat)
      modifies this
      ensures View() == WriteSubmit(old(View()), value)
    {
      var source, length := regs.source, regs.length;
      if value != 1 || length != regs.period * FRAME_BYTES {
        Latch(3);
      } else if source % 4 != 0 || source < RAM_START || source + length > RAM_END {
        Latch(4);
      } else if |pending| == DEPTH {
        Latch(5);
      } else {
        pending := pending + [Descriptor(source, length)];
        submitted := submitted + [Descriptor(source, length)];
      }
    }

    /** A posted period event fires. */
    method Fire(memory: Memory)
      requires Inv(View()) && events > 0
      modifies this
      ensures View() == Step(old(View()), Clock(memory)) && Inv(View())
    {
      hide ContentOf, PlayedCount, DescriptorsOf, TdmOf, Lane0Of, Lane1Of, AllFinite, Fetch, Inv;
      StepKeepsInv(View(), Clock(memory));
      assert History(View()) by { InvParts(View()); }
      events := events - 1;
      OnTick(memory);
    }

    method OnTick(memory: Memory)
      requires forall i :: 0 <= i < |pending| ==> InRam(pending[i])
      modifies this
      ensures View() == Tick(old(View()), memory)
    {
      hide ContentOf, PlayedCount, DescriptorsOf, TdmOf, Lane0Of, Lane1Of, AllFinite, Fetch, Play, Fail;
      if regs.status != Run {
        return;
      }
      if pending == [] {
        Latch(8);
        return;
      }
      var d := pending[0];
      pending := pending[1..];
      if memory.Broken? {
        fates := fates + [Discarded(d)];
        Latch(9);
        return;
      }
      var content := ReadBursts(memory.at, d);
      var finite := CheckFinite(content);
      if !finite {
        fates := fates + [Discarded(d)];
        Latch(10);
        return;
      }
      Consume(d, content);
    }

    /** Hand one descriptor's content to the sink and account for it. */
    method Consume(d: Descriptor, content: seq<byte>)
      requires WholeFrames(content)
      modifies this
      ensures View() == Play(old(View()), d, content)
    {
      hide Lane0Of, Lane1Of, TdmOf;
      var first, second, wire := CutLanes(content);
      lane0, lane1, lastTdm := first, second, wire;
      sinkMuted := false;
      pcm, tdm := pcm + content, tdm + wire;
      frames := frames + regs.period;
      regs := regs.(done := regs.done + 1, periodIrq := true);
      fates := fates + [Played(d, content)];
      events := events + 1;
    }

    /** What a register reads as. */
    function Read(register: Register): nat
      reads this
    {
      match register
      case CTRL => if regs.status == Run then 1 else 0
      case STATUS => if regs.status == Run then 1 else if regs.status == Fault then 2 else 0
      case SOURCE => regs.source
      case LENGTH => regs.length
      case RATE => regs.rate
      case CHANNELS => regs.channels
      case PERIOD => regs.period
      case SUBMIT => 0
      case DONE => regs.done
      case IRQ => (if regs.periodIrq then 1 else 0) + (if regs.faultIrq then 2 else 0)
      case ERROR => regs.error
    }

    /** One bus transaction. Anything but a four-byte access to a register faults the device. */
    method Operate(size: nat, offset: nat, write: Option<nat>) returns (r: Result<nat, ()>)
      modifies this
      ensures View() == Step(old(View()), Access(size, offset, write))
      ensures r.Failure? <==> size != 4 || RegisterAt(offset).None?
      ensures r.Success? && write.None? ==> r.value == Read(RegisterAt(offset).value)
    {
      var register := RegisterAt(offset);
      if size != 4 || register.None? {
        Latch(7);
        return Failure(());
      }
      if write.None? {
        return Success(Read(register.value));
      }
      WriteRegister(register.value, write.value);
      r := Success(0);
    }
  }
}
