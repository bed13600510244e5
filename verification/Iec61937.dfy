/** IEC 61937-1 data-burst framing (clause 6) over bytes, with the A/52 syncword of section 5.4.1.1. */
module Iec61937 {
  import opened Bytes

  const SYNC: seq<byte> := [0x72, 0xF8, 0x1F, 0x4E]
  const PA := 0xF872
  const PB := 0x4E1F
  const TYPE_AC3 := 0x01
  const TYPE_EAC3 := 0x15

  /** A preamble's four sync bytes start at `i`. */
  predicate SyncAt(b: seq<byte>, i: int) {
    0 <= i <= |b| - 4 && b[i] == 0x72 && b[i + 1] == 0xF8 && b[i + 2] == 0x1F && b[i + 3] == 0x4E
  }

  /** Index of the first sync, or -1: what a byte-string search returns. */
  function Find(b: seq<byte>): (r: int)
    ensures r >= 0 ==> SyncAt(b, r) && forall j :: 0 <= j < r ==> !SyncAt(b, j)
    ensures r < 0 ==> r == -1 && forall j :: !SyncAt(b, j)
  {
    FindFrom(b, 0)
  }

  function FindFrom(b: seq<byte>, i: nat): (r: int)
    requires i <= |b|
    ensures r >= 0 ==> r >= i && SyncAt(b, r) && forall j :: i <= j < r ==> !SyncAt(b, j)
    ensures r < 0 ==> r == -1 && forall j :: i <= j ==> !SyncAt(b, j)
    decreases |b| - i
  {
    if SyncAt(b, i) then i else if i == |b| then -1 else FindFrom(b, i + 1)
  }

  lemma FindIs(b: seq<byte>, i: nat)
    requires SyncAt(b, i) && forall j :: 0 <= j < i ==> !SyncAt(b, j)
    ensures Find(b) == i
  {
  }

  /** Little-endian 16-bit word. */
  function Word(b: seq<byte>, i: nat): (w: nat)
    requires i + 1 < |b|
    ensures w < 0x1_0000
  {
    b[i] as int + 256 * b[i + 1] as int
  }

  function LittleWord(x: u16): seq<byte> {
    [x % 256, x / 256]
  }

  predicate AllZero(b: seq<byte>) {
    forall i :: 0 <= i < |b| ==> b[i] == 0
  }

  /** Exchange the bytes of each 16-bit word. */
  function Swap16(b: seq<byte>): (r: seq<byte>)
    requires |b| % 2 == 0
    ensures |r| == |b|
  {
    seq(|b|, i requires 0 <= i < |b| => if i % 2 == 0 then b[i + 1] else b[i - 1])
  }

  lemma Swap16Involution(b: seq<byte>)
    requires |b| % 2 == 0
    ensures Swap16(Swap16(b)) == b
  {
  }

  predicate StartsWithSyncword(payload: seq<byte>) {
    |payload| >= 2 && payload[0] == 0x0B && payload[1] == 0x77
  }

  /** Repetition period in bytes of each supported data type. */
  function Period(dataType: nat): Option<nat> {
    if dataType == TYPE_AC3 then Some(6144)
    else if dataType == TYPE_EAC3 then Some(24576)
    else None
  }

  /** Preamble Pa, Pb, Pc, Pd. */
  function Preamble(pc: u16, pd: u16): (p: seq<byte>)
    ensures |p| == 8 && SyncAt(p, 0)
  {
    SYNC + LittleWord(pc) + LittleWord(pd)
  }

  /** One burst: preamble, word-swapped payload, zero padding up to the period. */
  function Frame(pc: u16, pd: u16, payload: seq<byte>, period: nat): (f: seq<byte>)
    requires |payload| % 2 == 0 && 8 + |payload| <= period
    ensures |f| == period && SyncAt(f, 0)
  {
    Preamble(pc, pd) + Swap16(payload) + Zeros(period - 8 - |payload|)
  }

  /** Reading a frame back recovers its header words, payload and padding. */
  lemma FrameFields(pc: u16, pd: u16, payload: seq<byte>, period: nat)
    requires |payload| % 2 == 0 && 8 + |payload| <= period
    ensures var f := Frame(pc, pd, payload, period);
            && Word(f, 0) == PA && Word(f, 2) == PB && Word(f, 4) == pc && Word(f, 6) == pd
            && f[8..8 + |payload|] == Swap16(payload)
            && Swap16(f[8..8 + |payload|]) == payload
            && f[8 + |payload|..] == Zeros(period - 8 - |payload|)
  {
    Swap16Involution(payload);
  }

  /** A string with these header words, swapped payload and padding is that frame. */
  lemma FieldsDetermineFrame(f: seq<byte>, pc: u16, pd: u16, payload: seq<byte>)
    requires |payload| % 2 == 0 && 8 + |payload| <= |f|
    requires SyncAt(f, 0) && Word(f, 4) == pc && Word(f, 6) == pd
    requires Swap16(f[8..8 + |payload|]) == payload
    requires AllZero(f[8 + |payload|..])
    ensures f == Frame(pc, pd, payload, |f|)
  {
    var n := |payload|;
    Swap16Involution(f[8..8 + n]);
    assert f[..8] == Preamble(pc, pd);
    assert f[8 + n..] == Zeros(|f| - 8 - n);
    assert f == f[..8] + f[8..8 + n] + f[8 + n..];
  }
}
