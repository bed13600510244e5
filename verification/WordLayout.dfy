/** IEC words inside 32-bit stereo sample slots: extraction, the inverse, and candidate scoring. */
module WordLayout {
  import opened Bytes
  import opened Iec61937
  import G = StrictGate

  datatype Lane = High16 | Low16
  datatype Order = LR | RL
  datatype Layout = Layout(lane: Lane, order: Order)

  const FRAME_BYTES := 8
  const BURST_BYTES := 24576

  datatype CaptureError =
    | NotWholeFrames | ProbeExhausted | NoBurstTrain | AmbiguousLayout | PartialFrameAtEnd | NeverLocked

  // --- One frame: the host's integer arithmetic ---------------------------------------------

  function U32(b: seq<byte>): (x: nat)
    requires |b| == 4
    ensures x < 0x1_0000_0000
  {
    b[0] as int + 0x100 * b[1] as int + 0x1_0000 * b[2] as int + 0x100_0000 * b[3] as int
  }

  function LittleU32(x: u32): (b: seq<byte>)
    ensures |b| == 4
  {
    [x % 256, (x / 0x100) % 256, (x / 0x1_0000) % 256, x / 0x100_0000]
  }

  /** The 16-bit word a 4-byte slot carries in the given half. */
  function WordOf(slot: seq<byte>, lane: Lane): (x: u16)
    requires |slot| == 4
  {
    (if lane.High16? then U32(slot) / 0x1_0000 else U32(slot)) % 0x1_0000
  }

  /** A slot carrying `x` in the given half and nothing in the other. */
  function SlotOf(x: u16, lane: Lane): (slot: seq<byte>)
    ensures |slot| == 4
  {
    LittleU32(if lane.High16? then x * 0x1_0000 else x)
  }

  lemma U32Inverse(x: u32)
    ensures U32(LittleU32(x)) == x
  {
    var a, b, c := x / 0x100, x / 0x1_0000, x / 0x100_0000;
    assert b == a / 0x100;
    assert c == b / 0x100;
    assert LittleU32(x) == [x % 256, a % 256, b % 256, c];
  }

  lemma SlotRoundTrip(x: u16, lane: Lane)
    ensures WordOf(SlotOf(x, lane), lane) == x
    ensures forall other :: other != lane ==> WordOf(SlotOf(x, lane), other) == 0
  {
    hide U32, LittleU32;
    U32Inverse(if lane.High16? then x * 0x1_0000 else x);
  }

  /** The two 16-bit words of one stereo frame, as four little-endian bytes. */
  function FrameWords(f: seq<byte>, l: Layout): (w: seq<byte>)
    requires |f| == 8
    ensures |w| == 4
  {
    var left, right := WordOf(f[..4], l.lane), WordOf(f[4..], l.lane);
    if l.order == RL then LittleWord(right) + LittleWord(left) else LittleWord(left) + LittleWord(right)
  }

  /** A stereo frame whose slots carry the two words of `w`. */
  function WordsFrame(w: seq<byte>, l: Layout): (f: seq<byte>)
    requires |w| == 4
    ensures |f| == 8
  {
    var first, second := SlotOf(Word(w, 0), l.lane), SlotOf(Word(w, 2), l.lane);
    if l.order == RL then second + first else first + second
  }

  lemma WordInverse(w: seq<byte>)
    requires |w| == 4
    ensures LittleWord(Word(w, 0)) + LittleWord(Word(w, 2)) == w
  {
  }

  lemma FrameSlots(w: seq<byte>, l: Layout)
    requires |w| == 4
    ensures var f, first, second := WordsFrame(w, l), SlotOf(Word(w, 0), l.lane), SlotOf(Word(w, 2), l.lane);
            if l.order == RL then f[..4] == second && f[4..] == first else f[..4] == first && f[4..] == second
  {
    hide SlotOf;
  }

  lemma FrameRoundTrip(w: seq<byte>, l: Layout)
    requires |w| == 4
    ensures FrameWords(WordsFrame(w, l), l) == w
  {
    hide WordOf, SlotOf, WordsFrame, LittleWord;
    FrameSlots(w, l);
    SlotRoundTrip(Word(w, 0), l.lane);
    SlotRoundTrip(Word(w, 2), l.lane);
    WordInverse(w);
  }

  /** Read through the other half of the slot, a frame is silent. */
  lemma OtherLaneIsSilent(w: seq<byte>, l: Layout, m: Layout)
    requires |w| == 4 && l.lane != m.lane
    ensures FrameWords(WordsFrame(w, l), m) == Zeros(4)
  {
    hide WordOf, SlotOf, WordsFrame;
    FrameSlots(w, l);
    SlotRoundTrip(Word(w, 0), l.lane);
    SlotRoundTrip(Word(w, 2), l.lane);
  }

  // --- Whole streams ----------------------------------------------------------------------------

  predicate FrameAligned(raw: seq<byte>) {
    |raw| % FRAME_BYTES == 0
  }

  function Extract(raw: seq<byte>, l: Layout): (c: seq<byte>)
    requires FrameAligned(raw)
    ensures 2 * |c| == |raw|
  {
    if raw == [] then [] else Extract(raw[..|raw| - 8], l) + FrameWords(raw[|raw| - 8..], l)
  }

  function Embed(canonical: seq<byte>, l: Layout): (raw: seq<byte>)
    requires |canonical| % 4 == 0
    ensures |raw| == 2 * |canonical|
  {
    if canonical == [] then [] else Embed(canonical[..|canonical| - 4], l) + WordsFrame(canonical[|canonical| - 4..], l)
  }

  lemma ExtractNothing(raw: seq<byte>, l: Layout)
    ensures FrameAligned(raw[..0]) && Extract(raw[..0], l) == []
  {
  }

  lemma ExtractGrows(a: seq<byte>, frame: seq<byte>, l: Layout)
    requires FrameAligned(a) && |frame| == FRAME_BYTES
    ensures FrameAligned(a + frame) && Extract(a + frame, l) == Extract(a, l) + FrameWords(frame, l)
  {
    hide FrameWords;
    var raw := a + frame;
    assert raw[..|raw| - 8] == a && raw[|raw| - 8..] == frame;
  }

  lemma LastFrame(a: seq<byte>, b: seq<byte>) returns (front: seq<byte>, frame: seq<byte>)
    requires FrameAligned(a) && FrameAligned(b) && b != []
    ensures FrameAligned(front) && FrameAligned(a + front) && |frame| == FRAME_BYTES && |front| < |b|
    ensures b == front + frame && a + b == a + front + frame
  {
    front, frame := b[..|b| - 8], b[|b| - 8..];
  }

  /** Extraction is frame by frame, so it may be done block by block. */
  lemma {:induction false} ExtractSplits(a: seq<byte>, b: seq<byte>, l: Layout)
    requires FrameAligned(a) && FrameAligned(b)
    ensures FrameAligned(a + b) && Extract(a + b, l) == Extract(a, l) + Extract(b, l)
    decreases |b|
  {
    hide *;
    if b == [] {
      ExtractNothing(b, l);
      assert a + b == a;
    } else {
      var front, frame := LastFrame(a, b);
      ExtractSplits(a, front, l);
      ExtractGrows(a + front, frame, l);
      ExtractGrows(front, frame, l);
      assert Extract(a, l) + (Extract(front, l) + FrameWords(frame, l))
             == (Extract(a, l) + Extract(front, l)) + FrameWords(frame, l);
    }
  }

  /** Layout round trip: every whole-frame stream survives embedding and extraction. */
  lemma {:induction false} LayoutRoundTrip(canonical: seq<byte>, l: Layout)
    requires |canonical| % 4 == 0
    ensures Extract(Embed(canonical, l), l) == canonical
    decreases |canonical|
  {
    hide FrameWords, WordsFrame;
    if canonical != [] {
      var n := |canonical| - 4;
      LayoutRoundTrip(canonical[..n], l);
      FrameRoundTrip(canonical[n..], l);
      var raw, front := Embed(canonical, l), Embed(canonical[..n], l);
      assert raw[..|raw| - 8] == front;
      assert raw[|raw| - 8..] == WordsFrame(canonical[n..], l);
    }
  }

  /** Through the wrong half of the slots the stream is all zeros and holds no sync. */
  lemma {:induction false} WrongLaneHasNoSync(canonical: seq<byte>, l: Layout, m: Layout)
    requires |canonical| % 4 == 0 && l.lane != m.lane
    ensures AllZero(Extract(Embed(canonical, l), m)) && Find(Extract(Embed(canonical, l), m)) < 0
    decreases |canonical|
  {
    hide FrameWords, WordsFrame;
    if canonical != [] {
      var n := |canonical| - 4;
      WrongLaneHasNoSync(canonical[..n], l, m);
      OtherLaneIsSilent(canonical[n..], l, m);
      var raw, front := Embed(canonical, l), Embed(canonical[..n], l);
      assert raw[..|raw| - 8] == front;
      assert raw[|raw| - 8..] == WordsFrame(canonical[n..], l);
    }
  }

  /** Unpack one frame and pack its words at `at`. */
  method WriteFrame(out: array<byte>, at: nat, f: seq<byte>, l: Layout)
    requires |f| == 8 && at + 4 <= out.Length
    modifies out
    ensures out[..at + 4] == old(out[..at]) + FrameWords(f, l)
  {
    hide WordOf;
    var first, second := WordOf(f[..4], l.lane), WordOf(f[4..], l.lane);
    if l.order == RL {
      first, second := second, first;
    }
    out[at], out[at + 1] := first % 256, first / 256;
    out[at + 2], out[at + 3] := second % 256, second / 256;
    assert out[..at + 4] == out[..at] + out[at..at + 4];
    assert out[at..at + 4] == LittleWord(first) + LittleWord(second);
  }

  lemma ExtractOneMore(raw: seq<byte>, offset: nat, l: Layout)
    requires offset + 8 <= |raw| && FrameAligned(raw[..offset])
    ensures FrameAligned(raw[..offset + 8])
    ensures Extract(raw[..offset + 8], l) == Extract(raw[..offset], l) + FrameWords(raw[offset..offset + 8], l)
  {
    hide Extract, FrameWords, FrameAligned;
    assert raw[..offset + 8] == raw[..offset] + raw[offset..offset + 8];
    ExtractGrows(raw[..offset], raw[offset..offset + 8], l);
  }

  lemma EmbedNothing(canonical: seq<byte>, l: Layout)
    ensures Embed(canonical[..0], l) == []
  {
  }

  /** Fill `out` with the words of all frames. */
  method FillWords(raw: seq<byte>, frames: nat, l: Layout, out: array<byte>)
    requires |raw| == 8 * frames && out.Length == 4 * frames
    modifies out
    ensures out[..] == Extract(raw, l)
  {
    ExtractNothing(raw, l);
    hide *;
    for k := 0 to frames
      invariant FrameAligned(raw[..8 * k])
      invariant out[..4 * k] == Extract(raw[..8 * k], l)
    {
      ExtractOneMore(raw, 8 * k, l);
      WriteFrame(out, 4 * k, raw[8 * k..8 * k + 8], l);
    }
    assert raw[..8 * frames] == raw && out[..4 * frames] == out[..];
  }

  method ExtractWords(raw: seq<byte>, l: Layout) returns (r: Result<seq<byte>, CaptureError>)
    ensures r.Success? <==> |raw| % 8 == 0
    ensures r.Success? ==> r.value == Extract(raw, l)
    ensures r.Failure? ==> r.error == NotWholeFrames
  {
    hide Extract;
    if |raw| % FRAME_BYTES != 0 {
      return Failure(NotWholeFrames);
    }
    var out := new byte[|raw| / 2](_ => 0);
    FillWords(raw, |raw| / FRAME_BYTES, l, out);
    r := Success(out[..]);
  }

  lemma EmbedOneMore(canonical: seq<byte>, offset: nat, l: Layout)
    requires offset % 4 == 0 && offset + 4 <= |canonical|
    ensures Embed(canonical[..offset + 4], l)
            == Embed(canonical[..offset], l) + WordsFrame(canonical[offset..offset + 4], l)
  {
    hide WordsFrame;
    assert canonical[..offset + 4][..offset] == canonical[..offset];
    assert canonical[..offset + 4][offset..] == canonical[offset..offset + 4];
  }

  lemma FrameAt(canonical: seq<byte>, offset: nat, l: Layout)
    requires offset + 4 <= |canonical|
    ensures var first, second := SlotOf(Word(canonical, offset), l.lane), SlotOf(Word(canonical, offset + 2), l.lane);
            WordsFrame(canonical[offset..offset + 4], l) == if l.order == RL then second + first else first + second
  {
    hide SlotOf;
  }

  method EmbedFrames(canonical: seq<byte>, frames: nat, l: Layout) returns (out: seq<byte>)
    requires |canonical| == 4 * frames
    ensures out == Embed(canonical, l)
  {
    hide SlotOf, Embed, Word, WordsFrame;
    out := [];
    EmbedNothing(canonical, l);
    for k := 0 to frames
      invariant out == Embed(canonical[..4 * k], l)
    {
      var left, right := Word(canonical, 4 * k), Word(canonical, 4 * k + 2);
      if l.order == RL {
        left, right := right, left;
      }
      EmbedOneMore(canonical, 4 * k, l);
      FrameAt(canonical, 4 * k, l);
      out := out + (SlotOf(left, l.lane) + SlotOf(right, l.lane));
    }
    assert canonical[..4 * frames] == canonical;
  }

  method CanonicalToS32(canonical: seq<byte>, l: Layout) returns (r: Result<seq<byte>, CaptureError>)
    ensures r.Success? <==> |canonical| % 4 == 0
    ensures r.Success? ==> r.value == Embed(canonical, l)
    ensures r.Failure? ==> r.error == NotWholeFrames
  {
    hide Embed;
    if |canonical| % 4 != 0 {
      return Failure(NotWholeFrames);
    }
    var out := EmbedFrames(canonical, |canonical| / 4, l);
    r := Success(out);
  }

  // --- Scoring ------------------------------------------------------------------------------------

  datatype Score = Score(layout: Layout, first: int, consecutive: nat, total: nat)

  /** Sync occurrences at or after `i`, overlapping ones included. */
  function SyncCount(b: seq<byte>, i: nat): nat
    requires i <= |b|
    decreases |b| - i
  {
    if i == |b| then 0 else (if SyncAt(b, i) then 1 else 0) + SyncCount(b, i + 1)
  }

  /** Bursts on the exact grid from the first sync. */
  function Consecutive(b: seq<byte>): nat {
    if Find(b) < 0 then 0 else G.BurstCount(b[Find(b)..], BURST_BYTES)
  }

  function ScoreOf(raw: seq<byte>, l: Layout): Score
    requires |raw| % 8 == 0
  {
    var c := Extract(raw, l);
    Score(l, Find(c), Consecutive(c), SyncCount(c, 0))
  }

  lemma {:induction false} NoSyncBetween(b: seq<byte>, i: nat, j: nat)
    requires i <= j <= |b| && forall k :: i <= k < j ==> !SyncAt(b, k)
    ensures SyncCount(b, i) == SyncCount(b, j)
    decreases j - i
  {
    if i < j {
      NoSyncBetween(b, i + 1, j);
    }
  }

  method CountOccurrences(b: seq<byte>) returns (count: nat)
    ensures count == SyncCount(b, 0)
  {
    count := 0;
    var start := 0;
    while true
      invariant start <= |b| && count + SyncCount(b, start) == SyncCount(b, 0)
      decreases |b| - start
    {
      var pos := FindFrom(b, start);
      if pos < 0 {
        NoSyncBetween(b, start, |b|);
        return;
      }
      NoSyncBetween(b, start, pos);
      count := count + 1;
      start := pos + 1;
    }
  }

  method CountConsecutive(canonical: seq<byte>, first: nat) returns (consecutive: nat)
    requires first <= |canonical|
    ensures consecutive == G.BurstCount(canonical[first..], BURST_BYTES)
  {
    hide G.BurstCount, G.Remainder, SyncAt;
    consecutive := 0;
    var offset := first;
    while offset + 8 <= |canonical| && SyncAt(canonical, offset)
      invariant first <= offset
      invariant consecutive + (if offset <= |canonical| then G.BurstCount(canonical[offset..], BURST_BYTES) else 0)
                == G.BurstCount(canonical[first..], BURST_BYTES)
      decreases |canonical| - offset
    {
      G.GridStep(canonical, offset, BURST_BYTES);
      consecutive := consecutive + 1;
      offset := offset + BURST_BYTES;
    }
    if offset <= |canonical| {
      G.GridEnd(canonical, offset, BURST_BYTES);
    }
  }

  method ScoreCandidate(raw: seq<byte>, l: Layout) returns (score: Score, canonical: seq<byte>)
    requires |raw| % 8 == 0
    ensures score == ScoreOf(raw, l) && canonical == Extract(raw, l)
  {
    hide Extract, SyncCount;
    var extracted := ExtractWords(raw, l);
    canonical := extracted.value;
    var first := Find(canonical);
    var total := CountOccurrences(canonical);
    var consecutive := 0;
    if first >= 0 {
      consecutive := CountConsecutive(canonical, first);
    }
    score := Score(l, first, consecutive, total);
  }
}
