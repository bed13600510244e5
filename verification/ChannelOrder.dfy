/**
 * The layout choice with lane and channel order both free, as the capture tools run by default. The
 * half of the slots is always found. The order is the right one unless reading the two words of
 * every frame the other way round shows as many bursts and more syncs in all.
 */
module ChannelOrder {
  import opened Bytes
  import opened Iec61937
  import opened WordLayout
  import opened StreamConverter
  import IM = IngressModel
  import IL = IngressLock
  import G = StrictGate

  function Other(l: Layout): Layout {
    l.(order := if l.order == LR then RL else LR)
  }

  /** Where byte `i` of a stream comes from when the two words of every frame are exchanged. */
  function Partner(i: nat): (p: nat) {
    if i % 4 < 2 then i + 2 else i - 2
  }

  lemma PartnerShifts(m: nat, i: nat)
    requires m % 4 == 0
    ensures Partner(m + i) == m + Partner(i)
  {
    assert m == 4 * (m / 4) && i == 4 * (i / 4) + i % 4;
    assert m + i == 4 * (m / 4 + i / 4) + i % 4;
  }

  lemma PartnerStays(m: nat, i: nat)
    requires m % 4 == 0 && i < m
    ensures Partner(i) < m
  {
    assert m == 4 * (m / 4) && i == 4 * (i / 4) + i % 4;
  }

  /** The two words of every frame exchanged. */
  function SwapPairs(c: seq<byte>): (s: seq<byte>)
    requires |c| % 4 == 0
    ensures |s| == |c|
    ensures forall i :: 0 <= i < |s| ==> Partner(i) < |c| && s[i] == c[Partner(i)]
  {
    assert forall i: nat :: i < |c| ==> Partner(i) < |c| by {
      forall i: nat | i < |c| ensures Partner(i) < |c| {
        PartnerStays(|c|, i);
      }
    }
    hide Partner;
    seq(|c|, i requires 0 <= i < |c| => c[Partner(i)])
  }

  lemma FrameOtherOrder(w: seq<byte>, l: Layout)
    requires |w| == 4
    ensures FrameWords(WordsFrame(w, l), Other(l)) == SwapPairs(w)
  {
    hide WordOf, SlotOf, WordsFrame;
    FrameSlots(w, l);
    SlotRoundTrip(Word(w, 0), l.lane);
    SlotRoundTrip(Word(w, 2), l.lane);
    WordInverse(w);
    assert w == [w[0], w[1], w[2], w[3]] && SwapPairs(w) == [w[2], w[3], w[0], w[1]];
  }

  lemma Multiples(m: nat, n: nat)
    requires m % 4 == 0 && n % 4 == 0
    ensures (m + n) % 4 == 0
  {
  }

  lemma SwapPairsSplits(a: seq<byte>, b: seq<byte>)
    requires |a| % 4 == 0 && |b| % 4 == 0
    ensures |a + b| % 4 == 0 && SwapPairs(a + b) == SwapPairs(a) + SwapPairs(b)
  {
    Multiples(|a|, |b|);
    hide SwapPairs, Partner;
    forall i | 0 <= i < |a + b| ensures SwapPairs(a + b)[i] == (SwapPairs(a) + SwapPairs(b))[i] {
      if i >= |a| {
        PartnerShifts(|a|, i - |a|);
      }
    }
  }

  /** Read in the other order, an embedded stream has the words of every frame exchanged. */
  lemma {:induction false} OtherOrderReads(c: seq<byte>, l: Layout)
    requires |c| % 4 == 0
    ensures Extract(Embed(c, l), Other(l)) == SwapPairs(c)
    decreases |c|
  {
    hide FrameWords, WordsFrame, SwapPairs;
    if c == [] {
      assert SwapPairs(c) == [];
    } else {
      var n := |c| - 4;
      OtherOrderReads(c[..n], l);
      FrameOtherOrder(c[n..], l);
      SwapPairsSplits(c[..n], c[n..]);
      assert c == c[..n] + c[n..];
      var raw, front := Embed(c, l), Embed(c[..n], l);
      assert raw[..|raw| - 8] == front && raw[|raw| - 8..] == WordsFrame(c[n..], l);
    }
  }

  lemma {:induction false} EmbedBeginning(c: seq<byte>, l: Layout, m: nat)
    requires |c| % 4 == 0 && m % 4 == 0 && m <= |c|
    ensures Embed(c, l)[..2 * m] == Embed(c[..m], l)
    decreases |c|
  {
    hide WordsFrame;
    if m == |c| {
      assert c[..m] == c;
    } else {
      var n := |c| - 4;
      WholeBefore(m, |c|);
      assert Embed(c, l)[..2 * n] == Embed(c[..n], l);
      EmbedBeginning(c[..n], l, m);
      assert c[..n][..m] == c[..m];
    }
  }

  lemma WholeBefore(m: nat, n: nat)
    requires m % 4 == 0 && n % 4 == 0 && m < n
    ensures m <= n - 4 && (n - 4) % 4 == 0
  {
  }

  lemma HalfFrames(n: nat)
    requires n % 8 == 0
    ensures n / 2 % 4 == 0 && 2 * (n / 2) == n
  {
    var k := n / 8;
    assert n == 8 * k && n / 2 == 4 * k;
  }

  /** A whole-frame beginning of an embedded stream embeds a whole-frame beginning. */
  lemma EmbedPrefix(c: seq<byte>, l: Layout, front: seq<byte>)
    requires |c| % 4 == 0 && |front| % 8 == 0 && front <= Embed(c, l)
    ensures |front| / 2 <= |c| && |front| / 2 % 4 == 0 && front == Embed(c[..|front| / 2], l)
  {
    hide Embed;
    HalfFrames(|front|);
    EmbedBeginning(c, l, |front| / 2);
  }

  // --- Two readings of the beginning of a train -----------------------------------------------------

  /** A train is on the grid from its first byte for as long as it lasts. */
  lemma {:induction false} FrontOnGrid(payloads: seq<seq<byte>>, a: seq<byte>)
    requires Frameables(TYPE_EAC3, payloads) && a <= IL.Train(TYPE_EAC3, payloads)
    ensures |a| >= 4 ==> SyncAt(a, 0)
    ensures |a| < G.BurstCount(a, BURST_BYTES) * BURST_BYTES + 8
    decreases |payloads|
  {
    if payloads != [] {
      var b, tail := IL.BuildBurst(TYPE_EAC3, payloads[0]), IL.Train(TYPE_EAC3, payloads[1..]);
      IL.BuiltStartsWithSync(TYPE_EAC3, payloads[0]);
      assert IL.Train(TYPE_EAC3, payloads) == b + tail && |b| == BURST_BYTES;
      hide IL.BuildBurst, IL.Train;
      if |a| >= BURST_BYTES {
        assert a[BURST_BYTES..] <= tail;
        FrontOnGrid(payloads[1..], a[BURST_BYTES..]);
      }
    }
  }

  /** Every burst counted on the grid has its header in the stream. */
  lemma {:induction false} GridFits(t: seq<byte>)
    ensures var n := G.BurstCount(t, BURST_BYTES); n > 0 ==> (n - 1) * BURST_BYTES + 8 <= |t|
    decreases |t|
  {
    if |t| >= BURST_BYTES {
      GridFits(t[BURST_BYTES..]);
    }
  }

  /** On a beginning of a train its own order finds a sync at once, and never fewer bursts. */
  lemma OwnOrderLeads(payloads: seq<seq<byte>>, a: seq<byte>)
    requires Frameables(TYPE_EAC3, payloads) && a <= IL.Train(TYPE_EAC3, payloads) && |a| % 4 == 0 && a != []
    ensures Find(a) == 0 && Find(SwapPairs(a)) != 0 && Consecutive(SwapPairs(a)) <= Consecutive(a)
  {
    FrontOnGrid(payloads, a);
    FindIs(a, 0);
    var s := SwapPairs(a);
    assert s[0] == a[2] && a[0..] == a;
    hide IL.Train, G.BurstCount, IL.Frameable, SwapPairs;
    if Find(s) >= 0 {
      GridFits(s[Find(s)..]);
    }
  }

  /** The other order shows as many bursts of this stream, and more syncs in all. */
  predicate Outvoted(a: seq<byte>)
    requires |a| % 4 == 0
  {
    Consecutive(SwapPairs(a)) == Consecutive(a) && SyncCount(SwapPairs(a), 0) > SyncCount(a, 0)
  }

  /** An embedded stream of whole frames. */
  function Slots(a: seq<byte>, l: Layout): (raw: seq<byte>)
    requires |a| % 4 == 0
    ensures |raw| % 8 == 0
  {
    hide Embed;
    WholeFramesDouble(|a|);
    Embed(a, l)
  }

  /** How the stream `a`, embedded in layout `l`, scores when read through `m`. */
  function Reading(a: seq<byte>, l: Layout, m: Layout): Score
    requires |a| % 4 == 0
  {
    ScoreOf(Slots(a, l), m)
  }

  lemma ReadingsOfBoth(a: seq<byte>, l: Layout)
    requires |a| % 4 == 0
    ensures Reading(a, l, l) == Score(l, Find(a), Consecutive(a), SyncCount(a, 0))
    ensures var s := SwapPairs(a);
            Reading(a, l, Other(l)) == Score(Other(l), Find(s), Consecutive(s), SyncCount(s, 0))
  {
    LayoutRoundTrip(a, l);
    OtherOrderReads(a, l);
    hide Extract, Embed, SwapPairs, Consecutive, SyncCount;
  }

  lemma ReadingOfOtherLane(a: seq<byte>, l: Layout, m: Layout)
    requires |a| % 4 == 0 && m.lane != l.lane
    ensures Reading(a, l, m).consecutive == 0
  {
    hide ScoreOf, Embed;
    OtherLaneScoresNothing(a, l, Slots(a, l), m);
  }

  lemma OneOrderIsAhead(own: Score, other: Score)
    requires own.first == 0 && other.first != 0 && other.consecutive <= own.consecutive
    ensures var outvoted := other.consecutive == own.consecutive && other.total > own.total;
            if outvoted then Ahead(other, own) && !Ahead(own, other) else Ahead(own, other) && !Ahead(other, own)
  {
  }

  /** The better of the layout of an embedded train and the other order of it. */
  function Winner(a: seq<byte>, l: Layout): Layout
    requires |a| % 4 == 0
  {
    if Outvoted(a) then Other(l) else l
  }

  lemma TwoOrders(l: Layout, m: Layout)
    ensures Other(l) != l && (m.lane == l.lane ==> m == l || m == Other(l))
  {
    assert m == Layout(m.lane, m.order) && l == Layout(l.lane, l.order);
  }

  lemma AllFour(m: Layout)
    ensures m in Choices(None, None)
  {
    var c := Choices(None, None);
    assert c[0] == Layout(High16, LR) && c[1] == Layout(High16, RL);
    assert c[2] == Layout(Low16, LR) && c[3] == Layout(Low16, RL);
    assert (m.lane == High16 || m.lane == Low16) && (m.order == LR || m.order == RL);
    assert m == Layout(m.lane, m.order) && (m == c[0] || m == c[1] || m == c[2] || m == c[3]);
  }

  /** No reading of the beginning of a train has more bursts than the winner, and if it has any burst at
      all every other reading is behind. */
  lemma WinnerLeads(payloads: seq<seq<byte>>, a: seq<byte>, l: Layout, n: Layout)
    requires Frameables(TYPE_EAC3, payloads) && a <= IL.Train(TYPE_EAC3, payloads) && |a| % 4 == 0 && a != []
    ensures Reading(a, l, Winner(a, l)).consecutive == Consecutive(a)
    ensures Reading(a, l, n).consecutive <= Consecutive(a)
    ensures Consecutive(a) > 0 && n != Winner(a, l) ==> Ahead(Reading(a, l, Winner(a, l)), Reading(a, l, n))
  {
    OwnOrderLeads(payloads, a);
    ReadingsOfBoth(a, l);
    hide Reading, IL.Train, IL.Frameable, SwapPairs, Consecutive, SyncCount, Find;
    OneOrderIsAhead(Reading(a, l, l), Reading(a, l, Other(l)));
    TwoOrders(l, n);
    if n.lane != l.lane {
      ReadingOfOtherLane(a, l, n);
    }
  }

  /** What is strictly ahead of every other choice is the one that stands out, if any does. */
  lemma LeaderStandsOut(raw: seq<byte>, choices: seq<Layout>, lockBursts: int, best: Layout, m: Layout)
    requires |raw| % 8 == 0 && best in choices && ScoreOf(raw, best).consecutive >= lockBursts
    requires forall n :: n in choices && n != best ==> Ahead(ScoreOf(raw, best), ScoreOf(raw, n))
    ensures StandsOut(raw, choices, lockBursts, m) <==> m == best
  {
    hide ScoreOf;
  }

  lemma NoneStandsOut(raw: seq<byte>, choices: seq<Layout>, lockBursts: int, m: Layout)
    requires |raw| % 8 == 0 && forall n :: n in choices ==> ScoreOf(raw, n).consecutive < lockBursts
    ensures !StandsOut(raw, choices, lockBursts, m)
  {
    hide ScoreOf;
  }

  /** With lane and order free, what stands out on the beginning of an embedded train is the train's own
      layout, or that of the other order exactly if its own is outvoted. */
  lemma FreeStandsOut(payloads: seq<seq<byte>>, a: seq<byte>, l: Layout, lockBursts: int, m: Layout)
    requires Frameables(TYPE_EAC3, payloads) && a <= IL.Train(TYPE_EAC3, payloads) && |a| % 4 == 0 && a != []
    requires lockBursts > 0
    ensures StandsOut(Slots(a, l), Choices(None, None), lockBursts, m) <==>
            Consecutive(a) >= lockBursts && m == Winner(a, l)
  {
    hide ScoreOf, StandsOut, Slots, IL.Train, Frameables, Choices, Consecutive, Ahead, Winner;
    var raw, best := Slots(a, l), Winner(a, l);
    AllFour(best);
    WinnerLeads(payloads, a, l, best);
    if Consecutive(a) < lockBursts {
      forall n ensures ScoreOf(raw, n).consecutive < lockBursts {
        WinnerLeads(payloads, a, l, n);
      }
      NoneStandsOut(raw, Choices(None, None), lockBursts, m);
    } else {
      forall n | n != best ensures Ahead(ScoreOf(raw, best), ScoreOf(raw, n)) {
        WinnerLeads(payloads, a, l, n);
      }
      LeaderStandsOut(raw, Choices(None, None), lockBursts, best, m);
    }
  }

  // --- The converter with nothing given --------------------------------------------------------------

  /** What was on the wire when the lock was decided. */
  ghost function HeardBy(c: Converter, train: seq<byte>): (a: seq<byte>)
    requires c.Valid() && |c.decided| / 2 <= |train|
    reads c
  {
    train[..|c.decided| / 2]
  }

  /** A lock on the beginning of an embedded train is on its own layout, or on the other order exactly if
      that had outvoted it when the lock was decided. */
  lemma FreeLock(c: Converter, payloads: seq<seq<byte>>, l: Layout)
    requires Frameables(TYPE_EAC3, payloads) && c.lockBursts > 0
    requires c.Valid() && c.lane == None && c.order == None && c.selected.Some?
    requires c.aligned <= Carried(TYPE_EAC3, payloads, l)
    ensures |c.decided| / 2 <= |IL.Train(TYPE_EAC3, payloads)|
    ensures var a := HeardBy(c, IL.Train(TYPE_EAC3, payloads));
            |a| % 4 == 0 && c.selected == Some(Winner(a, l))
  {
    var train := IL.Train(TYPE_EAC3, payloads);
    TrainIsWholeFrames(TYPE_EAC3, payloads);
    assert c.decided <= Embed(train, l);
    hide IL.Train, IL.Frameable, StandsOut, Choices, Outvoted;
    EmbedPrefix(train, l, c.decided);
    FreeStandsOut(payloads, HeardBy(c, train), l, c.lockBursts, c.selected.value);
  }

  /** Slots to lock with nothing given, in any pieces: a converter fed an embedded train of enough bursts
      has locked, and unless the other order had outvoted it when the lock was decided the train has
      come out byte for byte and locks the classifier; otherwise its words came out exchanged. */
  lemma FreeTrainLocks(c: Converter, payloads: seq<seq<byte>>, l: Layout, k: nat, pieces: seq<seq<byte>>)
    requires Frameables(TYPE_EAC3, payloads) && 0 < k <= |payloads| && 0 < c.lockBursts <= |payloads|
    requires c.Valid() && c.lane == None && c.order == None && IM.Concat(pieces) == c.emitted
    requires c.input == Carried(TYPE_EAC3, payloads, l)
    requires c.selected.Some? || |c.input| <= c.maxProbeBytes
    ensures c.remainder == [] && |c.decided| / 2 <= |IL.Train(TYPE_EAC3, payloads)|
    ensures var train := IL.Train(TYPE_EAC3, payloads);
            var a := HeardBy(c, train);
            && |a| % 4 == 0 && |train| % 4 == 0
            && c.selected == Some(Winner(a, l))
            && c.emitted == (if Outvoted(a) then SwapPairs(train) else train)
            && (!Outvoted(a) ==> LocksClean(k, TYPE_EAC3, pieces, |payloads|))
  {
    var train := IL.Train(TYPE_EAC3, payloads);
    TrainIsWholeFrames(TYPE_EAC3, payloads);
    CarriedIsNotEmpty(payloads, l);
    TrainOnGrid(payloads);
    assert train[0..] == train && c.input == Embed(train, l);
    hide IL.Train, IL.Frameable, StandsOut, Choices, Outvoted, Extract, Embed, SwapPairs, LocksClean;
    c.WholeInput();
    if c.selected.None? {
      FreeStandsOut(payloads, train, l, c.lockBursts, Winner(train, l));
      assert false;
    }
    FreeLock(c, payloads, l);
    OtherOrderReads(train, l);
    LayoutRoundTrip(train, l);
    if c.selected == Some(l) {
      ChainLocks(k, TYPE_EAC3, payloads, l, pieces);
    }
  }

  /** A train whose exchanged words hold no sync is never outvoted. */
  lemma NeverOutvoted(train: seq<byte>, a: seq<byte>)
    requires |train| % 4 == 0 && |a| % 4 == 0 && a <= train && Find(SwapPairs(train)) < 0
    ensures !Outvoted(a)
  {
    var s := SwapPairs(a);
    assert forall i :: 0 <= i < |s| ==> s[i] == SwapPairs(train)[i];
    assert forall i :: SyncAt(s, i) ==> SyncAt(SwapPairs(train), i);
    NoSyncBetween(s, 0, |s|);
  }

  /** Such a train comes out byte for byte and locks the classifier. */
  lemma PlainTrainLocks(c: Converter, payloads: seq<seq<byte>>, l: Layout, k: nat, pieces: seq<seq<byte>>)
    requires Frameables(TYPE_EAC3, payloads) && 0 < k <= |payloads| && 0 < c.lockBursts <= |payloads|
    requires c.Valid() && c.lane == None && c.order == None && IM.Concat(pieces) == c.emitted
    requires c.input == Carried(TYPE_EAC3, payloads, l)
    requires c.selected.Some? || |c.input| <= c.maxProbeBytes
    requires |IL.Train(TYPE_EAC3, payloads)| % 4 == 0 && Find(SwapPairs(IL.Train(TYPE_EAC3, payloads))) < 0
    ensures c.selected == Some(l) && c.emitted == IL.Train(TYPE_EAC3, payloads) && c.remainder == []
    ensures LocksClean(k, TYPE_EAC3, pieces, |payloads|)
  {
    hide StandsOut, Extract, Choices, Carried, IL.Frameable, IL.Train, Outvoted, SwapPairs, LocksClean;
    FreeTrainLocks(c, payloads, l, k, pieces);
    NeverOutvoted(IL.Train(TYPE_EAC3, payloads), HeardBy(c, IL.Train(TYPE_EAC3, payloads)));
  }

  /** From slots to lock with nothing given, under any chunking: if the exchanged words of the train hold no
      sync, its layout is found and the classifier fed with the output is locked on the train. */
  method FreeTrainThroughChain(c: Converter, chunks: seq<seq<byte>>, ghost payloads: seq<seq<byte>>, ghost l: Layout)
      returns (pieces: seq<seq<byte>>, r: Result<Layout, CaptureError>)
    requires c.Valid() && c.input == [] && c.lane == None && c.order == None
    requires Frameables(TYPE_EAC3, payloads) && 0 < c.lockBursts <= |payloads|
    requires IM.Concat(chunks) == Carried(TYPE_EAC3, payloads, l) && |IM.Concat(chunks)| <= c.maxProbeBytes
    requires |IL.Train(TYPE_EAC3, payloads)| % 4 == 0 && Find(SwapPairs(IL.Train(TYPE_EAC3, payloads))) < 0
    modifies c
    ensures r == Success(l) && IM.Concat(pieces) == IL.Train(TYPE_EAC3, payloads)
    ensures forall k: nat :: 0 < k <= |payloads| ==> LocksClean(k, TYPE_EAC3, pieces, |payloads|)
  {
    hide StandsOut, Extract, Choices, Carried, IL.Frameable, Converter.Valid, IL.Train, SwapPairs, LocksClean;
    pieces, r := StreamAll(c, chunks);
    forall k: nat | 0 < k <= |payloads| ensures LocksClean(k, TYPE_EAC3, pieces, |payloads|) {
      PlainTrainLocks(c, payloads, l, k, pieces);
    }
    PlainTrainLocks(c, payloads, l, 1, pieces);
  }

  // --- A train that is locked in the wrong order ------------------------------------------------------

  /** A payload that twice spells a sync with its words exchanged. */
  function TwoFalseSyncs(): (p: seq<byte>)
    ensures IL.Frameable(TYPE_EAC3, p)
  {
    [0x0B, 0x77, 0, 0, 0x4E, 0x1F, 0xF8, 0x72, 0, 0, 0, 0, 0x4E, 0x1F, 0xF8, 0x72]
  }

  const FALSE_BURST: seq<byte> := [0x72, 0xF8, 0x1F, 0x4E, 0x15, 0, 0x10, 0, 0x77, 0x0B, 0, 0,
                                   0x1F, 0x4E, 0x72, 0xF8, 0, 0, 0, 0, 0x1F, 0x4E, 0x72, 0xF8]
  const FALSE_READING: seq<byte> := [0x1F, 0x4E, 0x72, 0xF8, 0x10, 0, 0x15, 0, 0, 0, 0x77, 0x0B,
                                     0x72, 0xF8, 0x1F, 0x4E, 0, 0, 0, 0, 0x72, 0xF8, 0x1F, 0x4E]

  /** One burst long, with these bytes in front and zeros behind. */
  predicate Padded(b: seq<byte>, front: seq<byte>) {
    |b| == BURST_BYTES && |front| == 24 && b[..24] == front && forall i :: 24 <= i < |b| ==> b[i] == 0
  }

  lemma FalseHeader()
    ensures Preamble(TYPE_EAC3, 16) == FALSE_BURST[..8]
  {
  }

  lemma FalseByte(i: nat)
    requires i < 16
    ensures Swap16(TwoFalseSyncs())[i] == FALSE_BURST[8 + i]
  {
    assert i == 0 || i == 1 || i == 2 || i == 3 || i == 4 || i == 5 || i == 6 || i == 7
           || i == 8 || i == 9 || i == 10 || i == 11 || i == 12 || i == 13 || i == 14 || i == 15;
  }

  lemma FalseContent()
    ensures |FALSE_BURST| == 24 && Swap16(TwoFalseSyncs()) == FALSE_BURST[8..]
  {
    assert |TwoFalseSyncs()| == 16 && |FALSE_BURST| == 24;
    hide TwoFalseSyncs, Swap16, FALSE_BURST;
    forall i | 0 <= i < 16 ensures Swap16(TwoFalseSyncs())[i] == FALSE_BURST[8..][i] {
      FalseByte(i);
    }
  }

  lemma FalseBurst(b: seq<byte>)
    requires b == IL.BuildBurst(TYPE_EAC3, TwoFalseSyncs())
    ensures Padded(b, FALSE_BURST)
  {
    var p := TwoFalseSyncs();
    assert |p| == 16 && b == Preamble(TYPE_EAC3, 16) + Swap16(p) + Zeros(BURST_BYTES - 24);
    FalseHeader();
    FalseContent();
    hide Preamble, Swap16, Zeros, TwoFalseSyncs, IL.BuildBurst;
    assert b[..24] == Preamble(TYPE_EAC3, 16) + Swap16(p) && b[24..] == Zeros(BURST_BYTES - 24);
    assert forall i :: 24 <= i < |b| ==> b[i] == b[24..][i - 24];
  }

  lemma FalseFront(i: nat)
    requires i < 24
    ensures Partner(i) < 24 && FALSE_READING[i] == FALSE_BURST[Partner(i)]
  {
  }

  lemma FalseReading(b: seq<byte>)
    requires Padded(b, FALSE_BURST)
    ensures |b| % 4 == 0 && Padded(SwapPairs(b), FALSE_READING)
  {
    var s := SwapPairs(b);
    hide SwapPairs, Partner, FALSE_READING, FALSE_BURST;
    assert |FALSE_READING| == 24 by {
      FalseLength();
    }
    forall i | 0 <= i < 24 ensures s[i] == FALSE_READING[i] {
      FalseFront(i);
      assert s[i] == b[..24][Partner(i)];
    }
    forall i | 24 <= i < |s| ensures s[i] == 0 {
      PartnerShifts(24, i - 24);
    }
  }

  lemma FalseLength()
    ensures |FALSE_READING| == 24
  {
  }

  lemma OwnSyncs(b: seq<byte>, i: int)
    requires Padded(b, FALSE_BURST)
    ensures SyncAt(b, i) <==> i == 0
  {
    assert forall k :: 0 <= k < 24 ==> b[k] == FALSE_BURST[k];
  }

  lemma OtherSyncs(s: seq<byte>, i: int)
    requires Padded(s, FALSE_READING)
    ensures SyncAt(s, i) <==> i == 12 || i == 20
  {
    assert forall k :: 0 <= k < 24 ==> s[k] == FALSE_READING[k];
  }

  // --- As many such bursts as the threshold asks for --------------------------------------------------

  function Copies<T>(x: T, n: nat): (s: seq<T>)
    ensures |s| == n && forall i :: 0 <= i < n ==> s[i] == x
  {
    seq(n, _ => x)
  }

  function Repeated(x: seq<byte>, n: nat): (r: seq<byte>) {
    if n == 0 then [] else x + Repeated(x, n - 1)
  }

  lemma {:induction false} CountShifts(x: seq<byte>, t: seq<byte>, i: nat)
    requires i <= |t|
    ensures SyncCount(x + t, |x| + i) == SyncCount(t, i)
    decreases |t| - i
  {
    if i < |t| {
      assert SyncAt(x + t, |x| + i) <==> SyncAt(t, i);
      CountShifts(x, t, i + 1);
    }
  }

  /** Padding keeps a sync from reaching into what follows, so the counts add up. */
  lemma {:induction false} CountsAdd(x: seq<byte>, front: seq<byte>, t: seq<byte>, i: nat)
    requires Padded(x, front) && i <= |x|
    ensures SyncCount(x + t, i) == SyncCount(x, i) + SyncCount(t, 0)
    decreases |x| - i
  {
    if i == |x| {
      CountShifts(x, t, 0);
    } else {
      assert SyncAt(x + t, i) <==> SyncAt(x, i);
      CountsAdd(x, front, t, i + 1);
    }
  }

  lemma {:induction false} RepeatedCounts(x: seq<byte>, front: seq<byte>, n: nat)
    requires Padded(x, front)
    ensures |Repeated(x, n)| == n * BURST_BYTES
    ensures SyncCount(Repeated(x, n), 0) == n * SyncCount(x, 0)
  {
    hide Padded, SyncCount;
    if n > 0 {
      RepeatedCounts(x, front, n - 1);
      assert |x| == BURST_BYTES by {
        PaddedLength(x, front);
      }
      CountsAdd(x, front, Repeated(x, n - 1), 0);
      OneMore(n - 1, SyncCount(x, 0));
    } else {
      NothingCounted();
    }
  }

  lemma NothingCounted()
    ensures SyncCount([], 0) == 0
  {
  }

  lemma OneMore(n: nat, c: nat)
    ensures n * c + c == (n + 1) * c
  {
  }

  lemma PaddedLength(x: seq<byte>, front: seq<byte>)
    requires Padded(x, front)
    ensures |x| == BURST_BYTES
  {
  }

  /** From a sync anywhere in the burst, its repetitions are on the grid. */
  lemma {:induction false} RepeatedOnGrid(x: seq<byte>, n: nat, f: nat)
    requires |x| == BURST_BYTES && f <= BURST_BYTES - 8 && SyncAt(x, f)
    ensures n > 0 ==> f <= |Repeated(x, n)| && G.BurstCount(Repeated(x, n)[f..], BURST_BYTES) == n
  {
    if n > 0 {
      var rest := Repeated(x, n - 1);
      RepeatedOnGrid(x, n - 1, f);
      var t := (x + rest)[f..];
      assert SyncAt(t, 0);
      if n > 1 {
        assert |rest| >= f && t[BURST_BYTES..] == rest[f..];
      } else if f == 0 {
        assert t[BURST_BYTES..] == [];
      }
    }
  }

  /** Where the first sync of the burst is, there is the first of its repetitions. */
  lemma RepeatedRanks(x: seq<byte>, front: seq<byte>, n: nat, f: nat)
    requires Padded(x, front) && f < 24 && SyncAt(x, f) && Find(x) == f && n > 0
    ensures Consecutive(Repeated(x, n)) == n && SyncCount(Repeated(x, n), 0) == n * SyncCount(x, 0)
  {
    RepeatedCounts(x, front, n);
    RepeatedOnGrid(x, n, f);
    var r := Repeated(x, n);
    assert forall i :: 0 <= i < |x| ==> r[i] == x[i];
    assert SyncAt(r, f) && forall i :: 0 <= i < f ==> (SyncAt(r, i) <==> SyncAt(x, i));
    FindIs(r, f);
  }

  lemma {:induction false} RepeatedSwaps(x: seq<byte>, n: nat)
    requires |x| % 4 == 0
    ensures |Repeated(x, n)| % 4 == 0 && SwapPairs(Repeated(x, n)) == Repeated(SwapPairs(x), n)
  {
    hide SwapPairs;
    if n > 0 {
      RepeatedSwaps(x, n - 1);
      SwapPairsSplits(x, Repeated(x, n - 1));
    } else {
      assert SwapPairs([]) == [];
    }
  }

  lemma {:induction false} TrainOfCopies(p: seq<byte>, n: nat)
    requires IL.Frameable(TYPE_EAC3, p)
    ensures Frameables(TYPE_EAC3, Copies(p, n))
    ensures IL.Train(TYPE_EAC3, Copies(p, n)) == Repeated(IL.BuildBurst(TYPE_EAC3, p), n)
  {
    hide IL.BuildBurst, IL.Frameable;
    if n > 0 {
      TrainOfCopies(p, n - 1);
      assert Copies(p, n)[1..] == Copies(p, n - 1);
    }
  }

  lemma OwnCounts(b: seq<byte>)
    requires Padded(b, FALSE_BURST)
    ensures Find(b) == 0 && SyncCount(b, 0) == 1
  {
    forall i: int ensures SyncAt(b, i) <==> i == 0 {
      OwnSyncs(b, i);
    }
    hide FALSE_BURST, SyncAt;
    FindIs(b, 0);
    NoSyncBetween(b, 1, |b|);
    assert SyncCount(b, 0) == 1 + SyncCount(b, 1);
  }

  lemma OtherCounts(s: seq<byte>)
    requires Padded(s, FALSE_READING)
    ensures Find(s) == 12 && SyncCount(s, 0) == 2
  {
    forall i: int ensures SyncAt(s, i) <==> i == 12 || i == 20 {
      OtherSyncs(s, i);
    }
    hide FALSE_READING, SyncAt;
    FindIs(s, 12);
    NoSyncBetween(s, 0, 12);
    NoSyncBetween(s, 13, 20);
    NoSyncBetween(s, 21, |s|);
    assert SyncCount(s, 12) == 1 + SyncCount(s, 13) && SyncCount(s, 20) == 1 + SyncCount(s, 21);
  }

  lemma CopiesAreOutvoted(b: seq<byte>, n: nat)
    requires Padded(b, FALSE_BURST) && n > 0
    ensures |Repeated(b, n)| % 4 == 0 && Outvoted(Repeated(b, n)) && Consecutive(Repeated(b, n)) == n
  {
    FalseReading(b);
    OwnCounts(b);
    OtherCounts(SwapPairs(b));
    RepeatedSwaps(b, n);
    hide FALSE_BURST, FALSE_READING, Padded, SwapPairs, Consecutive, SyncCount, Repeated;
    RepeatedRanks(b, FALSE_BURST, n, 0);
    RepeatedRanks(SwapPairs(b), FALSE_READING, n, 12);
  }

  /** Streaming and batch alike then take the wrong order, whatever the threshold: of a train of that many
      such bursts, and of no other layout, the other order stands out. */
  lemma WrongOrderStandsOut(l: Layout, lockBursts: nat)
    requires lockBursts > 0
    ensures var payloads := Copies(TwoFalseSyncs(), lockBursts);
            && Frameables(TYPE_EAC3, payloads)
            && forall m :: StandsOut(Carried(TYPE_EAC3, payloads, l), Choices(None, None), lockBursts, m)
                           <==> m == Other(l)
  {
    var payloads := Copies(TwoFalseSyncs(), lockBursts);
    var b := IL.BuildBurst(TYPE_EAC3, TwoFalseSyncs());
    FalseBurst(b);
    TrainOfCopies(TwoFalseSyncs(), lockBursts);
    CopiesAreOutvoted(b, lockBursts);
    hide TwoFalseSyncs, IL.BuildBurst, IL.Frameable, FALSE_BURST, Padded, Repeated, Outvoted, Copies;
    hide StandsOut, Choices, IL.Train, Embed;
    forall m ensures StandsOut(Carried(TYPE_EAC3, payloads, l), Choices(None, None), lockBursts, m) <==> m == Other(l) {
      FreeStandsOut(payloads, IL.Train(TYPE_EAC3, payloads), l, lockBursts, m);
    }
  }
}
