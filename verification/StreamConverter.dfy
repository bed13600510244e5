/** The streaming converter: probe raw ALSA frames until one word layout stands out, then convert. */
module StreamConverter {
  import opened Bytes
  import opened Iec61937
  import opened WordLayout
  import IM = IngressModel
  import IL = IngressLock
  import G = StrictGate

  // --- Choosing a layout ----------------------------------------------------------------------

  /** Position of the first sync as the sort key sees it: earlier is better, none is worst. */
  function Earliness(s: Score): int {
    if s.first >= 0 then -s.first else -0x4000_0000_0000_0000
  }

  /** Strictly ahead by (consecutive bursts, total syncs, earliest sync). */
  predicate Ahead(a: Score, b: Score) {
    || a.consecutive > b.consecutive
    || (a.consecutive == b.consecutive && a.total > b.total)
    || (a.consecutive == b.consecutive && a.total == b.total && Earliness(a) > Earliness(b))
  }

  predicate SameRank(a: Score, b: Score) {
    a.consecutive == b.consecutive && a.total == b.total && a.first == b.first
  }

  /** Layout `l` has at least `lockBursts` bursts and is strictly ahead of every other choice. */
  predicate StandsOut(raw: seq<byte>, choices: seq<Layout>, lockBursts: int, l: Layout)
    requires |raw| % 8 == 0
  {
    && l in choices
    && ScoreOf(raw, l).consecutive >= lockBursts
    && forall m :: m in choices && m != l ==> Ahead(ScoreOf(raw, l), ScoreOf(raw, m))
  }

  function Choices(lane: Option<Lane>, order: Option<Order>): (c: seq<Layout>)
    ensures |c| > 0
    ensures forall i, j :: 0 <= i < j < |c| ==> c[i] != c[j]
  {
    var lanes := if lane.Some? then [lane.value] else [High16, Low16];
    var orders := if order.Some? then [order.value] else [LR, RL];
    if |lanes| == 1 && |orders| == 1 then [Layout(lanes[0], orders[0])]
    else if |lanes| == 1 then [Layout(lanes[0], LR), Layout(lanes[0], RL)]
    else if |orders| == 1 then [Layout(High16, orders[0]), Layout(Low16, orders[0])]
    else [Layout(High16, LR), Layout(High16, RL), Layout(Low16, LR), Layout(Low16, RL)]
  }

  /** A sync is found exactly when one is counted: equal totals leave no doubt about `first`. */
  lemma ScoreIsCoherent(raw: seq<byte>, l: Layout)
    requires |raw| % 8 == 0
    ensures var s := ScoreOf(raw, l);
            (s.first >= 0 <==> s.total > 0) && (s.first < 0 ==> s.first == -1 && s.consecutive == 0)
  {
    var c := Extract(raw, l);
    if Find(c) < 0 {
      NoSyncBetween(c, 0, |c|);
    } else {
      NoSyncBetween(c, 0, Find(c));
    }
  }

  /** Scores that are not strictly ordered either way are tied in every component. */
  lemma TiedScores(raw: seq<byte>, l: Layout, m: Layout)
    requires |raw| % 8 == 0
    ensures var a, b := ScoreOf(raw, l), ScoreOf(raw, m);
            (!Ahead(a, b) && !Ahead(b, a) <==> SameRank(a, b)) && !(Ahead(a, b) && Ahead(b, a))
  {
    ScoreIsCoherent(raw, l);
    ScoreIsCoherent(raw, m);
  }

  predicate Sorted(s: seq<Score>) {
    forall i, j :: 0 <= i < j < |s| ==> !Ahead(s[j], s[i])
  }

  lemma AheadIsTransitive(a: Score, b: Score, c: Score)
    ensures !Ahead(b, a) && !Ahead(c, b) ==> !Ahead(c, a)
  {
  }

  /** Where `x` goes: behind everything it is not strictly ahead of. */
  method InsertPosition(sorted: seq<Score>, x: Score) returns (p: nat)
    requires Sorted(sorted)
    ensures p <= |sorted|
    ensures forall j :: p <= j < |sorted| ==> Ahead(x, sorted[j])
    ensures forall j :: 0 <= j < p ==> !Ahead(x, sorted[j])
  {
    hide Ahead;
    p := |sorted|;
    while p > 0 && Ahead(x, sorted[p - 1])
      invariant 0 <= p <= |sorted|
      invariant forall j :: p <= j < |sorted| ==> Ahead(x, sorted[j])
    {
      p := p - 1;
    }
    forall j | 0 <= j < p ensures !Ahead(x, sorted[j]) {
      AheadIsTransitive(sorted[j], sorted[p - 1], x);
    }
  }

  lemma InsertKeepsSorted(sorted: seq<Score>, x: Score, p: nat)
    requires Sorted(sorted) && p <= |sorted|
    requires forall j :: p <= j < |sorted| ==> Ahead(x, sorted[j])
    requires forall j :: 0 <= j < p ==> !Ahead(x, sorted[j])
    ensures var s := sorted[..p] + [x] + sorted[p..];
            Sorted(s) && multiset(s) == multiset(sorted) + multiset{x}
  {
    var s := sorted[..p] + [x] + sorted[p..];
    assert sorted == sorted[..p] + sorted[p..];
    forall i, j | 0 <= i < j < |s| ensures !Ahead(s[j], s[i]) {
      if i == p {
        assert Ahead(x, sorted[j - 1]);
      }
    }
  }

  /** The scores with the sort key of `x`, in the order they stand. */
  function Tied(s: seq<Score>, x: Score): seq<Score> {
    if s == [] then []
    else
      var last := s[|s| - 1];
      Tied(s[..|s| - 1], x) + (if Ahead(last, x) || Ahead(x, last) then [] else [last])
  }

  /** Scores with the same key stand in the same order. */
  ghost predicate Stable(s: seq<Score>, t: seq<Score>) {
    forall x :: Tied(s, x) == Tied(t, x)
  }

  lemma {:induction false} TiedConcat(a: seq<Score>, b: seq<Score>, x: Score)
    ensures Tied(a + b, x) == Tied(a, x) + Tied(b, x)
  {
    hide Ahead;
    if b == [] {
      assert a + b == a;
    } else {
      var n := |b| - 1;
      TiedConcat(a, b[..n], x);
      assert (a + b)[..|a + b| - 1] == a + b[..n];
    }
  }

  /** Nothing that `y` is strictly ahead of has the key of `y`. */
  lemma {:induction false} NoneTied(s: seq<Score>, x: Score, y: Score)
    requires !Ahead(x, y) && !Ahead(y, x) && forall j :: 0 <= j < |s| ==> Ahead(y, s[j])
    ensures Tied(s, x) == []
  {
    if s != [] {
      NoneTied(s[..|s| - 1], x, y);
      assert Ahead(y, s[|s| - 1]);
    }
  }

  lemma InsertIsStable(sorted: seq<Score>, y: Score, p: nat, x: Score)
    requires p <= |sorted| && forall j :: p <= j < |sorted| ==> Ahead(y, sorted[j])
    ensures Tied(sorted[..p] + [y] + sorted[p..], x) == Tied(sorted + [y], x)
  {
    hide Ahead;
    TiedConcat(sorted[..p] + [y], sorted[p..], x);
    TiedConcat(sorted[..p], [y], x);
    TiedConcat(sorted, [y], x);
    assert sorted == sorted[..p] + sorted[p..];
    TiedConcat(sorted[..p], sorted[p..], x);
    if !Ahead(x, y) && !Ahead(y, x) {
      NoneTied(sorted[p..], x, y);
    } else {
      assert [y][..0] == [];
    }
  }

  /** Sorting one more score stays stable. */
  lemma StableStep(sorted: seq<Score>, y: Score, p: nat, scores: seq<Score>)
    requires p <= |sorted| && forall j :: p <= j < |sorted| ==> Ahead(y, sorted[j])
    requires Stable(sorted, scores)
    ensures Stable(sorted[..p] + [y] + sorted[p..], scores + [y])
  {
    hide Ahead, Tied;
    forall x ensures Tied(sorted[..p] + [y] + sorted[p..], x) == Tied(scores + [y], x) {
      InsertIsStable(sorted, y, p, x);
      TiedConcat(sorted, [y], x);
      TiedConcat(scores, [y], x);
    }
  }

  /** Descending and stable: the order a keyed sort with `reverse` gives. */
  method SortScores(scores: seq<Score>) returns (sorted: seq<Score>)
    ensures multiset(sorted) == multiset(scores) && Sorted(sorted) && Stable(sorted, scores)
  {
    hide Ahead, Sorted, Stable;
    sorted := [];
    assert Sorted(sorted) && Stable(sorted, scores[..0]) by { EmptyIsSorted(); }
    for k := 0 to |scores|
      invariant multiset(sorted) == multiset(scores[..k]) && Sorted(sorted) && Stable(sorted, scores[..k])
    {
      var p := InsertPosition(sorted, scores[k]);
      InsertKeepsSorted(sorted, scores[k], p);
      StableStep(sorted, scores[k], p, scores[..k]);
      assert scores[..k + 1] == scores[..k] + [scores[k]];
      sorted := sorted[..p] + [scores[k]] + sorted[p..];
    }
    assert scores[..|scores|] == scores;
  }

  lemma EmptyIsSorted()
    ensures Sorted([]) && Stable([], [])
  {
  }

  predicate DistinctScores(s: seq<Score>) {
    forall i, j :: 0 <= i < j < |s| ==> s[i] != s[j]
  }

  lemma {:induction false} AtMostOnce(s: seq<Score>, x: Score)
    requires DistinctScores(s)
    ensures multiset(s)[x] <= 1
  {
    if s != [] {
      var n := |s| - 1;
      AtMostOnce(s[..n], x);
      assert s == s[..n] + [s[n]];
      if x == s[n] {
        assert x !in s[..n];
      }
    }
  }

  lemma SortedKeeps(scores: seq<Score>, sorted: seq<Score>)
    requires multiset(scores) == multiset(sorted) && DistinctScores(scores)
    ensures |sorted| == |scores| && DistinctScores(sorted)
    ensures forall x :: x in scores <==> x in sorted
  {
    assert |multiset(sorted)| == |multiset(scores)|;
    forall i, j | 0 <= i < j < |sorted| ensures sorted[i] != sorted[j] {
      AtMostOnce(scores, sorted[j]);
      assert sorted == sorted[..j] + [sorted[j]] + sorted[j + 1..];
      assert multiset(sorted)[sorted[j]] >= multiset(sorted[..j])[sorted[j]] + 1;
      assert sorted[i] in sorted[..j];
    }
    forall x ensures x in scores <==> x in sorted {
      assert x in multiset(scores) <==> x in multiset(sorted);
    }
  }

  /** Whether anything but the front among the first `k` has the rank of the front. */
  predicate TiedBelow(sorted: seq<Score>, k: nat)
    requires k <= |sorted|
  {
    exists j :: 0 < j < k && SameRank(sorted[j], sorted[0])
  }

  predicate FrontTied(sorted: seq<Score>) {
    TiedBelow(sorted, |sorted|)
  }

  lemma TiedStep(sorted: seq<Score>, k: nat)
    requires k < |sorted|
    ensures TiedBelow(sorted, k + 1) <==> TiedBelow(sorted, k) || (k > 0 && SameRank(sorted[k], sorted[0]))
  {
  }

  method CountTies(sorted: seq<Score>) returns (ties: nat)
    requires sorted != []
    ensures ties == 1 <==> !FrontTied(sorted)
  {
    hide TiedBelow;
    ties := 0;
    for k := 0 to |sorted|
      invariant k == 0 ==> ties == 0
      invariant k > 0 ==> ties >= 1 && (ties == 1 <==> !TiedBelow(sorted, k))
    {
      TiedStep(sorted, k);
      NoTieBelowFront(sorted);
      if SameRank(sorted[k], sorted[0]) {
        ties := ties + 1;
      }
    }
  }

  lemma NoTieBelowFront(sorted: seq<Score>)
    ensures !TiedBelow(sorted, 0)
  {
  }

  /** The front of the sorted scores stands out unless it is too short or tied; nothing else can. */
  lemma FrontStandsOut(raw: seq<byte>, choices: seq<Layout>, lockBursts: int, sorted: seq<Score>, l: Layout)
    requires |raw| % 8 == 0 && sorted != [] && Sorted(sorted) && DistinctScores(sorted)
    requires forall s :: s in sorted ==> s.layout in choices && s == ScoreOf(raw, s.layout)
    requires forall m :: m in choices ==> ScoreOf(raw, m) in sorted
    ensures StandsOut(raw, choices, lockBursts, l) <==>
            l == sorted[0].layout && sorted[0].consecutive >= lockBursts && !FrontTied(sorted)
  {
    hide ScoreOf;
    var best := sorted[0];
    assert best in sorted;
    if l == best.layout && best.consecutive >= lockBursts && !FrontTied(sorted) {
      forall m | m in choices && m != l ensures Ahead(ScoreOf(raw, l), ScoreOf(raw, m)) {
        var s := ScoreOf(raw, m);
        var j :| 0 <= j < |sorted| && sorted[j] == s;
        LayoutOfScore(raw, m);
        TiedScores(raw, l, m);
        assert !Ahead(sorted[j], sorted[0]) && !SameRank(sorted[j], sorted[0]);
      }
    }
    if StandsOut(raw, choices, lockBursts, l) {
      LayoutOfScore(raw, l);
      assert l == best.layout;
      if j :| 0 < j < |sorted| && SameRank(sorted[j], sorted[0]) {
        assert sorted[j] in sorted && sorted[j] != sorted[0];
        TiedScores(raw, l, sorted[j].layout);
        assert false;
      }
    }
  }

  lemma LayoutOfScore(raw: seq<byte>, l: Layout)
    requires |raw| % 8 == 0
    ensures ScoreOf(raw, l).layout == l
  {
  }

  method ScoreAll(probe: seq<byte>, choices: seq<Layout>) returns (scores: seq<Score>)
    requires |probe| % 8 == 0
    ensures |scores| == |choices| && forall i :: 0 <= i < |choices| ==> scores[i] == ScoreOf(probe, choices[i])
  {
    hide ScoreOf;
    scores := [];
    for k := 0 to |choices|
      invariant |scores| == k && forall i :: 0 <= i < k ==> scores[i] == ScoreOf(probe, choices[i])
    {
      var score, _ := ScoreCandidate(probe, choices[k]);
      scores := scores + [score];
    }
  }

  /** Score every choice, sort, and take the best if it reaches the threshold and is not tied. */
  method TryLock(probe: seq<byte>, choices: seq<Layout>, lockBursts: int) returns (selected: Option<Layout>)
    requires |probe| % 8 == 0 && |choices| > 0
    requires forall i, j :: 0 <= i < j < |choices| ==> choices[i] != choices[j]
    ensures forall l :: StandsOut(probe, choices, lockBursts, l) <==> selected == Some(l)
  {
    var scores := ScoreAll(probe, choices);
    hide ScoreOf, StandsOut;
    forall i | 0 <= i < |scores| ensures scores[i].layout == choices[i] {
      LayoutOfScore(probe, choices[i]);
    }
    var sorted := SortScores(scores);
    SortedKeeps(scores, sorted);
    forall l ensures StandsOut(probe, choices, lockBursts, l) <==>
                     l == sorted[0].layout && sorted[0].consecutive >= lockBursts && !FrontTied(sorted)
    {
      FrontStandsOut(probe, choices, lockBursts, sorted, l);
    }
    var best := sorted[0];
    if best.consecutive < lockBursts {
      return None;
    }
    var ties := CountTies(sorted);
    if ties != 1 {
      return None;
    }
    selected := Some(best.layout);
  }

  /** The classifier fed with these pieces is locked to `t` with this many bursts and nothing else. */
  predicate LocksClean(k: nat, t: nat, pieces: seq<seq<byte>>, bursts: nat) {
    var (core, rest) := IM.FeedAll(k, IM.Fresh(), [], pieces);
    && rest == [] && core.locked == Some(t) && core.valid == bursts
    && core.invalid == 0 && core.unclassified == 0 && core.relocks == 0
  }

  // --- The converter --------------------------------------------------------------------------

  class Converter {
    const lane: Option<Lane>
    const order: Option<Order>
    const lockBursts: int
    const maxProbeBytes: nat

    var remainder: seq<byte>
    var probe: seq<byte>
    var selected: Option<Layout>
    var rawBytes: nat
    var canonicalBytes: nat
    var lockRawBytes: Option<nat>
    ghost var input: seq<byte>      // every byte fed
    ghost var aligned: seq<byte>    // its longest prefix of whole frames
    ghost var emitted: seq<byte>    // every byte handed back
    ghost var decided: seq<byte>    // what the lock was decided on

    /** Before the lock everything fed is still held and no layout stands out on it, unless it is already
        too long to be looked at; after it everything frame-aligned has been emitted, converted under
        the one layout that stood out when the lock was decided. */
    ghost predicate Valid()
      reads this
    {
      && Held()
      && (selected.None? ==>
            0 < |aligned| <= maxProbeBytes ==> forall l :: !StandsOut(aligned, Choices(lane, order), lockBursts, l))
      && (selected.Some? ==>
            && decided <= aligned && |decided| % 8 == 0 && 0 < |decided| <= maxProbeBytes
            && StandsOut(decided, Choices(lane, order), lockBursts, selected.value))
    }

    ghost predicate Held()
      reads this
    {
      && |remainder| < 8 && |aligned| % 8 == 0 && input == aligned + remainder
      && rawBytes == |input| && canonicalBytes == |emitted|
      && (selected.None? ==> probe == aligned && emitted == [] && lockRawBytes == None)
      && (selected.Some? ==> probe == [] && emitted == Extract(aligned, selected.value) && lockRawBytes.Some?)
    }

    constructor (lane: Option<Lane>, order: Option<Order>, lockBursts: int, maxProbeBytes: nat)
      ensures Valid() && input == [] && emitted == [] && selected == None
      ensures this.lane == lane && this.order == order && this.lockBursts == lockBursts
              && this.maxProbeBytes == maxProbeBytes
    {
      this.lane, this.order, this.lockBursts, this.maxProbeBytes := lane, order, lockBursts, maxProbeBytes;
      remainder, probe, selected, rawBytes, canonicalBytes, lockRawBytes := [], [], None, 0, 0, None;
      input, aligned, emitted, decided := [], [], [], [];
    }

    /** Convert a block of whole frames under the locked layout. */
    method Emit(block: seq<byte>) returns (r: Result<seq<byte>, CaptureError>)
      requires selected.Some? && |block| % 8 == 0 && canonicalBytes == |emitted|
      modifies this`canonicalBytes, this`emitted
      ensures r == Success(Extract(block, selected.value))
      ensures emitted == old(emitted) + Extract(block, selected.value) && canonicalBytes == |emitted|
    {
      var canonical := ExtractWords(block, selected.value);
      canonicalBytes := canonicalBytes + |canonical.value|;
      emitted := emitted + canonical.value;
      r := canonical;
    }

    /** Account for raw bytes and cut off all whole frames. */
    method TakeIn(raw: seq<byte>) returns (block: seq<byte>)
      requires |remainder| < 8 && FrameAligned(aligned) && input == aligned + remainder && rawBytes == |input|
      modifies this`rawBytes, this`input, this`remainder, this`aligned
      ensures input == old(input) + raw && rawBytes == |input|
      ensures aligned == old(aligned) + block && input == aligned + remainder && |remainder| < 8
      ensures FrameAligned(block) && FrameAligned(aligned)
      ensures block == [] <==> |raw| + |old(remainder)| < 8
    {
      rawBytes := rawBytes + |raw|;
      input := input + raw;
      remainder := remainder + raw;
      assert input == aligned + remainder;
      var size := |remainder| - |remainder| % FRAME_BYTES;
      block := remainder[..size];
      remainder := remainder[size..];
      WholeFrames(aligned, block);
      aligned := aligned + block;
      assert input == aligned + remainder;
    }

    /** Take in raw bytes and hand back whatever can be converted now. A lock is decided on all
        frame-aligned input so far, and never changes afterwards. */
    method Feed(raw: seq<byte>) returns (r: Result<seq<byte>, CaptureError>)
      requires Valid()
      modifies this
      ensures Valid() && input == old(input) + raw
      ensures r.Success? ==> emitted == old(emitted) + r.value
      ensures r.Failure? <==>
              old(selected).None? && |raw| + |old(remainder)| >= 8 && |aligned| > maxProbeBytes
      ensures r.Failure? ==> r.error == ProbeExhausted && emitted == old(emitted) && selected == None
      ensures |raw| + |old(remainder)| < 8 ==> selected == old(selected) && r == Success([])
      ensures old(selected).Some? ==>
                selected == old(selected) && lockRawBytes == old(lockRawBytes) && decided == old(decided)
      ensures old(selected).None? && r.Success? && |raw| + |old(remainder)| >= 8 ==>
                forall l :: selected == Some(l) <==> StandsOut(aligned, Choices(lane, order), lockBursts, l)
      ensures old(selected).None? && selected.Some? ==> lockRawBytes == Some(|input|) && decided == aligned
    {
      hide StandsOut, Extract, Choices;
      ghost var before := aligned;
      var block := TakeIn(raw);
      if block == [] {
        assert aligned == before;
        return Success([]);
      }
      if selected.None? {
        probe := probe + block;
        if |probe| > maxProbeBytes {
          return Failure(ProbeExhausted);
        }
        var choice := TryLock(probe, Choices(lane, order), lockBursts);
        if choice.None? {
          return Success([]);
        }
        selected, decided := choice, probe;
        lockRawBytes := Some(rawBytes);
        block := probe;
        probe := [];
      } else {
        ExtractSplits(before, block, selected.value);
      }
      r := Emit(block);
    }

    /** The stream may end only on a frame boundary, with a layout locked. */
    method Finish() returns (r: Result<Layout, CaptureError>)
      requires Valid()
      ensures r == if remainder != [] then Failure(PartialFrameAtEnd)
                   else if selected.None? then Failure(NeverLocked)
                   else Success(selected.value)
      ensures r.Success? ==> |input| % 8 == 0 && emitted == Extract(input, r.value)
    {
      if remainder != [] {
        return Failure(PartialFrameAtEnd);
      }
      if selected.None? {
        return Failure(NeverLocked);
      }
      assert input == aligned;
      r := Success(selected.value);
    }

    /** However the emitted bytes are cut, the classifier fed with them ends with the counters of one
        batch pass over the conversion of everything fed to the converter. */
    lemma EmittedGivesBatchCounters(k: nat, pieces: seq<seq<byte>>)
      requires Valid() && selected.Some? && IM.Concat(pieces) == emitted
      ensures var (core, rest) := IM.FeedAll(k, IM.Fresh(), [], pieces);
              IM.Flush(k, core, rest) == IM.Flush(k, IM.Fresh(), Extract(aligned, selected.value))
    {
      hide Extract;
      IM.ChunkedFlush(k, pieces);
    }

    /** Whatever came before, a lock on a stream of embedded words is on the half of the slots the words
        are in, and with the channel order given on their very layout. */
    lemma LockIsOnTheLane(canonical: seq<byte>, l: Layout)
      requires Valid() && selected.Some? && lockBursts > 0
      requires |canonical| % 4 == 0 && aligned <= Embed(canonical, l)
      ensures selected.value.lane == l.lane
      ensures order == Some(l.order) ==> selected.value == l
    {
      var m := selected.value;
      var choices := Choices(lane, order);
      hide ScoreOf, Extract, Embed, Choices;
      LockFindsLane(canonical, l, decided, choices, lockBursts, m);
      ChosenOrder(lane, order, m);
    }

    /** Slots to lock. A converter with a free lane that has been fed an embedded train of enough bursts, in
        any pieces, has selected the layout of the train and emitted it byte for byte, and locks the
        classifier fed with it in any pieces. A train longer than the probe may only have to have locked
        before the probe was full. */
    lemma EmbeddedTrainLocks(payloads: seq<seq<byte>>, l: Layout, k: nat, pieces: seq<seq<byte>>)
      requires Frameables(TYPE_EAC3, payloads) && 0 < k <= |payloads| && 0 < lockBursts <= |payloads|
      requires Valid() && lane == None && order == Some(l.order) && IM.Concat(pieces) == emitted
      requires input == Carried(TYPE_EAC3, payloads, l)
      requires selected.Some? || |input| <= maxProbeBytes
      ensures selected == Some(l) && emitted == IL.Train(TYPE_EAC3, payloads) && remainder == []
      ensures LocksClean(k, TYPE_EAC3, pieces, |payloads|)
    {
      hide Extract, StandsOut, Choices, IL.Train, IL.Frameable;
      WholeInput();
      CarriedIsNotEmpty(payloads, l);
      FreeLaneStandsOut(payloads, l, lockBursts);
      TrainIsWholeFrames(TYPE_EAC3, payloads);
      if selected.Some? {
        LockIsOnTheLane(IL.Train(TYPE_EAC3, payloads), l);
      }
      hide Carried;
      ChainLocks(k, TYPE_EAC3, payloads, l, pieces);
    }

    lemma WholeInput()
      requires Valid() && |input| % 8 == 0
      ensures remainder == [] && aligned == input
    {
      hide StandsOut, Extract, Choices;
      ShortRest(|aligned|, |remainder|);
    }

    /** Conservation of bytes between input, held bytes and output. */
    lemma BytesConserved()
      requires Valid()
      ensures rawBytes == |remainder| + |probe| + 2 * canonicalBytes
    {
    }
  }

  lemma ShortRest(m: nat, n: nat)
    requires n < 8 && m % 8 == 0 && (m + n) % 8 == 0
    ensures n == 0
  {
  }

  lemma WholeFrames(a: seq<byte>, b: seq<byte>)
    requires |a| % 8 == 0 && |b| % 8 == 0
    ensures |a + b| % 8 == 0
  {
  }

  /** The batch conversion of a finished capture: the unique strict maximum, or an error. */
  method SelectCandidate(raw: seq<byte>, lane: Option<Lane>, order: Option<Order>)
      returns (r: Result<(Layout, seq<byte>), CaptureError>)
    ensures r.Failure? && r.error == NotWholeFrames <==> |raw| % 8 != 0
    ensures |raw| % 8 == 0 ==>
              forall l :: StandsOut(raw, Choices(lane, order), 1, l) <==> r.Success? && r.value.0 == l
    ensures r.Success? ==> |raw| % 8 == 0 && r.value.1 == Extract(raw, r.value.0)
    ensures |raw| % 8 == 0 && r.Failure? ==>
              r.error == if exists l :: l in Choices(lane, order) && ScoreOf(raw, l).consecutive > 0
                         then AmbiguousLayout else NoBurstTrain
  {
    hide StandsOut, Choices, Extract;
    if |raw| % 8 != 0 {
      return Failure(NotWholeFrames);
    }
    var choice := TryLock(raw, Choices(lane, order), 1);
    if choice.None? {
      var any := AnyBursts(raw, Choices(lane, order));
      return Failure(if any then AmbiguousLayout else NoBurstTrain);
    }
    var canonical := ExtractWords(raw, choice.value);
    r := Success((choice.value, canonical.value));
  }

  method AnyBursts(raw: seq<byte>, choices: seq<Layout>) returns (any: bool)
    requires |raw| % 8 == 0
    ensures any <==> exists l :: l in choices && ScoreOf(raw, l).consecutive > 0
  {
    hide ScoreOf;
    any := false;
    for k := 0 to |choices|
      invariant any <==> exists i :: 0 <= i < k && ScoreOf(raw, choices[i]).consecutive > 0
    {
      var score, _ := ScoreCandidate(raw, choices[k]);
      if score.consecutive > 0 {
        any := true;
      }
    }
  }

  /** Streaming agrees with batch: a lock with a positive threshold is the batch choice. */
  lemma StreamingChoiceIsBatchChoice(raw: seq<byte>, choices: seq<Layout>, lockBursts: int, l: Layout)
    requires |raw| % 8 == 0 && lockBursts >= 1 && StandsOut(raw, choices, lockBursts, l)
    ensures StandsOut(raw, choices, 1, l)
    ensures forall m :: StandsOut(raw, choices, 1, m) ==> m == l
  {
    hide ScoreOf;
    forall m | StandsOut(raw, choices, 1, m) ensures m == l {
      if m != l {
        TiedScores(raw, l, m);
      }
    }
  }

  // --- The whole ingress chain -------------------------------------------------------------------

  /** Any whole-frame beginning of an embedded stream is silent in the other half of the slots. */
  lemma OtherLaneScoresNothing(canonical: seq<byte>, l: Layout, front: seq<byte>, m: Layout)
    requires |canonical| % 4 == 0 && l.lane != m.lane && |front| % 8 == 0 && front <= Embed(canonical, l)
    ensures ScoreOf(front, m).consecutive == 0
  {
    var raw := Embed(canonical, l);
    var rest := raw[|front|..];
    WholeFramesDouble(|canonical|);
    RestIsWhole(|front|, |rest|);
    assert raw == front + rest;
    WrongLaneHasNoSync(canonical, l, m);
    ExtractSplits(front, rest, m);
    hide Extract, Embed, G.BurstCount, SyncCount;
    ZerosHoldNoSync(Extract(front, m), Extract(rest, m));
  }

  lemma RestIsWhole(m: nat, n: nat)
    requires m % 8 == 0 && (m + n) % 8 == 0
    ensures n % 8 == 0
  {
  }

  lemma ZerosHoldNoSync(a: seq<byte>, b: seq<byte>)
    requires AllZero(a + b)
    ensures Find(a) < 0
  {
    assert forall i :: 0 <= i < |a| ==> a[i] == (a + b)[i];
  }

  /** What stands out on any whole-frame beginning of an embedded stream reads the right half of the slots. */
  lemma LockFindsLane(
      canonical: seq<byte>, l: Layout, front: seq<byte>, choices: seq<Layout>, lockBursts: int, m: Layout)
    requires |canonical| % 4 == 0 && |front| % 8 == 0 && front <= Embed(canonical, l)
    requires lockBursts > 0 && StandsOut(front, choices, lockBursts, m)
    ensures m.lane == l.lane
  {
    hide ScoreOf, Embed;
    if m.lane != l.lane {
      OtherLaneScoresNothing(canonical, l, front, m);
    }
  }

  /** A given channel order leaves no other choice. */
  lemma ChosenOrder(lane: Option<Lane>, order: Option<Order>, m: Layout)
    ensures m in Choices(lane, order) && order.Some? ==> m.order == order.value
  {
  }

  predicate Frameables(t: nat, payloads: seq<seq<byte>>) {
    forall i :: 0 <= i < |payloads| ==> IL.Frameable(t, payloads[i])
  }

  lemma {:induction false} TrainIsWholeFrames(t: nat, payloads: seq<seq<byte>>)
    requires Frameables(t, payloads)
    ensures |IL.Train(t, payloads)| % 4 == 0
  {
    if payloads != [] {
      TrainIsWholeFrames(t, payloads[1..]);
    }
  }

  lemma WholeFramesDouble(n: nat)
    requires n % 4 == 0
    ensures 2 * n % 8 == 0
  {
    var k := n / 4;
    assert 2 * n == 8 * k;
  }

  /** A train of built bursts carried in the slots of layout `l`. */
  function Carried(t: nat, payloads: seq<seq<byte>>, l: Layout): (raw: seq<byte>)
    requires Frameables(t, payloads)
    ensures |raw| % 8 == 0
  {
    hide Embed, IL.Train, IL.Frameable;
    TrainIsWholeFrames(t, payloads);
    WholeFramesDouble(|IL.Train(t, payloads)|);
    Embed(IL.Train(t, payloads), l)
  }

  /** The grid run of a train of E-AC-3 bursts is its number of bursts. */
  lemma {:induction false} TrainOnGrid(payloads: seq<seq<byte>>)
    requires Frameables(TYPE_EAC3, payloads)
    ensures G.BurstCount(IL.Train(TYPE_EAC3, payloads), BURST_BYTES) == |payloads|
    ensures payloads != [] ==> Find(IL.Train(TYPE_EAC3, payloads)) == 0
    decreases |payloads|
  {
    if payloads != [] {
      var b, tail := IL.BuildBurst(TYPE_EAC3, payloads[0]), IL.Train(TYPE_EAC3, payloads[1..]);
      TrainOnGrid(payloads[1..]);
      IL.BuiltStartsWithSync(TYPE_EAC3, payloads[0]);
      hide IL.BuildBurst;
      assert (b + tail)[|b|..] == tail;
      assert SyncAt(b + tail, 0);
      FindIs(b + tail, 0);
    }
  }

  /** Read through its own layout, a carried train scores its number of bursts. */
  lemma CarriedScores(payloads: seq<seq<byte>>, l: Layout)
    requires Frameables(TYPE_EAC3, payloads) && payloads != []
    ensures ScoreOf(Carried(TYPE_EAC3, payloads, l), l).consecutive == |payloads|
  {
    var train := IL.Train(TYPE_EAC3, payloads);
    TrainOnGrid(payloads);
    TrainIsWholeFrames(TYPE_EAC3, payloads);
    LayoutRoundTrip(train, l);
    assert train[0..] == train;
    hide Extract, Embed, IL.Train, G.BurstCount, SyncCount, Find, IL.Frameable;
  }

  lemma CarriedIsNotEmpty(payloads: seq<seq<byte>>, l: Layout)
    requires Frameables(TYPE_EAC3, payloads) && payloads != []
    ensures Carried(TYPE_EAC3, payloads, l) != []
  {
    hide IL.BuildBurst, Embed;
    assert |IL.BuildBurst(TYPE_EAC3, payloads[0])| == BURST_BYTES;
  }

  lemma CarriedOtherLane(payloads: seq<seq<byte>>, l: Layout, m: Layout)
    requires Frameables(TYPE_EAC3, payloads) && l.lane != m.lane
    ensures ScoreOf(Carried(TYPE_EAC3, payloads, l), m).consecutive == 0
  {
    hide ScoreOf, Embed, IL.Train, IL.Frameable;
    TrainIsWholeFrames(TYPE_EAC3, payloads);
    OtherLaneScoresNothing(IL.Train(TYPE_EAC3, payloads), l, Carried(TYPE_EAC3, payloads, l), m);
  }

  /** A carried train of enough bursts stands out among the layouts of its channel order. */
  lemma FreeLaneStandsOut(payloads: seq<seq<byte>>, l: Layout, lockBursts: int)
    requires Frameables(TYPE_EAC3, payloads) && 0 < lockBursts <= |payloads|
    ensures StandsOut(Carried(TYPE_EAC3, payloads, l), Choices(None, Some(l.order)), lockBursts, l)
  {
    hide Carried, ScoreOf, IL.Frameable;
    CarriedScores(payloads, l);
    var raw := Carried(TYPE_EAC3, payloads, l);
    var choices := Choices(None, Some(l.order));
    assert choices == [Layout(High16, l.order), Layout(Low16, l.order)];
    assert l == Layout(l.lane, l.order) && (l.lane == High16 || l.lane == Low16);
    assert l == choices[0] || l == choices[1];
    forall m | m in choices && m != l ensures Ahead(ScoreOf(raw, l), ScoreOf(raw, m)) {
      CarriedOtherLane(payloads, l, m);
    }
  }

  /** A burst train carried in any of the four layouts, converted under that layout and handed to the
      live classifier in any pieces, comes out byte for byte and locks it. */
  lemma ChainLocks(k: nat, t: nat, payloads: seq<seq<byte>>, l: Layout, pieces: seq<seq<byte>>)
    requires Frameables(t, payloads) && 0 < k <= |payloads|
    requires IM.Concat(pieces) == Extract(Carried(t, payloads, l), l)
    ensures IM.Concat(pieces) == IL.Train(t, payloads)
    ensures LocksClean(k, t, pieces, |payloads|)
  {
    TrainIsWholeFrames(t, payloads);
    LayoutRoundTrip(IL.Train(t, payloads), l);
    assert IM.Concat(pieces) == IL.Train(t, payloads);
    hide Extract, Embed, IL.Train, IL.Frameable, IM.FeedAll;
    IL.TrainLocks(k, t, payloads, pieces);
  }

  // --- The capture loop ------------------------------------------------------------------------------

  lemma {:induction false} ConcatMore(chunks: seq<seq<byte>>, chunk: seq<byte>)
    ensures IM.Concat(chunks + [chunk]) == IM.Concat(chunks) + chunk
    decreases |chunks|
  {
    if chunks == [] {
      assert [chunk][1..] == [];
    } else {
      assert (chunks + [chunk])[1..] == chunks[1..] + [chunk];
      ConcatMore(chunks[1..], chunk);
    }
  }

  lemma {:induction false} ConcatPrefix(chunks: seq<seq<byte>>, n: nat)
    requires n <= |chunks|
    ensures |IM.Concat(chunks[..n])| <= |IM.Concat(chunks)|
    decreases |chunks| - n
  {
    if n < |chunks| {
      ConcatPrefix(chunks, n + 1);
      assert chunks[..n + 1] == chunks[..n] + [chunks[n]];
      ConcatMore(chunks[..n], chunks[n]);
    } else {
      assert chunks[..n] == chunks;
    }
  }

  /** Feed a new converter every chunk and finish. Success means that everything was converted under one
      layout that stood out; the probe is exhausted only by more bytes than it may hold. */
  method StreamAll(c: Converter, chunks: seq<seq<byte>>)
      returns (pieces: seq<seq<byte>>, r: Result<Layout, CaptureError>)
    requires c.Valid() && c.input == []
    modifies c
    ensures c.Valid() && IM.Concat(pieces) == c.emitted
    ensures r == Failure(ProbeExhausted) ==> c.maxProbeBytes < |IM.Concat(chunks)| && c.selected.None?
    ensures r != Failure(ProbeExhausted) ==> c.input == IM.Concat(chunks)
    ensures r == Failure(PartialFrameAtEnd) ==> |c.input| % 8 != 0
    ensures r == Failure(NeverLocked) ==> c.remainder == [] && c.selected.None?
    ensures r.Success? ==>
              && c.selected == Some(r.value) && |c.input| % 8 == 0 && c.emitted == Extract(c.input, r.value)
    ensures r.Failure? ==> r.error == ProbeExhausted || r.error == PartialFrameAtEnd || r.error == NeverLocked
  {
    hide StandsOut, Extract, Choices;
    pieces := [];
    for k := 0 to |chunks|
      invariant c.Valid() && c.input == IM.Concat(chunks[..k]) && IM.Concat(pieces) == c.emitted
    {
      assert chunks[..k + 1] == chunks[..k] + [chunks[k]];
      ConcatMore(chunks[..k], chunks[k]);
      var canonical := c.Feed(chunks[k]);
      if canonical.Failure? {
        ConcatPrefix(chunks, k + 1);
        return pieces, Failure(canonical.error);
      }
      ConcatMore(pieces, canonical.value);
      pieces := pieces + [canonical.value];
    }
    assert chunks[..|chunks|] == chunks;
    r := c.Finish();
  }

  /** From slots to lock under any chunking: a free-lane converter fed an embedded train of enough bursts
      ends with the layout of the train, and the classifier fed with its output is locked on the train. */
  method TrainThroughChain(c: Converter, chunks: seq<seq<byte>>, ghost payloads: seq<seq<byte>>, ghost l: Layout)
      returns (pieces: seq<seq<byte>>, r: Result<Layout, CaptureError>)
    requires c.Valid() && c.input == [] && c.lane == None && c.order == Some(l.order)
    requires Frameables(TYPE_EAC3, payloads) && 0 < c.lockBursts <= |payloads|
    requires IM.Concat(chunks) == Carried(TYPE_EAC3, payloads, l) && |IM.Concat(chunks)| <= c.maxProbeBytes
    modifies c
    ensures r == Success(l) && IM.Concat(pieces) == IL.Train(TYPE_EAC3, payloads)
    ensures forall k: nat :: 0 < k <= |payloads| ==> LocksClean(k, TYPE_EAC3, pieces, |payloads|)
  {
    hide StandsOut, Extract, Choices, Carried, Frameables, Converter.Valid;
    pieces, r := StreamAll(c, chunks);
    forall k: nat | 0 < k <= |payloads| ensures LocksClean(k, TYPE_EAC3, pieces, |payloads|) {
      c.EmbeddedTrainLocks(payloads, l, k, pieces);
    }
    c.EmbeddedTrainLocks(payloads, l, 1, pieces);
  }
}
