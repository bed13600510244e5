/** Asynchronous USB packetising and the buffer it feeds, over the reals. */
module UsbFeedback {

  const MICROFRAMES_HZ: real := 8_000.0
  const NOMINAL_RATE: real := 48_000.0
  const ROUNDING: real := 0.000_000_000_001    // added before truncating a packet size
  const TOLERANCE: real := 0.000_000_001       // slack of the underrun and overrun tests

  /** Truncation toward zero. */
  function Trunc(x: real): int {
    if x >= 0.0 then x.Floor else -(-x).Floor
  }

  // --- Packets -------------------------------------------------------------------------------------

  /** What is left over after `n` packets at `p` frames per microframe. */
  function Phase(p: real, n: nat): real
    decreases n, 0
  {
    if n == 0 then 0.0 else Phase(p, n - 1) + p - Packet(p, n - 1) as real
  }

  /** The size of packet `n`. */
  function Packet(p: real, n: nat): int
    decreases n, 1
  {
    Trunc(Phase(p, n) + p + ROUNDING)
  }

  /** Frames sent in the first `n` packets. */
  function Sent(p: real, n: nat): int {
    if n == 0 then 0 else Sent(p, n - 1) + Packet(p, n - 1)
  }

  lemma OneMoreStep(n: nat, d: real)
    requires n > 0
    ensures n as real * d == (n - 1) as real * d + d
  {
    assert n as real == (n - 1) as real + 1.0;
  }

  /** Truncating and carrying the rest over leaves a remainder below one. */
  lemma TruncRemainder(x: real)
    requires x >= 0.0
    ensures 0.0 <= x - Trunc(x) as real < 1.0
  {
  }

  lemma {:induction false} PhaseStaysBelowOne(p: real, n: nat)
    requires p >= 0.0
    ensures -ROUNDING <= Phase(p, n) < 1.0 - ROUNDING
  {
    hide Trunc;
    if n > 0 {
      PhaseStaysBelowOne(p, n - 1);
      TruncRemainder(Phase(p, n - 1) + p + ROUNDING);
    }
  }

  lemma {:induction false} PhaseIsRest(p: real, n: nat)
    ensures Phase(p, n) == n as real * p - Sent(p, n) as real
  {
    hide Packet;
    if n > 0 {
      PhaseIsRest(p, n - 1);
      OneMoreStep(n, p);
    }
  }

  lemma PhaseIsRemainder(p: real, n: nat)
    requires p >= 0.0
    ensures -ROUNDING <= Phase(p, n) < 1.0 - ROUNDING
    ensures Phase(p, n) == n as real * p - Sent(p, n) as real
  {
    PhaseStaysBelowOne(p, n);
    PhaseIsRest(p, n);
  }

  /** The first `n` packets carry the ideal amount, rounded down: packetising never drifts. */
  lemma SentIsExact(p: real, n: nat)
    requires p >= 0.0
    ensures Sent(p, n) == (n as real * p + ROUNDING).Floor
  {
    PhaseIsRemainder(p, n);
  }

  /** Every packet is the rate rounded down or one frame more. */
  lemma PacketSizes(p: real, n: nat)
    requires p >= 0.0
    ensures p.Floor <= Packet(p, n) <= p.Floor + 1
  {
    PhaseIsRemainder(p, n);
  }

  method Packetize(rate: real, microframes: nat) returns (packets: seq<int>)
    ensures |packets| == microframes
    ensures forall k :: 0 <= k < microframes ==> packets[k] == Packet(rate / MICROFRAMES_HZ, k)
  {
    var phase, perMicroframe := 0.0, rate / MICROFRAMES_HZ;
    packets := [];
    for n := 0 to microframes
      invariant |packets| == n && phase == Phase(perMicroframe, n)
      invariant forall k :: 0 <= k < n ==> packets[k] == Packet(perMicroframe, k)
    {
      phase := phase + perMicroframe;
      var frames := Trunc(phase + ROUNDING);
      phase := phase - frames as real;
      packets := packets + [frames];
    }
  }

  // --- The buffer ----------------------------------------------------------------------------------

  /** Buffer level after `n` microframes: packets of rate `p` arrive unless dropped, the device takes `d`. */
  function Level(initial: real, p: real, d: real, dropped: set<int>, n: nat): real {
    if n == 0 then initial
    else Level(initial, p, d, dropped, n - 1) + (if n - 1 in dropped then 0.0 else Packet(p, n - 1) as real) - d
  }

  /** Frames of the first `n` packets that were dropped. */
  function Lost(p: real, dropped: set<int>, n: nat): int {
    if n == 0 then 0 else Lost(p, dropped, n - 1) + (if n - 1 in dropped then Packet(p, n - 1) else 0)
  }

  /** Conservation: the level is what it started with, plus what was sent, less what was lost and consumed. */
  lemma {:induction false} LevelConserves(initial: real, p: real, d: real, dropped: set<int>, n: nat)
    ensures Level(initial, p, d, dropped, n)
            == initial + Sent(p, n) as real - Lost(p, dropped, n) as real - n as real * d
  {
    hide Packet, Phase;
    if n > 0 {
      LevelConserves(initial, p, d, dropped, n - 1);
      OneMoreStep(n, d);
      assert Sent(p, n) == Sent(p, n - 1) + Packet(p, n - 1);
    }
  }

  lemma {:induction false} NothingLost(p: real, n: nat)
    ensures Lost(p, {}, n) == 0
  {
    if n > 0 {
      NothingLost(p, n - 1);
    }
  }

  /** With feedback and no drops the buffer never leaves a one-frame band, for any duration. */
  lemma FeedbackHoldsTheBuffer(initial: real, p: real, n: nat)
    requires p >= 0.0
    ensures initial - 1.0 + ROUNDING < Level(initial, p, p, {}, n) <= initial + ROUNDING
  {
    LevelConserves(initial, p, p, {}, n);
    NothingLost(p, n);
    PhaseIsRemainder(p, n);
  }

  /** With feedback, drops lower the band by exactly the frames they lost. */
  lemma DropsAreNeverMadeUp(initial: real, p: real, dropped: set<int>, n: nat)
    requires p >= 0.0
    ensures var full := Level(initial, p, p, dropped, n) + Lost(p, dropped, n) as real;
            initial - 1.0 + ROUNDING < full <= initial + ROUNDING
  {
    LevelConserves(initial, p, p, dropped, n);
    PhaseIsRemainder(p, n);
  }

  // --- Without feedback --------------------------------------------------------------------------------

  /** Frames per microframe of a device that is `ppm` off the nominal rate. */
  function DeviceStep(ppm: real): real {
    NOMINAL_RATE * (1.0 + ppm / 1_000_000.0) / MICROFRAMES_HZ
  }

  /** Nominal packets are six frames each. */
  lemma {:induction false} NominalPackets(n: nat)
    ensures Phase(6.0, n) == 0.0 && Packet(6.0, n) == 6 && Sent(6.0, n) == 6 * n
  {
    if n > 0 {
      NominalPackets(n - 1);
    }
  }

  lemma FreeRunning(initial: real, ppm: real, n: nat)
    ensures Level(initial, 6.0, DeviceStep(ppm), {}, n) == initial - n as real * (6.0 * ppm / 1_000_000.0)
  {
    LevelConserves(initial, 6.0, DeviceStep(ppm), {}, n);
    NothingLost(6.0, n);
    NominalPackets(n);
    var e := 6.0 * ppm / 1_000_000.0;
    assert DeviceStep(ppm) == 6.0 + e;
    assert n as real * (6.0 + e) == n as real * 6.0 + n as real * e;
  }

  /** The first count at which steps of `d` pass `x`. */
  function Crossing(x: real, d: real): int
    requires d > 0.0
  {
    (x / d).Floor + 1
  }

  lemma CrossingIsFirst(x: real, d: real, n: int)
    requires d > 0.0
    ensures n as real * d > x <==> n >= Crossing(x, d)
  {
    var q := x / d;
    assert q * d == x;
    if n as real > q {
      assert (n as real - q) * d > 0.0;
    } else {
      assert (q - n as real) * d >= 0.0;
    }
  }

  /** A fast device without feedback underruns, and at exactly this microframe. */
  lemma FreeRunningUnderrun(initial: real, ppm: real, n: nat)
    requires ppm > 0.0
    ensures Level(initial, 6.0, DeviceStep(ppm), {}, n) < -TOLERANCE
            <==> n >= Crossing(initial + TOLERANCE, 6.0 * ppm / 1_000_000.0)
  {
    FreeRunning(initial, ppm, n);
    CrossingIsFirst(initial + TOLERANCE, 6.0 * ppm / 1_000_000.0, n);
  }

  /** A slow device without feedback overruns, and at exactly this microframe. */
  lemma FreeRunningOverrun(initial: real, capacity: real, ppm: real, n: nat)
    requires ppm < 0.0
    ensures Level(initial, 6.0, DeviceStep(ppm), {}, n) > capacity + TOLERANCE
            <==> n >= Crossing(capacity + TOLERANCE - initial, 6.0 * -ppm / 1_000_000.0)
  {
    FreeRunning(initial, ppm, n);
    var e := 6.0 * -ppm / 1_000_000.0;
    CrossingIsFirst(capacity + TOLERANCE - initial, e, n);
    assert 6.0 * ppm / 1_000_000.0 == -e;
    assert n as real * -e == -(n as real * e);
  }

  // --- The simulation -----------------------------------------------------------------------------------

  datatype Outcome = Outcome(minimum: real, maximum: real, end: real, underrun: bool, overrun: bool)

  /** One simulated link: how far off the device is, whether it feeds back, and what gets lost. */
  datatype Link = Link(ppm: real, feedback: bool, initial: real, dropped: set<int>)

  function LevelOf(l: Link, n: nat): real {
    Level(l.initial, if l.feedback then DeviceStep(l.ppm) else 6.0, DeviceStep(l.ppm), l.dropped, n)
  }

  /** The levels up to microframe `n` all lie between these two, and both are reached. */
  ghost predicate Extremes(l: Link, n: nat, minimum: real, maximum: real) {
    && (forall k: nat :: k <= n ==> minimum <= LevelOf(l, k) <= maximum)
    && (exists k: nat :: k <= n && LevelOf(l, k) == minimum)
    && (exists k: nat :: k <= n && LevelOf(l, k) == maximum)
  }

  predicate Within(x: real, capacity: real) {
    -TOLERANCE <= x <= capacity + TOLERANCE
  }

  lemma ExtremesStep(l: Link, n: nat, minimum: real, maximum: real)
    requires Extremes(l, n, minimum, maximum)
    ensures var x := LevelOf(l, n + 1);
            Extremes(l, n + 1, if x < minimum then x else minimum, if x > maximum then x else maximum)
  {
    hide LevelOf;
    var x := LevelOf(l, n + 1);
    var i: nat :| i <= n && LevelOf(l, i) == minimum;
    var j: nat :| j <= n && LevelOf(l, j) == maximum;
    assert i <= n + 1 && LevelOf(l, i) == minimum;
    assert j <= n + 1 && LevelOf(l, j) == maximum;
    assert n + 1 <= n + 1 && LevelOf(l, n + 1) == x;
  }

  /** What a simulation reports after running `ran` microframes: it stopped at the first level out of
      bounds, or at the end with every level within them. */
  ghost predicate Reports(l: Link, microframes: nat, capacity: real, o: Outcome, ran: nat) {
    && ran <= microframes && o.end == LevelOf(l, ran) && Extremes(l, ran, o.minimum, o.maximum)
    && (forall k: nat :: 0 < k < ran ==> Within(LevelOf(l, k), capacity))
    && (!o.underrun && !o.overrun ==> ran == microframes && (ran > 0 ==> Within(o.end, capacity)))
    && (o.underrun ==> ran > 0 && o.end < -TOLERANCE && !o.overrun)
    && (o.overrun ==> ran > 0 && o.end > capacity + TOLERANCE)
  }

  /** Run until the buffer leaves its bounds or the microframes are over. */
  method Simulate(l: Link, microframes: nat, capacity: real) returns (o: Outcome)
    ensures exists ran: nat :: Reports(l, microframes, capacity, o, ran)
  {
    hide Extremes;
    var deviceRate := NOMINAL_RATE * (1.0 + l.ppm / 1_000_000.0);
    var feedbackRate := if l.feedback then deviceRate else NOMINAL_RATE;
    var packets := Packetize(feedbackRate, microframes);
    var consumed := deviceRate / MICROFRAMES_HZ;
    var buffer, minimum, maximum := l.initial, l.initial, l.initial;
    ExtremesStart(l);
    for index := 0 to microframes
      invariant buffer == LevelOf(l, index) && Extremes(l, index, minimum, maximum)
      invariant forall k: nat :: 0 < k <= index ==> Within(LevelOf(l, k), capacity)
    {
      var frames := if index in l.dropped then 0 else packets[index];
      buffer := buffer + frames as real - consumed;
      assert buffer == LevelOf(l, index + 1);
      ExtremesStep(l, index, minimum, maximum);
      minimum := if buffer < minimum then buffer else minimum;
      maximum := if buffer > maximum then buffer else maximum;
      if buffer < -TOLERANCE {
        o := Outcome(minimum, maximum, buffer, true, false);
        assert Reports(l, microframes, capacity, o, index + 1);
        return;
      }
      if buffer > capacity + TOLERANCE {
        o := Outcome(minimum, maximum, buffer, false, true);
        assert Reports(l, microframes, capacity, o, index + 1);
        return;
      }
    }
    o := Outcome(minimum, maximum, buffer, false, false);
    assert Reports(l, microframes, capacity, o, microframes);
  }

  lemma ExtremesStart(l: Link)
    ensures LevelOf(l, 0) == l.initial && Extremes(l, 0, l.initial, l.initial)
  {
  }

  /** With feedback, no drops and one frame of slack below, no run of any length underruns or
      overruns, and the reported extremes stay in the one-frame band. */
  lemma FeedbackIsStable(l: Link, microframes: nat, capacity: real, o: Outcome, ran: nat)
    requires Reports(l, microframes, capacity, o, ran)
    requires l.feedback && l.dropped == {} && l.ppm >= -1_000_000.0 && 1.0 <= l.initial <= capacity
    ensures !o.underrun && !o.overrun
    ensures l.initial - 1.0 < o.minimum && o.maximum <= l.initial + ROUNDING
  {
    forall k: nat ensures l.initial - 1.0 + ROUNDING < LevelOf(l, k) <= l.initial + ROUNDING {
      FeedbackHoldsTheBuffer(l.initial, DeviceStep(l.ppm), k);
    }
  }

  /** Without feedback and drops, a fast device underruns if and only if the run reaches the crossing,
      and a slow one overruns if and only if it reaches its own. */
  lemma FreeRunningFails(l: Link, microframes: nat, capacity: real, o: Outcome, ran: nat)
    requires Reports(l, microframes, capacity, o, ran)
    requires !l.feedback && l.dropped == {} && 0.0 <= l.initial <= capacity
    ensures l.ppm > 0.0 ==>
              && !o.overrun
              && (o.underrun <==> microframes >= Crossing(l.initial + TOLERANCE, 6.0 * l.ppm / 1_000_000.0))
    ensures l.ppm < 0.0 ==>
              && !o.underrun
              && (o.overrun <==> microframes >= Crossing(capacity + TOLERANCE - l.initial, 6.0 * -l.ppm / 1_000_000.0))
  {
    hide Extremes, Level, Crossing, DeviceStep;
    FreeRunning(l.initial, l.ppm, ran);
    var n, e := ran as real, 6.0 * l.ppm / 1_000_000.0;
    if l.ppm > 0.0 {
      FreeRunningUnderrun(l.initial, l.ppm, ran);
      FreeRunningUnderrun(l.initial, l.ppm, microframes);
      assert n * e >= 0.0;
    } else if l.ppm < 0.0 {
      FreeRunningOverrun(l.initial, capacity, l.ppm, ran);
      FreeRunningOverrun(l.initial, capacity, l.ppm, microframes);
      assert n * e <= 0.0;
    }
  }
}
