/** The AOO adapter: the host transport and, below it, the native shim it drives. */
module AooTransport {
  import opened Bytes
  import opened EventRing
  import opened Fanout

  const MAX_CHANNELS := 32
  const I32_MAX := 0x7FFF_FFFF

  /** What a shim call answers; `Foreign` is an error of the AOO library itself. */
  datatype Code = Ok | ErrArgument | ErrState | ErrAlloc | ErrTimeline | Foreign

  /** Sample of one channel in an interleaved block. */
  function Interleaved(samples: seq<Sample>, channels: nat, f: nat, c: nat): Sample
    requires c < channels && (f + 1) * channels <= |samples|
  {
    FrameFits(channels, f, c);
    samples[f * channels + c]
  }

  lemma FrameFits(channels: nat, f: nat, c: nat)
    requires c < channels
    ensures 0 <= f * channels + c < (f + 1) * channels
  {
  }

  lemma FramesFit(channels: nat, f: nat, frames: nat)
    requires f < frames
    ensures (f + 1) * channels <= frames * channels
  {
  }

  /** The native handle. Every call into AOO may fail; its outcome is a parameter. */
  class Shim {
    var prepared: bool
    var started: bool
    var channels: nat
    var sampleRate: nat
    var blockFrames: nat
    var planar: array2<Sample>
    var hasTimeBase: bool
    var baseMediaFrame: u64

    constructor ()
      ensures !prepared && !started && !hasTimeBase
    {
      prepared, started, hasTimeBase := false, false, false;
      channels, sampleRate, blockFrames, baseMediaFrame := 0, 0, 0, 0;
      planar := new Sample[0, 0];
    }

    ghost predicate Valid()
      reads this
    {
      && (prepared ==> 0 < channels && 0 < sampleRate && planar.Length0 == channels && planar.Length1 == blockFrames)
      && (started ==> prepared) && (hasTimeBase ==> started)
    }

    /** A handle is prepared once; a failed preparation cleans everything up. */
    method Prepare(channels: int, sampleRate: int, blockFrames: int, setup: Code) returns (code: Code)
      requires Valid()
      modifies this
      ensures Valid()
      ensures old(prepared) ==> code == ErrState && unchanged(this)
      ensures code == Ok <==> !old(prepared) && channels > 0 && sampleRate > 0 && blockFrames > 0 && setup == Ok
      ensures code == Ok ==>
                && prepared && !started && !hasTimeBase && fresh(planar)
                && this.channels == channels && this.sampleRate == sampleRate && this.blockFrames == blockFrames
      ensures !old(prepared) && code != Ok ==> !prepared
    {
      if prepared {
        return ErrState;
      }
      if channels <= 0 || sampleRate <= 0 || blockFrames <= 0 {
        return ErrArgument;
      }
      this.channels, this.sampleRate, this.blockFrames := channels, sampleRate, blockFrames;
      planar := new Sample[channels, blockFrames]((_, _) => 0.0);
      if setup != Ok {
        started, prepared, hasTimeBase := false, false, false;
        return setup;
      }
      prepared := true;
      code := Ok;
    }

    method Start(accepted: bool) returns (code: Code)
      requires Valid()
      modifies this`started, this`hasTimeBase
      ensures Valid()
      ensures code == Ok <==> prepared && !old(started) && accepted
      ensures code == Ok ==> started && !hasTimeBase
      ensures code != Ok ==> unchanged(this)
    {
      if !prepared || started {
        return ErrState;
      }
      if !accepted {
        return Foreign;
      }
      started, hasTimeBase := true, false;
      code := Ok;
    }

    /** The planar buffers hold the first `n` frames of `samples`, channel by channel. */
    ghost predicate Holds(samples: seq<Sample>, n: nat)
      requires n * channels <= |samples| && planar.Length0 == channels && n <= planar.Length1
      reads this, planar
    {
      forall c, f :: 0 <= c < channels && 0 <= f < n ==>
        (FramesFit(channels, f, n); planar[c, f] == Interleaved(samples, channels, f, c))
    }

    method Deinterleave(samples: seq<Sample>)
      requires Valid() && prepared && |samples| == blockFrames * channels
      modifies planar
      ensures Holds(samples, blockFrames)
    {
      for frame := 0 to blockFrames
        invariant frame * channels <= |samples|
        invariant forall c, f :: 0 <= c < channels && 0 <= f < frame ==>
                    (FramesFit(channels, f, blockFrames); planar[c, f] == Interleaved(samples, channels, f, c))
      {
        FramesFit(channels, frame, blockFrames);
        for channel := 0 to channels
          invariant forall c, f :: 0 <= c < channels && 0 <= f < frame ==>
                      (FramesFit(channels, f, blockFrames); planar[c, f] == Interleaved(samples, channels, f, c))
          invariant forall c :: 0 <= c < channel ==> planar[c, frame] == Interleaved(samples, channels, frame, c)
        {
          FrameFits(channels, frame, channel);
          planar[channel, frame] := samples[frame * channels + channel];
        }
      }
    }

    /** One block: deinterleave, fix the time base with the first block, and hand it to AOO at its
        offset from that base. A block before the base is a timeline error. */
    method Submit(samples: seq<Sample>, mediaFrame: u64, processed: bool) returns (code: Code, offset: real)
      requires Valid() && (started ==> |samples| == blockFrames * channels)
      modifies this`hasTimeBase, this`baseMediaFrame, planar
      ensures Valid()
      ensures !started ==> code == ErrState && unchanged(this)
      ensures started ==> hasTimeBase && Holds(samples, blockFrames)
      ensures started ==> baseMediaFrame == if old(hasTimeBase) then old(baseMediaFrame) else mediaFrame
      ensures started ==> (code == ErrTimeline <==> mediaFrame < baseMediaFrame)
      ensures started ==> (code == Ok <==> mediaFrame >= baseMediaFrame && processed)
      ensures code == Ok ==> offset == (mediaFrame - baseMediaFrame) as real / sampleRate as real
    {
      offset := 0.0;
      if !started {
        return ErrState, offset;
      }
      Deinterleave(samples);
      if !hasTimeBase {
        baseMediaFrame := mediaFrame;
        hasTimeBase := true;
      }
      if mediaFrame < baseMediaFrame {
        return ErrTimeline, offset;
      }
      offset := (mediaFrame - baseMediaFrame) as real / sampleRate as real;
      code := if processed then Ok else Foreign;
    }

    method Stop(accepted: bool) returns (code: Code)
      requires Valid()
      modifies this`started, this`hasTimeBase
      ensures Valid()
      ensures code == Ok <==> prepared && (old(started) ==> accepted)
      ensures code == Ok ==> !started && !hasTimeBase
      ensures code != Ok ==> unchanged(this)
    {
      if !prepared {
        return ErrState;
      }
      if !started {
        return Ok;
      }
      if !accepted {
        return Foreign;
      }
      started, hasTimeBase := false, false;
      code := Ok;
    }

    method Reset(accepted: bool) returns (code: Code)
      requires Valid()
      modifies this`hasTimeBase
      ensures Valid()
      ensures code == Ok <==> prepared && accepted
      ensures hasTimeBase == (old(hasTimeBase) && code != Ok)
    {
      if !prepared {
        return ErrState;
      }
      if !accepted {
        return Foreign;
      }
      hasTimeBase := false;
      code := Ok;
    }
  }

  datatype Lifecycle = Loaded | Prepared | Started

  datatype Notice = PreparedNotice | StartedNotice | StoppedNotice

  datatype TransportError =
    | AlreadyStarted | NotPrepared | InvalidFormat | UnsupportedChannelCount | InvalidTimingPolicy
    | TimestampRateMismatch | BufferShape | TimestampOverflow | WorkerFault

  /** Formats the adapter can prepare. */
  predicate Preparable(f: Format) {
    && f.sampleRate == MEDIA_RATE && 0 < f.channels <= MAX_CHANNELS && 0 < f.blockFrames <= I32_MAX
    && f.channels * f.blockFrames <= U64_MAX
  }

  /** The offsets, in seconds, at which blocks after the base are due. */
  ghost predicate Due(blocks: seq<Block>, offsets: seq<real>, base: u64) {
    && |offsets| == |blocks|
    && forall i :: 0 <= i < |blocks| ==> offsets[i] == (blocks[i].timestamp.frameIndex - base) as real / 48_000.0
  }

  /** Contiguous blocks of one format are due exactly one block length apart: no gap, no overlap. */
  lemma OffsetsAreGapless(blocks: seq<Block>, offsets: seq<real>, base: u64, i: nat)
    requires Contiguous(blocks) && Due(blocks, offsets, base) && 0 < i < |blocks|
    ensures offsets[i] - offsets[i - 1] == blocks[i - 1].format.blockFrames as real / 48_000.0
  {
    assert Follows(blocks[i - 1], blocks[i]);
    var d := blocks[i - 1].format.blockFrames;
    var p, q := blocks[i - 1].timestamp.frameIndex - base, blocks[i].timestamp.frameIndex - base;
    assert q == p + d;
    assert q as real == p as real + d as real;
  }

  /** With no block accepted the base may still move. */
  lemma DueMoves(blocks: seq<Block>, offsets: seq<real>, a: u64, b: u64)
    requires Due(blocks, offsets, a) && (blocks == [] || a == b)
    ensures Due(blocks, offsets, b)
  {
  }

  /** One more block in sequence, due at its distance from the base, keeps both. */
  lemma OneMore(blocks: seq<Block>, offsets: seq<real>, base: u64, b: Block, offset: real)
    requires Contiguous(blocks) && Due(blocks, offsets, base)
    requires blocks != [] ==> Follows(blocks[|blocks| - 1], b)
    requires offset == (b.timestamp.frameIndex - base) as real / 48_000.0
    ensures Contiguous(blocks + [b]) && Due(blocks + [b], offsets + [offset], base)
  {
  }

  class Transport {
    const shim: Shim
    const events: Ring<Notice>
    var lifecycle: Lifecycle
    var preparedFormat: Option<Format>
    var expectedSequence: Option<u64>
    var expectedTimestamp: Option<Timestamp>
    ghost var accepted: seq<Block>     // blocks taken since the timeline was last cleared
    ghost var offsets: seq<real>       // and when each is due, from the time base

    ghost predicate Expects(last: Block)
      reads this
    {
      && last.sequence < U64_MAX && expectedSequence == Some(last.sequence + 1)
      && expectedTimestamp.Some? && expectedTimestamp == Advance(last.timestamp, last.format.blockFrames)
    }

    /** The host lifecycle mirrors the shim whatever failed on the way; blocks accepted since the
        timeline was cleared are contiguous, in the prepared format, and due where they belong. */
    ghost predicate Valid()
      reads this, shim, events, events.slots
    {
      && shim.Valid() && events.Valid()
      && (lifecycle == Loaded <==> !shim.prepared) && (lifecycle == Started <==> shim.started)
      && (lifecycle != Loaded ==>
            && preparedFormat.Some? && Preparable(preparedFormat.value)
            && shim.channels == preparedFormat.value.channels && shim.blockFrames == preparedFormat.value.blockFrames
            && shim.sampleRate == MEDIA_RATE)
      && Contiguous(accepted)
      && (forall i :: 0 <= i < |accepted| ==> Some(accepted[i].format) == preparedFormat && WellShaped(accepted[i]))
      && (accepted == [] ==> expectedSequence == None && expectedTimestamp == None)
      && (accepted != [] ==> Expects(accepted[|accepted| - 1]) && shim.hasTimeBase)
      && Due(accepted, offsets, shim.baseMediaFrame)
    }

    /** The time base, if there is one, was set by a block of the current timeline. */
    ghost predicate Aligned()
      reads this, shim
    {
      shim.hasTimeBase ==> expectedTimestamp.Some? && shim.baseMediaFrame <= expectedTimestamp.value.frameIndex
    }

    constructor (shim: Shim)
      requires shim.Valid() && !shim.prepared
      ensures Valid() && Aligned() && lifecycle == Loaded && events.Contents() == [] && this.shim == shim
      ensures fresh(events) && fresh(events.slots)
    {
      this.shim := shim;
      events := new Ring<Notice>();
      lifecycle := Loaded;
      preparedFormat, expectedSequence, expectedTimestamp := None, None, None;
      accepted, offsets := [], [];
    }

    method ResetTimeline()
      modifies this`expectedSequence, this`expectedTimestamp, this`accepted, this`offsets
      ensures expectedSequence == None && expectedTimestamp == None && accepted == [] && offsets == []
    {
      expectedSequence, expectedTimestamp := None, None;
      accepted, offsets := [], [];
    }

    /** A handle is prepared at most once: from Prepared the shim refuses and nothing changes. */
    method Prepare(format: Format, orderedTiming: bool, mediaMaster: bool, setup: Code)
        returns (error: Option<TransportError>)
      requires Valid()
      modifies this, shim, events, events.slots
      ensures Valid() && (old(Aligned()) ==> Aligned())
      ensures error.None? <==>
              old(lifecycle) == Loaded && Preparable(format) && orderedTiming && mediaMaster && setup == Ok
      ensures error.None? ==>
                && lifecycle == Prepared && preparedFormat == Some(format) && accepted == []
                && events.Contents() == Enqueue(old(events.Contents()), PreparedNotice)
      ensures error.Some? ==> unchanged(this) && events.Contents() == old(events.Contents())
      ensures old(lifecycle) == Started ==> error == Some(AlreadyStarted)
    {
      if lifecycle == Started {
        return Some(AlreadyStarted);
      }
      if format.sampleRate == 0 || format.channels == 0 || format.blockFrames == 0 {
        return Some(TransportError.InvalidFormat);
      }
      if format.channels > MAX_CHANNELS {
        return Some(UnsupportedChannelCount);
      }
      if format.channels * format.blockFrames > U64_MAX {
        return Some(TransportError.InvalidFormat);
      }
      if !orderedTiming {
        return Some(InvalidTimingPolicy);
      }
      if format.sampleRate != MEDIA_RATE {
        return Some(TransportError.InvalidFormat);
      }
      if !mediaMaster {
        return Some(WorkerFault);
      }
      if format.blockFrames > I32_MAX {
        return Some(TransportError.InvalidFormat);
      }
      var code := shim.Prepare(format.channels, format.sampleRate, format.blockFrames, setup);
      if code != Ok {
        return Some(WorkerFault);
      }
      lifecycle := Prepared;
      preparedFormat := Some(format);
      ResetTimeline();
      events.Push(PreparedNotice);
      error := None;
    }

    method Start(accept: bool) returns (error: Option<TransportError>)
      requires Valid()
      modifies this, shim, events, events.slots
      ensures Valid() && (old(Aligned()) ==> Aligned())
      ensures error.None? <==> old(lifecycle) == Prepared && accept
      ensures error.None? ==>
                && lifecycle == Started && accepted == [] && !shim.hasTimeBase
                && events.Contents() == Enqueue(old(events.Contents()), StartedNotice)
      ensures error.Some? ==> unchanged(this) && events.Contents() == old(events.Contents())
    {
      if lifecycle == Loaded {
        return Some(NotPrepared);
      }
      if lifecycle == Started {
        return Some(AlreadyStarted);
      }
      var code := shim.Start(accept);
      if code != Ok {
        return Some(WorkerFault);
      }
      lifecycle := Started;
      ResetTimeline();
      events.Push(StartedNotice);
      error := None;
    }

    /** What the host itself demands of a block. */
    predicate Admits(b: Block)
      reads this
    {
      && lifecycle == Started && WellShaped(b) && preparedFormat == Some(b.format)
      && (expectedSequence.Some? ==> b.sequence == expectedSequence.value)
      && (expectedTimestamp.Some? ==> b.timestamp == expectedTimestamp.value)
      && b.sequence < U64_MAX && Advance(b.timestamp, b.format.blockFrames).Some?
    }

    /** The host's checks, in source order. */
    method Check(b: Block) returns (error: Option<TransportError>, next: Option<Timestamp>)
      ensures error.None? <==> Admits(b)
      ensures error.None? ==> next.Some? && next == Advance(b.timestamp, b.format.blockFrames)
    {
      next := None;
      if lifecycle != Started {
        return Some(NotPrepared), next;
      }
      if b.timestamp.sampleRate != b.format.sampleRate {
        return Some(TimestampRateMismatch), next;
      }
      if b.format.channels * b.format.blockFrames > U64_MAX {
        return Some(TransportError.InvalidFormat), next;
      }
      if |b.samples| != b.format.channels * b.format.blockFrames {
        return Some(BufferShape), next;
      }
      if preparedFormat != Some(b.format) {
        return Some(TransportError.InvalidFormat), next;
      }
      if expectedSequence.Some? && b.sequence != expectedSequence.value {
        return Some(WorkerFault), next;
      }
      if expectedTimestamp.Some? && b.timestamp != expectedTimestamp.value {
        return Some(WorkerFault), next;
      }
      if b.sequence == U64_MAX {
        return Some(WorkerFault), next;
      }
      next := Advance(b.timestamp, b.format.blockFrames);
      error := if next.None? then Some(TimestampOverflow) else None;
    }

    /** Submit one block. While the time base belongs to the current timeline, the shim's timeline
        error cannot occur, so a block is taken exactly when the host admits it and AOO processes
        it; the base is lost only by a first block that AOO fails to process. */
    method Submit(b: Block, processed: bool) returns (error: Option<TransportError>, ghost code: Code)
      requires Valid()
      modifies this, shim, shim.planar
      ensures Valid() && lifecycle == old(lifecycle) && preparedFormat == old(preparedFormat)
      ensures error.None? <==> code == Ok
      ensures code == ErrTimeline ==> error == Some(WorkerFault)
      ensures shim.planar == old(shim.planar)
      ensures code == Ok ==>
                && shim.hasTimeBase
                && shim.baseMediaFrame ==
                   if old(shim.hasTimeBase) then old(shim.baseMediaFrame) else b.timestamp.frameIndex
      ensures code == Ok ==>
                && old(Admits(b)) && processed && accepted == old(accepted) + [b]
                && shim.Holds(b.samples, shim.blockFrames)
      ensures code != Ok ==> accepted == old(accepted)
      ensures code == ErrTimeline <==>
                old(Admits(b)) && old(shim.hasTimeBase) && b.timestamp.frameIndex < old(shim.baseMediaFrame)
      ensures old(Aligned()) ==> code != ErrTimeline && (error.None? <==> old(Admits(b)) && processed)
      ensures old(Aligned()) ==> (Aligned() <==> !(old(Admits(b)) && old(accepted) == [] && !processed))
    {
      hide Contiguous, Due, Preparable;
      code := Foreign;
      var refusal, next := Check(b);
      if refusal.Some? {
        return refusal, code;
      }
      var answer, offset := shim.Submit(b.samples, b.timestamp.frameIndex, processed);
      code := answer;
      DueMoves(accepted, offsets, old(shim.baseMediaFrame), shim.baseMediaFrame);
      if answer != Ok {
        return Some(WorkerFault), code;
      }
      OneMore(accepted, offsets, shim.baseMediaFrame, b, offset);
      Record(b, next, offset);
      error := None;
    }

    /** The shim took the block. */
    method Record(b: Block, next: Option<Timestamp>, ghost offset: real)
      requires b.sequence < U64_MAX
      modifies this`expectedSequence, this`expectedTimestamp, this`accepted, this`offsets
      ensures accepted == old(accepted) + [b] && offsets == old(offsets) + [offset]
      ensures expectedSequence == Some(b.sequence + 1) && expectedTimestamp == next
    {
      expectedSequence, expectedTimestamp := Some(b.sequence + 1), next;
      accepted, offsets := accepted + [b], offsets + [offset];
    }

    method PollEvent() returns (e: Option<Notice>)
      requires Valid()
      modifies events, events.slots
      ensures Valid()
      ensures old(events.Contents()) == [] ==> e == None && events.Contents() == []
      ensures old(events.Contents()) != [] ==>
              e == Some(old(events.Contents())[0]) && events.Contents() == old(events.Contents())[1..]
    {
      e := events.Pop();
    }

    method Stop(accept: bool) returns (error: Option<TransportError>)
      requires Valid()
      modifies this, shim, events, events.slots
      ensures Valid() && (old(Aligned()) ==> Aligned())
      ensures error.None? <==> old(lifecycle) != Loaded && (old(lifecycle) == Started ==> accept)
      ensures error.None? ==>
                && lifecycle == Prepared && accepted == [] && Aligned()
                && events.Contents() == Enqueue(old(events.Contents()), StoppedNotice)
      ensures error.Some? ==> unchanged(this) && events.Contents() == old(events.Contents())
    {
      if lifecycle == Loaded {
        return Some(NotPrepared);
      }
      if lifecycle == Started {
        var code := shim.Stop(accept);
        if code != Ok {
          return Some(WorkerFault);
        }
      }
      lifecycle := Prepared;
      ResetTimeline();
      events.Push(StoppedNotice);
      error := None;
    }

    /** Clear the timeline. The host ignores what the shim answers: if the native reset fails the
        old time base survives, and only then. */
    method Reset(accept: bool)
      requires Valid()
      modifies this, shim
      ensures Valid() && lifecycle == old(lifecycle) && preparedFormat == old(preparedFormat) && accepted == []
      ensures shim.baseMediaFrame == old(shim.baseMediaFrame) && shim.planar == old(shim.planar)
      ensures shim.hasTimeBase <==> old(shim.hasTimeBase) && !accept
      ensures Aligned() <==> accept || !old(shim.hasTimeBase)
    {
      if lifecycle != Loaded {
        var _ := shim.Reset(accept);
      }
      ResetTimeline();
    }
  }

  /** The timeline error can occur after all. On any freshly started transport: take a first block at
      frame 48, fail to reset the shim, and offer the host, whose timeline is clear, a block at frame 0. */
  method FailedResetMeetsTimelineError(transport: Transport) returns (error: Option<TransportError>, ghost code: Code)
    requires transport.Valid() && transport.lifecycle == Started && transport.accepted == []
    requires !transport.shim.hasTimeBase
    modifies transport, transport.shim, transport.shim.planar
    ensures error == Some(WorkerFault) && code == ErrTimeline
  {
    var format := transport.preparedFormat.value;
    var silence := seq(format.channels * format.blockFrames, _ => 0.0);
    var _, _ := transport.Submit(Block(0, Timestamp(48, format.sampleRate), format, silence), true);
    transport.Reset(false);
    error, code := transport.Submit(Block(0, Timestamp(0, format.sampleRate), format, silence), true);
  }
}
