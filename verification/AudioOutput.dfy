/** Audio output (MediaCodecAudioTrackRenderer.java): decoded buffers are written to an audio track as far as it has
    room, the track's 32-bit playback head is unwrapped, and offsets between clock and playhead are averaged over a
    ring of the latest ten. */
module AudioOutput {
  import opened Basics

  // ---------------------------------------------------------------- the playback head

  const WRAP := 0x1_0000_0000

  /** The 32-bit integer a frame count is reported as, and the unsigned number it stands for. */
  function AsInt32(frames: nat): int {
    var low := frames % WRAP;
    if low < 0x8000_0000 then low else low - WRAP
  }

  function Unsigned(raw: int): nat {
    raw % WRAP
  }

  /** The frame count told by an unsigned reading: a reading below the last one means that the head has wrapped
      once more. */
  function Unwrapped(wraps: nat, lastRaw: nat, raw: nat): nat {
    raw + (wraps + if lastRaw > raw then 1 else 0) * WRAP
  }

  /** The unwrapped head position is the true one exactly while the head advances by less than 2^32 frames between
      two readings. */
  lemma UnwrappedExactly(wraps: nat, lastRaw: nat, frames: nat)
    requires lastRaw < WRAP && wraps * WRAP + lastRaw <= frames
    ensures Unwrapped(wraps, lastRaw, Unsigned(AsInt32(frames))) == frames <==> frames - (wraps * WRAP + lastRaw) < WRAP
  {
    var q, r := frames / WRAP, frames % WRAP;
    assert Unsigned(AsInt32(frames)) == r;
    assert frames == q * WRAP + r;
  }

  // ---------------------------------------------------------------- the smoothed offset

  const MAX_PLAYHEAD_OFFSET_COUNT := 10

  /** Division of a long by a positive int, which rounds towards zero. */
  function Div(a: int, n: int): int
    requires n > 0
  {
    if a >= 0 then a / n else -((-a) / n)
  }

  function Sum(s: seq<int>): int {
    if s == [] then 0 else Sum(s[..|s| - 1]) + s[|s| - 1]
  }

  /** What the averaging loop adds up. */
  function SumOfQuotients(s: seq<int>, n: int): int
    requires n > 0
  {
    if s == [] then 0 else SumOfQuotients(s[..|s| - 1], n) + Div(s[|s| - 1], n)
  }

  lemma DivError(a: int, n: int)
    requires n > 0
    ensures -(n - 1) <= n * Div(a, n) - a <= n - 1
  {
  }

  lemma Distributes(n: int, a: int, b: int)
    ensures n * (a + b) == n * a + n * b
  {
  }

  /** Every division loses less than one, so the sum of the quotients is off by less than the number of terms. */
  lemma {:induction false} SmoothingError(s: seq<int>, n: int)
    requires n > 0
    ensures -(|s| * (n - 1)) <= n * SumOfQuotients(s, n) - Sum(s) <= |s| * (n - 1)
  {
    if s != [] {
      var rest, a := s[..|s| - 1], s[|s| - 1];
      SmoothingError(rest, n);
      DivError(a, n);
      Distributes(n, SumOfQuotients(rest, n), Div(a, n));
      Distributes(n - 1, |rest|, 1);
    }
  }

  lemma {:induction false} SumAppend(a: seq<int>, b: seq<int>)
    ensures Sum(a + b) == Sum(a) + Sum(b)
  {
    if b == [] {
      assert a + b == a;
    } else {
      assert (a + b)[..|a + b| - 1] == a + b[..|b| - 1];
      SumAppend(a, b[..|b| - 1]);
    }
  }

  function Last<T>(s: seq<T>, n: nat): seq<T> {
    if |s| <= n then s else s[|s| - n..]
  }

  /** The samples a ring holds, oldest first. */
  function Unrolled(ring: seq<int>, next: nat, count: nat): seq<int>
    requires next <= count <= |ring|
  {
    if count < |ring| then ring[..count] else ring[next..] + ring[..next]
  }

  lemma LastAppend(samples: seq<int>, n: nat, x: int)
    requires n > 0
    ensures Last(samples + [x], n) == (if |samples| < n then samples else Last(samples, n)[1..]) + [x]
  {
  }

  function Next(next: nat, size: nat): nat
    requires next < size
  {
    if next + 1 == size then 0 else next + 1
  }

  lemma UnrolledWhileFilling(ring: seq<int>, next: nat, x: int)
    requires next < |ring|
    ensures Unrolled(ring[next := x], Next(next, |ring|), next + 1) == ring[..next] + [x]
  {
    var ring' := ring[next := x];
    assert ring'[..next + 1] == ring[..next] + [x];
    if next + 1 == |ring| {
      assert ring'[0..] + ring'[..0] == ring'[..next + 1];
    }
  }

  lemma UnrolledWhenFull(ring: seq<int>, next: nat, x: int)
    requires next < |ring|
    ensures Unrolled(ring[next := x], Next(next, |ring|), |ring|) == Unrolled(ring, next, |ring|)[1..] + [x]
  {
    var ring', older, newer := ring[next := x], ring[next + 1..], ring[..next];
    assert ring[next..] == [ring[next]] + older;
    assert Unrolled(ring, next, |ring|)[1..] == older + newer;
    assert ring'[next + 1..] == older;
    assert ring'[..next + 1] == newer + [x];
    if next + 1 == |ring| {
      assert ring'[0..] + ring'[..0] == ring'[..next + 1];
    }
  }

  /** How far the terms are from a value, taken together. */
  function Deviations(s: seq<int>, v: int): int {
    if s == [] then 0 else Deviations(s[..|s| - 1], v) + (s[|s| - 1] - v)
  }

  /** n * (n - 1). */
  function Tolerance(n: nat): int {
    if n == 0 then 0 else Tolerance(n - 1) + 2 * (n - 1)
  }

  predicate NearMean(v: int, s: seq<int>) {
    -Tolerance(|s|) <= Deviations(s, v) <= Tolerance(|s|)
  }

  lemma {:induction false} DeviationsAddUp(s: seq<int>, v: int)
    ensures Deviations(s, v) == Sum(s) - |s| * v
  {
    if s != [] {
      DeviationsAddUp(s[..|s| - 1], v);
      Distributes(v, |s| - 1, 1);
    }
  }

  lemma {:induction false} ToleranceIsAProduct(n: nat)
    ensures Tolerance(n) == n * (n - 1)
  {
    if n > 0 {
      ToleranceIsAProduct(n - 1);
      Distributes(n - 1, n - 2, 2);
    }
  }

  /** Near the mean: off the exact mean of n terms by at most n - 1. */
  lemma NearMeanIsExact(v: int, s: seq<int>)
    ensures NearMean(v, s) <==> -(|s| * (|s| - 1)) <= |s| * v - Sum(s) <= |s| * (|s| - 1)
  {
    DeviationsAddUp(s, v);
    ToleranceIsAProduct(|s|);
  }

  lemma {:induction false} SumBetween(s: seq<int>, lo: int, hi: int)
    requires forall i :: 0 <= i < |s| ==> lo <= s[i] <= hi
    ensures lo * |s| <= Sum(s) <= hi * |s|
  {
    if s != [] {
      var rest := s[..|s| - 1];
      SumBetween(rest, lo, hi);
      Distributes(lo, |rest|, 1);
      Distributes(hi, |rest|, 1);
    }
  }

  lemma Cancels(n: nat, a: int, b: int)
    requires n > 0 && n * a <= n * b
    ensures a <= b
  {
    if a > b {
      Distributes(n, b, a - b);
    }
  }

  /** A value near the mean of n terms is at most n - 1 away from where they lie. */
  lemma NearMeanIsNearTerms(v: int, s: seq<int>, lo: int, hi: int)
    requires NearMean(v, s) && s != [] && forall i :: 0 <= i < |s| ==> lo <= s[i] <= hi
    ensures lo - (|s| - 1) <= v <= hi + (|s| - 1)
  {
    var n := |s|;
    NearMeanIsExact(v, s);
    SumBetween(s, lo, hi);
    Distributes(n, hi, n - 1);
    Distributes(n, v, n - 1);
    Cancels(n, v, hi + (n - 1));
    Cancels(n, lo, v + (n - 1));
  }

  /** A ring into which samples have been written. */
  predicate Holds(ring: seq<int>, next: nat, count: nat, samples: seq<int>) {
    && next < |ring| && next <= count <= |ring| && (count < |ring| ==> next == count)
    && Unrolled(ring, next, count) == Last(samples, |ring|)
  }

  /** Writing one more sample keeps the latest ones. */
  lemma RingKeepsTheLatest(ring: seq<int>, next: nat, count: nat, samples: seq<int>, x: int)
    requires Holds(ring, next, count, samples)
    ensures Holds(ring[next := x], Next(next, |ring|), if count < |ring| then count + 1 else count, samples + [x])
  {
    LastAppend(samples, |ring|, x);
    assert |Unrolled(ring, next, count)| == count;
    if count < |ring| {
      UnrolledWhileFilling(ring, next, x);
    } else {
      UnrolledWhenFull(ring, next, x);
    }
  }

  /** The ring's slots add up to what they hold, in whatever order they are visited. */
  lemma SumOfRing(ring: seq<int>, next: nat, count: nat)
    requires next <= count <= |ring|
    ensures Sum(ring[..count]) == Sum(Unrolled(ring, next, count))
  {
    if count == |ring| {
      assert ring[..count] == ring[..next] + ring[next..];
      SumAppend(ring[..next], ring[next..]);
      SumAppend(ring[next..], ring[..next]);
    }
  }

  /** Adding up the quotients of a ring's slots comes near the mean of the samples the ring holds. */
  lemma SmoothedIsNearMean(ring: seq<int>, next: nat, count: nat, samples: seq<int>)
    requires Holds(ring, next, count, samples) && count > 0
    ensures NearMean(SumOfQuotients(ring[..count], count), Last(samples, |ring|))
  {
    NearMeanIsExact(SumOfQuotients(ring[..count], count), Last(samples, |ring|));
    SumOfRing(ring, next, count);
    SmoothingError(ring[..count], count);
    assert |Unrolled(ring, next, count)| == count;
  }

  // ---------------------------------------------------------------- the audio track

  /** The size of a number of frames. */
  ghost function Bytes(frames: nat, frameSize: nat): nat {
    if frames == 0 then 0 else frameSize + Bytes(frames - 1, frameSize)
  }

  lemma {:induction false} BytesIsProduct(frames: nat, frameSize: nat)
    ensures Bytes(frames, frameSize) == frames * frameSize
  {
    if frames > 0 {
      BytesIsProduct(frames - 1, frameSize);
      Distributes(frameSize, frames - 1, 1);
    }
  }

  lemma {:induction false} BytesGrow(last: nat, frames: nat, frameSize: nat)
    requires last <= frames
    ensures Bytes(frames, frameSize) >= Bytes(last, frameSize)
    ensures frameSize > 0 ==> Bytes(frames, frameSize) - Bytes(last, frameSize) >= frames - last
  {
    if last < frames {
      BytesGrow(last, frames - 1, frameSize);
    }
  }

  /** An audio track: it takes bytes as long as it has room, and plays them frame by frame. */
  class AudioTrack {
    const frameSize: nat
    const capacity: nat
    ghost var written: seq<byte>
    var playedFrames: nat

    ghost predicate Valid()
      reads this
    {
      frameSize > 0 && Bytes(playedFrames, frameSize) <= |written| <= Bytes(playedFrames, frameSize) + capacity
    }

    constructor (frameSize: nat, capacity: nat)
      requires frameSize > 0
      ensures Valid() && this.frameSize == frameSize && this.capacity == capacity && written == [] && playedFrames == 0
    {
      this.frameSize, this.capacity := frameSize, capacity;
      written, playedFrames := [], 0;
    }

    /** Writing more than there is room for would block. */
    method Write(data: seq<byte>)
      requires Valid() && |written| + |data| <= Bytes(playedFrames, frameSize) + capacity
      modifies `written
      ensures Valid() && written == old(written) + data
    {
      written := written + data;
    }

    method GetPlaybackHeadPosition() returns (raw: int)
      ensures raw == AsInt32(playedFrames)
    {
      raw := AsInt32(playedFrames);
    }

    method Play(frames: nat)
      requires Valid() && Bytes(playedFrames + frames, frameSize) <= |written|
      modifies `playedFrames
      ensures Valid() && playedFrames == old(playedFrames) + frames
    {
      BytesGrow(playedFrames, playedFrames + frames, frameSize);
      playedFrames := playedFrames + frames;
    }
  }

  // ---------------------------------------------------------------- the renderer

  datatype Outcome = Done | Threw

  datatype StartState = NotSet | InSync | NeedSync

  const MICROS_PER_SECOND := 1000000

  function FramesToDurationUs(frames: nat, sampleRate: nat): nat
    requires sampleRate > 0
  {
    frames * MICROS_PER_SECOND / sampleRate
  }

  /** What has been written is the released buffers in order, followed by the part of the current one in front of the
      offset as long as some of it remains. */
  predicate Accounts(written: seq<byte>, released: seq<seq<byte>>, current: seq<byte>, offset: nat, remaining: nat) {
    if remaining > 0 then offset <= |current| && written == Joined(released) + current[..offset]
    else written == Joined(released)
  }

  /** Writing the next bytes of the current buffer, and releasing it when it is complete, keeps the account. */
  lemma WritingGoesOn(written: seq<byte>, released: seq<seq<byte>>, current: seq<byte>, offset: nat, remaining: nat,
      n: nat)
    requires Accounts(written, released, current, offset, remaining)
    requires n <= remaining && offset + remaining == |current| && (remaining == 0 ==> current == [])
    ensures Accounts(written + current[offset..offset + n], if n == remaining then released + [current] else released,
                     current, offset + n, remaining - n)
  {
    JoinedAppend(released, current);
    assert current[..offset] + current[offset..offset + n] == current[..offset + n];
    assert current[..|current|] == current;
  }

  /** How much of a number of bytes fits into the room there is. */
  function Share(bytes: int, room: int): int {
    if room <= 0 then 0 else if bytes < room then bytes else room
  }

  /** Where writing goes on. */
  function From(remaining: nat, offset: nat): nat {
    if remaining == 0 then 0 else offset
  }

  /** What has been written has grown by a slice of a buffer. */
  predicate Grown(before: seq<byte>, after: seq<byte>, buffer: seq<byte>, from: nat, to: nat) {
    from <= to <= |buffer| && after == before + buffer[from..to]
  }

  /** Sampling the playhead against the clock, and starting all over. */
  datatype SyncStep = TakeSample(playheadUs: nat, clockUs: int) | Reset

  /** The offsets sampled, and when the last one was. */
  datatype Sampling = Sampling(samples: seq<int>, lastUs: int)

  /** One offset every 30 ms at most, and none before anything is heard. */
  function Stepped(s: Sampling, step: SyncStep): Sampling {
    match step
    case Reset => Sampling([], 0)
    case TakeSample(playheadUs, clockUs) =>
      if playheadUs == 0 || clockUs - s.lastUs < 30000 then s
      else Sampling(s.samples + [playheadUs - clockUs], clockUs)
  }

  function Sampled(s: Sampling, steps: seq<SyncStep>): Sampling {
    if steps == [] then s else Stepped(Sampled(s, steps[..|steps| - 1]), steps[|steps| - 1])
  }

  /** Whatever is sampled after a reset lies where the playhead is ahead of the clock, or behind it. */
  lemma {:induction false} SampledSinceReset(s: Sampling, steps: seq<SyncStep>, k: nat, lo: int, hi: int)
    requires 0 < k <= |steps| && steps[k - 1].Reset?
    requires forall i :: k <= i < |steps| ==>
               steps[i].TakeSample? && lo <= steps[i].playheadUs - steps[i].clockUs <= hi
    ensures var samples := Sampled(s, steps).samples; forall i :: 0 <= i < |samples| ==> lo <= samples[i] <= hi
  {
    var n := |steps| - 1;
    assert Sampled(s, steps) == Stepped(Sampled(s, steps[..n]), steps[n]);
    if k < |steps| {
      SampledSinceReset(s, steps[..n], k, lo, hi);
    }
  }

  class MediaCodecAudioTrackRenderer {
    var sampleRate: nat
    var frameSize: nat
    var bufferSize: nat
    var audioTrack: AudioTrack?
    var submittedBytes: nat
    var temporaryBuffer: array<byte>
    var temporaryBufferOffset: nat
    var temporaryBufferSize: nat
    var lastRawPlaybackHeadPosition: nat
    var rawPlaybackHeadWrapCount: nat
    var startMediaTimeUs: int
    var startMediaTimeState: StartState
    const playheadOffsets: array<int>
    var nextPlayheadOffsetIndex: nat
    var playheadOffsetCount: nat
    var smoothedPlayheadOffsetUs: int
    var lastPlayheadSampleTimeUs: int

    /** The head position last told; the buffers written completely since the track was made, and the one that is
        being written; and the offsets sampled since the last reset. */
    ghost var told: nat
    ghost var released: seq<seq<byte>>
    ghost var current: seq<byte>
    ghost var samples: seq<int>

    /** There is a current buffer, possibly an empty one, with so much of it still to be written. */
    ghost predicate Loaded()
      reads `temporaryBuffer, `temporaryBufferOffset, `temporaryBufferSize, `current, temporaryBuffer
    {
      && temporaryBufferOffset + temporaryBufferSize == |current| <= temporaryBuffer.Length
      && temporaryBuffer[..|current|] == current
    }

    ghost predicate BufferValid()
      reads `temporaryBuffer, `temporaryBufferOffset, `temporaryBufferSize, `current, temporaryBuffer
    {
      temporaryBufferSize > 0 ==> Loaded()
    }

    /** The track has been given the released buffers in order and a prefix of the current one, and never more than
        its buffer holds beyond what it had played when it was last asked. */
    ghost predicate TrackValid()
      reads `audioTrack, `submittedBytes, `told, `released, `frameSize, `bufferSize, audioTrack
      reads `temporaryBufferOffset, `temporaryBufferSize, `current
    {
      if audioTrack == null then
        submittedBytes == 0 && told == 0 && released == [] && (temporaryBufferSize > 0 ==> temporaryBufferOffset == 0)
      else
        && audioTrack.Valid() && audioTrack.frameSize == frameSize && audioTrack.capacity == bufferSize
        && submittedBytes == |audioTrack.written|
        && Accounts(audioTrack.written, released, current, temporaryBufferOffset, temporaryBufferSize)
        && told <= audioTrack.playedFrames && submittedBytes <= Bytes(told, frameSize) + bufferSize
    }

    ghost predicate Valid()
      reads this, audioTrack, temporaryBuffer
    {
      && BufferValid() && TrackValid()
      && bufferSize < 0x8000_0000
      && HeadValid() && StartValid() && playheadOffsets.Length == MAX_PLAYHEAD_OFFSET_COUNT
    }

    ghost predicate StartValid()
      reads `startMediaTimeState, `submittedBytes, `temporaryBufferSize
    {
      startMediaTimeState == NotSet ==> submittedBytes == 0 && temporaryBufferSize == 0
    }

    /** The ring holds the latest ten of the offsets sampled since the last reset. */
    ghost predicate RingHolds()
      reads `nextPlayheadOffsetIndex, `playheadOffsetCount, `samples, playheadOffsets
    {
      && playheadOffsets.Length == MAX_PLAYHEAD_OFFSET_COUNT
      && Holds(playheadOffsets[..], nextPlayheadOffsetIndex, playheadOffsetCount, samples)
    }

    /** And the smoothed offset is near their mean. */
    ghost predicate RingValid()
      reads `nextPlayheadOffsetIndex, `playheadOffsetCount, `samples, `smoothedPlayheadOffsetUs, playheadOffsets
    {
      RingHolds() && (samples != [] ==> NearMean(smoothedPlayheadOffsetUs, Last(samples, MAX_PLAYHEAD_OFFSET_COUNT)))
    }

    /** The format of the output is known. */
    predicate Configured()
      reads `sampleRate, `frameSize
    {
      sampleRate > 0 && frameSize > 0
    }

    constructor ()
      ensures Valid() && RingValid() && audioTrack == null && temporaryBufferSize == 0 && fresh(temporaryBuffer)
      ensures fresh(playheadOffsets)
    {
      sampleRate, frameSize, bufferSize, audioTrack, submittedBytes := 0, 0, 0, null, 0;
      temporaryBuffer, temporaryBufferOffset, temporaryBufferSize := new byte[0], 0, 0;
      lastRawPlaybackHeadPosition, rawPlaybackHeadWrapCount := 0, 0;
      startMediaTimeUs, startMediaTimeState := 0, NotSet;
      playheadOffsets := new int[MAX_PLAYHEAD_OFFSET_COUNT](i => 0);
      nextPlayheadOffsetIndex, playheadOffsetCount, smoothedPlayheadOffsetUs, lastPlayheadSampleTimeUs := 0, 0, 0, 0;
      told, released, current, samples := 0, [], [], [];
    }

    ghost predicate HeadValid()
      reads `told, `rawPlaybackHeadWrapCount, `lastRawPlaybackHeadPosition
    {
      told == rawPlaybackHeadWrapCount * WRAP + lastRawPlaybackHeadPosition && lastRawPlaybackHeadPosition < WRAP
    }

    /** A reading is taken to be the next one at or above the last. */
    method Unwrap(raw: int, ghost frames: nat) returns (head: nat)
      requires HeadValid() && told <= frames && frames - told < WRAP && raw == AsInt32(frames)
      modifies `lastRawPlaybackHeadPosition, `rawPlaybackHeadWrapCount, `told
      ensures HeadValid() && head == told == frames
    {
      UnwrappedExactly(rawPlaybackHeadWrapCount, lastRawPlaybackHeadPosition, frames);
      var rawPlaybackHeadPosition := Unsigned(raw);
      if lastRawPlaybackHeadPosition > rawPlaybackHeadPosition {
        rawPlaybackHeadWrapCount := rawPlaybackHeadWrapCount + 1;
      }
      lastRawPlaybackHeadPosition := rawPlaybackHeadPosition;
      head := rawPlaybackHeadPosition + rawPlaybackHeadWrapCount * WRAP;
      told := head;
    }

    /** The head position as a number that does not wrap. Since no more is ever submitted than the track's buffer
        holds, the head cannot have advanced too far for that since it was last asked for. */
    method GetPlaybackHeadPosition() returns (head: nat)
      requires Valid() && audioTrack != null
      modifies `lastRawPlaybackHeadPosition, `rawPlaybackHeadWrapCount, `told
      ensures Valid() && head == told == audioTrack.playedFrames
    {
      BytesGrow(told, audioTrack.playedFrames, frameSize);
      var raw := audioTrack.GetPlaybackHeadPosition();
      head := Unwrap(raw, audioTrack.playedFrames);
    }

    // -------------------------------------------------------------- the smoothed offset

    ghost function SamplingState(): Sampling
      reads `samples, `lastPlayheadSampleTimeUs
    {
      Sampling(samples, lastPlayheadSampleTimeUs)
    }

    method ResetSyncParams()
      requires playheadOffsets.Length == MAX_PLAYHEAD_OFFSET_COUNT
      modifies `smoothedPlayheadOffsetUs, `playheadOffsetCount, `nextPlayheadOffsetIndex, `lastPlayheadSampleTimeUs
      modifies `samples
      ensures RingValid() && SamplingState() == Stepped(old(SamplingState()), Reset) && smoothedPlayheadOffsetUs == 0
    {
      smoothedPlayheadOffsetUs, playheadOffsetCount, nextPlayheadOffsetIndex, lastPlayheadSampleTimeUs := 0, 0, 0, 0;
      samples := [];
    }

    method RecordOffset(offsetUs: int)
      requires RingHolds()
      modifies `playheadOffsetCount, `nextPlayheadOffsetIndex, `samples, playheadOffsets
      ensures RingHolds() && samples == old(samples) + [offsetUs] && playheadOffsetCount > 0
    {
      ghost var ring := playheadOffsets[..][nextPlayheadOffsetIndex := offsetUs];
      RingKeepsTheLatest(playheadOffsets[..], nextPlayheadOffsetIndex, playheadOffsetCount, samples, offsetUs);
      playheadOffsets[nextPlayheadOffsetIndex] := offsetUs;
      assert playheadOffsets[..] == ring;
      nextPlayheadOffsetIndex := (nextPlayheadOffsetIndex + 1) % MAX_PLAYHEAD_OFFSET_COUNT;
      if playheadOffsetCount < MAX_PLAYHEAD_OFFSET_COUNT {
        playheadOffsetCount := playheadOffsetCount + 1;
      }
      samples := samples + [offsetUs];
    }

    /** A new sample of the offset between playhead and clock: the smoothed offset is near the mean of the latest
        ten. */
    method SampleOffset(offsetUs: int)
      requires RingHolds()
      modifies `smoothedPlayheadOffsetUs, `playheadOffsetCount, `nextPlayheadOffsetIndex, `samples, playheadOffsets
      ensures RingValid() && samples == old(samples) + [offsetUs]
    {
      RecordOffset(offsetUs);
      Average();
      assert playheadOffsets[..][..playheadOffsetCount] == playheadOffsets[..playheadOffsetCount];
      SmoothedIsNearMean(playheadOffsets[..], nextPlayheadOffsetIndex, playheadOffsetCount, samples);
    }

    method Average()
      requires 0 < playheadOffsetCount <= playheadOffsets.Length
      modifies `smoothedPlayheadOffsetUs
      ensures smoothedPlayheadOffsetUs == SumOfQuotients(playheadOffsets[..playheadOffsetCount], playheadOffsetCount)
    {
      smoothedPlayheadOffsetUs := 0;
      for i := 0 to playheadOffsetCount
        modifies `smoothedPlayheadOffsetUs
        invariant smoothedPlayheadOffsetUs == SumOfQuotients(playheadOffsets[..i], playheadOffsetCount)
      {
        smoothedPlayheadOffsetUs := smoothedPlayheadOffsetUs + Div(playheadOffsets[i], playheadOffsetCount);
        assert playheadOffsets[..i + 1][..i] == playheadOffsets[..i];
      }
    }

    // -------------------------------------------------------------- the start time

    function ExpectedStartUs(): int
      requires Configured()
      reads `sampleRate, `frameSize, `startMediaTimeUs, `submittedBytes
    {
      startMediaTimeUs + FramesToDurationUs(submittedBytes / frameSize, sampleRate)
    }

    /** A buffer's presentation time is that of its end. */
    function StartOf(buffer: seq<byte>, presentationTimeUs: int): int
      requires Configured()
      reads `sampleRate, `frameSize
    {
      presentationTimeUs - FramesToDurationUs(|buffer| / frameSize, sampleRate)
    }

    /** A buffer is seen for the first time. Its start and the time at which the bytes before it will have been played
        agree to 200 ms, and exactly once synchronization has been lost: from then on every buffer is synchronized. */
    method SyncStartTime(startUs: int)
      requires Configured() && StartValid()
      modifies `startMediaTimeUs, `startMediaTimeState
      ensures startMediaTimeState != NotSet
      ensures old(startMediaTimeState) == NotSet ==>
                && startMediaTimeState == InSync
                && ExpectedStartUs() == startMediaTimeUs == (if startUs > 0 then startUs else 0)
      ensures old(startMediaTimeState) == InSync ==>
                (startMediaTimeState == InSync <==> -200000 <= old(ExpectedStartUs()) - startUs <= 200000)
      ensures old(startMediaTimeState) == InSync ==>
                (startMediaTimeState == InSync <==>
                 -200000 <= old(startMediaTimeUs)
                   + submittedBytes / frameSize * 1000000 / sampleRate - startUs <= 200000)
      ensures old(startMediaTimeState) != NotSet && startMediaTimeState == InSync ==>
                startMediaTimeUs == old(startMediaTimeUs)
      ensures startMediaTimeState == NeedSync ==>
                startMediaTimeUs + submittedBytes / frameSize * 1000000 / sampleRate == startUs
      ensures startMediaTimeState == NeedSync ==> ExpectedStartUs() == startUs
      ensures old(startMediaTimeState) == NeedSync ==> startMediaTimeState == NeedSync
    {
      if startMediaTimeState == NotSet {
        startMediaTimeUs := if startUs > 0 then startUs else 0;
        startMediaTimeState := InSync;
      } else {
        var expectedUs := ExpectedStartUs();
        if startMediaTimeState == InSync && (expectedUs - startUs > 200000 || expectedUs - startUs < -200000) {
          startMediaTimeState := NeedSync;
        }
        if startMediaTimeState == NeedSync {
          startMediaTimeUs := startMediaTimeUs + (startUs - expectedUs);
        }
      }
    }

    // -------------------------------------------------------------- writing

    ghost function Written(): seq<byte>
      reads `audioTrack, audioTrack
    {
      if audioTrack == null then [] else audioTrack.written
    }

    method ForgetTrack()
      requires BufferValid() && bufferSize < 0x8000_0000 && playheadOffsets.Length == MAX_PLAYHEAD_OFFSET_COUNT
      modifies `audioTrack, `submittedBytes, `temporaryBufferSize, `lastRawPlaybackHeadPosition
      modifies `rawPlaybackHeadWrapCount
      modifies `startMediaTimeUs, `startMediaTimeState, `told, `released
      ensures Valid() && audioTrack == null && released == [] && temporaryBufferSize == 0
      ensures startMediaTimeState == NotSet && startMediaTimeUs == 0
    {
      submittedBytes, temporaryBufferSize := 0, 0;
      lastRawPlaybackHeadPosition, rawPlaybackHeadWrapCount := 0, 0;
      startMediaTimeUs, startMediaTimeState := 0, NotSet;
      told, released := 0, [];
      audioTrack := null;
    }

    /** Everything starts again with the next track. Without a track nothing is reset, not even a buffer that could
        not be written because its track could not be made. */
    method ReleaseAudioTrack()
      requires Valid()
      modifies `audioTrack, `submittedBytes, `temporaryBufferSize, `lastRawPlaybackHeadPosition
      modifies `rawPlaybackHeadWrapCount
      modifies `startMediaTimeUs, `startMediaTimeState, `told, `released
      modifies `smoothedPlayheadOffsetUs, `playheadOffsetCount, `nextPlayheadOffsetIndex, `lastPlayheadSampleTimeUs
      modifies `samples
      ensures Valid() && (old(RingValid()) ==> RingValid()) && audioTrack == null && released == []
      ensures old(audioTrack) != null ==>
                temporaryBufferSize == 0 && startMediaTimeState == NotSet && startMediaTimeUs == 0 && samples == []
      ensures old(audioTrack) == null ==>
                && temporaryBufferSize == old(temporaryBufferSize) && startMediaTimeState == old(startMediaTimeState)
                && startMediaTimeUs == old(startMediaTimeUs) && samples == old(samples)
    {
      if audioTrack != null {
        ForgetTrack();
        ResetSyncParams();
      }
    }

    /** The first time a buffer is seen it is copied. */
    method Load(buffer: seq<byte>)
      requires BufferValid() && temporaryBufferSize == 0
      modifies `temporaryBuffer, `temporaryBufferOffset, `temporaryBufferSize, `current, temporaryBuffer
      ensures BufferValid() && Loaded() && current == buffer && temporaryBufferOffset == 0
      ensures temporaryBuffer == old(temporaryBuffer) || fresh(temporaryBuffer)
    {
      if temporaryBuffer.Length < |buffer| {
        temporaryBuffer := new byte[|buffer|];
      }
      forall i | 0 <= i < |buffer| {
        temporaryBuffer[i] := buffer[i];
      }
      temporaryBufferOffset, temporaryBufferSize := 0, |buffer|;
      current := buffer;
      assert temporaryBuffer[..|buffer|] == buffer;
    }

    method InitAudioTrack(fails: bool) returns (o: Outcome)
      requires Valid() && Configured() && audioTrack == null
      modifies `audioTrack
      ensures Valid() && Written() == [] && o == if fails then Threw else Done
      ensures o == Done ==>
                audioTrack != null && fresh(audioTrack) && audioTrack.written == [] && audioTrack.playedFrames == 0
      ensures o == Threw ==> audioTrack == null
    {
      if fails {
        return Threw;
      }
      audioTrack := new AudioTrack(frameSize, bufferSize);
      o := Done;
    }

    /** The number of bytes the track takes without blocking. */
    method Room() returns (bytes: int)
      requires Valid() && audioTrack != null
      modifies `lastRawPlaybackHeadPosition, `rawPlaybackHeadWrapCount, `told
      ensures Valid() && told == audioTrack.playedFrames && bytes == RoomFor(told)
    {
      var head := GetPlaybackHeadPosition();
      BytesIsProduct(head, frameSize);
      var bytesPending := submittedBytes - head * frameSize;
      bytes := bufferSize - bytesPending;
    }

    ghost function RoomFor(playedFrames: nat): int
      reads `bufferSize, `submittedBytes, `frameSize
    {
      bufferSize - (submittedBytes - Bytes(playedFrames, frameSize))
    }

    /** The room there is for a next write, which makes a track if there is none. */
    ghost function RoomNow(): int
      reads `audioTrack, `bufferSize, `submittedBytes, `frameSize, audioTrack
    {
      if audioTrack == null then bufferSize else RoomFor(audioTrack.playedFrames)
    }

    /** The next bytes of the current buffer go to the track. */
    method Advance(n: nat)
      requires Loaded() && audioTrack != null && audioTrack.Valid() && n <= temporaryBufferSize
      requires audioTrack.capacity == bufferSize && audioTrack.frameSize == frameSize
                && submittedBytes == |audioTrack.written|
      requires n <= RoomFor(audioTrack.playedFrames)
      modifies `temporaryBufferOffset, `temporaryBufferSize, `submittedBytes, audioTrack`written
      ensures Loaded() && audioTrack.Valid() && submittedBytes == |audioTrack.written|
      ensures temporaryBufferOffset == old(temporaryBufferOffset) + n
      ensures Grown(old(audioTrack.written), audioTrack.written, current, old(temporaryBufferOffset),
                temporaryBufferOffset)
    {
      var next := temporaryBuffer[temporaryBufferOffset..temporaryBufferOffset + n];
      assert next == temporaryBuffer[..|current|][temporaryBufferOffset..temporaryBufferOffset + n];
      audioTrack.Write(next);
      temporaryBufferOffset := temporaryBufferOffset + n;
      temporaryBufferSize := temporaryBufferSize - n;
      submittedBytes := submittedBytes + n;
    }

    /** A buffer that has been written completely is released, once. */
    method WriteBytes(n: nat) returns (done: bool)
      requires Valid() && Configured() && audioTrack != null && startMediaTimeState != NotSet && Loaded()
      requires temporaryBufferSize == 0 ==> current == []
      requires n <= temporaryBufferSize && told == audioTrack.playedFrames && n <= RoomFor(told)
      modifies `temporaryBufferOffset, `temporaryBufferSize, `submittedBytes, `released, audioTrack`written
      ensures Valid() && temporaryBufferOffset == old(temporaryBufferOffset) + n
      ensures temporaryBufferSize == old(temporaryBufferSize) - n
      ensures Grown(old(audioTrack.written), audioTrack.written, current, old(temporaryBufferOffset),
                temporaryBufferOffset)
      ensures done <==> temporaryBufferSize == 0
      ensures released == if done then old(released) + [current] else old(released)
    {
      WritingGoesOn(audioTrack.written, released, current, temporaryBufferOffset, temporaryBufferSize, n);
      Advance(n);
      done := temporaryBufferSize == 0;
      if done {
        released := released + [current];
      }
    }

    /** A buffer is seen: unless part of an earlier one is still to be written, it becomes the current one. */
    method See(buffer: seq<byte>, presentationTimeUs: int)
      requires Valid() && Configured()
      modifies `startMediaTimeUs, `startMediaTimeState
      modifies `temporaryBuffer, `temporaryBufferOffset, `temporaryBufferSize, `current, temporaryBuffer
      ensures Valid() && Loaded() && startMediaTimeState != NotSet && (temporaryBufferSize == 0 ==> current == [])
      ensures current == if old(temporaryBufferSize) == 0 then buffer else old(current)
      ensures temporaryBufferOffset == if old(temporaryBufferSize) == 0 then 0 else old(temporaryBufferOffset)
      ensures old(temporaryBufferSize) == 0 && startMediaTimeState == NeedSync ==>
                ExpectedStartUs() == StartOf(buffer, presentationTimeUs)
      ensures old(temporaryBufferSize) > 0 ==>
                startMediaTimeState == old(startMediaTimeState) && startMediaTimeUs == old(startMediaTimeUs)
      ensures temporaryBuffer == old(temporaryBuffer) || fresh(temporaryBuffer)
    {
      if temporaryBufferSize == 0 {
        SyncStartTime(StartOf(buffer, presentationTimeUs));
        Load(buffer);
      }
    }

    /** What is left of the current buffer is written as far as there is room. */
    method WriteOut() returns (done: bool, ghost n: int)
      requires Valid() && Configured() && audioTrack != null && startMediaTimeState != NotSet && Loaded()
      requires temporaryBufferSize == 0 ==> current == []
      modifies `temporaryBufferOffset, `temporaryBufferSize, `submittedBytes, `released, audioTrack`written
      modifies `lastRawPlaybackHeadPosition, `rawPlaybackHeadWrapCount, `told
      ensures Valid() && temporaryBufferOffset == old(temporaryBufferOffset) + n
      ensures temporaryBufferSize == old(temporaryBufferSize) - n
      ensures Grown(old(audioTrack.written), audioTrack.written, current, old(temporaryBufferOffset),
                temporaryBufferOffset)
      ensures n == Share(old(temporaryBufferSize), old(RoomFor(audioTrack.playedFrames)))
                && RoomNow() == old(RoomNow()) - n
      ensures done <==> temporaryBufferSize == 0 && old(RoomFor(audioTrack.playedFrames)) > 0
      ensures !done ==> |audioTrack.written| >= Bytes(audioTrack.playedFrames, frameSize) + bufferSize
      ensures released == if done then old(released) + [current] else old(released)
    {
      var bytesToWrite := Room();
      done, n := false, Share(temporaryBufferSize, bytesToWrite);
      if bytesToWrite > 0 {
        done := WriteBytes(if temporaryBufferSize < bytesToWrite then temporaryBufferSize else bytesToWrite);
      }
    }

    method EnsureTrack(initFails: bool) returns (o: Outcome)
      requires Valid() && Configured()
      modifies `audioTrack
      ensures Valid() && Written() == old(Written())
      ensures o == if old(audioTrack) == null && initFails then Threw else Done
      ensures if old(audioTrack) == null && o == Done then fresh(audioTrack) && audioTrack.playedFrames == 0
              else audioTrack == old(audioTrack)
      ensures o == Done ==> audioTrack != null
      ensures RoomNow() == old(RoomNow())
    {
      o := Done;
      if audioTrack == null {
        o := InitAudioTrack(initFails);
      }
    }

    /** Skipped bytes push the track out of step with the media. */
    method Skip()
      requires Valid()
      modifies `startMediaTimeState
      ensures Valid()
      ensures startMediaTimeState == if old(startMediaTimeState) == InSync then NeedSync else old(startMediaTimeState)
    {
      if startMediaTimeState == InSync {
        startMediaTimeState := NeedSync;
      }
    }

    /** A buffer becomes the current one unless there is one, and there is a track for it. */
    method SeeWithTrack(buffer: seq<byte>, presentationTimeUs: int, initFails: bool) returns (o: Outcome)
      requires Valid() && Configured()
      modifies `startMediaTimeUs, `startMediaTimeState, `temporaryBuffer, `temporaryBufferOffset, `temporaryBufferSize
      modifies `current, `audioTrack
      modifies temporaryBuffer
      ensures Valid() && Written() == old(Written()) && Loaded() && startMediaTimeState != NotSet
      ensures temporaryBufferSize == 0 ==> current == []
      ensures current == if old(temporaryBufferSize) == 0 then buffer else old(current)
      ensures temporaryBufferOffset == if old(temporaryBufferSize) == 0 then 0 else old(temporaryBufferOffset)
      ensures o == if old(audioTrack) == null && initFails then Threw else Done
      ensures audioTrack == null <==> o == Threw
      ensures RoomNow() == old(RoomNow())
      ensures audioTrack == old(audioTrack) || (old(audioTrack) == null && fresh(audioTrack))
      ensures temporaryBuffer == old(temporaryBuffer) || fresh(temporaryBuffer)
    {
      See(buffer, presentationTimeUs);
      o := EnsureTrack(initFails);
    }

    /** A buffer is taken as far as the track has room. */
    method Take(buffer: seq<byte>, presentationTimeUs: int, initFails: bool)
        returns (o: Outcome, done: bool, ghost n: int)
      requires Valid() && Configured()
      modifies `startMediaTimeUs, `startMediaTimeState, `temporaryBuffer, `temporaryBufferOffset, `temporaryBufferSize
      modifies `current, temporaryBuffer
      modifies `audioTrack, `submittedBytes, `released, audioTrack, `lastRawPlaybackHeadPosition
      modifies `rawPlaybackHeadWrapCount, `told
      ensures Valid() && current == if old(temporaryBufferSize) == 0 then buffer else old(current)
      ensures o == if old(audioTrack) == null && initFails then Threw else Done
      ensures o == Threw ==> audioTrack == null && !done && released == old(released)
      ensures o == Done ==> audioTrack != null
      ensures o == Done ==>
                Grown(old(Written()), Written(), current, From(old(temporaryBufferSize), old(temporaryBufferOffset)),
                  temporaryBufferOffset)
      ensures o == Done ==> released == if done then old(released) + [current] else old(released)
      ensures o == Done ==>
                n == Share(|current| - From(old(temporaryBufferSize), old(temporaryBufferOffset)), old(RoomNow()))
      ensures o == Done ==> temporaryBufferOffset == From(old(temporaryBufferSize), old(temporaryBufferOffset)) + n
      ensures o == Done ==> temporaryBufferSize == |current| - temporaryBufferOffset && RoomNow() == old(RoomNow()) - n
      ensures done <==> o == Done && temporaryBufferSize == 0 && old(RoomNow()) > 0
      ensures temporaryBuffer == old(temporaryBuffer) || fresh(temporaryBuffer)
      ensures audioTrack == old(audioTrack) || (old(audioTrack) == null && fresh(audioTrack))
    {
      done, n := false, 0;
      o := SeeWithTrack(buffer, presentationTimeUs, initFails);
      if o == Done {
        done, n := WriteOut();
      }
    }

    /** An output buffer of the codec is skipped or taken; only when all of it has been written is it given back. */
    method ProcessOutputBuffer(buffer: seq<byte>, presentationTimeUs: int, shouldSkip: bool, initFails: bool)
      returns (o: Outcome, done: bool, ghost n: int)
      requires Valid() && Configured()
      modifies `startMediaTimeUs, `startMediaTimeState, `temporaryBuffer, `temporaryBufferOffset, `temporaryBufferSize
      modifies `current, temporaryBuffer
      modifies `audioTrack, `submittedBytes, `released, audioTrack, `lastRawPlaybackHeadPosition
      modifies `rawPlaybackHeadWrapCount, `told
      ensures Valid()
      ensures shouldSkip ==>
                && o == Done && done && Written() == old(Written())
                && released == old(released) && temporaryBufferSize == old(temporaryBufferSize)
      ensures !shouldSkip && o == Done ==>
                Grown(old(Written()), Written(), current, From(old(temporaryBufferSize), old(temporaryBufferOffset)),
                  temporaryBufferOffset)
      ensures !shouldSkip && o == Done ==> released == if done then old(released) + [current] else old(released)
      ensures current == if old(temporaryBufferSize) == 0 && !shouldSkip then buffer else old(current)
      ensures !shouldSkip && o == Done ==>
                && n == Share(|current| - From(old(temporaryBufferSize), old(temporaryBufferOffset)), old(RoomNow()))
                && temporaryBufferOffset == From(old(temporaryBufferSize), old(temporaryBufferOffset)) + n
                && temporaryBufferSize == |current| - temporaryBufferOffset && RoomNow() == old(RoomNow()) - n
      ensures !shouldSkip ==> (done <==> o == Done && temporaryBufferSize == 0 && old(RoomNow()) > 0)
      ensures o == if !shouldSkip && old(audioTrack) == null && initFails then Threw else Done
      ensures !shouldSkip && o == Done ==> audioTrack != null
      ensures o == Threw ==> audioTrack == null && !done && released == old(released)
      ensures temporaryBuffer == old(temporaryBuffer) || fresh(temporaryBuffer)
      ensures audioTrack == old(audioTrack) || (old(audioTrack) == null && fresh(audioTrack))
    {
      if shouldSkip {
        Skip();
        return Done, true, 0;
      }
      o, done, n := Take(buffer, presentationTimeUs, initFails);
    }

    // -------------------------------------------------------------- other steps

    /** Another format needs another track. */
    method UseFormat(newSampleRate: nat, newFrameSize: nat, newBufferSize: nat)
      requires Valid() && newBufferSize < 0x8000_0000
      modifies `sampleRate, `frameSize, `bufferSize
      modifies `audioTrack, `submittedBytes, `temporaryBufferSize, `lastRawPlaybackHeadPosition
      modifies `rawPlaybackHeadWrapCount
      modifies `startMediaTimeUs, `startMediaTimeState, `told, `released
      modifies `smoothedPlayheadOffsetUs, `playheadOffsetCount, `nextPlayheadOffsetIndex, `lastPlayheadSampleTimeUs
      modifies `samples
      ensures Valid() && (old(RingValid()) ==> RingValid())
      ensures sampleRate == newSampleRate && frameSize == newFrameSize && bufferSize == newBufferSize
      ensures audioTrack == null && released == []
      ensures temporaryBufferSize == if old(audioTrack) == null then old(temporaryBufferSize) else 0
    {
      ReleaseAudioTrack();
      sampleRate, bufferSize, frameSize := newSampleRate, newBufferSize, newFrameSize;
    }

    predicate TrackFits(channelCount: nat, newSampleRate: nat)
      reads `audioTrack, `sampleRate, `frameSize
    {
      audioTrack != null && sampleRate == newSampleRate && frameSize == 2 * channelCount
    }

    /** A track that fits the new format is kept. The buffer size is a number of bytes below 2^31. */
    method OnOutputFormatChanged(channelCount: nat, newSampleRate: nat, newBufferSize: nat) returns (o: Outcome)
      requires Valid() && newSampleRate > 0 && newBufferSize < 0x8000_0000
      modifies `sampleRate, `frameSize, `bufferSize
      modifies `audioTrack, `submittedBytes, `temporaryBufferSize, `lastRawPlaybackHeadPosition
      modifies `rawPlaybackHeadWrapCount
      modifies `startMediaTimeUs, `startMediaTimeState, `told, `released
      modifies `smoothedPlayheadOffsetUs, `playheadOffsetCount, `nextPlayheadOffsetIndex, `lastPlayheadSampleTimeUs
      modifies `samples
      ensures Valid() && (old(RingValid()) ==> RingValid()) && o == if channelCount in {1, 2, 6} then Done else Threw
      ensures o == Done ==> sampleRate == newSampleRate && frameSize == 2 * channelCount
      ensures o == Done ==>
                (audioTrack != null <==>
                 old(audioTrack) != null && old(sampleRate) == newSampleRate && old(frameSize) == 2 * channelCount)
      ensures if o == Threw || old(TrackFits(channelCount, newSampleRate)) then
                audioTrack == old(audioTrack) && released == old(released)
                && temporaryBufferSize == old(temporaryBufferSize)
                && sampleRate == old(sampleRate) && frameSize == old(frameSize)
              else
                audioTrack == null && released == [] && (old(audioTrack) != null ==> temporaryBufferSize == 0)
                && bufferSize == newBufferSize
                && (old(audioTrack) == null ==> temporaryBufferSize == old(temporaryBufferSize))
    {
      if channelCount != 1 && channelCount != 2 && channelCount != 6 {
        return Threw;
      }
      if TrackFits(channelCount, newSampleRate) {
        return Done;
      }
      UseFormat(newSampleRate, 2 * channelCount, newBufferSize);
      o := Done;
    }

    method GetPlayheadPositionUs() returns (us: nat)
      requires Valid() && Configured() && audioTrack != null
      modifies `lastRawPlaybackHeadPosition, `rawPlaybackHeadWrapCount, `told
      ensures Valid() && us == FramesToDurationUs(audioTrack.playedFrames, sampleRate)
    {
      var head := GetPlaybackHeadPosition();
      us := FramesToDurationUs(head, sampleRate);
    }

    /** An offset is sampled at most every 30 ms. */
    method SampleAt(playheadPositionUs: nat, systemClockUs: int) returns (sampled: bool)
      requires RingValid()
      modifies `smoothedPlayheadOffsetUs, `playheadOffsetCount, `nextPlayheadOffsetIndex, `samples
      modifies `lastPlayheadSampleTimeUs, playheadOffsets
      ensures RingValid() && (old(Valid()) ==> Valid())
      ensures sampled <==> playheadPositionUs != 0 && systemClockUs - old(lastPlayheadSampleTimeUs) >= 30000
      ensures sampled ==>
                && lastPlayheadSampleTimeUs == systemClockUs
                && samples == old(samples) + [playheadPositionUs - systemClockUs]
      ensures !sampled ==>
                && samples == old(samples) && lastPlayheadSampleTimeUs == old(lastPlayheadSampleTimeUs)
                && smoothedPlayheadOffsetUs == old(smoothedPlayheadOffsetUs)
      ensures SamplingState() == Stepped(old(SamplingState()), TakeSample(playheadPositionUs, systemClockUs))
    {
      sampled := playheadPositionUs != 0 && systemClockUs - lastPlayheadSampleTimeUs >= 30000;
      if sampled {
        SampleOffset(playheadPositionUs - systemClockUs);
        lastPlayheadSampleTimeUs := systemClockUs;
      }
    }

    /** Over any sequence of samples and resets the ring holds the latest ten offsets sampled since the last reset, and
        the smoothed offset is near their mean. */
    method SampleAndReset(steps: seq<SyncStep>)
      requires RingValid()
      modifies `smoothedPlayheadOffsetUs, `playheadOffsetCount, `nextPlayheadOffsetIndex, `samples
      modifies `lastPlayheadSampleTimeUs, playheadOffsets
      ensures RingValid() && SamplingState() == Sampled(old(SamplingState()), steps)
    {
      for k := 0 to |steps|
        invariant RingValid() && SamplingState() == Sampled(old(SamplingState()), steps[..k])
      {
        assert steps[..k + 1][..k] == steps[..k];
        match steps[k] {
          case Reset => ResetSyncParams();
          case TakeSample(playheadUs, clockUs) => var _ := SampleAt(playheadUs, clockUs);
        }
      }
      assert steps[..|steps|] == steps;
    }

    /** What the smoothed offset is for: clock and offset together stay with the playhead. As long as the playhead has
        been between lo and hi ahead of the clock since the last reset, they are off by at most hi - lo, and one less
        than the number of offsets averaged; so by no more than nine microseconds when the two advance together. */
    method FollowPlayhead(steps: seq<SyncStep>, ghost k: nat, ghost lo: int, ghost hi: int)
      requires RingValid() && 0 < k <= |steps| && steps[k - 1].Reset?
      requires forall i :: k <= i < |steps| ==>
                 steps[i].TakeSample? && lo <= steps[i].playheadUs - steps[i].clockUs <= hi
      modifies `smoothedPlayheadOffsetUs, `playheadOffsetCount, `nextPlayheadOffsetIndex, `samples
      modifies `lastPlayheadSampleTimeUs, playheadOffsets
      ensures RingValid() && SamplingState() == Sampled(old(SamplingState()), steps)
      ensures samples != [] ==>
                forall i :: k <= i < |steps| ==>
                  var averaged := if |samples| < 10 then |samples| else 10;
                  var errorUs := steps[i].clockUs + smoothedPlayheadOffsetUs - steps[i].playheadUs;
                  -(hi - lo) - (averaged - 1) <= errorUs <= hi - lo + (averaged - 1)
    {
      SampleAndReset(steps);
      SampledSinceReset(old(SamplingState()), steps, k, lo, hi);
      if samples != [] {
        NearMeanIsNearTerms(smoothedPlayheadOffsetUs, Last(samples, MAX_PLAYHEAD_OFFSET_COUNT), lo, hi);
      }
    }

    /** How much of a track that plays has been played. */
    ghost function PlayheadUs(started: bool): nat
      requires Configured()
      reads `audioTrack, `sampleRate, `frameSize, `startMediaTimeState, audioTrack
    {
      if audioTrack == null || startMediaTimeState == NotSet || !started then 0
      else FramesToDurationUs(audioTrack.playedFrames, sampleRate)
    }

    method PlayheadPositionUs(started: bool) returns (us: nat)
      requires Valid() && Configured()
      modifies `lastRawPlaybackHeadPosition, `rawPlaybackHeadWrapCount, `told
      ensures Valid() && us == old(PlayheadUs(started))
      ensures us == if audioTrack == null || startMediaTimeState == NotSet || !started then 0
                    else audioTrack.playedFrames * 1000000 / sampleRate
    {
      if audioTrack == null || startMediaTimeState == NotSet || !started {
        return 0;
      }
      us := GetPlayheadPositionUs();
    }

    /** The same, as it is sampled. */
    method HeardUs(started: bool) returns (us: nat)
      requires Valid() && Configured()
      modifies `lastRawPlaybackHeadPosition, `rawPlaybackHeadWrapCount, `told
      ensures Valid() && us == old(PlayheadUs(started))
    {
      us := PlayheadPositionUs(started);
    }

    /** Only a track that plays is sampled. */
    method MaybeSampleSyncParams(systemClockUs: int, started: bool) returns (sampled: bool, ghost playheadUs: nat)
      requires Valid() && RingValid() && Configured()
      modifies `smoothedPlayheadOffsetUs, `playheadOffsetCount, `nextPlayheadOffsetIndex, `samples
      modifies `lastPlayheadSampleTimeUs, playheadOffsets
      modifies `lastRawPlaybackHeadPosition, `rawPlaybackHeadWrapCount, `told
      ensures Valid() && RingValid() && playheadUs == old(PlayheadUs(started))
      ensures sampled <==> playheadUs != 0 && systemClockUs - old(lastPlayheadSampleTimeUs) >= 30000
      ensures sampled ==>
                && lastPlayheadSampleTimeUs == systemClockUs
                && samples == old(samples) + [playheadUs - systemClockUs]
      ensures !sampled ==>
                && samples == old(samples) && lastPlayheadSampleTimeUs == old(lastPlayheadSampleTimeUs)
                && smoothedPlayheadOffsetUs == old(smoothedPlayheadOffsetUs)
      ensures SamplingState() == Stepped(old(SamplingState()), TakeSample(playheadUs, systemClockUs))
    {
      var playheadPositionUs := HeardUs(started);
      sampled := SampleAt(playheadPositionUs, systemClockUs);
      playheadUs := playheadPositionUs;
    }
  }

  // ---------------------------------------------------------------- runs

  datatype Step =
    | Dequeue(buffer: seq<byte>, presentationTimeUs: int)
    | Process(shouldSkip: bool, initFails: bool)
    | Flush
    | Play(frames: nat)
    | AskForHead
    | Seek
    | ChangeFormat(channelCount: nat, sampleRate: nat, bufferSize: nat)

  lemma SamePrefix<T>(a: seq<T>, b: seq<T>, c: seq<T>)
    ensures a + b == a + c <==> b == c
  {
    assert (a + b)[|a|..] == b && (a + c)[|a|..] == c;
  }

  lemma Rejoined<T>(a: seq<T>, s: seq<T>, k: nat)
    requires k <= |s|
    ensures a + s[..k] + s[k..|s|] == a + s
  {
    assert s[..k] + s[k..|s|] == s;
    assert a + s[..k] + s[k..|s|] == a + (s[..k] + s[k..|s|]);
  }

  /** The rest of a buffer written in place of the next one is right exactly when the two are the same. */
  lemma RestInPlaceOfNext(before: seq<byte>, after: seq<byte>, released: seq<seq<byte>>,
                          current: seq<byte>, offset: nat, next: seq<byte>)
    requires offset <= |current| && before == Joined(released) + current[..offset]
    requires Grown(before, after, current, offset, |current|)
    ensures after == Joined(released + [next]) <==> next == current
  {
    JoinedAppend(released, next);
    Rejoined(Joined(released), current, offset);
    SamePrefix(Joined(released), current, next);
  }

  lemma GrownOn(before: seq<byte>, mid: seq<byte>, after: seq<byte>, buffer: seq<byte>, i: nat, j: nat, k: nat)
    requires Grown(before, mid, buffer, i, j) && Grown(mid, after, buffer, j, k)
    ensures Grown(before, after, buffer, i, k)
  {
    assert buffer[i..j] + buffer[j..k] == buffer[i..k];
  }

  /** Steps that do not take an output buffer away from the renderer. */
  predicate Gentle(step: Step) {
    !step.Flush? && !(step.Process? && step.shouldSkip)
  }

  /** The codec's output buffers on their way to the track: one is processed again and again until it is done. */
  class Draining {
    const renderer: MediaCodecAudioTrackRenderer
    var outputBuffer: Option<seq<byte>>
    var presentationTimeUs: int
    /** A track could not be made: the renderer is disabled and released, and not used again. */
    var failed: bool
    /** The buffers rendered since the track was made, and whether one has been abandoned when written in part. */
    ghost var rendered: seq<seq<byte>>
    ghost var abandoned: bool

    /** What is left to be written belongs to the codec's current output buffer. */
    ghost predicate InStep()
      reads `outputBuffer, renderer
    {
      renderer.temporaryBufferSize > 0 ==> outputBuffer == Some(renderer.current)
    }

    ghost predicate Valid()
      reads this, renderer, renderer.audioTrack, renderer.temporaryBuffer
    {
      && renderer.Valid()
      && (outputBuffer.Some? || renderer.audioTrack != null ==> renderer.Configured())
      && (renderer.audioTrack == null && !failed ==> renderer.temporaryBufferSize == 0)
      && (!abandoned ==> InStep() && rendered == renderer.released)
    }

    /** The buffer that is written before the current output buffer is done, and where writing goes on in it. */
    ghost function Whole(): seq<byte>
      requires outputBuffer.Some?
      reads `outputBuffer, renderer
    {
      if renderer.temporaryBufferSize > 0 then renderer.current else outputBuffer.value
    }

    ghost function Start(): nat
      reads renderer
    {
      From(renderer.temporaryBufferSize, renderer.temporaryBufferOffset)
    }

    constructor ()
      ensures Valid() && fresh(renderer) && fresh(renderer.temporaryBuffer) && fresh(renderer.playheadOffsets)
      ensures renderer.audioTrack == null && !abandoned && rendered == [] && !failed && outputBuffer == None
    {
      renderer := new MediaCodecAudioTrackRenderer();
      outputBuffer, presentationTimeUs, failed := None, 0, false;
      rendered, abandoned := [], false;
    }

    /** The codec has a new output buffer. */
    method PerformDequeue(buffer: seq<byte>, presentationTimeUs: int)
      requires Valid() && outputBuffer.None? && renderer.Configured()
      modifies `outputBuffer, `presentationTimeUs
      ensures Valid() && outputBuffer == Some(buffer)
    {
      outputBuffer := Some(buffer);
      this.presentationTimeUs := presentationTimeUs;
    }

    /** A skipped buffer is not written. */
    method PerformSkip()
      requires Valid() && outputBuffer.Some?
      modifies `outputBuffer, `abandoned, renderer`startMediaTimeState
      ensures Valid() && outputBuffer == None && (abandoned <==> old(abandoned) || renderer.temporaryBufferSize > 0)
    {
      renderer.Skip();
      outputBuffer := None;
      abandoned := abandoned || renderer.temporaryBufferSize > 0;
    }

    /** As much of what is to be written goes to the track as it has room for. */
    method WriteOn(initFails: bool) returns (o: Outcome, done: bool)
      requires Valid() && outputBuffer.Some?
      modifies renderer.audioTrack, renderer.temporaryBuffer
      modifies renderer`startMediaTimeUs, renderer`startMediaTimeState, renderer`temporaryBuffer
      modifies renderer`temporaryBufferOffset, renderer`temporaryBufferSize, renderer`current, renderer`audioTrack
      modifies renderer`submittedBytes, renderer`released, renderer`lastRawPlaybackHeadPosition
      modifies renderer`rawPlaybackHeadWrapCount, renderer`told
      ensures renderer.Valid() && renderer.current == old(Whole())
      ensures renderer.released == if done then old(renderer.released) + [old(Whole())] else old(renderer.released)
      ensures o == Done ==> renderer.temporaryBufferSize == |old(Whole())| - renderer.temporaryBufferOffset
      ensures o == if old(renderer.audioTrack) == null && initFails then Threw else Done
      ensures o == Done ==>
                && renderer.audioTrack != null
                && renderer.temporaryBufferOffset ==
                   old(Start()) + Share(|old(Whole())| - old(Start()), old(renderer.RoomNow()))
                && renderer.RoomNow() == old(renderer.RoomNow()) - (renderer.temporaryBufferOffset - old(Start()))
                && Grown(old(renderer.Written()), renderer.Written(), old(Whole()), old(Start()),
                         renderer.temporaryBufferOffset)
      ensures done <==> o == Done && renderer.temporaryBufferOffset == |old(Whole())| && old(renderer.RoomNow()) > 0
      ensures renderer.temporaryBuffer == old(renderer.temporaryBuffer) || fresh(renderer.temporaryBuffer)
      ensures if old(renderer.audioTrack) == null && o == Done then fresh(renderer.audioTrack)
              else renderer.audioTrack == old(renderer.audioTrack)
    {
      ghost var n;
      o, done, n := renderer.ProcessOutputBuffer(outputBuffer.value, presentationTimeUs, false, initFails);
    }

    /** Once all of it is written, the output buffer is done. */
    method PerformTake(initFails: bool) returns (o: Outcome, done: bool)
      requires Valid() && outputBuffer.Some? && !failed
      modifies `rendered, `outputBuffer, `failed, renderer.audioTrack, renderer.temporaryBuffer
      modifies renderer`startMediaTimeUs, renderer`startMediaTimeState, renderer`temporaryBuffer
      modifies renderer`temporaryBufferOffset, renderer`temporaryBufferSize, renderer`current, renderer`audioTrack
      modifies renderer`submittedBytes, renderer`released, renderer`lastRawPlaybackHeadPosition
      modifies renderer`rawPlaybackHeadWrapCount, renderer`told
      ensures Valid() && (failed <==> o == Threw)
      ensures rendered == if done then old(rendered) + [old(outputBuffer).value] else old(rendered)
      ensures outputBuffer == if done then None else old(outputBuffer)
      ensures o == Done && !done ==> Whole() == old(Whole()) && Start() == renderer.temporaryBufferOffset
      ensures o == if old(renderer.audioTrack) == null && initFails then Threw else Done
      ensures o == Done ==>
                && renderer.audioTrack != null
                && renderer.temporaryBufferOffset ==
                   old(Start()) + Share(|old(Whole())| - old(Start()), old(renderer.RoomNow()))
                && renderer.RoomNow() == old(renderer.RoomNow()) - (renderer.temporaryBufferOffset - old(Start()))
                && Grown(old(renderer.Written()), renderer.Written(), old(Whole()), old(Start()),
                         renderer.temporaryBufferOffset)
      ensures done <==> o == Done && renderer.temporaryBufferOffset == |old(Whole())| && old(renderer.RoomNow()) > 0
      ensures renderer.temporaryBuffer == old(renderer.temporaryBuffer) || fresh(renderer.temporaryBuffer)
      ensures if old(renderer.audioTrack) == null && o == Done then fresh(renderer.audioTrack)
              else renderer.audioTrack == old(renderer.audioTrack)
    {
      o, done := WriteOn(initFails);
      rendered := if done then rendered + [outputBuffer.value] else rendered;
      outputBuffer := if done then None else outputBuffer;
      failed := o == Threw;
    }

    /** A flushed codec takes its output buffers back. What has been copied of the current one stays with the
        renderer. */
    method PerformFlush()
      requires Valid()
      modifies `outputBuffer, `abandoned
      ensures Valid() && outputBuffer == None
      ensures abandoned <==> old(abandoned) || renderer.temporaryBufferSize > 0
    {
      outputBuffer := None;
      if renderer.temporaryBufferSize > 0 {
        abandoned := true;
      }
    }

    /** The track plays on, if it has been given that much. */
    method PerformPlay(frames: nat)
      requires Valid() && renderer.audioTrack != null
      modifies renderer.audioTrack`playedFrames
      ensures Valid()
      ensures renderer.audioTrack.playedFrames == old(renderer.audioTrack.playedFrames)
                + if (old(renderer.audioTrack.playedFrames) + frames) * renderer.frameSize <= renderer.submittedBytes
                  then frames else 0
    {
      ghost var track := renderer.audioTrack;
      BytesIsProduct(track.playedFrames + frames, track.frameSize);
      if (renderer.audioTrack.playedFrames + frames) * renderer.audioTrack.frameSize <= renderer.submittedBytes {
        renderer.audioTrack.Play(frames);
      }
    }

    /** Some of what was written is played, and the output buffer is processed: writing goes on from where it was. */
    method PlayAndTake(frames: nat, ghost before: seq<byte>, ghost from: nat) returns (done: bool)
      requires Valid() && outputBuffer.Some? && !failed && renderer.audioTrack != null
      requires Grown(before, renderer.Written(), Whole(), from, Start())
      modifies this, renderer, renderer.audioTrack, renderer.temporaryBuffer
      ensures Valid() && !failed && abandoned == old(abandoned) && renderer.audioTrack == old(renderer.audioTrack)
      ensures rendered == if done then old(rendered) + [old(outputBuffer).value] else old(rendered)
      ensures Grown(before, renderer.Written(), old(Whole()), from, if done then |old(Whole())| else Start())
      ensures !done ==> outputBuffer == old(outputBuffer) && Whole() == old(Whole())
      ensures renderer.temporaryBuffer == old(renderer.temporaryBuffer) || fresh(renderer.temporaryBuffer)
    {
      ghost var mid, start, whole := renderer.Written(), Start(), Whole();
      PerformPlay(frames);
      var o;
      o, done := PerformTake(false);
      GrownOn(before, mid, renderer.Written(), whole, from, start, renderer.temporaryBufferOffset);
    }

    /** The output buffer is processed again and again while the track plays: once it is done, everything that was to be
        written has been written, and the buffer counts as rendered. */
    method TakeUntilDone(plays: seq<nat>) returns (done: bool)
      requires Valid() && outputBuffer.Some? && !failed && renderer.audioTrack != null && Start() <= |Whole()|
      modifies this, renderer, renderer.audioTrack, renderer.temporaryBuffer
      ensures Valid() && abandoned == old(abandoned) && renderer.audioTrack == old(renderer.audioTrack)
      ensures done ==> Grown(old(renderer.Written()), renderer.Written(), old(Whole()), old(Start()), |old(Whole())|)
      ensures rendered == if done then old(rendered) + [old(outputBuffer).value] else old(rendered)
    {
      ghost var before, whole, from := renderer.Written(), Whole(), Start();
      done := false;
      var k := 0;
      while !done && k < |plays|
        invariant Valid() && !failed && abandoned == old(abandoned) && renderer.audioTrack == old(renderer.audioTrack)
        invariant renderer.temporaryBuffer == old(renderer.temporaryBuffer) || fresh(renderer.temporaryBuffer)
        invariant rendered == if done then old(rendered) + [old(outputBuffer).value] else old(rendered)
        invariant !done ==> outputBuffer == old(outputBuffer) && Whole() == whole
        invariant Grown(before, renderer.Written(), whole, from, if done then |whole| else Start())
        decreases |plays| - k
      {
        done := PlayAndTake(plays[k], before, from);
        k := k + 1;
      }
    }

    /** What a flush does to a buffer written in part: the rest of it is written in place of the next one, which counts
        as rendered. So what has been written is right if and only if the next buffer is the same. */
    method FlushLosesTheNext(next: seq<byte>, presentationTimeUs: int, plays: seq<nat>) returns (done: bool)
      requires Valid() && !failed && renderer.audioTrack != null && renderer.temporaryBufferSize > 0
      modifies this, renderer, renderer.audioTrack, renderer.temporaryBuffer
      ensures Valid() && abandoned && renderer.audioTrack == old(renderer.audioTrack)
      ensures done ==>
                && rendered == old(rendered) + [next]
                && Grown(old(renderer.Written()), renderer.Written(), old(renderer.current),
                         old(renderer.temporaryBufferOffset), |old(renderer.current)|)
      ensures done && !old(abandoned) ==> (renderer.Written() == Joined(rendered) <==> next == old(renderer.current))
    {
      ghost var released, current, offset := rendered, renderer.current, renderer.temporaryBufferOffset;
      ghost var before, wasAbandoned := renderer.Written(), abandoned;
      PerformFlush();
      PerformDequeue(next, presentationTimeUs);
      done := TakeUntilDone(plays);
      if done && !wasAbandoned {
        RestInPlaceOfNext(before, renderer.Written(), released, current, offset, next);
      }
    }

    /** Of a buffer of six bytes four have been written. */
    static method FourOfSix() returns (d: Draining)
      ensures d.Valid() && fresh(d) && fresh(d.renderer) && fresh(d.renderer.audioTrack)
                && fresh(d.renderer.temporaryBuffer)
      ensures !d.failed && d.rendered == [] && d.renderer.audioTrack != null && d.renderer.RoomNow() == 0
      ensures d.renderer.frameSize == 2 && d.renderer.bufferSize == 4 && d.renderer.Written() == [1, 2, 3, 4]
      ensures d.outputBuffer == Some([1, 2, 3, 4, 5, 6]) && d.renderer.temporaryBufferOffset == 4
                && d.renderer.temporaryBufferSize == 2
      ensures d.renderer.current == [1, 2, 3, 4, 5, 6]
    {
      d := new Draining();
      d.PerformChangeFormat(1, 44100, 4);
      d.PerformDequeue([1, 2, 3, 4, 5, 6], 0);
      assert d.Start() == 0 && d.renderer.RoomNow() == 4;
      var _, _ := d.PerformTake(false);
      assert [1, 2, 3, 4, 5, 6][0..4] == [1, 2, 3, 4];
    }

    /** Then the codec is flushed; the track has played the four bytes, and the next buffer holds two others. */
    static method FlushLosesABuffer() returns (d: Draining)
      ensures d.Valid() && d.renderer.Written() == [1, 2, 3, 4, 5, 6] && d.rendered == [[7, 8]]
    {
      d := FourOfSix();
      BytesGrow(0, d.renderer.audioTrack.playedFrames, 2);
      d.PerformFlush();
      d.PerformDequeue([7, 8], 0);
      d.PerformPlay(2);
      assert Bytes(2, 2) == 4 && d.renderer.RoomNow() == 4 && d.Start() == 4;
      assert [1, 2, 3, 4] + [1, 2, 3, 4, 5, 6][4..6] == [1, 2, 3, 4, 5, 6];
      var _, _ := d.PerformTake(false);
    }

    method PerformAskForHead()
      requires Valid() && renderer.audioTrack != null
      modifies renderer`lastRawPlaybackHeadPosition, renderer`rawPlaybackHeadWrapCount, renderer`told
      ensures Valid() && renderer.told == renderer.audioTrack.playedFrames
    {
      var _ := renderer.GetPlaybackHeadPosition();
    }

    /** A seek gives up the track; what was written to it no longer counts, and nothing is left of a buffer. */
    method PerformSeek()
      requires Valid() && !failed
      modifies `rendered, `abandoned, renderer
      ensures Valid() && renderer.audioTrack == null && rendered == [] && !abandoned
                && renderer.temporaryBufferSize == 0
      ensures renderer.temporaryBuffer == old(renderer.temporaryBuffer)
    {
      abandoned := false;
      rendered := [];
      renderer.ReleaseAudioTrack();
    }

    /** The codec announces a new format between two output buffers. */
    method PerformChangeFormat(channelCount: nat, sampleRate: nat, bufferSize: nat)
      requires Valid() && !failed && outputBuffer.None? && sampleRate > 0 && bufferSize < 0x8000_0000
      modifies `rendered, `abandoned, renderer
      ensures Valid() && (abandoned ==> old(abandoned))
      ensures channelCount in {1, 2, 6} ==>
                && renderer.Configured() && renderer.frameSize == 2 * channelCount
                && (renderer.audioTrack == null ==> renderer.bufferSize == bufferSize)
      ensures old(renderer.audioTrack) == null ==> renderer.temporaryBufferSize == 0
      ensures renderer.audioTrack == null || renderer.audioTrack == old(renderer.audioTrack)
      ensures renderer.temporaryBuffer == old(renderer.temporaryBuffer)
    {
      var o := renderer.OnOutputFormatChanged(channelCount, sampleRate, bufferSize);
      if renderer.audioTrack == null {
        abandoned := false;
        rendered := [];
      }
    }

    /** What the track has been given, as long as no buffer has been abandoned: the rendered buffers in order, and a
        prefix of the one the codec still has out; never more than fits in front of the playback head. */
    lemma Conserved()
      requires Valid() && !abandoned && renderer.audioTrack != null
      ensures renderer.temporaryBufferSize == 0 ==> renderer.audioTrack.written == Joined(rendered)
      ensures renderer.temporaryBufferSize > 0 ==>
                && outputBuffer.Some? && renderer.temporaryBufferOffset < |outputBuffer.value|
                && renderer.audioTrack.written == Joined(rendered)
                  + outputBuffer.value[..renderer.temporaryBufferOffset]
      ensures |renderer.audioTrack.written| <= renderer.audioTrack.playedFrames * renderer.frameSize
                + renderer.bufferSize
    {
      BytesIsProduct(renderer.audioTrack.playedFrames, renderer.frameSize);
    }

    /** The output buffer is skipped, or taken as far as the track has room. */
    method PerformProcess(shouldSkip: bool, initFails: bool)
      requires Valid() && outputBuffer.Some? && !failed
      modifies this, renderer, renderer.audioTrack, renderer.temporaryBuffer
      ensures Valid()
      ensures renderer.temporaryBuffer == old(renderer.temporaryBuffer) || fresh(renderer.temporaryBuffer)
      ensures renderer.audioTrack == old(renderer.audioTrack) || fresh(renderer.audioTrack)
      ensures abandoned <==> old(abandoned) || (shouldSkip && old(renderer.temporaryBufferSize) > 0)
      ensures failed <==> !shouldSkip && initFails && old(renderer.audioTrack) == null
      ensures shouldSkip ==> outputBuffer == None && renderer.Written() == old(renderer.Written())
      ensures !shouldSkip && !failed ==>
                && renderer.audioTrack != null
                && Grown(old(renderer.Written()), renderer.Written(), old(Whole()), old(Start()),
                         if outputBuffer.None? then |old(Whole())| else renderer.temporaryBufferOffset)
                && rendered == (if outputBuffer.None? then old(rendered) + [old(outputBuffer).value] else old(rendered))
                && (outputBuffer.Some? ==> renderer.RoomNow() <= 0)
    {
      if shouldSkip {
        PerformSkip();
      } else {
        var _, _ := PerformTake(initFails);
      }
    }

    /** A step that is possible is taken; none is after a track could not be made. */
    method Perform(step: Step)
      requires Valid()
      modifies this, renderer, renderer.audioTrack, renderer.temporaryBuffer
      ensures Valid()
      ensures renderer.temporaryBuffer == old(renderer.temporaryBuffer) || fresh(renderer.temporaryBuffer)
      ensures renderer.audioTrack == null || renderer.audioTrack == old(renderer.audioTrack)
                || fresh(renderer.audioTrack)
      ensures abandoned ==> old(abandoned) || (!Gentle(step) && old(renderer.temporaryBufferSize) > 0)
      ensures step.Process? && !step.shouldSkip && !old(failed) && !failed && old(outputBuffer).Some? ==>
                && renderer.audioTrack != null
                && Grown(old(renderer.Written()), renderer.Written(), old(Whole()), old(Start()),
                         if outputBuffer.None? then |old(Whole())| else renderer.temporaryBufferOffset)
                && (outputBuffer.Some? ==> renderer.RoomNow() <= 0)
      ensures failed ==> old(failed) || (step.Process? && step.initFails && old(renderer.audioTrack) == null)
    {
      if failed {
        return;
      }
      match step {
        case Dequeue(buffer, timeUs) =>
          if outputBuffer.None? && renderer.sampleRate > 0 && renderer.frameSize > 0 {
            PerformDequeue(buffer, timeUs);
          }
        case Process(shouldSkip, initFails) =>
          if outputBuffer.Some? {
            PerformProcess(shouldSkip, initFails);
          }
        case Flush => PerformFlush();
        case Play(frames) => if renderer.audioTrack != null { PerformPlay(frames); }
        case AskForHead => if renderer.audioTrack != null { PerformAskForHead(); }
        case Seek => PerformSeek();
        case ChangeFormat(channelCount, sampleRate, bufferSize) =>
          if outputBuffer.None? && sampleRate > 0 && bufferSize < 0x8000_0000 {
            PerformChangeFormat(channelCount, sampleRate, bufferSize);
          }
      }
    }

    /** Whatever the codec hands out and the track plays: every reachable state is valid, and no buffer is abandoned
        unless a flush or a skip finds part of one still to be written. left[k] is what is to be written before step k;
        after a seek it is nothing. */
    method Run(script: seq<Step>) returns (ghost left: seq<nat>)
      requires Valid()
      modifies this, renderer, renderer.audioTrack, renderer.temporaryBuffer
      ensures Valid()
      ensures |left| == |script| && (script != [] ==> left[0] == old(renderer.temporaryBufferSize))
      ensures !old(abandoned) && (forall k :: 0 <= k < |script| && left[k] > 0 ==> Gentle(script[k])) ==> !abandoned
    {
      left := [];
      for k := 0 to |script|
        invariant Valid() && |left| == k
        invariant if k > 0 then left[0] == old(renderer.temporaryBufferSize)
                  else renderer.temporaryBufferSize == old(renderer.temporaryBufferSize)
        invariant renderer.temporaryBuffer == old(renderer.temporaryBuffer) || fresh(renderer.temporaryBuffer)
        invariant renderer.audioTrack == null || renderer.audioTrack == old(renderer.audioTrack)
                  || fresh(renderer.audioTrack)
        invariant !old(abandoned) && (forall j :: 0 <= j < k && left[j] > 0 ==> Gentle(script[j])) ==> !abandoned
      {
        left := left + [renderer.temporaryBufferSize];
        Perform(script[k]);
      }
    }
  }
}
