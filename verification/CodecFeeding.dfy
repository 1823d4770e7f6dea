/** Feeding a media codec (MediaCodecTrackRenderer.java): format changes travel in band, in front of the next
    sample, and must survive flushes, the end of the stream, skipped samples and the replacement of the codec.
    The source's answers and the codec's behaviour are parameters. */
module CodecFeeding {
  import opened Basics

  datatype Format = Format(id: int, initializationData: seq<seq<byte>>)

  /** The initialization data as one run of bytes. */
  function Init(f: Format): seq<byte> {
    Joined(f.initializationData)
  }

  lemma JoinedStep(parts: seq<seq<byte>>, i: nat)
    requires i < |parts|
    ensures Joined(parts[..i + 1]) == Joined(parts[..i]) + parts[i] && |Joined(parts[..i + 1])| <= |Joined(parts)|
  {
    assert parts[..i + 1][..i] == parts[..i];
    JoinedGrows(parts, i + 1);
  }

  lemma {:induction false} JoinedGrows(parts: seq<seq<byte>>, i: nat)
    requires i <= |parts|
    ensures |Joined(parts[..i])| <= |Joined(parts)|
  {
    if i == |parts| {
      assert parts[..i] == parts;
    } else {
      assert parts[..|parts| - 1][..i] == parts[..i];
      JoinedGrows(parts[..|parts| - 1], i);
    }
  }

  /** A sample, and the seek generation of the source it was read in. */
  datatype Sample = Sample(bytes: seq<byte>, timeUs: int, sync: bool, decodeOnly: bool, generation: nat)

  /** What the source answers. */
  datatype Answer =
    | NothingRead
    | DiscontinuityRead
    | FormatRead(format: Format)
    | SampleRead(sample: Sample)
    | EndOfStream
    | ReadThrows

  function Taken(answer: Answer): seq<Sample> {
    if answer.SampleRead? then [answer.sample] else []
  }

  /** What the codec in use has been read once the readings have been taken: the samples, in order, since the last
      discontinuity and the last format it could not be reconfigured to. */
  function Gained(was: seq<Sample>, readings: seq<Reading>): seq<Sample> {
    if readings == [] then was
    else
      var gained := Gained(was, readings[..|readings| - 1]);
      var last := readings[|readings| - 1];
      match last.answer
      case SampleRead(sample) => gained + [sample]
      case DiscontinuityRead => []
      case FormatRead(_) => if last.env.canReconfigure then gained else []
      case _ => gained
  }

  /** The codec is flushed or replaced because of what was read. */
  predicate StartsOver(reading: Reading) {
    reading.answer.DiscontinuityRead? || (reading.answer.FormatRead? && !reading.env.canReconfigure)
  }

  function SamplesOf(readings: seq<Reading>): seq<Sample> {
    if readings == [] then []
    else SamplesOf(readings[..|readings| - 1]) + Taken(readings[|readings| - 1].answer)
  }

  /** Exactly the samples since the codec last started over are gained; with no such reading, they come behind the ones
      it had. */
  lemma {:induction false} GainedSinceStartingOver(was: seq<Sample>, readings: seq<Reading>, k: nat)
    requires k <= |readings| && (k > 0 ==> StartsOver(readings[k - 1]))
    requires forall i :: k <= i < |readings| ==> !StartsOver(readings[i])
    ensures Gained(was, readings) == (if k == 0 then was else []) + SamplesOf(readings[k..])
  {
    if k < |readings| {
      var front, last := readings[..|readings| - 1], readings[|readings| - 1];
      GainedSinceStartingOver(was, front, k);
      assert readings[k..][..|readings| - k - 1] == front[k..];
      assert Gained(was, readings) == Gained(was, front) + Taken(last.answer);
    } else if k > 0 {
      assert readings[k..] == [];
    }
  }

  /** The format once the readings have been taken. */
  function FormatAfter(was: Option<Format>, readings: seq<Reading>): Option<Format> {
    if readings == [] then was
    else
      var last := readings[|readings| - 1].answer;
      if last.FormatRead? then Some(last.format) else FormatAfter(was, readings[..|readings| - 1])
  }

  /** The position once the samples read have been thrown away: that of the last one that is to be shown. */
  function PositionAfter(wasUs: int, readings: seq<Reading>): int {
    if readings == [] then wasUs
    else
      var last := readings[|readings| - 1].answer;
      if last.SampleRead? && !last.sample.decodeOnly then last.sample.timeUs
      else PositionAfter(wasUs, readings[..|readings| - 1])
  }

  /** One more reading is taken. */
  lemma OneMoreReading(was: seq<Sample>, format: Option<Format>, readings: seq<Reading>, n: nat)
    requires n < |readings|
    ensures Gained(was, readings[..n + 1]) == Gained(Gained(was, readings[..n]), [readings[n]])
    ensures FormatAfter(format, readings[..n + 1]) ==
              if readings[n].answer.FormatRead? then Some(readings[n].answer.format)
              else FormatAfter(format, readings[..n])
  {
    assert readings[..n + 1][..n] == readings[..n];
    assert [readings[n]][..0] == [];
  }

  datatype Reconfiguration = NotPending | WritePending | QueuePending

  datatype Outcome = Done | Threw

  /** One reading of the source, and the codec's behaviour around it. */
  datatype Reading = Reading(answer: Answer, env: CodecEnv)

  /** What happens to a renderer. */
  datatype Step =
    | Enable(timeUs: int)
    | Work(started: bool, positionUs: int, discontinuity: Reading, readings: seq<Reading>)
    | Seek(timeUs: int)
    /** Another surface than before, or none. */
    | Surface(present: bool, env: CodecEnv)
    | Disable

  /** How the codec behaves in one step: whether making one fails, and then whether it leaves a codec behind, what
      buffers a new one has, which buffer it hands out, whether it can be reconfigured in band, and whether a flush
      makes it forget that it was. */
  datatype CodecEnv = CodecEnv(
    initFails: bool, leavesCodec: bool, bufferCount: nat, capacity: nat,
    dequeued: int, canReconfigure: bool, forgets: bool)

  // ---------------------------------------------------------------- what a codec is given

  /** One queued buffer: its bytes, the sample it is for, that sample's format, and whether the bytes carry that
      format's initialization data in front. */
  datatype Input = Input(bytes: seq<byte>, sample: Sample, format: Format, inBand: bool)

  /** The format a codec decodes by, after the given inputs. */
  function Effective(base: Format, inputs: seq<Input>): Format {
    if inputs == [] then base
    else
      var last := inputs[|inputs| - 1];
      if last.inBand then last.format else Effective(base, inputs[..|inputs| - 1])
  }

  /** Every input is exactly a sample the codec already has the format of, or exactly the initialization data of
      the sample's format followed by the sample. */
  predicate Sound(base: Format, inputs: seq<Input>) {
    forall i :: 0 <= i < |inputs| ==>
      if inputs[i].inBand then inputs[i].bytes == Init(inputs[i].format) + inputs[i].sample.bytes
      else inputs[i].bytes == inputs[i].sample.bytes && Effective(base, inputs[..i]) == inputs[i].format
  }

  lemma {:induction false} SoundAppend(base: Format, inputs: seq<Input>, x: Input)
    requires Sound(base, inputs)
    requires x.bytes == (if x.inBand then Init(x.format) else []) + x.sample.bytes
    requires x.inBand || Effective(base, inputs) == x.format
    ensures Sound(base, inputs + [x]) && Effective(base, inputs + [x]) == x.format
  {
    var all := inputs + [x];
    assert all[..|inputs|] == inputs;
    forall i | 0 <= i < |inputs| ensures all[..i] == inputs[..i] { }
  }

  /** In a sound run of inputs every sample is decoded by its own format. */
  lemma {:induction false} DecodedByItsFormat(base: Format, inputs: seq<Input>, i: nat)
    requires Sound(base, inputs) && i < |inputs|
    ensures Effective(base, inputs[..i + 1]) == inputs[i].format
  {
    assert inputs[..i + 1][..i] == inputs[..i];
  }

  /** The samples queued are the samples read, in order, but for the ones dropped in front of the first sync
      frame. */
  predicate Conserves(inputs: seq<Input>, read: seq<Sample>, dropped: nat) {
    && |read| == dropped + |inputs|
    && (forall i :: 0 <= i < dropped ==> !read[i].sync)
    && (forall i :: 0 <= i < |inputs| ==> inputs[i].sample == read[dropped + i])
    && (inputs != [] && dropped > 0 ==> inputs[0].sample.sync)
  }

  lemma ConservesAppend(inputs: seq<Input>, read: seq<Sample>, dropped: nat, x: Input)
    requires Conserves(inputs, read, dropped)
    requires inputs == [] && dropped > 0 ==> x.sample.sync
    ensures Conserves(inputs + [x], read + [x.sample], dropped)
  {
  }

  // ---------------------------------------------------------------- buffers and codecs

  class ByteBuffer {
    const capacity: nat
    var contents: seq<byte>

    constructor (capacity: nat)
      ensures contents == [] && this.capacity == capacity
    {
      this.capacity, contents := capacity, [];
    }

    method Clear()
      modifies this
      ensures contents == []
    {
      contents := [];
    }

    /** Overflows without effect. */
    method Put(data: seq<byte>) returns (o: Outcome)
      modifies this
      ensures o == if old(|contents|) + |data| <= capacity then Done else Threw
      ensures contents == if o == Done then old(contents) + data else old(contents)
    {
      if |contents| + |data| > capacity {
        return Threw;
      }
      contents := contents + data;
      o := Done;
    }
  }

  method NewBuffers(count: nat, capacity: nat) returns (buffers: seq<ByteBuffer>)
    ensures |buffers| == count && forall i :: 0 <= i < count ==> fresh(buffers[i]) && buffers[i].capacity == capacity
  {
    buffers := [];
    while |buffers| < count
      invariant |buffers| <= count
      invariant forall i :: 0 <= i < |buffers| ==> fresh(buffers[i]) && buffers[i].capacity == capacity
    {
      var b := new ByteBuffer(capacity);
      buffers := buffers + [b];
    }
  }

  /** A codec: the format it was configured with, the buffers it owns, and what it has been given. */
  class Codec {
    const configured: Format
    const inputBuffers: seq<ByteBuffer>
    /** Since the codec was made or last flushed: the format it decoded by then, the inputs, the samples read for
        it, how many of them were dropped, and whether the end of the stream was queued. */
    ghost var base: Format
    ghost var inputs: seq<Input>
    ghost var read: seq<Sample>
    ghost var dropped: nat
    ghost var ended: bool
    /** The first sample the codec was ever given. */
    ghost var first: Option<Sample>

    constructor (configured: Format, inputBuffers: seq<ByteBuffer>)
      ensures Valid() && Format() == this.configured == configured && this.inputBuffers == inputBuffers
      ensures inputs == [] && read == [] && !ended && first == None
    {
      this.configured, this.inputBuffers := configured, inputBuffers;
      base, inputs, read, dropped, ended, first := configured, [], [], 0, false, None;
    }

    ghost function Format(): Format
      reads this
    {
      Effective(base, inputs)
    }

    /** The codec's first sample ever is a sync frame. */
    ghost predicate Valid()
      reads this
    {
      && Sound(base, inputs) && Conserves(inputs, read, dropped)
      && (first.None? ==> inputs == [])
      && (first.Some? ==> first.value.sync && (inputs == [] ==> dropped == 0))
    }

    method DequeueInputBuffer(env: CodecEnv) returns (index: int)
      ensures index == if env.dequeued < |inputBuffers| then env.dequeued else -1
    {
      index := if env.dequeued < |inputBuffers| then env.dequeued else -1;
    }

    /** The codec drops its inputs, and possibly the format it was reconfigured to. */
    method Flush(forgets: bool)
      requires Valid()
      modifies this
      ensures Valid() && inputs == [] && read == [] && !ended && first == old(first)
      ensures Format() == if forgets then configured else old(Format())
    {
      base := if forgets then configured else Effective(base, inputs);
      inputs, read, dropped, ended := [], [], 0, false;
    }

    /** A sample has been read for the codec and thrown away. */
    ghost method Drop(sample: Sample)
      requires Valid() && first.None? && !sample.sync
      modifies `read, `dropped
      ensures Valid() && read == old(read) + [sample]
    {
      read, dropped := read + [sample], dropped + 1;
    }

    /** The owner of a buffer gives its first bytes back to the codec. */
    method QueueInputBuffer(index: nat, size: nat, ghost sample: Sample, ghost format: Format, ghost inBand: bool)
      requires Valid() && index < |inputBuffers| && size == |inputBuffers[index].contents|
      requires inputBuffers[index].contents == (if inBand then Init(format) else []) + sample.bytes
      requires inBand || Format() == format
      requires first.None? ==> sample.sync
      modifies `inputs, `read, `first
      ensures Valid() && Format() == format
      ensures inputs == old(inputs) + [Input(inputBuffers[index].contents[..size], sample, format, inBand)]
      ensures read == old(read) + [sample] && first == Some(if old(first).Some? then old(first).value else sample)
    {
      var contents := inputBuffers[index].contents;
      assert contents[..size] == contents;
      ghost var x := Input(contents, sample, format, inBand);
      SoundAppend(base, inputs, x);
      ConservesAppend(inputs, read, dropped, x);
      inputs, read := inputs + [x], read + [sample];
      first := if first.Some? then first else Some(sample);
    }

    method QueueEndOfStream()
      modifies `ended
      ensures ended
    {
      ended := true;
    }
  }

  // ---------------------------------------------------------------- the renderer

  class MediaCodecTrackRenderer {
    /** Whether a codec can be flushed; if not, it is replaced instead. */
    const canFlush: bool
    var format: Option<Format>
    var codec: Codec?
    var inputIndex: int
    /** The sample holder's buffer. */
    var data: ByteBuffer?
    var codecReconfigured: bool
    var reconfiguration: Reconfiguration
    var inputStreamEnded: bool
    var waitingForFirstSyncFrame: bool
    var currentPositionUs: int
    /** Video needs a surface to have a codec; for audio this is always true. */
    var hasSurface: bool
    /** The renderer is enabled or started. */
    var enabled: bool

    /** The codec and its buffers. */
    ghost function Memory(): set<object>
      reads `codec
    {
      if codec == null then {} else {codec} + set b: object | b in codec.inputBuffers
    }

    /** What the renderer has written to the current buffer: initialization data that is to be queued, or nothing. */
    ghost function Written(): seq<byte>
      reads `reconfiguration, `format
    {
      if reconfiguration == QueuePending && format.Some? then Init(format.value) else []
    }

    /** The codec decodes by the renderer's format, or the format's initialization data comes before any further
        sample. */
    ghost predicate InStep()
      requires codec != null
      reads `codec, `format, `codecReconfigured, `reconfiguration, `waitingForFirstSyncFrame, codec
    {
      && format.Some? && codec.Valid()
      && (codecReconfigured || (reconfiguration == NotPending && codec.configured == codec.Format()))
      && (reconfiguration == NotPending ==> codec.Format() == format.value)
      && (waitingForFirstSyncFrame <==> codec.first.None?)
    }

    /** The buffer handed out by the codec, if there is one, holds just what has been written to it. */
    ghost predicate BufferFits()
      requires codec != null
      reads `codec, `inputIndex, `data, `reconfiguration, `format, data
    {
      && inputIndex < |codec.inputBuffers|
      && (inputIndex >= 0 ==> data == codec.inputBuffers[inputIndex] && data.contents == Written())
      && (reconfiguration == QueuePending ==> inputIndex >= 0)
    }

    /** Without a codec nothing is pending: enough to disable the renderer after a step that threw. */
    ghost predicate Clean()
      reads `codec, `inputIndex, `codecReconfigured, `reconfiguration
    {
      codec == null ==> inputIndex < 0 && !codecReconfigured && reconfiguration == NotPending
    }

    /** Without a codec: nothing is pending, and there is a format only while the renderer is enabled. */
    ghost predicate Bare()
      reads `codec, `inputIndex, `codecReconfigured, `reconfiguration, `enabled, `format
    {
      Clean() && (!enabled ==> format == None)
    }

    /** The codec knows of the end of the stream when the renderer feeds it no more because of it. Feeding and seeking
        see to that; a flush, or a new codec, keeps it only if the end has not been reached. */
    ghost predicate EndTold()
      reads `codec, `inputStreamEnded, codec
    {
      codec != null && inputStreamEnded ==> codec.ended
    }

    /** What every step keeps that does not throw. */
    ghost predicate Valid()
      reads this, codec, data
    {
      if codec == null then
        Bare() && (enabled && inputStreamEnded ==> format.Some? && !hasSurface)
      else
        enabled && hasSurface && InStep() && BufferFits()
    }

    constructor (canFlush: bool, hasSurface: bool)
      ensures Valid() && codec == null && format == None && !enabled && this.canFlush == canFlush
                && this.hasSurface == hasSurface
    {
      this.canFlush, this.hasSurface := canFlush, hasSurface;
      enabled, format, codec, inputIndex, data := false, None, null, -1, null;
      codecReconfigured, reconfiguration := false, NotPending;
      inputStreamEnded, waitingForFirstSyncFrame, currentPositionUs := false, false, 0;
    }

    method ShouldInitCodec() returns (b: bool)
      ensures b <==> codec == null && format.Some? && hasSurface
    {
      b := codec == null && format.Some? && hasSurface;
    }

    /** When making the codec fails, a codec that has not been configured may be left behind. */
    method MaybeInitCodec(env: CodecEnv) returns (o: Outcome)
      requires codec == null ==> Bare()
      modifies `codec, `inputIndex, `waitingForFirstSyncFrame
      ensures Clean()
      ensures o == if old(codec) == null && format.Some? && hasSurface && env.initFails then Threw else Done
      ensures if old(codec) == null && format.Some? && hasSurface && o == Done then
                && codec != null && fresh(Memory()) && Valid()
                && codec.configured == format.value && codec.inputs == [] && codec.read == [] && codec.first == None
                && !codec.ended && inputIndex == -1 && |codec.inputBuffers| == env.bufferCount
                && (forall i :: 0 <= i < env.bufferCount ==> codec.inputBuffers[i].capacity == env.capacity)
              else if old(codec) != null || o == Done then
                codec == old(codec) && inputIndex == old(inputIndex)
                  && waitingForFirstSyncFrame == old(waitingForFirstSyncFrame)
              else
                codec == null || fresh(Memory())
    {
      var shouldInit := ShouldInitCodec();
      if !shouldInit {
        return Done;
      }
      if env.initFails && !env.leavesCodec {
        return Threw;
      }
      var buffers := NewBuffers(env.bufferCount, env.capacity);
      codec := new Codec(format.value, buffers);
      if env.initFails {
        return Threw;
      }
      inputIndex := -1;
      waitingForFirstSyncFrame := true;
      o := Done;
    }

    /** The codec is gone in any case, even when stopping it fails. */
    method ReleaseCodec()
      modifies `codec, `inputIndex, `codecReconfigured, `reconfiguration
      ensures codec == null
      ensures if old(codec) == null then
                && inputIndex == old(inputIndex) && codecReconfigured == old(codecReconfigured)
                && reconfiguration == old(reconfiguration)
              else
                inputIndex == -1 && !codecReconfigured && reconfiguration == NotPending
    {
      if codec != null {
        inputIndex := -1;
        codecReconfigured := false;
        reconfiguration := NotPending;
        codec := null;
      }
    }

    /** The codec drops what it was given; if it was ever reconfigured, the current format's initialization data is
        sent again. Where a codec cannot be flushed, a new one takes its place. */
    method FlushCodec(env: CodecEnv) returns (o: Outcome)
      requires Valid() && codec != null
      modifies `codec, `inputIndex, `codecReconfigured, `reconfiguration, `waitingForFirstSyncFrame, codec
      ensures o == if !canFlush && env.initFails then Threw else Done
      ensures o == Done ==>
                Valid() && codec != null && codec.inputs == [] && codec.read == [] && !codec.ended && inputIndex == -1
      ensures o == Done ==> (EndTold() <==> !inputStreamEnded)
      ensures o == Done && canFlush ==> codec == old(codec) && codecReconfigured == old(codecReconfigured)
      ensures o == Done && !canFlush ==> codec.configured == format.value && codec.first == None
      ensures Clean() && fresh(Memory() - old(Memory()))
    {
      inputIndex := -1;
      o := Done;
      if canFlush {
        codec.Flush(env.forgets);
      } else {
        ReleaseCodec();
        o := MaybeInitCodec(env);
        if o != Done { return; }
      }
      if codecReconfigured && format.Some? {
        reconfiguration := WritePending;
      }
    }

    /** A codec that can be reconfigured is kept and has nothing lost; otherwise a new one takes its place. */
    method OnInputFormatChanged(newFormat: Format, env: CodecEnv) returns (o: Outcome)
      requires enabled && if codec == null then Valid() else hasSurface && InStep()
      requires codec != null && inputIndex >= 0 ==>
                 && inputIndex < |codec.inputBuffers| && data == codec.inputBuffers[inputIndex]
                 && data.contents == [] && reconfiguration != QueuePending
      requires codec != null ==>
                inputIndex < |codec.inputBuffers| && (reconfiguration == QueuePending ==> inputIndex >= 0)
      modifies `format, `codec, `inputIndex, `codecReconfigured, `reconfiguration, `waitingForFirstSyncFrame
      ensures format == Some(newFormat)
      ensures o == if hasSurface && env.initFails && !(old(codec) != null && env.canReconfigure) then Threw else Done
      ensures o == Done ==> Valid() && (codec != null <==> hasSurface)
      ensures o == Done && old(codec) != null && env.canReconfigure ==>
                codec == old(codec) && codecReconfigured && reconfiguration == WritePending
      ensures o == Done && !(old(codec) != null && env.canReconfigure) && codec != null ==>
                && fresh(codec) && codec.configured == newFormat && codec.inputs == [] && codec.read == []
                && codec.first == None && reconfiguration == NotPending && |codec.inputBuffers| == env.bufferCount
      ensures Clean() && fresh(Memory() - old(Memory()))
    {
      format := Some(newFormat);
      o := Done;
      if codec != null && env.canReconfigure {
        codecReconfigured := true;
        reconfiguration := WritePending;
      } else {
        ReleaseCodec();
        o := MaybeInitCodec(env);
      }
    }

    // -------------------------------------------------------------- feedInputBuffer

    /** The format's initialization data is written part by part. */
    method WriteInitializationData() returns (o: Outcome)
      requires format.Some? && data != null && |data.contents| <= data.capacity
      modifies data
      ensures o == if |old(data.contents)| + |Init(format.value)| <= data.capacity then Done else Threw
      ensures o == Done ==> data.contents == old(data.contents) + Init(format.value)
    {
      var parts := format.value.initializationData;
      for i := 0 to |parts|
        invariant data.contents == old(data.contents) + Joined(parts[..i]) && |data.contents| <= data.capacity
      {
        JoinedStep(parts, i);
        o := data.Put(parts[i]);
        if o != Done { return; }
      }
      assert parts[..|parts|] == parts;
      o := Done;
    }

    /** A buffer is at hand, or the codec hands one out. */
    ghost predicate HasBuffer(env: CodecEnv)
      requires codec != null
      reads `codec, `inputIndex
    {
      inputIndex >= 0 || 0 <= env.dequeued < |codec.inputBuffers|
    }

    /** The first half of feedInputBuffer: a buffer is at hand, and pending initialization data is in it. */
    method PrepareInput(env: CodecEnv) returns (o: Outcome, ready: bool)
      requires Valid() && codec != null
      modifies `inputIndex, `data, `reconfiguration, codec.inputBuffers
      ensures o == Done ==> Valid()
      ensures ready ==> o == Done && !inputStreamEnded && inputIndex >= 0
      ensures o == Done ==> (ready <==> !inputStreamEnded && old(HasBuffer(env)))
      ensures o == Done && !ready ==> inputStreamEnded || !HasBuffer(env)
      ensures o == Threw ==>
                old(reconfiguration) == WritePending && data != null && format.Some?
                  && data.capacity < |Init(format.value)|
      ensures ready ==> reconfiguration == if old(reconfiguration) == NotPending then NotPending else QueuePending
      ensures inputStreamEnded ==>
                && o == Done && !ready && inputIndex == old(inputIndex) && data == old(data)
                && reconfiguration == old(reconfiguration)
    {
      o, ready := Done, false;
      if inputStreamEnded {
        return;
      }
      if inputIndex < 0 {
        inputIndex := codec.DequeueInputBuffer(env);
        if inputIndex < 0 {
          return;
        }
        data := codec.inputBuffers[inputIndex];
        data.Clear();
      }
      if reconfiguration == WritePending {
        assert data.contents == [];
        o := WriteInitializationData();
        if o != Done { return; }
        reconfiguration := QueuePending;
      }
      ready := true;
    }

    /** Whatever has been written to the current buffer is taken back, and written again later. */
    method TakeBack()
      requires data != null
      modifies `reconfiguration, data
      ensures data.contents == if old(reconfiguration) == QueuePending then [] else old(data.contents)
      ensures reconfiguration == if old(reconfiguration) == QueuePending then WritePending else old(reconfiguration)
    {
      if reconfiguration == QueuePending {
        data.Clear();
        reconfiguration := WritePending;
      }
    }

    /** The second half of feedInputBuffer for a sample: it is dropped if the codec still waits for a sync frame,
        and otherwise queued behind whatever is in the buffer. */
    method TakeSample(sample: Sample) returns (o: Outcome)
      requires Valid() && codec != null && inputIndex >= 0 && reconfiguration != WritePending
      modifies `inputIndex, `reconfiguration, `waitingForFirstSyncFrame, codec`inputs, codec`read, codec`first
      modifies codec`dropped, data
      ensures o == if |old(Written())| + |sample.bytes| <= data.capacity then Done else Threw
      ensures o == Done ==> Valid() && codec.read == old(codec.read) + [sample]
      ensures o == Done && old(waitingForFirstSyncFrame) && !sample.sync ==>
                && codec.inputs == old(codec.inputs) && waitingForFirstSyncFrame && inputIndex == old(inputIndex)
                && (reconfiguration == NotPending <==> old(reconfiguration) == NotPending)
      ensures o == Done && !(old(waitingForFirstSyncFrame) && !sample.sync) ==>
                && codec.inputs == old(codec.inputs)
                     + [Input(old(Written()) + sample.bytes, sample, format.value,
                       old(reconfiguration) == QueuePending)]
                && !waitingForFirstSyncFrame && inputIndex == -1 && reconfiguration == NotPending
    {
      o := data.Put(sample.bytes);
      if o == Done {
        if waitingForFirstSyncFrame && !sample.sync {
          Skip(sample);
        } else {
          waitingForFirstSyncFrame := false;
          Queue(sample);
        }
      }
    }

    method Skip(sample: Sample)
      requires codec != null && enabled && hasSurface && InStep() && codec.first.None? && !sample.sync
      requires 0 <= inputIndex < |codec.inputBuffers| && data == codec.inputBuffers[inputIndex]
                && reconfiguration != WritePending
      modifies `reconfiguration, codec`read, codec`dropped, data
      ensures Valid() && codec.read == old(codec.read) + [sample]
      ensures reconfiguration == if old(reconfiguration) == QueuePending then WritePending else NotPending
    {
      data.Clear();
      if reconfiguration == QueuePending {
        reconfiguration := WritePending;
      }
      codec.Drop(sample);
    }

    method Queue(sample: Sample)
      requires codec != null && enabled && hasSurface && format.Some? && codec.Valid() && !waitingForFirstSyncFrame
      requires codecReconfigured || (reconfiguration == NotPending && codec.configured == codec.Format())
      requires reconfiguration == NotPending ==> codec.Format() == format.value
      requires 0 <= inputIndex < |codec.inputBuffers| && data == codec.inputBuffers[inputIndex]
                && reconfiguration != WritePending
      requires data.contents == Written() + sample.bytes && (codec.first.None? ==> sample.sync)
      modifies `inputIndex, `reconfiguration, codec`inputs, codec`read, codec`first
      ensures Valid() && codec.read == old(codec.read) + [sample]
      ensures codec.inputs ==
                old(codec.inputs) + [Input(data.contents, sample, format.value, old(reconfiguration) == QueuePending)]
      ensures inputIndex == -1 && reconfiguration == NotPending
    {
      var bufferSize := |data.contents|;
      codec.QueueInputBuffer(inputIndex, bufferSize, sample, format.value, reconfiguration == QueuePending);
      assert data.contents[..bufferSize] == data.contents;
      inputIndex := -1;
      reconfiguration := NotPending;
    }

    /** The source has no more data: whatever is in the buffer is written again should there be more after all. */
    method TakeEndOfStream()
      requires Valid() && codec != null && inputIndex >= 0 && reconfiguration != WritePending
      modifies `inputIndex, `reconfiguration, `inputStreamEnded, codec`ended, data
      ensures Valid() && inputStreamEnded && codec.ended && inputIndex == -1 && codec == old(codec)
      ensures reconfiguration == if old(reconfiguration) == QueuePending then WritePending else NotPending
    {
      TakeBack();
      inputStreamEnded := true;
      codec.QueueEndOfStream();
      inputIndex := -1;
    }

    /** The second half of feedInputBuffer for a new format. */
    method TakeFormat(newFormat: Format, env: CodecEnv) returns (o: Outcome)
      requires Valid() && codec != null && inputIndex >= 0 && reconfiguration != WritePending
      modifies `format, `codec, `inputIndex, `codecReconfigured, `reconfiguration, `waitingForFirstSyncFrame, data
      ensures format == Some(newFormat)
      ensures o == if env.initFails && !env.canReconfigure then Threw else Done
      ensures o == Done ==> Valid() && codec != null
      ensures o == Done ==> if env.canReconfigure then codec == old(codec) && reconfiguration == WritePending
                            else fresh(codec) && codec.configured == newFormat && codec.read == []
      ensures Clean() && fresh(Memory() - old(Memory()))
    {
      TakeBack();
      o := OnInputFormatChanged(newFormat, env);
    }

    /** The second half of feedInputBuffer: the source has answered. */
    method TakeAnswer(answer: Answer, env: CodecEnv) returns (o: Outcome, more: bool)
      requires Valid() && codec != null && inputIndex >= 0 && reconfiguration != WritePending && !inputStreamEnded
      modifies `format, `codec, `inputIndex, `codecReconfigured, `reconfiguration, `waitingForFirstSyncFrame
      modifies `inputStreamEnded, codec, data
      ensures o == Done ==> Valid() && codec != null
      ensures o == Done ==> codec.read == Gained(old(codec.read), [Reading(answer, env)])
      ensures o == Done ==> (more <==> answer.DiscontinuityRead? || answer.FormatRead? || answer.SampleRead?)
      ensures match answer
              case ReadThrows => o == Threw
              case DiscontinuityRead => o == if !canFlush && env.initFails then Threw else Done
              case FormatRead(_) => o == if env.initFails && !env.canReconfigure then Threw else Done
              case SampleRead(sample) => o == if |old(Written())| + |sample.bytes| <= data.capacity then Done else Threw
              case _ => o == Done
      ensures answer.SampleRead? && o == Done ==> codec == old(codec) && codec.read == old(codec.read) + [answer.sample]
      ensures answer.SampleRead? && o == Done ==>
                codec.inputs == if old(waitingForFirstSyncFrame) && !answer.sample.sync then old(codec.inputs)
                                else old(codec.inputs) + [Input(old(Written()) + answer.sample.bytes, answer.sample,
                                  format.value,
                                                                old(reconfiguration) == QueuePending)]
      ensures answer.NothingRead? || answer.EndOfStream? ==>
                codec == old(codec) && codec.inputs == old(codec.inputs) && codec.read == old(codec.read)
      ensures EndTold()
      ensures answer.DiscontinuityRead? && o == Done ==> codec.read == []
      ensures format == if answer.FormatRead? then Some(answer.format) else old(format)
      ensures inputStreamEnded == answer.EndOfStream?
      ensures Clean() && fresh(Memory() - old(Memory()))
    {
      o, more := Done, true;
      match answer {
        case NothingRead => more := false;
        case ReadThrows => o := Threw;
        case DiscontinuityRead => o := FlushCodec(env);
        case FormatRead(f) => o := TakeFormat(f, env);
        case EndOfStream => TakeEndOfStream(); more := false;
        case SampleRead(sample) => o := TakeSample(sample);
      }
    }

    /** Why feeding fails: the source does, or a new codec cannot be made, or the buffer is too small. */
    ghost predicate Trouble(answer: Answer, env: CodecEnv)
      reads `format, `data
    {
      || answer.ReadThrows? || env.initFails
      || (format.Some? && data != null &&
          data.capacity < |Init(format.value)| + if answer.SampleRead? then |answer.sample.bytes| else 0)
    }

    /** One more input for the codec, if there is a buffer for it and the source has something. */
    method FeedInputBuffer(answer: Answer, env: CodecEnv) returns (o: Outcome, more: bool, ghost taken: bool)
      requires Valid() && codec != null
      modifies `format, `codec, `inputIndex, `data, `codecReconfigured, `reconfiguration, `waitingForFirstSyncFrame
      modifies `inputStreamEnded, Memory()
      ensures o == Done ==> Valid() && codec != null
      ensures Clean() && fresh(Memory() - old(Memory()))
      ensures o == Done ==> (taken <==> !old(inputStreamEnded) && old(HasBuffer(env)))
      ensures o == Done && !taken ==>
                && (inputStreamEnded || !HasBuffer(env)) && inputStreamEnded == old(inputStreamEnded)
                && codec == old(codec) && codec.inputs == old(codec.inputs) && codec.read == old(codec.read)
                && codec.ended == old(codec.ended) && format == old(format)
      ensures o == Done && taken ==>
                && codec.read == Gained(old(codec.read), [Reading(answer, env)])
                && format == (if answer.FormatRead? then Some(answer.format) else old(format))
                && inputStreamEnded == answer.EndOfStream? && !answer.ReadThrows?
                && (answer.SampleRead? ==> codec == old(codec) && codec.read == old(codec.read) + [answer.sample])
                && (answer.DiscontinuityRead? ==> codec.read == [])
      ensures o == Done ==>
                (more <==> taken && (answer.SampleRead? || answer.DiscontinuityRead? || answer.FormatRead?))
      ensures o == Done && old(EndTold()) ==> EndTold()
      ensures o == Threw ==> !old(inputStreamEnded) && Trouble(answer, env)
      ensures old(reconfiguration) == NotPending && answer.EndOfStream? ==> o == Done
    {
      var ready;
      o, ready := PrepareInput(env);
      more, taken := false, ready;
      if ready {
        o, more := TakeAnswer(answer, env);
      }
    }

    // -------------------------------------------------------------- the other steps

    /** The source was asked for a discontinuity only. */
    method CheckForDiscontinuity(answer: Answer, env: CodecEnv) returns (o: Outcome)
      requires Valid() && answer in {NothingRead, DiscontinuityRead, ReadThrows}
      modifies `codec, `inputIndex, `codecReconfigured, `reconfiguration, `waitingForFirstSyncFrame, Memory()
      ensures o == if old(codec) == null then Done
                   else if answer.ReadThrows? || (answer.DiscontinuityRead? && !canFlush && env.initFails) then Threw
                   else Done
      ensures o == Done ==> Valid() && (codec == null <==> old(codec) == null)
      ensures o == Done && codec != null && answer.DiscontinuityRead? ==> (EndTold() <==> !inputStreamEnded)
      ensures o == Done && codec != null ==>
                if answer.DiscontinuityRead? then codec.read == [] && !codec.ended
                else codec == old(codec) && codec.read == old(codec.read) && codec.ended == old(codec.ended)
      ensures Clean() && fresh(Memory() - old(Memory()))
    {
      o := Done;
      if codec == null {
        return;
      }
      match answer {
        case ReadThrows => o := Threw;
        case DiscontinuityRead => o := FlushCodec(env);
        case _ =>
      }
    }

    /** There is no format yet, so no codec either; anything but a format is ignored. */
    method ReadFormat(answer: Answer, env: CodecEnv) returns (o: Outcome)
      requires Valid() && enabled && format.None?
      modifies `format, `codec, `inputIndex, `codecReconfigured, `reconfiguration, `waitingForFirstSyncFrame
      ensures o == if answer.ReadThrows? || (answer.FormatRead? && hasSurface && env.initFails) then Threw else Done
      ensures o == Done ==> Valid() && format == if answer.FormatRead? then Some(answer.format) else None
      ensures o == Done ==> (codec != null <==> answer.FormatRead? && hasSurface)
      ensures o == Done && codec != null ==>
                && codec.read == [] && codec.configured == answer.format && reconfiguration == NotPending
                && |codec.inputBuffers| == env.bufferCount
      ensures Clean() && fresh(Memory() - old(Memory()))
    {
      o := Done;
      match answer {
        case ReadThrows => o := Threw;
        case FormatRead(f) => o := OnInputFormatChanged(f, env);
        case _ =>
      }
    }

    /** One round of discardSamples: the position follows the samples thrown away. */
    method DiscardSample(answer: Answer, env: CodecEnv) returns (o: Outcome, more: bool)
      requires Valid() && enabled && codec == null && format.Some? && !hasSurface
      modifies `format, `codec, `data, `inputIndex, `codecReconfigured, `reconfiguration, `waitingForFirstSyncFrame
      modifies `currentPositionUs
      ensures o == if answer.ReadThrows? then Threw else Done
      ensures Valid() && codec == null && format == if answer.FormatRead? then Some(answer.format) else old(format)
      ensures currentPositionUs ==
                if answer.SampleRead? && !answer.sample.decodeOnly then answer.sample.timeUs else old(currentPositionUs)
      ensures more <==> answer.SampleRead?
    {
      data := null;
      o, more := Done, false;
      match answer {
        case ReadThrows => o := Threw;
        case FormatRead(f) => o := OnInputFormatChanged(f, env);
        case SampleRead(sample) =>
          if !sample.decodeOnly {
            currentPositionUs := sample.timeUs;
          }
          more := true;
        case _ =>
      }
    }

    /** The end of the stream may no longer be near. */
    method SeekTo(timeUs: int)
      requires Valid()
      modifies `currentPositionUs, `inputStreamEnded
      ensures Valid() && currentPositionUs == timeUs && !inputStreamEnded && EndTold()
    {
      currentPositionUs := timeUs;
      inputStreamEnded := false;
    }

    method OnEnabled(timeUs: int)
      requires Valid() && !enabled
      modifies `enabled, `currentPositionUs, `inputStreamEnded
      ensures Valid() && enabled && codec == null && format == None && currentPositionUs == timeUs && !inputStreamEnded
    {
      enabled := true;
      inputStreamEnded := false;
      currentPositionUs := timeUs;
    }

    /** Cleans up whatever state a step that threw has left. */
    method OnDisabled()
      requires Clean()
      modifies `enabled, `format, `codec, `inputIndex, `codecReconfigured, `reconfiguration
      ensures Valid() && !enabled && codec == null && format == None
    {
      enabled := false;
      format := None;
      ReleaseCodec();
    }

    /** A new surface needs a new codec. */
    method SetSurface(present: bool, env: CodecEnv) returns (o: Outcome)
      requires Valid()
      modifies `hasSurface, `codec, `inputIndex, `codecReconfigured, `reconfiguration, `waitingForFirstSyncFrame
      ensures o == (if present && enabled && format.Some? && env.initFails then Threw else Done)
                && hasSurface == present
      ensures o == Done ==> Valid() && (codec != null <==> present && enabled && format.Some?)
      ensures o == Done && codec != null ==>
                fresh(codec) && codec.configured == format.value && codec.read == [] && codec.first == None
      ensures o == Done && codec != null ==> (EndTold() <==> !inputStreamEnded)
      ensures Clean() && fresh(Memory() - old(Memory()))
    {
      hasSurface := present;
      o := Done;
      if enabled {
        ReleaseCodec();
        o := MaybeInitCodec(env);
      }
    }

    // -------------------------------------------------------------- runs

    /** Feeding has stopped after the given number of readings, for want of something to read or of a buffer. */
    ghost predicate StopsAt(used: nat, readings: seq<Reading>)
      requires codec != null && used < |readings|
      reads `codec, `inputIndex, `inputStreamEnded
    {
      inputStreamEnded || !HasBuffer(readings[used].env) || (used > 0 && readings[used - 1].answer.NothingRead?)
    }

    /** The feeding loop: the readings are taken one by one, up to the end of the stream, the last buffer, or the last
        the source has. Once the given readings are used up the source has nothing more. */
    method FeedAll(readings: seq<Reading>) returns (o: Outcome, ghost used: nat)
      requires Valid() && codec != null
      modifies `format, `codec, `inputIndex, `data, `codecReconfigured, `reconfiguration, `waitingForFirstSyncFrame
      modifies `inputStreamEnded, Memory()
      ensures o == Done ==> Valid() && codec != null && format.Some?
      ensures Clean() && fresh(Memory() - old(Memory()))
      ensures o == Done && old(EndTold()) ==> EndTold()
      ensures o == Done && old(inputStreamEnded) ==>
                inputStreamEnded && codec == old(codec) && codec.ended == old(codec.ended) && used == 0
      ensures used <= |readings|
      ensures o == Done ==>
                && codec.read == Gained(old(codec.read), readings[..used])
                && format == FormatAfter(old(format), readings[..used])
      ensures o == Done && !old(inputStreamEnded) ==>
                (inputStreamEnded <==> used > 0 && readings[used - 1].answer.EndOfStream?)
      ensures o == Done && used < |readings| ==>
                inputStreamEnded || !HasBuffer(readings[used].env)
                  || (used > 0 && readings[used - 1].answer.NothingRead?)
      ensures o == Threw ==> used < |readings| && Trouble(readings[used].answer, readings[used].env)
    {
      var more, next := true, 0;
      o, used := Done, 0;
      while more && next < |readings|
        invariant Valid() && codec != null && o == Done && used <= next <= |readings|
        invariant fresh(Memory() - old(Memory()))
        invariant old(EndTold()) ==> EndTold()
        invariant old(inputStreamEnded) ==>
                    inputStreamEnded && codec == old(codec) && codec.ended == old(codec.ended) && used == 0
        invariant codec.read == Gained(old(codec.read), readings[..used])
        invariant format == FormatAfter(old(format), readings[..used])
        invariant !old(inputStreamEnded) ==>
                    (inputStreamEnded <==> used > 0 && readings[used - 1].answer.EndOfStream?)
        invariant more ==> used == next && (!old(inputStreamEnded) ==> !inputStreamEnded)
        invariant !more && used < |readings| ==> StopsAt(used, readings)
      {
        ghost var taken;
        o, more, taken := FeedInputBuffer(readings[next].answer, readings[next].env);
        if o != Done { return; }
        assert Reading(readings[next].answer, readings[next].env) == readings[next];
        OneMoreReading(old(codec.read), old(format), readings, next);
        used := if taken then used + 1 else used;
        next := next + 1;
      }
    }

    /** Samples are thrown away until the position is reached or the source answers with something else. */
    method DiscardSamples(positionUs: int, readings: seq<Reading>) returns (o: Outcome, used: nat)
      requires Valid() && enabled && codec == null && format.Some? && !hasSurface
      modifies `format, `codec, `data, `inputIndex, `codecReconfigured, `reconfiguration, `waitingForFirstSyncFrame
      modifies `currentPositionUs
      ensures Valid() && codec == null && format.Some? && used <= |readings|
      ensures currentPositionUs == PositionAfter(old(currentPositionUs), readings[..used])
      ensures format == FormatAfter(old(format), readings[..used])
      ensures used < |readings| ==>
                currentPositionUs > positionUs || (used > 0 && !readings[used - 1].answer.SampleRead?)
      ensures o == Threw <==> used > 0 && readings[used - 1].answer.ReadThrows?
    {
      var more := true;
      o, used := Done, 0;
      while more && used < |readings| && currentPositionUs <= positionUs
        invariant Valid() && codec == null && format.Some? && o == Done && used <= |readings|
        invariant currentPositionUs == PositionAfter(old(currentPositionUs), readings[..used])
        invariant format == FormatAfter(old(format), readings[..used])
        invariant more <==> used == 0 || readings[used - 1].answer.SampleRead?
        invariant used > 0 ==> !readings[used - 1].answer.ReadThrows?
      {
        o, more := DiscardSample(readings[used].answer, readings[used].env);
        used := used + 1;
        assert readings[..used][..used - 1] == readings[..used - 1];
        if o != Done { return; }
      }
    }

    /** A codec is made if there should be one, and fed. */
    method InitAndFeed(env: CodecEnv, readings: seq<Reading>) returns (o: Outcome, ghost used: nat)
      requires Valid() && enabled && format.Some?
      modifies `format, `codec, `inputIndex, `data, `codecReconfigured, `reconfiguration, `waitingForFirstSyncFrame
      modifies `inputStreamEnded, Memory()
      ensures o == Done ==> Valid() && format.Some? && (codec != null <==> hasSurface)
      ensures o == Done && old(EndTold()) ==> EndTold()
      ensures o == Done && old(inputStreamEnded) && old(codec) != null ==> (EndTold() <==> old(EndTold()))
      ensures Clean() && fresh(Memory() - old(Memory())) && used <= |readings|
      ensures o == Done ==> format == FormatAfter(old(format), readings[..used])
      ensures o == Done && codec == null ==> used == 0
      ensures o == Done && codec != null ==>
                codec.read == Gained(if old(codec) == null then [] else old(codec.read), readings[..used])
      ensures o == Done && codec != null && used < |readings| ==> StopsAt(used, readings)
      ensures o == Done && codec != null ==>
                inputStreamEnded == (old(inputStreamEnded) || (used > 0 && readings[used - 1].answer.EndOfStream?))
      ensures o == Threw ==>
                env.initFails || (used < |readings| && Trouble(readings[used].answer, readings[used].env))
    {
      used := 0;
      o := MaybeInitCodec(env);
      if o == Done && codec != null {
        o, used := FeedAll(readings);
      }
    }

    /** What doSomeWork does once there is a format. */
    method WorkWithFormat(started: bool, positionUs: int, env: CodecEnv, readings: seq<Reading>)
        returns (o: Outcome, ghost used: nat)
      requires Valid() && enabled && format.Some?
      modifies `format, `codec, `inputIndex, `data, `codecReconfigured, `reconfiguration, `waitingForFirstSyncFrame
      modifies `inputStreamEnded, `currentPositionUs, Memory()
      ensures o == Done ==> Valid() && format.Some? && (codec != null <==> hasSurface)
      ensures o == Done && old(EndTold()) ==> EndTold()
      ensures o == Done && old(inputStreamEnded) && old(codec) != null ==> (EndTold() <==> old(EndTold()))
      ensures Clean() && fresh(Memory() - old(Memory())) && used <= |readings|
      ensures o == Done ==> format == FormatAfter(old(format), readings[..used])
      ensures o == Done && codec != null ==>
                codec.read == Gained(if old(codec) == null then [] else old(codec.read), readings[..used])
      ensures o == Done && codec != null && used < |readings| ==> StopsAt(used, readings)
      ensures o == Done && codec != null ==>
                inputStreamEnded == (old(inputStreamEnded) || (used > 0 && readings[used - 1].answer.EndOfStream?))
      ensures o == Done ==>
                currentPositionUs == if codec == null then PositionAfter(old(currentPositionUs), readings[..used])
                                     else old(currentPositionUs)
      ensures o == Done && codec == null && used < |readings| ==>
                !started || currentPositionUs > positionUs || (used > 0 && !readings[used - 1].answer.SampleRead?)
      ensures o == Threw ==>
                env.initFails || (used > 0 && readings[used - 1].answer.ReadThrows?)
                  || (used < |readings| && Trouble(readings[used].answer, readings[used].env))
    {
      used := 0;
      var shouldInit := ShouldInitCodec();
      if codec == null && !shouldInit && started {
        o, used := DiscardSamples(positionUs, readings);
        return;
      }
      o, used := InitAndFeed(env, readings);
    }

    /** Work keeps the codec aware of the end of the stream, unless it reads a discontinuity after the end. */
    ghost predicate TellsEndAfter(discontinuity: Answer)
      reads `codec, `inputStreamEnded, codec
    {
      codec != null && inputStreamEnded ==> discontinuity.NothingRead? && EndTold()
    }

    /** doSomeWork, without the draining of the codec's output: the first readings are taken, as many as can be. The
        samples among them since the last flush or new codec are what the codec's log gains. */
    method DoSomeWork(started: bool, positionUs: int, discontinuity: Reading, readings: seq<Reading>)
        returns (o: Outcome, ghost used: nat)
      requires Valid() && enabled && discontinuity.answer in {NothingRead, DiscontinuityRead, ReadThrows}
      modifies this, Memory()
      ensures o == Done ==> Valid() && enabled && hasSurface == old(hasSurface)
      ensures used <= |readings|
      ensures o == Done ==> (codec != null <==> hasSurface && format.Some?)
      ensures o == Done && old(format).None? ==>
                format == if readings != [] && readings[0].answer.FormatRead? then Some(readings[0].answer.format)
                          else None
      ensures o == Done && old(format).Some? ==> format == FormatAfter(old(format), readings[..used])
      ensures o == Done ==> (EndTold() <==> old(TellsEndAfter(discontinuity.answer)))
      ensures old(codec) != null && discontinuity.answer.ReadThrows? ==> o == Threw
      ensures Clean() && fresh(Memory() - old(Memory()))
      ensures o == Done && codec != null ==>
                codec.read == Gained(if old(codec) == null || discontinuity.answer.DiscontinuityRead? then []
                                     else old(codec.read), readings[..used])
      ensures o == Done && codec != null && old(format).Some? && used < |readings| ==>
                inputStreamEnded || !HasBuffer(readings[used].env)
                  || (used > 0 && readings[used - 1].answer.NothingRead?)
      ensures o == Done && codec != null && old(format).Some? ==>
                inputStreamEnded == (old(inputStreamEnded) || (used > 0 && readings[used - 1].answer.EndOfStream?))
      ensures o == Done && old(format).Some? ==>
                currentPositionUs == if codec == null then PositionAfter(old(currentPositionUs), readings[..used])
                                     else old(currentPositionUs)
      ensures o == Done && codec == null && old(format).Some? && used < |readings| ==>
                !started || currentPositionUs > positionUs || (used > 0 && !readings[used - 1].answer.SampleRead?)
      ensures o == Threw ==>
                || discontinuity.answer.ReadThrows? || discontinuity.env.initFails
                || exists k :: 0 <= k < |readings| && Trouble(readings[k].answer, readings[k].env)
    {
      used := 0;
      o := CheckForDiscontinuity(discontinuity.answer, discontinuity.env);
      if o != Done { return; }
      if format.None? {
        if readings != [] {
          used := 1;
          o := ReadFormat(readings[0].answer, readings[0].env);
        }
        return;
      }
      o, used := WorkWithFormat(started, positionUs, discontinuity.env, readings);
    }

    /** After a step the codec, if there is one, knows of the end of the stream. */
    ghost predicate TellsEnd(step: Step)
      reads `codec, `inputStreamEnded, `enabled, codec
    {
      match step
      case Work(_, _, discontinuity, _) =>
        if enabled && discontinuity.answer in {NothingRead, DiscontinuityRead} then TellsEndAfter(discontinuity.answer)
        else EndTold()
      case Surface(_, _) => enabled ==> !inputStreamEnded
      case Seek(_) => true
      case _ => EndTold()
    }

    /** One step of a run. A renderer that throws is disabled. */
    method Perform(step: Step) returns (ghost used: nat)
      requires Valid()
      modifies this, Memory()
      ensures Valid() && fresh(Memory() - old(Memory()))
      ensures step.Work? && enabled && step.discontinuity.answer in {NothingRead, DiscontinuityRead} ==>
                && used <= |step.readings| && (codec != null <==> hasSurface && format.Some?)
                && (codec != null ==>
                      codec.read == Gained(if old(codec) == null || step.discontinuity.answer.DiscontinuityRead? then []
                                           else old(codec.read), step.readings[..used]))
                && (codec != null && old(format).Some? && used < |step.readings| ==>
                      inputStreamEnded || !HasBuffer(step.readings[used].env)
                        || (used > 0 && step.readings[used - 1].answer.NothingRead?))
      ensures match step
              case Enable(timeUs) => enabled && (!old(enabled) ==> currentPositionUs == timeUs)
              case Work(_, _, _, _) => enabled ==> old(enabled)
              case Seek(timeUs) => enabled == old(enabled) && currentPositionUs == timeUs && !inputStreamEnded
              case Surface(present, _) => hasSurface == present && (enabled ==> old(enabled))
              case Disable => !enabled && format == None
      ensures EndTold() <==> codec == null || old(TellsEnd(step))
    {
      var o := Done;
      used := 0;
      match step {
        case Enable(timeUs) => if !enabled { OnEnabled(timeUs); }
        case Work(started, positionUs, discontinuity, readings) =>
          if enabled && discontinuity.answer in {NothingRead, DiscontinuityRead, ReadThrows} {
            o, used := DoSomeWork(started, positionUs, discontinuity, readings);
          }
        case Seek(timeUs) => SeekTo(timeUs);
        case Surface(present, env) => o := SetSurface(present, env);
        case Disable => OnDisabled();
      }
      if o != Done {
        OnDisabled();
      }
    }

    /** Whatever the source answers and however the codec behaves: what has been queued is sound, and nothing but a
        leading run of samples without sync frames is missing from it. The codec goes on knowing of the end of the
        stream as long as no discontinuity and no other surface comes after the end: ended[k] tells whether it had been
        reached before step k. */
    method Run(script: seq<Step>) returns (ghost ended: seq<bool>)
      requires Valid()
      modifies this, Memory()
      ensures Valid() && fresh(Memory() - old(Memory()))
      ensures codec != null ==> Sound(codec.base, codec.inputs) && Conserves(codec.inputs, codec.read, codec.dropped)
      ensures |ended| == |script| && (script != [] ==> ended[0] == old(inputStreamEnded))
      ensures old(EndTold()) && (forall k :: 0 <= k < |script| && ended[k] ==> !Interrupts(script[k])) ==> EndTold()
    {
      ended := [];
      for k := 0 to |script|
        invariant Valid() && fresh(Memory() - old(Memory()))
        invariant |ended| == k && (k > 0 ==> ended[0] == old(inputStreamEnded))
                  && (k == 0 ==> inputStreamEnded == old(inputStreamEnded))
        invariant old(EndTold()) && (forall j :: 0 <= j < k && ended[j] ==> !Interrupts(script[j])) ==> EndTold()
      {
        ended := ended + [inputStreamEnded];
        var _ := Perform(script[k]);
      }
    }
  }

  /** Steps that flush the codec or replace it. */
  predicate Interrupts(step: Step) {
    step.Surface? || (step.Work? && step.discontinuity.answer.DiscontinuityRead?)
  }

  /** A stream that ends, and a discontinuity after that: the codec has not been told of the end, and never will be,
      since nothing more is fed. */
  method EndCanBeLost() returns (r: MediaCodecTrackRenderer)
    ensures r.Valid() && r.codec != null && r.inputStreamEnded && !r.EndTold()
  {
    r := new MediaCodecTrackRenderer(true, true);
    var env := CodecEnv(false, false, 1, 0, 0, false, false);
    r.OnEnabled(0);
    var _ := r.ReadFormat(FormatRead(Format(0, [])), env);
    var _, _, _ := r.FeedInputBuffer(EndOfStream, env);
    assert r.inputStreamEnded;
    var _ := r.CheckForDiscontinuity(DiscontinuityRead, env);
  }
}
