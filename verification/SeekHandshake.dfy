/** The seek handshake between a source that serves several tracks from one extractor (FrameworkSampleSource.java)
    and a renderer that feeds one of these tracks to a codec. */
module SeekHandshake {
  import opened Basics
  import opened CodecFeeding

  datatype TrackState = Disabled | Enabled | FormatSent

  /** What the extractor would give next: a sample of some track, or nothing when the track is negative. */
  datatype Extracted = Extracted(track: int, bytes: seq<byte>, timeUs: int, sync: bool)

  /** The sample the extractor gives, as read after so many seeks. */
  function SampleOf(next: Extracted, generation: nat): Sample {
    Sample(next.bytes, next.timeUs, next.sync, false, generation)
  }

  class FrameworkSampleSource {
    const trackStates: array<TrackState>
    const pendingDiscontinuities: array<bool>
    var seekTimeUs: int
    /** How often the extractor has been sent to a new position, which marks the samples read there; where it was
        sent last; and whether a sample has been read since. */
    var generation: nat
    ghost var lastSeekUs: int
    ghost var readSince: bool

    ghost predicate Valid()
      reads this
    {
      && trackStates.Length == pendingDiscontinuities.Length
      && seekTimeUs == if readSince then -1 else lastSeekUs
    }

    constructor (trackCount: nat)
      ensures Valid() && fresh(trackStates) && fresh(pendingDiscontinuities) && trackStates.Length == trackCount
      ensures forall i :: 0 <= i < trackCount ==> trackStates[i] == Disabled && !pendingDiscontinuities[i]
      ensures generation == 0 && lastSeekUs == 0 && !readSince
    {
      trackStates := new TrackState[trackCount](i => Disabled);
      pendingDiscontinuities := new bool[trackCount](i => false);
      seekTimeUs, generation, lastSeekUs, readSince := 0, 0, 0, false;
    }

    /** A seek moves the extractor unless it is where the last seek has put it; then every track in use is told.
        The one exception: after a sample has been read, a seek to -1 has no effect. */
    method SeekToUs(timeUs: int)
      requires Valid()
      modifies this, pendingDiscontinuities
      ensures Valid()
      ensures generation == old(generation) <==> if old(readSince) then timeUs == -1 else timeUs == old(lastSeekUs)
      ensures if generation == old(generation) then
                && pendingDiscontinuities[..] == old(pendingDiscontinuities[..])
                && lastSeekUs == old(lastSeekUs) && readSince == old(readSince)
              else
                && generation == old(generation) + 1 && lastSeekUs == timeUs && !readSince
                && forall i :: 0 <= i < pendingDiscontinuities.Length ==>
                     pendingDiscontinuities[i] == (trackStates[i] != Disabled || old(pendingDiscontinuities[i]))
    {
      if seekTimeUs != timeUs {
        seekTimeUs := timeUs;
        generation, lastSeekUs, readSince := generation + 1, timeUs, false;
        for i := 0 to trackStates.Length
          modifies pendingDiscontinuities
          invariant forall j :: 0 <= j < i ==>
                    pendingDiscontinuities[j] == (trackStates[j] != Disabled || old(pendingDiscontinuities[j]))
          invariant forall j :: i <= j < trackStates.Length ==>
                    pendingDiscontinuities[j] == old(pendingDiscontinuities[j])
        {
          if trackStates[i] != Disabled {
            pendingDiscontinuities[i] := true;
          }
        }
      }
    }

    method Enable(track: nat, timeUs: int)
      requires Valid() && track < trackStates.Length && trackStates[track] == Disabled
      modifies this, trackStates, pendingDiscontinuities
      ensures Valid() && trackStates[..] == old(trackStates[..])[track := Enabled]
      ensures generation == old(generation) <==> if old(readSince) then timeUs == -1 else timeUs == old(lastSeekUs)
      ensures if generation == old(generation) then
                pendingDiscontinuities[..] == old(pendingDiscontinuities[..])
              else
                forall i :: 0 <= i < pendingDiscontinuities.Length ==>
                  pendingDiscontinuities[i] == (trackStates[i] != Disabled || old(pendingDiscontinuities[i]))
    {
      trackStates[track] := Enabled;
      SeekToUs(timeUs);
    }

    method Disable(track: nat)
      requires Valid() && track < trackStates.Length && trackStates[track] != Disabled
      modifies trackStates, pendingDiscontinuities
      ensures Valid() && trackStates[..] == old(trackStates[..])[track := Disabled]
      ensures pendingDiscontinuities[..] == old(pendingDiscontinuities[..])[track := false]
    {
      pendingDiscontinuities[track] := false;
      trackStates[track] := Disabled;
    }

    /** A discontinuity comes before a format, a format before a sample; a sample is only read when the extractor's
        next one belongs to the track. */
    method ReadData(track: nat, onlyReadDiscontinuity: bool, format: Format, next: Extracted) returns (answer: Answer)
      requires Valid() && track < trackStates.Length && trackStates[track] != Disabled
      modifies this, trackStates, pendingDiscontinuities
      ensures Valid() && generation == old(generation) && lastSeekUs == old(lastSeekUs)
      ensures answer == if old(pendingDiscontinuities[track]) then DiscontinuityRead
                        else if onlyReadDiscontinuity then NothingRead
                        else if old(trackStates[track]) != FormatSent then FormatRead(format)
                        else if next.track == track then SampleRead(SampleOf(next, generation))
                        else if next.track < 0 then EndOfStream
                        else NothingRead
      ensures readSince == (old(readSince) || answer.SampleRead?)
      ensures pendingDiscontinuities[..] == old(pendingDiscontinuities[..])[track := false]
      ensures trackStates[..] ==
                old(trackStates[..])[track := if answer.FormatRead? then FormatSent else old(trackStates[track])]
    {
      if pendingDiscontinuities[track] {
        pendingDiscontinuities[track] := false;
        return DiscontinuityRead;
      }
      if onlyReadDiscontinuity {
        return NothingRead;
      }
      if trackStates[track] != FormatSent {
        trackStates[track] := FormatSent;
        return FormatRead(format);
      }
      if next.track == track {
        seekTimeUs := -1;
        readSince := true;
        return SampleRead(SampleOf(next, generation));
      }
      return if next.track < 0 then EndOfStream else NothingRead;
    }
  }

  /** What happens to the renderer, or to the source on behalf of another track. */
  datatype Event =
    | Enable(timeUs: int)
    | CheckForDiscontinuity(env: CodecEnv)
    | ReadFormat(format: Format, env: CodecEnv)
    | DiscardSample(format: Format, next: Extracted, env: CodecEnv)
    | InitCodec(env: CodecEnv)
    | Feed(format: Format, next: Extracted, env: CodecEnv)
    | SetSurface(present: bool, env: CodecEnv)
    | Seek(timeUs: int)
    | Disable
    | EnableOther(other: nat, timeUs: int)
    | ReadOther(other: nat, onlyReadDiscontinuity: bool, format: Format, next: Extracted)
    | SeekOther(timeUs: int)
    | DisableOther(other: nat)

  /** The samples read for a codec all come from one generation. */
  predicate FromGeneration(read: seq<Sample>, generation: nat) {
    forall i :: 0 <= i < |read| ==> read[i].generation == generation
  }

  class Feeding {
    const source: FrameworkSampleSource
    const renderer: MediaCodecTrackRenderer
    const track: nat
    /** The source's generation when the codec was made or last flushed. */
    ghost var codecGeneration: nat

    ghost predicate Valid()
      reads this, source, source.trackStates, source.pendingDiscontinuities, renderer, renderer.codec, renderer.data
    {
      && source.Valid() && renderer.Valid() && track < source.trackStates.Length
      && (renderer.enabled <==> source.trackStates[track] != Disabled)
      && (renderer.format.Some? <==> source.trackStates[track] == FormatSent)
      && Fresh()
    }

    /** What the codec holds was read after the last effective seek, or a discontinuity is on its way to it. */
    ghost predicate Fresh()
      requires source.Valid() && track < source.trackStates.Length
      reads this, source, source.trackStates, source.pendingDiscontinuities, renderer, renderer.codec
    {
      renderer.codec != null ==>
        && FromGeneration(renderer.codec.read, codecGeneration)
        && (codecGeneration == source.generation || source.pendingDiscontinuities[track])
    }

    /** What is left when a step has thrown: enough to disable the renderer. */
    ghost predicate Recoverable()
      reads this, source, source.trackStates, renderer
    {
      && source.Valid() && renderer.Clean() && track < source.trackStates.Length
      && renderer.enabled && source.trackStates[track] != Disabled
    }

    constructor (trackCount: nat, track: nat, canFlush: bool, hasSurface: bool)
      requires track < trackCount
      ensures Valid() && fresh(source) && fresh(renderer) && fresh(source.trackStates)
                && fresh(source.pendingDiscontinuities)
      ensures fresh(renderer.Memory())
    {
      source := new FrameworkSampleSource(trackCount);
      renderer := new MediaCodecTrackRenderer(canFlush, hasSurface);
      this.track, codecGeneration := track, 0;
    }

    /** The codec is fed with what the source has answered. */
    method TakeRead(answer: Answer, env: CodecEnv) returns (o: Outcome)
      requires source.Valid() && renderer.Valid() && renderer.enabled && renderer.codec != null && renderer.format.Some?
      requires track < source.trackStates.Length && source.trackStates[track] == FormatSent
      requires renderer.inputIndex >= 0 && renderer.reconfiguration != WritePending && !renderer.inputStreamEnded
      requires !answer.FormatRead? && !source.pendingDiscontinuities[track]
      requires FromGeneration(renderer.codec.read, codecGeneration)
      requires answer.DiscontinuityRead? || codecGeneration == source.generation
      requires answer.SampleRead? ==> answer.sample.generation == source.generation
      modifies `codecGeneration, renderer`format, renderer`codec, renderer`inputIndex, renderer`codecReconfigured
      modifies renderer`reconfiguration, renderer`waitingForFirstSyncFrame, renderer`inputStreamEnded
      modifies renderer.codec, renderer.data
      ensures renderer.Clean() && fresh(renderer.Memory() - old(renderer.Memory()))
      ensures o == Done ==> Valid() && renderer.codec != null
      ensures o == Done && answer.DiscontinuityRead? ==> renderer.codec.read == []
      ensures o == Done && answer.SampleRead? ==>
                renderer.codec == old(renderer.codec)
                  && renderer.codec.read == old(renderer.codec.read) + [answer.sample]
    {
      var more;
      o, more := renderer.TakeAnswer(answer, env);
      codecGeneration := if answer.DiscontinuityRead? then source.generation else codecGeneration;
    }

    /** The source is read and the codec fed with what it answers. */
    method ReadAndTake(format: Format, next: Extracted, env: CodecEnv) returns (o: Outcome)
      requires Valid() && renderer.codec != null
      requires renderer.inputIndex >= 0 && renderer.reconfiguration != WritePending && !renderer.inputStreamEnded
      modifies `codecGeneration, source, source.trackStates, source.pendingDiscontinuities
      modifies renderer`format, renderer`codec, renderer`inputIndex, renderer`codecReconfigured
      modifies renderer`reconfiguration
      modifies renderer`waitingForFirstSyncFrame, renderer`inputStreamEnded, renderer.codec, renderer.data
      ensures renderer.Clean() && fresh(renderer.Memory() - old(renderer.Memory()))
      ensures o == Done ==> Valid() && renderer.codec != null && !source.pendingDiscontinuities[track]
      ensures o == Done && old(source.pendingDiscontinuities[track]) ==> renderer.codec.read == []
      ensures o == Done && !old(source.pendingDiscontinuities[track]) && next.track == track ==>
                && renderer.codec == old(renderer.codec)
                && renderer.codec.read == old(renderer.codec.read) + [SampleOf(next, source.generation)]
      ensures o != Done ==> Recoverable()
    {
      var answer := source.ReadData(track, false, format, next);
      o := TakeRead(answer, env);
    }

    method PerformFeed(format: Format, next: Extracted, env: CodecEnv) returns (o: Outcome)
      requires Valid() && renderer.codec != null
      modifies `codecGeneration, source, source.trackStates, source.pendingDiscontinuities, renderer, renderer.Memory()
      ensures fresh(renderer.Memory() - old(renderer.Memory()))
      ensures o == Done ==> Valid() && renderer.codec != null
      ensures o == Done && !old(renderer.inputStreamEnded) && old(renderer.HasBuffer(env)) ==>
                if old(source.pendingDiscontinuities[track]) then renderer.codec.read == []
                else next.track == track ==>
                  renderer.codec.read == old(renderer.codec.read) + [SampleOf(next, source.generation)]
      ensures o != Done ==> Recoverable()
    {
      var ready;
      o, ready := renderer.PrepareInput(env);
      if ready {
        o := ReadAndTake(format, next, env);
      }
    }

    /** The renderer asks for nothing but a discontinuity. */
    method PerformCheck(env: CodecEnv) returns (o: Outcome)
      requires Valid() && renderer.codec != null
      modifies `codecGeneration, source, source.trackStates, source.pendingDiscontinuities, renderer, renderer.Memory()
      ensures fresh(renderer.Memory() - old(renderer.Memory()))
      ensures o == Done ==> Valid() && !source.pendingDiscontinuities[track]
      ensures o != Done ==> Recoverable()
    {
      var answer := source.ReadData(track, true, Format(0, []), Extracted(-1, [], 0, false));
      o := renderer.CheckForDiscontinuity(answer, env);
      codecGeneration := if answer.DiscontinuityRead? then source.generation else codecGeneration;
    }

    /** Before there is a format, a discontinuity needs no answer: any codec is still to be made. */
    method PerformReadFormat(format: Format, env: CodecEnv) returns (o: Outcome)
      requires Valid() && renderer.enabled && renderer.format.None?
      modifies `codecGeneration, source, source.trackStates, source.pendingDiscontinuities, renderer, renderer.Memory()
      ensures fresh(renderer.Memory() - old(renderer.Memory()))
      ensures o == Done ==> Valid()
      ensures o != Done ==> Recoverable()
    {
      var answer := source.ReadData(track, false, format, Extracted(-1, [], 0, false));
      o := renderer.ReadFormat(answer, env);
      codecGeneration := source.generation;
    }

    method PerformDiscard(format: Format, next: Extracted, env: CodecEnv)
      requires Valid() && renderer.enabled && renderer.codec == null && renderer.format.Some? && !renderer.hasSurface
      modifies source, source.trackStates, source.pendingDiscontinuities, renderer, renderer.Memory()
      ensures Valid() && renderer.codec == null
    {
      var answer := source.ReadData(track, false, format, next);
      var _, _ := renderer.DiscardSample(answer, env);
    }

    /** A new codec starts with nothing from before. */
    method PerformInit(env: CodecEnv) returns (o: Outcome)
      requires Valid() && renderer.enabled && renderer.codec == null
      modifies `codecGeneration, renderer, renderer.Memory()
      ensures fresh(renderer.Memory() - old(renderer.Memory()))
      ensures o == Done ==> Valid()
      ensures o != Done ==> Recoverable()
    {
      o := renderer.MaybeInitCodec(env);
      codecGeneration := source.generation;
    }

    method PerformSetSurface(present: bool, env: CodecEnv) returns (o: Outcome)
      requires Valid()
      modifies `codecGeneration, renderer, renderer.Memory()
      ensures fresh(renderer.Memory() - old(renderer.Memory()))
      ensures o == Done ==> Valid()
      ensures o != Done ==> Recoverable()
    {
      o := renderer.SetSurface(present, env);
      codecGeneration := source.generation;
    }

    method PerformSeek(timeUs: int)
      requires Valid() && renderer.enabled
      modifies source, source.pendingDiscontinuities, renderer`currentPositionUs, renderer`inputStreamEnded
      ensures Valid() && (source.generation != old(source.generation) ==> source.pendingDiscontinuities[track])
      ensures renderer.currentPositionUs == timeUs && (source.lastSeekUs == timeUs || timeUs == -1)
    {
      renderer.SeekTo(timeUs);
      source.SeekToUs(timeUs);
    }

    method PerformEnable(timeUs: int)
      requires Valid() && !renderer.enabled
      modifies source, source.trackStates, source.pendingDiscontinuities, renderer`enabled, renderer`currentPositionUs
      modifies renderer`inputStreamEnded
      ensures Valid() && renderer.enabled
    {
      source.Enable(track, timeUs);
      renderer.OnEnabled(timeUs);
    }

    method PerformDisable()
      requires Recoverable()
      modifies source.trackStates, source.pendingDiscontinuities, renderer
      ensures Valid() && renderer.codec == null && source.trackStates[track] == Disabled
    {
      renderer.OnDisabled();
      source.Disable(track);
    }

    // -------------------------------------------------------------- other tracks

    method EnableOtherTrack(other: nat, timeUs: int)
      requires Valid() && other < source.trackStates.Length && other != track && source.trackStates[other] == Disabled
      modifies source, source.trackStates, source.pendingDiscontinuities
      ensures Valid() && (source.generation != old(source.generation) && renderer.enabled ==>
                source.pendingDiscontinuities[track])
    {
      source.Enable(other, timeUs);
    }

    method ReadOtherTrack(other: nat, onlyReadDiscontinuity: bool, format: Format, next: Extracted)
      requires Valid() && other < source.trackStates.Length && other != track && source.trackStates[other] != Disabled
      modifies source, source.trackStates, source.pendingDiscontinuities
      ensures Valid() && source.generation == old(source.generation)
    {
      var _ := source.ReadData(other, onlyReadDiscontinuity, format, next);
    }

    method SeekOtherTrack(timeUs: int)
      requires Valid()
      modifies source, source.pendingDiscontinuities
      ensures Valid() && (source.generation != old(source.generation) && renderer.enabled ==>
                source.pendingDiscontinuities[track])
      ensures source.lastSeekUs == timeUs || timeUs == -1
    {
      source.SeekToUs(timeUs);
    }

    method DisableOtherTrack(other: nat)
      requires Valid() && other < source.trackStates.Length && other != track && source.trackStates[other] != Disabled
      modifies source.trackStates, source.pendingDiscontinuities
      ensures Valid()
    {
      source.Disable(other);
    }

    // -------------------------------------------------------------- runs

    /** A step of the renderer that is possible is taken; one that throws has the renderer disabled. */
    method PerformOwn(e: Event)
      requires Valid() && renderer.enabled
      modifies `codecGeneration, source, source.trackStates, source.pendingDiscontinuities, renderer, renderer.Memory()
      ensures Valid() && fresh(renderer.Memory() - old(renderer.Memory()))
      ensures e.Disable? ==> !renderer.enabled
      ensures e.Enable? ==> renderer.enabled
      ensures e.Seek? ==> source.lastSeekUs == e.timeUs || e.timeUs == -1
      ensures e.CheckForDiscontinuity? && renderer.codec != null ==> !source.pendingDiscontinuities[track]
      ensures e.Feed? && renderer.enabled
              && old(renderer.codec != null && !renderer.inputStreamEnded && renderer.HasBuffer(e.env)) ==>
                && renderer.codec != null
                && if old(source.pendingDiscontinuities[track]) then renderer.codec.read == []
                   else e.next.track == track ==>
                     renderer.codec.read == old(renderer.codec.read) + [SampleOf(e.next, source.generation)]
    {
      var o := Done;
      match e {
        case CheckForDiscontinuity(env) => if renderer.codec != null { o := PerformCheck(env); }
        case ReadFormat(format, env) => if renderer.format.None? { o := PerformReadFormat(format, env); }
        case DiscardSample(format, next, env) =>
          if renderer.codec == null && renderer.format.Some? && !renderer.hasSurface {
            PerformDiscard(format, next, env);
          }
        case InitCodec(env) => if renderer.codec == null { o := PerformInit(env); }
        case Feed(format, next, env) => if renderer.codec != null { o := PerformFeed(format, next, env); }
        case SetSurface(present, env) => o := PerformSetSurface(present, env);
        case Seek(timeUs) => PerformSeek(timeUs);
        case Disable => PerformDisable();
        case _ =>
      }
      if o != Done {
        PerformDisable();
      }
    }

    method PerformOther(e: Event)
      requires Valid()
      modifies source, source.trackStates, source.pendingDiscontinuities
      ensures Valid() && (e.SeekOther? ==> source.lastSeekUs == e.timeUs || e.timeUs == -1)
    {
      match e {
        case EnableOther(i, timeUs) =>
          if i < source.trackStates.Length && i != track && source.trackStates[i] == Disabled {
            EnableOtherTrack(i, timeUs);
          }
        case ReadOther(i, only, format, next) =>
          if i < source.trackStates.Length && i != track && source.trackStates[i] != Disabled {
            ReadOtherTrack(i, only, format, next);
          }
        case SeekOther(timeUs) => SeekOtherTrack(timeUs);
        case DisableOther(i) =>
          if i < source.trackStates.Length && i != track && source.trackStates[i] != Disabled {
            DisableOtherTrack(i);
          }
        case _ =>
      }
    }

    method Perform(e: Event)
      requires Valid()
      modifies `codecGeneration, source, source.trackStates, source.pendingDiscontinuities, renderer, renderer.Memory()
      ensures Valid() && fresh(renderer.Memory() - old(renderer.Memory()))
      ensures e.Enable? ==> renderer.enabled
      ensures e.Disable? ==> !renderer.enabled
      ensures e.SeekOther? || (e.Seek? && renderer.enabled) ==> source.lastSeekUs == e.timeUs || e.timeUs == -1
      ensures e.CheckForDiscontinuity? && renderer.codec != null ==> !source.pendingDiscontinuities[track]
      ensures e.Feed? && renderer.enabled
              && old(renderer.codec != null && !renderer.inputStreamEnded && renderer.HasBuffer(e.env)) ==>
                && renderer.codec != null
                && if old(source.pendingDiscontinuities[track]) then renderer.codec.read == []
                   else e.next.track == track ==>
                     renderer.codec.read == old(renderer.codec.read) + [SampleOf(e.next, source.generation)]
    {
      if e.EnableOther? || e.ReadOther? || e.SeekOther? || e.DisableOther? {
        PerformOther(e);
      } else if renderer.enabled {
        PerformOwn(e);
      } else if e.Enable? {
        PerformEnable(e.timeUs);
      }
    }

    /** Whatever happens to the renderer and to the other tracks, and in whatever order: no codec holds samples from
        both sides of a seek, and none keeps samples from before the last one without a discontinuity to come. */
    method Run(script: seq<Event>)
      requires Valid()
      modifies `codecGeneration, source, source.trackStates, source.pendingDiscontinuities, renderer, renderer.Memory()
      ensures Valid() && fresh(renderer.Memory() - old(renderer.Memory()))
      ensures renderer.codec != null ==>
                forall i, j :: 0 <= i < j < |renderer.codec.read| ==>
                  renderer.codec.read[i].generation == renderer.codec.read[j].generation
      ensures renderer.codec != null && !source.pendingDiscontinuities[track] ==>
                FromGeneration(renderer.codec.read, source.generation)
    {
      for k := 0 to |script|
        invariant Valid() && fresh(renderer.Memory() - old(renderer.Memory()))
      {
        Perform(script[k]);
      }
    }
  }
}
