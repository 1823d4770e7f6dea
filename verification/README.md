# Verified model of the ExoPlayer playback core

This project models the parts of the player that carry state machines, protocols, byte transformations or bounded
arithmetic, and proves what they promise. Every module follows one component of the program.

- `Basics`: what several modules share.
- `LoadControl`: the load scheduler, a hysteresis controller with cached control state and a shared network
  priority (`DefaultLoadControl`).
- `ByteStreamFormat`, `AvcFormat`: H.264 packets and configuration records rewritten from length prefixes
  (ISO/IEC 14496-15) to the byte stream format of Annex B of ITU-T H.264 (`AVCFormat`), with an independent decoder
  after section B.2 of ITU-T H.264.
- `Clocks`, `Renderers`, `PlaybackEngine`: the playback thread, its handlers, the renderers' lifecycles and the media
  clock (`ExoPlayerImplInternal`, `TrackRenderer`, `MediaClock`).
- `PlayerMirror`: the application's mirror of the player and the two queues between the threads (`ExoPlayerImpl`).
- `CodecFeeding`: in-band reconfiguration of a media codec (`MediaCodecTrackRenderer`).
- `SeekHandshake`: the same renderer on top of a source that serves several tracks (`FrameworkSampleSource`).
- `AudioOutput`: writes to the audio track, the unwrapped playback head and the smoothed playhead offset
  (`MediaCodecAudioTrackRenderer`).

Objects that the program updates in place are classes with the same fields, their methods have the same branches, and
their contracts say what the new state is. What holds over whole runs is stated by lemmas about traces
(`LoadControl`) or by methods that perform arbitrary scripts of steps and keep a validity predicate.

Whatever the program cannot decide itself is a parameter: what renderers answer and which of their callbacks throw,
what a source reads, how a codec behaves, whether an audio track can be made, and real time. Two assumptions are made
about the surroundings, and both are preconditions of delivering a message (`PlaybackEngine.Engine.Deliverable`): a
player is prepared only when idle, and with as many distinct, unprepared renderers as it has flags.

## What turned out not to hold

- The width of length prefixes is guessed. A packet with 3-byte or 2-byte prefixes that also reads with wider ones is
  damaged; `AvcFormat.RoundTripExactly` gives the exact condition, `AvcFormat.ThreeByteFramingCanBeMistaken` and
  `AvcFormat.TwoByteFramingCanBeMistaken` give packets.
- A discontinuity that is read after the end of the stream (another track's seek, for instance), or another surface
  then, leaves a codec that never learns of the end: `CodecFeeding.MediaCodecTrackRenderer.DoSomeWork` and
  `CodecFeeding.MediaCodecTrackRenderer.Perform` say exactly when this happens, `CodecFeeding.EndCanBeLost` gives a
  stream.
- A codec flushed while an audio buffer has been written in part makes the audio renderer write the rest of the old
  buffer in place of the next one: `AudioOutput.Draining.FlushLosesTheNext` says that the account of what has been
  written is then right if and only if the two buffers are the same, `AudioOutput.Draining.FlushLosesABuffer` gives
  two buffers. Nothing is lost when nothing is left to be written: `AudioOutput.Draining.Perform`.
- Once out of sync, audio stays in the state that needs synchronization and aligns every buffer:
  `AudioOutput.MediaCodecAudioTrackRenderer.SyncStartTime`.

## Model

| member | source | states |
|---|---|---|
| `PlayerMirror.Player.Run` | src/com/google/android/exoplayer/ExoPlayerImpl.java:112-247 | Every run: for any script of application calls, handled commands, self-posted work, handled events and passing time, and whatever the renderers answer or throw, every reachable state is valid, and the run takes exactly the time its ticks take |
| `PlayerMirror.Player.ValidMeans` | src/com/google/android/exoplayer/ExoPlayerImplInternal.java:284-386 | What a valid state guarantees: no acknowledgement pending means both sides agree on playWhenReady; the last state-changed event (or the last one handled) is the engine's state; with no switch queued the flags agree; an active player's list holds exactly the renderers whose flag is set and which are not ignored, started exactly while playing; no work is pending when idle or preparing, one preparation exactly when preparing, some work whenever the player must go on; a blocked sender's message is delivered or still queued; the clock reads the time last set plus the time played since |
| `PlayerMirror.Player.Deliver` | src/com/google/android/exoplayer/ExoPlayerImplInternal.java:211-282 | A message taken from either queue changes what the application can observe in exactly one way, fails no lifecycle check, and leaves the whole system valid; unless it throws it has brought about what it should at the time it is handled: which renderers are called with what, which are listed, the state entered and the position; the time played is counted anew exactly when the message sets the clock |
| `PlayerMirror.Player.Perform` | src/com/google/android/exoplayer/ExoPlayerImplInternal.java:211-282 | Any step of either thread: a step of the playback thread handles its message exactly when there is one that may be delivered, and every command but a prepare may; what becomes of renderers, list, state, position and observations is then what the message should bring about, or it has thrown; a time that is set begins a new count of the time played, which otherwise grows exactly by the time spent in READY with playWhenReady; any other step sends exactly its commands |
| `PlayerMirror.HandlingKeepsMirror` | src/com/google/android/exoplayer/ExoPlayerImpl.java:213-247 | However a handler ends, counts of pending acknowledgements, alternation of set-play commands, narration of states, flags and message order stay in step across the two queues |
| `PlayerMirror.QueueStaysInStep` | src/com/google/android/exoplayer/ExoPlayerImpl.java:112-140 | Handling the first command brings the playback thread one step closer to what the application has asked for: set-play commands still alternate towards its value, the flags come out as its flags, and no message to a component is lost or overtaken |
| `PlayerMirror.PostsNarrate` | src/com/google/android/exoplayer/ExoPlayerImplInternal.java:284-291 | What a handler posts leads from the state it found to the state it leaves, through the state it threw in if it did, and acknowledges exactly the set-play commands |
| `PlayerMirror.SendingKeepsMirror` | src/com/google/android/exoplayer/ExoPlayerImpl.java:128-140 | Sending any command keeps the two sides in step, given that set-play is only sent for a change |
| `PlayerMirror.NoticingKeepsMirror` | src/com/google/android/exoplayer/ExoPlayerImpl.java:213-247 | Handling the next event keeps the two sides in step |
| `PlayerMirror.CommittedMeansAgreed` | src/com/google/android/exoplayer/ExoPlayerImpl.java:149-152 | When no acknowledgement is pending, both sides have the same playWhenReady, also when handlers have thrown |
| `PlayerMirror.TogglesParity` | src/com/google/android/exoplayer/ExoPlayerImpl.java:128-140 | The two sides agree on playWhenReady exactly when an even number of set-play commands is queued |
| `PlayerMirror.LastEventIsTheState` | src/com/google/android/exoplayer/ExoPlayerImpl.java:217-225 | The last queued state-changed event, or the state last handled if there is none, is the engine's state |
| `PlayerMirror.ConsecutiveStatesDiffer` | src/com/google/android/exoplayer/ExoPlayerImplInternal.java:284-291 | No two successive state-changed events carry the same state |
| `PlayerMirror.DeliveredInOrder` | src/com/google/android/exoplayer/ExoPlayerImplInternal.java:167-188 | Messages to components are delivered in the order sent; the k-th is delivered exactly when more than k have been, and is still queued otherwise |
| `PlayerMirror.NoSwitchesLeft` | src/com/google/android/exoplayer/ExoPlayerImpl.java:112-119 | Commands other than switches leave the flags alone |
| `PlayerMirror.Player.SetPlayWhenReady` | src/com/google/android/exoplayer/ExoPlayerImpl.java:128-140 | Sends a command, and counts an acknowledgement, exactly when the value changes |
| `PlayerMirror.Player.SetRendererEnabled` | src/com/google/android/exoplayer/ExoPlayerImpl.java:112-119 | Sends a command exactly when the flag changes |
| `PlayerMirror.Player.SendMessage` | src/com/google/android/exoplayer/ExoPlayerImplInternal.java:167-171 | Messages are numbered in the order they are sent |
| `PlayerMirror.Player.BlockingSend` | src/com/google/android/exoplayer/ExoPlayerImplInternal.java:173-176 | The sender blocks on the number of its own message |
| `PlayerMirror.Player.Wake` | src/com/google/android/exoplayer/ExoPlayerImplInternal.java:177-187 | The sender goes on only if its own message has been delivered; otherwise that message is still queued |
| `PlayerMirror.Player.HandleEvent` | src/com/google/android/exoplayer/ExoPlayerImpl.java:213-247 | The state follows the event; a commit is reported exactly when the last pending acknowledgement arrives, and then both sides agree |
| `PlayerMirror.Player.Elapse` | src/com/google/android/exoplayer/MediaClock.java:78-86 | The clock reads the time last set plus the real time spent in READY with playWhenReady since then |
| `PlayerMirror.Player.Release` | src/com/google/android/exoplayer/ExoPlayerImplInternal.java:190-209 | Release is queued as a command and the application thread blocks, unless the player has been released |
| `PlaybackEngine.Engine.HandleMessage` | src/com/google/android/exoplayer/ExoPlayerImplInternal.java:211-282 | From any valid state any deliverable message leads to a valid state without a failing lifecycle check. Work calls each listed renderer with work at the position the time source or the clock gives, and then with what starting or stopping takes, and no other; a seek stops those that play and sends each to the position; set-play starts or stops each; preparing asks, enables and starts those it should, switches touch one renderer only; the state follows the answers. Anything thrown is reported once and leads to IDLE with every renderer released that its own stop or disable callbacks do not keep from it; when no callback fails nothing is thrown, but for a second time source; commands take effect and are acknowledged even if they throw; the clock is set exactly by a seek, and by the enabled time source when it is disabled |
| `PlaybackEngine.Engine.Dispatch` | src/com/google/android/exoplayer/ExoPlayerImplInternal.java:217-265 | Each kind of message reaches its handler: what it brings about for renderers, list, state, position and pending work is stated kind by kind; what the application can tell changes as it should, a lifecycle check never fails, the clock is set exactly by a seek and by the enabled time source when it is disabled, and a reset releases what it can |
| `PlaybackEngine.Engine.PrepareInternal` | src/com/google/android/exoplayer/ExoPlayerImplInternal.java:293-307 | Adopts the renderers and enters PREPARING with one preparation pending; throws exactly when there are two time sources |
| `PlaybackEngine.Engine.IncrementalPrepareInternal` | src/com/google/android/exoplayer/ExoPlayerImplInternal.java:309-387 | Exactly the unprepared renderers are asked; the player stays in PREPARING, with the message posted again and nothing enabled, exactly while some renderer is unprepared; otherwise exactly the prepared, flagged renderers are enabled at the position, and started if their answers make the player ready to play |
| `PlaybackEngine.Engine.FinishPreparing` | src/com/google/android/exoplayer/ExoPlayerImplInternal.java:331-386 | Enables and lists exactly the flagged, prepared renderers at the position, touching no other; ENDED is entered exactly when all of them have ended; otherwise READY exactly when each has ended, or is ready with the required duration (more after an interruption) buffered ahead of the position, with all there is, or with an unknown amount; else BUFFERING; they are started when playing |
| `PlaybackEngine.EnableFlagged` | src/com/google/android/exoplayer/ExoPlayerImplInternal.java:331-343 | The list holds each flagged, prepared renderer once, enabled; the others are untouched; the verdicts are those over all listed renderers |
| `PlaybackEngine.PrepareAll` | src/com/google/android/exoplayer/ExoPlayerImplInternal.java:312-323 | Exactly the unprepared renderers are asked to prepare; throws exactly when one of them does |
| `PlaybackEngine.Engine.SetPlayWhenReadyInternal` | src/com/google/android/exoplayer/ExoPlayerImplInternal.java:410-439 | Exactly the renderers on the list are started or stopped, exactly when playing starts or stops; the acknowledgement is posted even if one of them throws; pausing samples the position |
| `PlaybackEngine.Engine.Pause` | src/com/google/android/exoplayer/ExoPlayerImplInternal.java:416-420 | Pausing keeps a valid state: stopped clock, stopped renderers, updated position |
| `PlaybackEngine.Engine.Resume` | src/com/google/android/exoplayer/ExoPlayerImplInternal.java:421-433 | Resuming keeps a valid state and posts work exactly when READY or BUFFERING |
| `PlaybackEngine.Engine.StartRenderers` | src/com/google/android/exoplayer/ExoPlayerImplInternal.java:441-449 | The clock runs on from its reading, and every listed renderer is started once |
| `PlaybackEngine.Engine.StopRenderers` | src/com/google/android/exoplayer/ExoPlayerImplInternal.java:451-458 | The clock stops at its reading, and exactly the started renderers are stopped |
| `PlaybackEngine.Engine.UpdatePositionUs` | src/com/google/android/exoplayer/ExoPlayerImplInternal.java:460-463 | The position is the one the time source tells while it is on the list, and the clock's reading otherwise |
| `PlaybackEngine.Engine.DoSomeWorkInternal` | src/com/google/android/exoplayer/ExoPlayerImplInternal.java:389-552 | Exactly the listed renderers work, once, at the updated position. ENDED is entered exactly when all have ended; from BUFFERING the player gets READY exactly when each listed renderer has ended, or is ready with the required duration buffered ahead of the position, with all there is, or with an unknown amount, where the duration is minRebufferUs after an interruption and minBufferUs otherwise; it stays READY exactly while each has ended or is ready; an interruption is noted exactly when READY is left for BUFFERING while playing, and forgotten when playback starts; the renderers are started or stopped exactly as playing starts or stops; one work message is left exactly when it is needed |
| `PlaybackEngine.AnswersDecide` | src/com/google/android/exoplayer/ExoPlayerImplInternal.java:389-406 | The verdicts that the loops combine renderer by renderer take the player where the answers, taken together, call for |
| `PlaybackEngine.Engine.Judge` | src/com/google/android/exoplayer/ExoPlayerImplInternal.java:518-538 | Entering ENDED or BUFFERING stops, entering READY starts; rebuffering is noted when playback was interrupted |
| `PlaybackEngine.WorkAll` | src/com/google/android/exoplayer/ExoPlayerImplInternal.java:475-515 | Each renderer works once; throws exactly when one of them throws while working or answering |
| `PlaybackEngine.Engine.SeekToInternal` | src/com/google/android/exoplayer/ExoPlayerImplInternal.java:568-586 | Position and clock are set in every state; an active player buffers, with exactly the listed renderers stopped if need be and sent to the position |
| `PlaybackEngine.SeekAll` | src/com/google/android/exoplayer/ExoPlayerImplInternal.java:578-583 | Each renderer is stopped if started and then sent to the position; throws exactly when one of them does |
| `PlaybackEngine.Engine.StopInternal` | src/com/google/android/exoplayer/ExoPlayerImplInternal.java:588-592 | Resets and forgets rebuffering |
| `PlaybackEngine.Engine.ReleaseInternal` | src/com/google/android/exoplayer/ExoPlayerImplInternal.java:594-602 | Resets and reports the release |
| `PlaybackEngine.Engine.ResetInternal` | src/com/google/android/exoplayer/ExoPlayerImplInternal.java:604-642 | Started with the renderers in any mix of states, listed or not, leaves IDLE, no renderers, no pending message and a stopped clock; each renderer is cleaned up as its own callbacks allow, whatever the others do |
| `PlaybackEngine.CleanUpAll` | src/com/google/android/exoplayer/ExoPlayerImplInternal.java:613-637 | Each renderer's clean-up depends on its own state and callbacks only |
| `PlaybackEngine.CleanUp` | src/com/google/android/exoplayer/ExoPlayerImplInternal.java:615-636 | Stop, disable and release in turn, as far as nothing is thrown; no lifecycle check fails |
| `PlaybackEngine.Engine.SendMessageInternal` | src/com/google/android/exoplayer/ExoPlayerImplInternal.java:644-666 | The message counts as processed even when its target throws; work is posted exactly when the player is active and nothing was thrown |
| `PlaybackEngine.Engine.SetRendererEnabledInternal` | src/com/google/android/exoplayer/ExoPlayerImplInternal.java:668-713 | The flag is set in every state; the renderer joins or leaves the list exactly when the player is active and the renderer is not ignored, with the calls that takes; no other renderer is touched |
| `PlaybackEngine.Engine.EnableRenderer` | src/com/google/android/exoplayer/ExoPlayerImplInternal.java:691-700 | A joining renderer is enabled at the position, and started exactly while playing |
| `PlaybackEngine.Engine.DisableRenderer` | src/com/google/android/exoplayer/ExoPlayerImplInternal.java:701-712 | A leaving renderer is stopped if need be and disabled; from the time source the clock takes over at its position |
| `Basics.WithoutRemovesJustOne` | src/com/google/android/exoplayer/ExoPlayerImplInternal.java:710 | Removing a renderer from the list removes nothing else |
| `PlaybackEngine.Engine.SetState` | src/com/google/android/exoplayer/ExoPlayerImplInternal.java:284-291 | Posts an event exactly when the state changes |
| `Renderers.TrackRenderer.Prepare` | src/com/google/android/exoplayer/TrackRenderer.java:125-132 | Only an unprepared renderer may be prepared; its answer decides its state |
| `Renderers.TrackRenderer.Enable` | src/com/google/android/exoplayer/TrackRenderer.java:159-164 | Only from PREPARED; the state moves even when the callback throws |
| `Renderers.TrackRenderer.Start` | src/com/google/android/exoplayer/TrackRenderer.java:190-195 | Only from ENABLED; the state moves even when the callback throws |
| `Renderers.TrackRenderer.Stop` | src/com/google/android/exoplayer/TrackRenderer.java:213-218 | Only from STARTED; the state moves even when the callback throws |
| `Renderers.TrackRenderer.Disable` | src/com/google/android/exoplayer/TrackRenderer.java:236-241 | Only from ENABLED; the state moves even when the callback throws |
| `Renderers.TrackRenderer.Release` | src/com/google/android/exoplayer/TrackRenderer.java:259-264 | Not from ENABLED, STARTED or RELEASED; the state moves even when the callback throws |
| `Clocks.MediaClock.Start` | src/com/google/android/exoplayer/MediaClock.java:44-51 | Starting does not move the reading |
| `Clocks.MediaClock.Stop` | src/com/google/android/exoplayer/MediaClock.java:56-63 | Stopping does not move the reading |
| `Clocks.MediaClock.SetTimeUs` | src/com/google/android/exoplayer/MediaClock.java:69-73 | The reading is the time set, running or not |
| `Clocks.MediaClock.Advances` | src/com/google/android/exoplayer/MediaClock.java:78-86 | A running clock advances with real time, a stopped one stands still |
| `CodecFeeding.MediaCodecTrackRenderer.Run` | src/com/google/android/exoplayer/MediaCodecTrackRenderer.java:454-722 | Every run of enabling, working, seeking, other surfaces and disabling, whatever source and codec do: every queued buffer is exactly a sample in the codec's format, or exactly the initialization data of the sample's format followed by the sample; the samples queued are the samples read, in order, but for a leading run without sync frames; the codec knows of the end of the stream unless a discontinuity or another surface came after it |
| `CodecFeeding.MediaCodecTrackRenderer.Perform` | src/com/google/android/exoplayer/MediaCodecTrackRenderer.java:454-722 | A step of work that goes through reads for the codec exactly the samples among the readings it takes, in order, since the last discontinuity, flush or new codec, and stops only at the end of the stream, without a buffer, or when the source has nothing; and, after any step, exactly when the codec, if there is one, knows of the end of the stream |
| `CodecFeeding.EndCanBeLost` | src/com/google/android/exoplayer/MediaCodecTrackRenderer.java:529-541 | A stream that ends, and a discontinuity after that: nothing more is fed, and the codec does not know why |
| `CodecFeeding.SoundAppend` | src/com/google/android/exoplayer/MediaCodecTrackRenderer.java:570-722 | A buffer queued in step keeps all that has been queued sound, and leaves the codec in its format |
| `CodecFeeding.DecodedByItsFormat` | src/com/google/android/exoplayer/MediaCodecTrackRenderer.java:608-621 | In a sound sequence every sample is decoded by its own format |
| `CodecFeeding.Codec.QueueInputBuffer` | src/com/google/android/exoplayer/MediaCodecTrackRenderer.java:688-716 | A queued buffer is logged with exactly its bytes, and the codec then decodes by the sample's format |
| `CodecFeeding.Codec.Flush` | src/com/google/android/exoplayer/MediaCodecTrackRenderer.java:551-554 | A flush may throw the codec back to the format it was configured with |
| `CodecFeeding.MediaCodecTrackRenderer.FeedInputBuffer` | src/com/google/android/exoplayer/MediaCodecTrackRenderer.java:578-722 | A reading is taken exactly when the stream has not ended and there is a buffer; its sample is then read for the codec, a discontinuity or a format that needs a new codec starts over, the format is taken over, the end is passed on; feeding goes on exactly after a sample, a discontinuity or a format; it fails only if the source does, a new codec cannot be made, or the buffer is too small |
| `CodecFeeding.GainedSinceStartingOver` | src/com/google/android/exoplayer/MediaCodecTrackRenderer.java:454-498 | What the codec has gained from any readings is exactly the samples since the last of them that flushed or replaced it, behind what it had if there is none |
| `CodecFeeding.MediaCodecTrackRenderer.PrepareInput` | src/com/google/android/exoplayer/MediaCodecTrackRenderer.java:581-621 | Goes on to read exactly when the stream has not ended and there is a buffer; pending initialization data is then in it, and nothing else |
| `CodecFeeding.MediaCodecTrackRenderer.WriteInitializationData` | src/com/google/android/exoplayer/MediaCodecTrackRenderer.java:614-618 | All parts are written in order, or the buffer overflows exactly when they do not fit |
| `CodecFeeding.MediaCodecTrackRenderer.TakeAnswer` | src/com/google/android/exoplayer/MediaCodecTrackRenderer.java:626-722 | What each answer of the source does to buffer, codec and pending reconfiguration, and exactly when it throws |
| `CodecFeeding.MediaCodecTrackRenderer.TakeSample` | src/com/google/android/exoplayer/MediaCodecTrackRenderer.java:667-721 | The queued bytes are the pending initialization data, if any, followed by the sample; a sample in front of the first sync frame is dropped and the initialization data kept for later |
| `CodecFeeding.MediaCodecTrackRenderer.TakeEndOfStream` | src/com/google/android/exoplayer/MediaCodecTrackRenderer.java:647-666 | Initialization data at the end of the stream is taken back and stays pending |
| `CodecFeeding.MediaCodecTrackRenderer.TakeFormat` | src/com/google/android/exoplayer/MediaCodecTrackRenderer.java:635-646 | Of two formats in a row the first one's initialization data is taken back |
| `CodecFeeding.MediaCodecTrackRenderer.OnInputFormatChanged` | src/com/google/android/exoplayer/MediaCodecTrackRenderer.java:770-785 | The codec is kept, with the new initialization data pending, exactly when it can be reconfigured; otherwise a new one, configured with the format, takes its place if there can be one |
| `CodecFeeding.MediaCodecTrackRenderer.FlushCodec` | src/com/google/android/exoplayer/MediaCodecTrackRenderer.java:543-568 | The codec is empty; if it was ever reconfigured the current initialization data is pending again; where codecs cannot be flushed a fresh one takes its place. The renderer and the codec still agree on the end of the stream exactly when it has not been reached |
| `CodecFeeding.MediaCodecTrackRenderer.ReleaseCodec` | src/com/google/android/exoplayer/MediaCodecTrackRenderer.java:373-403 | Nothing pending survives the codec |
| `CodecFeeding.MediaCodecTrackRenderer.MaybeInitCodec` | src/com/google/android/exoplayer/MediaCodecTrackRenderer.java:263-335 | A codec, with the input buffers it is made with, appears exactly when there is none, a format and a surface; it waits for a sync frame; a failure leaves a state that can be disabled |
| `CodecFeeding.MediaCodecTrackRenderer.CheckForDiscontinuity` | src/com/google/android/exoplayer/MediaCodecTrackRenderer.java:529-541 | A discontinuity empties the codec. If the end of the stream had been reached the codec is no longer told of it: such a discontinuity stops the feeding until a seek |
| `CodecFeeding.MediaCodecTrackRenderer.ReadFormat` | src/com/google/android/exoplayer/MediaCodecTrackRenderer.java:496-504 | Without a format only a format is taken notice of, and then a codec configured with it is made |
| `CodecFeeding.MediaCodecTrackRenderer.DiscardSample` | src/com/google/android/exoplayer/MediaCodecTrackRenderer.java:506-527 | Without a surface samples move the position and nothing else |
| `CodecFeeding.MediaCodecTrackRenderer.DoSomeWork` | src/com/google/android/exoplayer/MediaCodecTrackRenderer.java:454-494 | Checks for a discontinuity, then reads a format, discards samples or makes and feeds a codec. What the codec has then been read is exactly the samples among the readings taken since the last discontinuity, flush or new codec, behind what it had if there was none; format and position follow the readings taken; work ends short of the readings only at the end of the stream, without a buffer, or when the source has nothing; it fails only if the source does, a codec cannot be made, or a buffer is too small; it leaves a codec exactly when there is a format and a surface, which knows of the end of the stream exactly unless a discontinuity was read after the end |
| `CodecFeeding.MediaCodecTrackRenderer.FeedAll` | src/com/google/android/exoplayer/MediaCodecTrackRenderer.java:482-485 | The codec gains exactly the samples among the readings taken since the last one that flushed or replaced it; feeding ends only at the end of the stream, without a buffer, or when the source has nothing; the format is the last one read |
| `CodecFeeding.MediaCodecTrackRenderer.DiscardSamples` | src/com/google/android/exoplayer/MediaCodecTrackRenderer.java:506-527 | Samples are thrown away until the position is passed or the source answers with something else; the position is that of the last one that was to be shown |
| `PlayerMirror.Player.Call` | src/com/google/android/exoplayer/ExoPlayerImpl.java:106-183 | Every application call sends exactly its command, set-play and switches only for a change |
| `CodecFeeding.MediaCodecTrackRenderer.SeekTo` | src/com/google/android/exoplayer/MediaCodecTrackRenderer.java:431-439 | A seek forgets the end of the stream |
| `CodecFeeding.MediaCodecTrackRenderer.OnEnabled` | src/com/google/android/exoplayer/MediaCodecTrackRenderer.java:242-251 | Starts without format and codec at the position |
| `CodecFeeding.MediaCodecTrackRenderer.OnDisabled` | src/com/google/android/exoplayer/MediaCodecTrackRenderer.java:348-371 | Leaves a clean state from any state a throwing step can leave |
| `CodecFeeding.MediaCodecTrackRenderer.SetSurface` | src/com/google/android/exoplayer/MediaCodecVideoTrackRenderer.java:365-386 | A new surface brings a new codec in the current format; without one there is no codec |
| `SeekHandshake.Feeding.Run` | src/com/google/android/exoplayer/FrameworkSampleSource.java:104-212 | Every interleaving of the renderer's steps with other tracks' enabling, reading, seeking and disabling: no codec holds samples from both sides of a seek, and none keeps samples from before the last effective seek without a discontinuity on its way to it |
| `SeekHandshake.Feeding.ReadAndTake` | src/com/google/android/exoplayer/MediaCodecTrackRenderer.java:578-722 | A pending discontinuity reaches the codec before any sample; a sample taken was read after the last effective seek |
| `SeekHandshake.Feeding.PerformFeed` | src/com/google/android/exoplayer/MediaCodecTrackRenderer.java:578-722 | The same for a whole call of feedInputBuffer |
| `SeekHandshake.Feeding.PerformCheck` | src/com/google/android/exoplayer/MediaCodecTrackRenderer.java:529-541 | Afterwards no discontinuity is pending, and the codec is free of stale samples |
| `SeekHandshake.Feeding.PerformSeek` | src/com/google/android/exoplayer/MediaCodecTrackRenderer.java:431-439 | A seek that moves the extractor leaves a discontinuity pending for the renderer |
| `SeekHandshake.Feeding.EnableOtherTrack` | src/com/google/android/exoplayer/FrameworkSampleSource.java:104-111 | Enabling another track that moves the extractor leaves a discontinuity pending for the renderer |
| `SeekHandshake.Feeding.PerformDisable` | src/com/google/android/exoplayer/FrameworkSampleSource.java:184-191 | Disabling leaves neither codec nor pending discontinuity |
| `SeekHandshake.FrameworkSampleSource.SeekToUs` | src/com/google/android/exoplayer/FrameworkSampleSource.java:194-212 | The extractor stays where it is exactly when it was sent to the same position and no sample has been read since (or, after a sample, when sent to -1); otherwise every track in use has a discontinuity pending |
| `SeekHandshake.FrameworkSampleSource.Enable` | src/com/google/android/exoplayer/FrameworkSampleSource.java:104-111 | The track is in use before the seek, so it gets the discontinuity too |
| `SeekHandshake.FrameworkSampleSource.Disable` | src/com/google/android/exoplayer/FrameworkSampleSource.java:184-191 | The track has no discontinuity pending any more |
| `SeekHandshake.FrameworkSampleSource.ReadData` | src/com/google/android/exoplayer/FrameworkSampleSource.java:127-174 | A discontinuity comes before a format, a format before a sample; samples carry the seek they were read after |
| `LoadControl.RunKeepsInv` | src/com/google/android/exoplayer/DefaultLoadControl.java:166-291 | Over every run: the target size is the sum of the registered contributions; the priority is held once or not at all, with calls and notifications alternating; filling implies it is held, held without filling implies some loader is loading, no loaders implies it is not held |
| `LoadControl.ReportsDecide` | src/com/google/android/exoplayer/DefaultLoadControl.java:195-276 | After any run, from the loaders' last reports alone: the control fills if and only if somebody has something to load, nobody's load has failed, and somebody, or the pool, is short of the low watermark, or has not reached the high one while filling already; the priority is held if and only if the control fills, or it was held and somebody's last report says loading |
| `LoadControl.GrantsFollowReports` | src/com/google/android/exoplayer/DefaultLoadControl.java:195-226 | After any run an update is granted exactly when, while filling, the pool is short of its target and nobody unfinished has last reported a position further back; the exact deviation for positions below -1 is stated |
| `LoadControl.RunRecords` | src/com/google/android/exoplayer/DefaultLoadControl.java:195-245 | After any run, what is recorded of each registered loader is its last report, ranked against the watermarks, and nothing if it has not reported |
| `LoadControl.StepKeepsInv` | src/com/google/android/exoplayer/DefaultLoadControl.java:166-226 | Each register, unregister or update keeps all of that |
| `LoadControl.SkippingIsUnobservable` | src/com/google/android/exoplayer/DefaultLoadControl.java:213-223 | Over every run, recomputing only when something changed gives the same answers and the same state, up to the initial start position, as recomputing always |
| `LoadControl.RecomputingIsIdempotent` | src/com/google/android/exoplayer/DefaultLoadControl.java:247-291 | A recomputed state is a fixpoint of recomputing |
| `LoadControl.RecomputingIsUnique` | src/com/google/android/exoplayer/DefaultLoadControl.java:247-291 | The recomputation determines the state |
| `LoadControl.RegisterKeepsInv` | src/com/google/android/exoplayer/DefaultLoadControl.java:166-171 | Registering keeps the invariant, without a recomputation |
| `LoadControl.GrantedExactlyWhenFurthestBehind` | src/com/google/android/exoplayer/DefaultLoadControl.java:195-226 | A load is granted exactly when the control is filling, the pool is below target, and the caller is unfinished and no registered unfinished loader is behind it; for next positions below -1, which do not occur, the exact deviation is stated |
| `LoadControl.OnlyTheOneBehindIsGranted` | src/com/google/android/exoplayer/DefaultLoadControl.java:277-290 | No loader with another one behind it is granted |
| `LoadControl.DefaultLoadControl.UpdateLoader` | src/com/google/android/exoplayer/DefaultLoadControl.java:195-226 | The step of the specification, with the grant as its answer; what is recorded of the loader is what the report says of failing, loading and the next position |
| `LoadControl.DefaultLoadControl.RegisterLoader` | src/com/google/android/exoplayer/DefaultLoadControl.java:166-171 | The step of the specification: the contribution is added to the target |
| `LoadControl.DefaultLoadControl.UnregisterLoader` | src/com/google/android/exoplayer/DefaultLoadControl.java:174-180 | The step of the specification: the loader's contribution is taken off the target |
| `LoadControl.DefaultLoadControl.UpdateControlState` | src/com/google/android/exoplayer/DefaultLoadControl.java:247-291 | The fields become what the specification recomputes from them |
| `LoadControl.MoreBufferedNeverRanksLower` | src/com/google/android/exoplayer/DefaultLoadControl.java:228-239 | A loader with more media buffered, or a finished one, is never ranked as more urgent; for watermarks in order |
| `LoadControl.FillingHasHysteresis` | src/com/google/android/exoplayer/DefaultLoadControl.java:247-262 | Filling begins only below some low watermark, and ends only when everything is above its high one, finished or failed |
| `AvcFormat.AVCFormat.FormatPackage` | jni/formats/AVCFormat.cpp:172-229 | What is written and returned for any packet: the units behind start codes for the width guessed, and nothing otherwise |
| `AvcFormat.AVCFormat.GetPackageSize` | jni/formats/AVCFormat.cpp:144-170 | The size computed is that of the 2-byte reading where there is one |
| `AvcFormat.AVCFormat.FormatCodecMeta` | jni/formats/AVCFormat.cpp:83-142 | Accepted records are written as all sequence parameter sets, then all picture parameter sets, behind start codes |
| `AvcFormat.CheckSizeInBuffer` | jni/formats/AVCFormat.cpp:32-81 | Each width test succeeds exactly on the encodings of non-empty lists of units whose last unit is not empty (below 2^24 bytes for width 4) |
| `ByteStreamFormat.FramedIffParses` | jni/formats/AVCFormat.cpp:32-81 | Being such an encoding, and being walked through prefix by prefix to its end, are the same |
| `ByteStreamFormat.FramingIsTheParse` | jni/formats/AVCFormat.cpp:32-81 | The units are determined by the bytes |
| `ByteStreamFormat.DecodeByteStream` | jni/formats/AVCFormat.cpp:188-227 | Decoding by section B.2 of ITU-T H.264 inverts writing behind start codes, for units that obey the emulation-prevention constraints |
| `AvcFormat.RoundTripExactly` | jni/formats/AVCFormat.cpp:172-229 | Reframing and decoding gives the packet's units back if and only if no wider prefix is guessed |
| `AvcFormat.FourByteRoundTrip` | jni/formats/AVCFormat.cpp:188-200 | For 4-byte prefixes the round trip always succeeds |
| `AvcFormat.WiderGuessLosesUnits` | jni/formats/AVCFormat.cpp:188-227 | A wider guess never gives the units back |
| `AvcFormat.ThreeByteFramingCanBeMistaken` | jni/formats/AVCFormat.cpp:188-200 | A packet with 3-byte prefixes that is taken for 4-byte prefixes and damaged |
| `AvcFormat.TwoByteFramingCanBeMistaken` | jni/formats/AVCFormat.cpp:201-212 | A packet with 2-byte prefixes that is taken for 3-byte prefixes and damaged |
| `AvcFormat.ReframedLength` | jni/formats/AVCFormat.cpp:188-228 | The length returned is the input's for widths 4 and 3, and two more per unit for width 2 |
| `AvcFormat.PackageSizeSuffices` | jni/formats/AVCFormat.cpp:144-170 | The size computed always suffices for what is written, and equals it when the 4- and 3-byte tests reject |
| `AvcFormat.FourByteFramingAlsoReadsAsTwo` | jni/formats/AVCFormat.cpp:156-167 | Every packet with 4-byte prefixes and units below 65536 bytes also passes the 2-byte test, and the size computed is then too large by exactly 4 bytes per unit |
| `AvcFormat.ConfigRoundTrip` | jni/formats/AVCFormat.cpp:108-139 | The configuration written decodes to the parameter sets of the record |
| `AvcFormat.AVCFormat.MoveUnit` | jni/formats/AVCFormat.cpp:190-200 | One unit is moved behind its start code in place |
| `AudioOutput.UnwrappedExactly` | src/com/google/android/exoplayer/MediaCodecAudioTrackRenderer.java:789-799 | The unwrapped head position is the true one if and only if the head has advanced by less than 2^32 frames since the last reading |
| `AudioOutput.MediaCodecAudioTrackRenderer.GetPlaybackHeadPosition` | src/com/google/android/exoplayer/MediaCodecAudioTrackRenderer.java:789-799 | In every reachable state the head position told is the true frame count |
| `AudioOutput.MediaCodecAudioTrackRenderer.ProcessOutputBuffer` | src/com/google/android/exoplayer/MediaCodecAudioTrackRenderer.java:690-777 | Writes exactly as much of the current buffer as the track has room for, and releases the buffer, once, exactly when all of it is written; skipping writes nothing |
| `AudioOutput.MediaCodecAudioTrackRenderer.WriteOut` | src/com/google/android/exoplayer/MediaCodecAudioTrackRenderer.java:756-776 | The write never blocks: what is submitted and not played stays within the buffer size; if something is left to be written, the track is full |
| `AudioOutput.WritingGoesOn` | src/com/google/android/exoplayer/MediaCodecAudioTrackRenderer.java:761-774 | Writing keeps what has been written the released buffers in order and a prefix of the current one |
| `AudioOutput.Draining.Conserved` | src/com/google/android/exoplayer/MediaCodecAudioTrackRenderer.java:705-777 | As long as no buffer has been abandoned, the track has been given exactly the rendered buffers in order and a prefix of the one the codec has out, and at most a buffer size more than it has played |
| `AudioOutput.Draining.FlushLosesTheNext` | src/com/google/android/exoplayer/MediaCodecAudioTrackRenderer.java:705-749 | After a flush in the middle of a buffer, however often the next buffer is processed until it is done: exactly the rest of the old one has been written while the next one counts as rendered, so what has been written is right if and only if the two are the same |
| `AudioOutput.Draining.FlushLosesABuffer` | src/com/google/android/exoplayer/MediaCodecAudioTrackRenderer.java:705-749 | Two buffers for which it is wrong |
| `AudioOutput.Draining.TakeUntilDone` | src/com/google/android/exoplayer/MediaCodecAudioTrackRenderer.java:751-776 | A buffer processed until it is done, while the track plays, has been written from where writing went on to its end, once |
| `AudioOutput.Draining.Run` | src/com/google/android/exoplayer/MediaCodecAudioTrackRenderer.java:690-777 | Every run keeps the account; no buffer is abandoned unless a flush or a skip finds part of one still to be written |
| `AudioOutput.Draining.Perform` | src/com/google/android/exoplayer/MediaCodecAudioTrackRenderer.java:690-777 | Processing writes the output buffer from where writing went on, to its end or until the track has no room; a single step abandons a buffer only if it is a flush or a skip and part of one is still to be written |
| `AudioOutput.Draining.PerformSeek` | src/com/google/android/exoplayer/MediaCodecAudioTrackRenderer.java:680-687 | After a seek nothing is left to be written, so the flush that follows abandons nothing |
| `AudioOutput.MediaCodecAudioTrackRenderer.SyncStartTime` | src/com/google/android/exoplayer/MediaCodecAudioTrackRenderer.java:710-736 | In sync, a buffer's start is within 200 ms of the start of the media plus the duration of the frames submitted; once out of sync every buffer is aligned exactly, and the state never returns to in-sync |
| `AudioOutput.MediaCodecAudioTrackRenderer.ReleaseAudioTrack` | src/com/google/android/exoplayer/MediaCodecAudioTrackRenderer.java:447-484 | Everything starts again with the next track; without a track nothing is touched |
| `AudioOutput.MediaCodecAudioTrackRenderer.OnOutputFormatChanged` | src/com/google/android/exoplayer/MediaCodecAudioTrackRenderer.java:320-354 | The track is kept exactly when there is one of the same rate and frame size |
| `AudioOutput.RingKeepsTheLatest` | src/com/google/android/exoplayer/MediaCodecAudioTrackRenderer.java:601-606 | After any number of samples the ring's live slots hold exactly the last ten |
| `AudioOutput.SmoothingError` | src/com/google/android/exoplayer/MediaCodecAudioTrackRenderer.java:608-612 | The sum of n truncated quotients by n is off the exact sum, multiplied by n, by at most n * (n - 1) |
| `AudioOutput.SmoothedIsNearMean` | src/com/google/android/exoplayer/MediaCodecAudioTrackRenderer.java:597-613 | The smoothed offset is within n - 1 of the exact mean of the last n offsets, negative ones included |
| `AudioOutput.MediaCodecAudioTrackRenderer.SampleOffset` | src/com/google/android/exoplayer/MediaCodecAudioTrackRenderer.java:597-613 | One sample keeps the ring and the smoothed offset so |
| `AudioOutput.MediaCodecAudioTrackRenderer.MaybeSampleSyncParams` | src/com/google/android/exoplayer/MediaCodecAudioTrackRenderer.java:583-613 | A sample is taken exactly when the track plays, has output something, and the last sample is at least 30 ms old; the newest offset added to the clock is then the playhead, and nothing changes otherwise; the smoothed offset stays near the mean of the latest ten |
| `AudioOutput.MediaCodecAudioTrackRenderer.FollowPlayhead` | src/com/google/android/exoplayer/MediaCodecAudioTrackRenderer.java:561-613 | Over any sequence of samples in which the playhead has been between lo and hi ahead of the clock since the last reset, clock plus smoothed offset is off the playhead by at most hi - lo + min(k, 10) - 1 us after k samples; by at most min(k, 10) - 1 us when playhead and clock advance together |
| `AudioOutput.SampledSinceReset` | src/com/google/android/exoplayer/MediaCodecAudioTrackRenderer.java:583-654 | Every offset kept is the playhead minus the clock of a sample taken since the last reset |
| `AudioOutput.MediaCodecAudioTrackRenderer.SampleAndReset` | src/com/google/android/exoplayer/MediaCodecAudioTrackRenderer.java:583-654 | Over any sequence of samples and resets: the ring holds the latest ten offsets taken since the last reset, and the smoothed offset is near their mean |
| `AudioOutput.NearMeanIsExact` | src/com/google/android/exoplayer/MediaCodecAudioTrackRenderer.java:608-612 | Near the mean: n times the smoothed offset is off the sum of the n offsets by at most n * (n - 1) |
| `AudioOutput.NearMeanIsNearTerms` | src/com/google/android/exoplayer/MediaCodecAudioTrackRenderer.java:608-612 | A smoothed value of n offsets is at most n - 1 outside the range they lie in |
| `AudioOutput.MediaCodecAudioTrackRenderer.ResetSyncParams` | src/com/google/android/exoplayer/MediaCodecAudioTrackRenderer.java:646-654 | The ring is empty again |

## Left out

- Durations and buffered positions reported by the player: they are computed and passed on, and decide nothing but
  readiness, where they are parameters.
- Handlers take no time: real time passes between messages. Delays of self-posted messages are therefore arbitrary.
- The threads' locking: each handler and each application call is one step. Runs end with the release of the player.
- Listeners: only the report that a change of playWhenReady is committed is modelled.
- What a component does with a message sent to it, other than throwing.
- Renderers are modelled by their lifecycle and the calls they receive, so a renderer of `PlaybackEngine` is not the
  renderer of `CodecFeeding` or `AudioOutput`.
- Renderers handed to a player are drawn from a fixed set, so that runs have a frame.
- DRM sessions, encrypted samples and waiting for keys.
- Draining the codec's output in `CodecFeeding`, including the list of times that are decoded only; `AudioOutput`
  takes its output buffers from there.
- A codec's input buffers are objects with contents and a capacity, not memory shared with the codec.
- Preparing and releasing a sample source, its track information and its buffered position.
- CodecFeeding.MediaCodecTrackRenderer.DoSomeWork: the feeding loop ends when the given readings are used up, which
  stands for a source that has nothing more.
- The float comparison behind the state of the buffer pool: it is an arbitrary one of three values.
- LoadControl.DefaultLoadControl.UpdateLoader: the state kept for a loader is a value in a map rather than an object.
- AvcFormat.AVCFormat.FormatCodecMeta: malformed records, and records whose output exceeds the buffer, are excluded.
- The branch for data that is already formatted: no reachable state takes it.
- The three width tests differ in their constants only and are one method with the width as its parameter.
- Reported audio positions, time stamps, latency, volume and session ids; the buffer size is a number below 2^31
  rather than a float product.
- Output buffers before the codec has announced an output format: it announces one first, so frame size and sample
  rate are known when a buffer is processed.
- Machine overflow of microsecond arithmetic; the 32-bit playback head is modelled exactly.
- AudioOutput.Draining.Perform: a run ends when a track cannot be made, since the renderer is then disabled and
  released for good.
- FFmpeg glue, playlists, media formats, the user interface and the other sample sources, which follow the same
  protocol as the one modelled.
