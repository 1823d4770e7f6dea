/** The playback thread's state machine (ExoPlayerImplInternal.java): the message handlers that drive the
    renderers' lifecycles, the list of enabled renderers, the clock and the self-posted work messages.
    Everything the renderers answer comes from an oracle. */
module PlaybackEngine {
  import opened Basics
  import opened Clocks
  import opened Renderers

  datatype PlayerState = Idle | Preparing | Buffering | Ready | Ended

  predicate IsActive(s: PlayerState) {
    s == Buffering || s == Ready || s == Ended
  }

  /** What the playback thread posts to the application thread. */
  datatype Event = StateChanged(state: PlayerState) | PlayWhenReadyAck | PlayerError

  const UNKNOWN_TIME_US := -1
  const MATCH_LONGEST_US := -2
  const END_OF_TRACK_US := -3

  /** One renderer's answers while it is consulted: isEnded is asked twice. */
  datatype Answer = Answer(
    queryThrows: bool, ended: bool, endedAgain: bool, ready: bool, durationUs: int, bufferedUs: int)

  datatype Position = PositionThrows | PositionAt(timeUs: int)

  /** The environment's behaviour during one handler: real time and whatever the renderers answer. */
  datatype Env = Env(
    nowUs: int,
    throws: (TrackRenderer, Callback) -> bool,
    prepare: TrackRenderer -> PrepareAnswer,
    answer: TrackRenderer -> Answer,
    position: TrackRenderer -> Position,
    componentThrows: bool)

  datatype Message =
    | Prepare(prepared: seq<TrackRenderer>)
    | IncrementalPrepare
    | SetPlayWhenReady(play: bool)
    | DoSomeWork
    | SeekTo(positionMs: int)
    | Stop
    | Release
    | Custom(payload: int)
    | SetRendererEnabled(index: nat, enabled: bool)

  /** The state-changed event posted when the state moves from a to b. */
  function Change(a: PlayerState, b: PlayerState): seq<Event> {
    if a == b then [] else [StateChanged(b)]
  }

  /** Between handlers, a renderer is where the player's own state calls for: listed exactly when its flag is set
      and it did not ask to be ignored. */
  predicate Fits(player: PlayerState, s: RendererState, listed: bool, flag: bool) {
    && (player == Preparing ==> s in {Unprepared, Prepared, Ignore})
    && (IsActive(player) ==> if listed then flag else s == Ignore || (s == Prepared && !flag))
  }

  /** What handling a message posts before it is known whether it threw. */
  function Posts(m: Message, from: PlayerState, to: PlayerState): seq<Event> {
    if m.SetPlayWhenReady? then [PlayWhenReadyAck] else Change(from, to)
  }

  /** What is posted in addition when handling a message throws: the error, and the state the reset leaves. */
  function PostsOfFailure(o: Outcome, from: PlayerState): seq<Event> {
    if o == Done then [] else [PlayerError] + Change(from, Idle)
  }

  /** What a message hands to a component. */
  function Payload(m: Message): seq<int> {
    if m.Custom? then [m.payload] else []
  }

  function Switched(flags: seq<bool>, m: Message): seq<bool> {
    if m.SetRendererEnabled? && m.index < |flags| then flags[m.index := m.enabled] else flags
  }

  /** What the application can tell of the playback thread: what it has taken over from the application's commands,
      what it has handed to components, and what it has posted. */
  datatype Snapshot = Snapshot(
    playWhenReady: bool, state: PlayerState, flags: seq<bool>, delivered: seq<int>, events: seq<Event>,
    processed: nat, released: bool)

  /** The snapshot after a message has been handled: normally, which leaves the player in state mid, or by throwing in
      state mid and being reset. */
  function After(s: Snapshot, m: Message, mid: PlayerState, o: Outcome): Snapshot {
    Snapshot(if m.SetPlayWhenReady? then m.play else s.playWhenReady,
             if o == Done then mid else Idle,
             Switched(s.flags, m),
             s.delivered + Payload(m),
             s.events + Posts(m, s.state, mid) + PostsOfFailure(o, mid),
             s.processed + |Payload(m)|,
             s.released || m.Release?)
  }

  /** The snapshot after a player that is in some state has failed and been reset. */
  function Failed(s: Snapshot): Snapshot {
    s.(state := Idle, events := s.events + PostsOfFailure(Threw, s.state))
  }

  lemma FailingAfterwards(s: Snapshot, m: Message, mid: PlayerState)
    ensures After(s, m, mid, Threw) == Failed(After(s, m, mid, Done))
  {
  }

  /** The renderers a message brings along. */
  function Brought(m: Message): seq<TrackRenderer> {
    if m.Prepare? then m.prepared else []
  }

  /** The player and its renderers at one moment: where it is, what it has enabled, where playback stands and what each
      renderer has been called with so far. */
  datatype Scene = Scene(
    state: PlayerState, playWhenReady: bool, rebuffering: bool, list: seq<TrackRenderer>, flags: seq<bool>,
    calls: seq<seq<Callback>>, lifecycles: seq<RendererState>,
    positionUs: int, position: Position, pendingWork: nat)
  {
    predicate Playing() {
      state == Ready && playWhenReady
    }
  }

  /** The handling of a message: what came of it, and the player's renderers and scene before and after. */
  datatype Handling = Handling(
    m: Message, env: Env, o: Outcome, mid: PlayerState, roster: seq<TrackRenderer>, was: Scene, now: Scene)

  ghost function CallsOf(rs: seq<TrackRenderer>): (calls: seq<seq<Callback>>)
    reads rs
    ensures |calls| == |rs| && forall i :: 0 <= i < |rs| ==> calls[i] == rs[i].calls
  {
    seq(|rs|, i requires 0 <= i < |rs| reads rs => rs[i].calls)
  }

  ghost function StatesOf(rs: seq<TrackRenderer>): (states: seq<RendererState>)
    reads rs
    ensures |states| == |rs| && forall i :: 0 <= i < |rs| ==> states[i] == rs[i].state
  {
    seq(|rs|, i requires 0 <= i < |rs| reads rs => rs[i].state)
  }

  /** What a renderer on the list is called with when playback starts or stops. */
  function Turn(was: bool, playing: bool): seq<Callback> {
    if was == playing then [] else if playing then [OnStarted] else [OnStopped]
  }

  // ---------------------------------------------------------------- cleaning up

  /** The state clean-up leaves a renderer in: released, unless one of its own callbacks throws first. */
  function CleanState(s: RendererState, r: TrackRenderer, env: Env): RendererState {
    if s == Started && env.throws(r, OnStopped) then Enabled
    else if (s == Started || s == Enabled) && env.throws(r, OnDisabled) then Prepared
    else Released
  }

  /** The renderer's own callbacks keep it from being released. */
  predicate CannotBeReleased(r: TrackRenderer, env: Env) {
    env.throws(r, OnStopped) || env.throws(r, OnDisabled)
  }

  function CleanCalls(s: RendererState, r: TrackRenderer, env: Env): seq<Callback> {
    var stop := if s == Started then [OnStopped] else [];
    var disable := if s == Started || s == Enabled then [OnDisabled] else [];
    if s == Started && env.throws(r, OnStopped) then stop
    else if (s == Started || s == Enabled) && env.throws(r, OnDisabled) then stop + disable
    else stop + disable + [OnReleased]
  }

  method EnsureStopped(r: TrackRenderer, env: Env) returns (o: Outcome)
    modifies r
    ensures old(r.state) != Started ==> o == Done && r.state == old(r.state) && r.calls == old(r.calls)
    ensures old(r.state) == Started ==>
              && r.state == Enabled && r.calls == old(r.calls) + [OnStopped]
              && o == (if env.throws(r, OnStopped) then Threw else Done)
  {
    o := Done;
    if r.state == Started {
      o := r.Stop(env.throws(r, OnStopped));
    }
  }

  /** The body of the reset loop: no lifecycle check fails, and whatever a callback throws is swallowed. */
  method CleanUp(r: TrackRenderer, env: Env) returns (o: Outcome)
    requires r.state != Released
    modifies r
    ensures o != IllegalState
    ensures r.state == CleanState(old(r.state), r, env)
    ensures r.calls == old(r.calls) + CleanCalls(old(r.state), r, env)
  {
    o := EnsureStopped(r, env);
    if o == Done && r.state == Enabled {
      o := r.Disable(env.throws(r, OnDisabled));
    }
    if o == Done {
      o := r.Release(env.throws(r, OnReleased));
    }
  }

  /** The reset loop: each renderer is cleaned up whatever the others do. */
  method CleanUpAll(rs: seq<TrackRenderer>, env: Env)
    requires Distinct(rs) && forall i :: 0 <= i < |rs| ==> rs[i].state != Released
    modifies rs
    ensures forall i :: 0 <= i < |rs| ==>
              && rs[i].state == CleanState(old(rs[i].state), rs[i], env)
              && rs[i].calls == old(rs[i].calls) + CleanCalls(old(rs[i].state), rs[i], env)
  {
    DistinctMeansApart(rs);
    for i := 0 to |rs|
      invariant forall j :: 0 <= j < i ==>
                  && rs[j].state == CleanState(old(rs[j].state), rs[j], env)
                  && rs[j].calls == old(rs[j].calls) + CleanCalls(old(rs[j].state), rs[j], env)
      invariant forall j :: i <= j < |rs| ==> rs[j].state == old(rs[j].state) && rs[j].calls == old(rs[j].calls)
    {
      var _ := CleanUp(rs[i], env);
    }
  }

  // ---------------------------------------------------------------- loops over renderers

  /** What rendererReadyOrEnded answers. */
  predicate ReadyOrEnded(a: Answer, ready: bool, minBufferDurationUs: int, positionUs: int) {
    || a.endedAgain
    || (a.ready &&
        (|| ready || minBufferDurationUs <= 0
         || a.bufferedUs == UNKNOWN_TIME_US || a.bufferedUs == END_OF_TRACK_US
         || a.bufferedUs >= positionUs + minBufferDurationUs
         || (a.durationUs != UNKNOWN_TIME_US && a.durationUs != MATCH_LONGEST_US && a.bufferedUs >= a.durationUs)))
  }

  /** The circumstances in which the renderers are consulted: the player's state is READY, the least buffered
      duration, and the position. */
  datatype Consultation = Consultation(ready: bool, minBufferDurationUs: int, positionUs: int)

  ghost predicate AllEnded(rs: seq<TrackRenderer>, env: Env) {
    forall r :: r in rs ==> env.answer(r).ended
  }

  ghost predicate AllReadyOrEnded(rs: seq<TrackRenderer>, env: Env, c: Consultation) {
    forall r :: r in rs ==> ReadyOrEnded(env.answer(r), c.ready, c.minBufferDurationUs, c.positionUs)
  }

  /** Where a player goes from a state when renderers answer: it ends when all of them have; it is ready when each of
      them has ended or is ready with enough buffered, and goes on being ready as long as each is ready; once ended,
      only a seek buffers again. */
  ghost predicate FollowsAnswers(from: PlayerState, rs: seq<TrackRenderer>, env: Env, requiredUs: int, positionUs: int,
                                 to: PlayerState)
  {
    && IsActive(to)
    && (to == Ended <==> from == Ended || forall r :: r in rs ==> env.answer(r).ended)
    && (from == Ready && to != Ended ==>
          (to == Ready <==> forall r :: r in rs ==> env.answer(r).endedAgain || env.answer(r).ready))
    && (from != Ready && to != Ended ==>
          (to == Ready <==> forall r :: r in rs ==> HasEnough(env.answer(r), requiredUs, positionUs)))
  }

  /** Nothing more is needed of a renderer: it has ended, or it is ready and has buffered as far ahead of the position
      as required, or all there is. */
  predicate HasEnough(a: Answer, requiredUs: int, positionUs: int) {
    || a.endedAgain
    || (a.ready
        && (|| requiredUs <= 0
            || a.bufferedUs in {UNKNOWN_TIME_US, END_OF_TRACK_US}
            || a.bufferedUs - positionUs >= requiredUs
            || (a.durationUs !in {UNKNOWN_TIME_US, MATCH_LONGEST_US} && a.durationUs <= a.bufferedUs)))
  }

  /** What consulting the renderers makes of the player's state. Once ended, only a seek buffers again. */
  function Judged(s: PlayerState, isEnded: bool, allReadyOrEnded: bool): PlayerState {
    if isEnded then Ended
    else if s == Buffering && allReadyOrEnded then Ready
    else if s == Ready && !allReadyOrEnded then Buffering
    else s
  }

  /** Consulting the renderers takes a player where their answers call for. */
  lemma AnswersDecide(from: PlayerState, rs: seq<TrackRenderer>, env: Env, c: Consultation)
    requires IsActive(from) && c.ready == (from == Ready)
    ensures FollowsAnswers(from, rs, env, c.minBufferDurationUs, c.positionUs,
                           Judged(from, AllEnded(rs, env), AllReadyOrEnded(rs, env, c)))
  {
    assert AllReadyOrEnded(rs, env, c) <==>
      forall r :: r in rs ==>
        if c.ready then env.answer(r).endedAgain || env.answer(r).ready
        else HasEnough(env.answer(r), c.minBufferDurationUs, c.positionUs);
  }

  /** Nothing a renderer is asked for fails. */
  ghost predicate IsSound(r: TrackRenderer, env: Env) {
    && (forall c :: !env.throws(r, c)) && !env.answer(r).queryThrows
    && env.position(r) != PositionThrows && env.prepare(r) != PrepareThrows
  }

  ghost predicate NothingFails(rs: seq<TrackRenderer>, env: Env) {
    !env.componentThrows && forall i :: 0 <= i < |rs| ==> IsSound(rs[i], env)
  }

  method StartAll(rs: seq<TrackRenderer>, env: Env) returns (o: Outcome)
    requires Distinct(rs) && forall i :: 0 <= i < |rs| ==> rs[i].state == Enabled
    modifies rs
    ensures o == if exists i :: 0 <= i < |rs| && env.throws(rs[i], OnStarted) then Threw else Done
    ensures o == Done ==> forall i :: 0 <= i < |rs| ==>
              rs[i].state == Started && rs[i].calls == old(rs[i].calls) + [OnStarted]
    ensures forall i :: 0 <= i < |rs| ==> rs[i].state in {Enabled, Started}
  {
    DistinctMeansApart(rs);
    for i := 0 to |rs|
      invariant forall j :: 0 <= j < i ==>
                rs[j].state == Started && rs[j].calls == old(rs[j].calls) + [OnStarted] && !env.throws(rs[j], OnStarted)
      invariant forall j :: i <= j < |rs| ==> rs[j].state == Enabled && rs[j].calls == old(rs[j].calls)
    {
      o := rs[i].Start(env.throws(rs[i], OnStarted));
      if o != Done { return; }
    }
    return Done;
  }

  /** What a renderer that may be started is called with to make it stop. */
  function StopCalls(s: RendererState): seq<Callback> {
    if s == Started then [OnStopped] else []
  }

  method StopAll(rs: seq<TrackRenderer>, env: Env) returns (o: Outcome)
    requires Distinct(rs) && forall i :: 0 <= i < |rs| ==> rs[i].state in {Enabled, Started}
    modifies rs
    ensures o == if exists i :: 0 <= i < |rs| && old(rs[i].state) == Started && env.throws(rs[i], OnStopped)
                 then Threw else Done
    ensures o == Done ==> forall i :: 0 <= i < |rs| ==>
                            rs[i].state == Enabled && rs[i].calls == old(rs[i].calls) + StopCalls(old(rs[i].state))
    ensures forall i :: 0 <= i < |rs| ==> rs[i].state in {Enabled, Started}
  {
    DistinctMeansApart(rs);
    for i := 0 to |rs|
      invariant forall j :: 0 <= j < i ==>
                  && rs[j].state == Enabled && rs[j].calls == old(rs[j].calls) + StopCalls(old(rs[j].state))
                  && !(old(rs[j].state) == Started && env.throws(rs[j], OnStopped))
      invariant forall j :: i <= j < |rs| ==> rs[j].state == old(rs[j].state) && rs[j].calls == old(rs[j].calls)
    {
      o := EnsureStopped(rs[i], env);
      if o != Done { return; }
    }
    return Done;
  }

  predicate SeekFails(s: RendererState, r: TrackRenderer, timeUs: int, env: Env) {
    (s == Started && env.throws(r, OnStopped)) || env.throws(r, OnSeek(timeUs))
  }

  /** The loop of seekToInternal: every renderer is stopped if it must be, and then sent to the position. */
  method SeekAll(rs: seq<TrackRenderer>, timeUs: int, env: Env) returns (o: Outcome)
    requires Distinct(rs) && forall i :: 0 <= i < |rs| ==> rs[i].state in {Enabled, Started}
    modifies rs
    ensures o == if exists i :: 0 <= i < |rs| && SeekFails(old(rs[i].state), rs[i], timeUs, env) then Threw else Done
    ensures o == Done ==> forall i :: 0 <= i < |rs| ==>
                            rs[i].state == Enabled && rs[i].calls == old(rs[i].calls) + StopCalls(old(rs[i].state))
                              + [OnSeek(timeUs)]
    ensures forall i :: 0 <= i < |rs| ==> rs[i].state in {Enabled, Started}
  {
    DistinctMeansApart(rs);
    for i := 0 to |rs|
      invariant forall j :: 0 <= j < i ==>
                  && rs[j].state == Enabled && rs[j].calls == old(rs[j].calls) + StopCalls(old(rs[j].state))
                    + [OnSeek(timeUs)]
                  && !SeekFails(old(rs[j].state), rs[j], timeUs, env)
      invariant forall j :: i <= j < |rs| ==> rs[j].state == old(rs[j].state) && rs[j].calls == old(rs[j].calls)
    {
      o := EnsureStopped(rs[i], env);
      if o != Done { return; }
      o := rs[i].SeekTo(timeUs, env.throws(rs[i], OnSeek(timeUs)));
      if o != Done { return; }
    }
    return Done;
  }

  /** The state an unprepared renderer is in after it has been asked to prepare. */
  function AfterPrepare(s: RendererState, a: PrepareAnswer): RendererState {
    if s != Unprepared then s
    else match a
      case BecomesPrepared => Prepared
      case AsksToBeIgnored => Ignore
      case _ => Unprepared
  }

  /** Not every renderer has been prepared once each has been asked. */
  ghost predicate SomeStayUnprepared(rs: seq<TrackRenderer>, states: seq<RendererState>, env: Env)
    requires |states| == |rs|
  {
    exists i :: 0 <= i < |rs| && AfterPrepare(states[i], env.prepare(rs[i])) == Unprepared
  }

  method PrepareAll(rs: seq<TrackRenderer>, env: Env) returns (o: Outcome, prepared: bool)
    requires Distinct(rs) && forall i :: 0 <= i < |rs| ==> rs[i].state in {Unprepared, Prepared, Ignore}
    modifies rs
    ensures o == if exists i :: 0 <= i < |rs| && old(rs[i].state) == Unprepared && env.prepare(rs[i]) == PrepareThrows
                 then Threw else Done
    ensures o == Done ==> forall i :: 0 <= i < |rs| ==>
                            && rs[i].state == AfterPrepare(old(rs[i].state), env.prepare(rs[i]))
                            && rs[i].calls == old(rs[i].calls)
                                 + if old(rs[i].state) == Unprepared then [OnPrepare] else []
    ensures o == Done ==> (prepared <==> forall i :: 0 <= i < |rs| ==> rs[i].state in {Prepared, Ignore})
    ensures forall i :: 0 <= i < |rs| ==> rs[i].state in {Unprepared, Prepared, Ignore}
  {
    DistinctMeansApart(rs);
    prepared := true;
    for i := 0 to |rs|
      invariant forall j :: 0 <= j < i ==>
                  && rs[j].state == AfterPrepare(old(rs[j].state), env.prepare(rs[j]))
                  && rs[j].calls == old(rs[j].calls) + (if old(rs[j].state) == Unprepared then [OnPrepare] else [])
                  && !(old(rs[j].state) == Unprepared && env.prepare(rs[j]) == PrepareThrows)
      invariant forall j :: i <= j < |rs| ==> rs[j].state == old(rs[j].state) && rs[j].calls == old(rs[j].calls)
      invariant prepared <==> forall j :: 0 <= j < i ==> rs[j].state in {Prepared, Ignore}
    {
      if rs[i].state == Unprepared {
        o := rs[i].Prepare(env.prepare(rs[i]));
        if o != Done { return; }
        if rs[i].state == Unprepared {
          prepared := false;
        }
      }
    }
    o := Done;
  }

  /** A renderer may be enabled and consulted. */
  method EnableAndConsult(r: TrackRenderer, joins: bool, env: Env, c: Consultation) returns (o: Outcome)
    requires joins ==> r.state == Prepared
    modifies r
    ensures !joins ==> o == Done && r.state == old(r.state) && r.calls == old(r.calls)
    ensures joins ==>
              && r.state == Enabled && r.calls == old(r.calls) + [OnEnabled(c.positionUs, false)]
              && o == if env.throws(r, OnEnabled(c.positionUs, false)) || env.answer(r).queryThrows then Threw else Done
  {
    if !joins {
      return Done;
    }
    o := r.Enable(c.positionUs, false, env.throws(r, OnEnabled(c.positionUs, false)));
    if o == Done && env.answer(r).queryThrows {
      o := Threw;
    }
  }

  /** One more renderer's answers are taken into account. */
  method Combine(listed: seq<TrackRenderer>, ended: bool, readyOrEnded: bool, r: TrackRenderer, env: Env,
                 c: Consultation)
      returns (isEnded: bool, allReadyOrEnded: bool)
    requires Distinct(listed) && r !in listed
    requires ended == AllEnded(listed, env) && readyOrEnded == AllReadyOrEnded(listed, env, c)
    ensures Distinct(listed + [r])
    ensures isEnded == AllEnded(listed + [r], env) && allReadyOrEnded == AllReadyOrEnded(listed + [r], env, c)
  {
    DistinctAppend(listed, r);
    isEnded := ended && env.answer(r).ended;
    allReadyOrEnded := readyOrEnded && ReadyOrEnded(env.answer(r), c.ready, c.minBufferDurationUs, c.positionUs);
  }

  /** The second loop of incrementalPrepareInternal: the prepared renderers whose flag is set are enabled, listed
      and consulted. */
  method EnableFlagged(rs: seq<TrackRenderer>, flags: array<bool>, env: Env, c: Consultation)
    returns (o: Outcome, listed: seq<TrackRenderer>, isEnded: bool, allReadyOrEnded: bool)
    requires Distinct(rs) && |rs| == flags.Length && forall i :: 0 <= i < |rs| ==> rs[i].state in {Prepared, Ignore}
    modifies rs
    ensures o != IllegalState
    ensures o == Done ==>
              && Distinct(listed) && (forall j :: 0 <= j < |listed| ==> listed[j] in rs)
              && (forall i :: 0 <= i < |rs| ==>
                    && (rs[i] in listed <==> flags[i] && old(rs[i].state) == Prepared)
                    && (rs[i] in listed ==>
                          rs[i].state == Enabled && rs[i].calls == old(rs[i].calls) + [OnEnabled(c.positionUs, false)])
                    && (rs[i] !in listed ==> rs[i].state == old(rs[i].state) && rs[i].calls == old(rs[i].calls)))
              && isEnded == AllEnded(listed, env) && allReadyOrEnded == AllReadyOrEnded(listed, env, c)
    ensures forall i :: 0 <= i < |rs| ==> rs[i].state in {Prepared, Ignore, Enabled}
    ensures NothingFails(rs, env) ==> o == Done
  {
    DistinctMeansApart(rs);
    listed, isEnded, allReadyOrEnded := [], true, true;
    for i := 0 to |rs|
      invariant Distinct(listed) && forall k :: 0 <= k < |listed| ==> listed[k] in rs
      invariant forall j :: i <= j < |rs| ==> rs[j] !in listed
      invariant forall j :: 0 <= j < i ==> (rs[j] in listed <==> flags[j] && old(rs[j].state) == Prepared)
      invariant forall j :: 0 <= j < |rs| ==>
                  if rs[j] in listed then
                    rs[j].state == Enabled && rs[j].calls == old(rs[j].calls) + [OnEnabled(c.positionUs, false)]
                  else rs[j].state == old(rs[j].state) && rs[j].calls == old(rs[j].calls)
      invariant isEnded == AllEnded(listed, env) && allReadyOrEnded == AllReadyOrEnded(listed, env, c)
    {
      var r := rs[i];
      var joins := flags[i] && r.state == Prepared;
      o := EnableAndConsult(r, joins, env, c);
      if o != Done { return; }
      if joins {
        isEnded, allReadyOrEnded := Combine(listed, isEnded, allReadyOrEnded, r, env, c);
        listed := listed + [r];
      }
    }
    o := Done;
  }

  predicate WorkFails(r: TrackRenderer, env: Env, c: Consultation) {
    env.throws(r, OnWork(c.positionUs)) || env.answer(r).queryThrows
  }

  /** The loop of doSomeWork: every enabled renderer works at the position and is consulted. */
  method WorkAll(rs: seq<TrackRenderer>, env: Env, c: Consultation)
      returns (o: Outcome, isEnded: bool, allReadyOrEnded: bool)
    requires Distinct(rs) && forall i :: 0 <= i < |rs| ==> rs[i].state in {Enabled, Started}
    modifies rs`calls
    ensures o == if exists i :: 0 <= i < |rs| && WorkFails(rs[i], env, c) then Threw else Done
    ensures o == Done ==>
              && (forall i :: 0 <= i < |rs| ==> rs[i].calls == old(rs[i].calls) + [OnWork(c.positionUs)])
              && isEnded == AllEnded(rs, env) && allReadyOrEnded == AllReadyOrEnded(rs, env, c)
  {
    DistinctMeansApart(rs);
    isEnded, allReadyOrEnded := true, true;
    for i := 0 to |rs|
      invariant forall j :: 0 <= j < i ==>
                rs[j].calls == old(rs[j].calls) + [OnWork(c.positionUs)] && !WorkFails(rs[j], env, c)
      invariant forall j :: i <= j < |rs| ==> rs[j].calls == old(rs[j].calls)
      invariant isEnded == AllEnded(rs[..i], env) && allReadyOrEnded == AllReadyOrEnded(rs[..i], env, c)
    {
      var r := rs[i];
      o := r.DoSomeWork(c.positionUs, env.throws(r, OnWork(c.positionUs)));
      if o != Done { return; }
      var a := env.answer(r);
      if a.queryThrows { o := Threw; return; }
      assert rs[..i + 1] == rs[..i] + [r];
      isEnded := isEnded && a.ended;
      allReadyOrEnded := allReadyOrEnded && ReadyOrEnded(a, c.ready, c.minBufferDurationUs, c.positionUs);
    }
    assert rs[..|rs|] == rs;
    o := Done;
  }

  class Engine {
    const clock: MediaClock
    const flags: array<bool>
    const minBufferUs: int
    const minRebufferUs: int
    var enabledRenderers: seq<TrackRenderer>
    var renderers: Option<seq<TrackRenderer>>
    var timeSource: TrackRenderer?
    var released: bool
    var playWhenReady: bool
    var rebuffering: bool
    var state: PlayerState
    var customMessagesProcessed: nat
    var positionUs: int
    /** MSG_DO_SOME_WORK and MSG_INCREMENTAL_PREPARE messages the handler has posted to itself. */
    var pendingWork: nat
    var pendingPrepare: nat
    /** The messages handed to components so far. */
    ghost var delivered: seq<int>
    /** Events posted to the application thread and not yet handled there. */
    var events: seq<Event>

    function All(): seq<TrackRenderer>
      reads `renderers
    {
      if renderers.Some? then renderers.value else []
    }

    predicate Playing()
      reads `state, `playWhenReady
    {
      state == Ready && playWhenReady
    }

    /** What holds at every point, even inside a handler that is about to throw: a reset can start from here. */
    ghost predicate Consistent()
      reads `renderers, `enabledRenderers, `timeSource, `state, All()`state
    {
      && Distinct(All())
      && (forall i :: 0 <= i < |All()| ==> All()[i].state != Released)
      && (renderers.None? ==> state == Idle && enabledRenderers == [] && timeSource == null)
    }

    /** Every renderer is where the given player state calls for; of the time source there is at most one. */
    ghost predicate Adopted(player: PlayerState)
      reads `renderers, `timeSource, `enabledRenderers, flags, All()`state
    {
      && |All()| == flags.Length
      && (timeSource != null ==> timeSource in All())
      && forall i :: 0 <= i < |All()| ==>
           && (All()[i].isTimeSource ==> All()[i] == timeSource)
           && Fits(player, All()[i].state, All()[i] in enabledRenderers, flags[i])
    }

    /** The list holds renderers of the player, each once and in the given state. */
    ghost predicate Listed(s: RendererState)
      reads `renderers, `enabledRenderers, All()`state
    {
      && Distinct(enabledRenderers)
      && forall j :: 0 <= j < |enabledRenderers| ==> enabledRenderers[j] in All() && enabledRenderers[j].state == s
    }

    /** What every handler keeps. */
    ghost predicate Valid()
      reads `renderers, `timeSource, `enabledRenderers, `state, `playWhenReady, `pendingWork, `pendingPrepare
      reads clock`started, flags, All()`state
    {
      && Consistent()
      && (renderers.None? <==> state == Idle)
      && (renderers.Some? ==> Adopted(state))
      && Listed(if Playing() then Started else Enabled)
      && (!IsActive(state) ==> enabledRenderers == [] && pendingWork == 0)
      && pendingPrepare == (if state == Preparing then 1 else 0)
      && (state == Buffering || state == Ready || (state == Ended && enabledRenderers != []) ==> pendingWork > 0)
      && clock.started == Playing()
    }

    constructor (rendererCount: nat, playWhenReady: bool, minBufferMs: int, minRebufferMs: int)
      ensures Valid() && fresh(clock) && fresh(flags) && flags.Length == rendererCount
      ensures forall i :: 0 <= i < flags.Length ==> flags[i]
      ensures state == Idle && this.playWhenReady == playWhenReady && !released && events == []
      ensures customMessagesProcessed == 0 && delivered == [] && clock.sets == 0 && clock.lastSetUs == 0
      ensures forall nowUs :: clock.Reading(nowUs) == 0
      ensures minBufferUs == minBufferMs * 1000 && minRebufferUs == minRebufferMs * 1000 && !rebuffering
    {
      clock := new MediaClock();
      flags := new bool[rendererCount](i => true);
      minBufferUs, minRebufferUs := minBufferMs * 1000, minRebufferMs * 1000;
      enabledRenderers, renderers, timeSource := [], None, null;
      released, this.playWhenReady, rebuffering, state := false, playWhenReady, false, Idle;
      customMessagesProcessed, positionUs, pendingWork, pendingPrepare, events := 0, 0, 0, 0, [];
      delivered := [];
    }

    method SetState(s: PlayerState)
      modifies `state, `events
      ensures state == s && events == old(events) + Change(old(state), s)
    {
      if state != s {
        state := s;
        events := events + [StateChanged(s)];
      }
    }

    // -------------------------------------------------------------- reset

    method ResetInternal(env: Env)
      requires Consistent()
      modifies `pendingWork, `pendingPrepare, `renderers, `timeSource, `enabledRenderers, `state, `events, clock, All()
      ensures state == Idle && renderers == None && enabledRenderers == [] && timeSource == null
      ensures !clock.started && pendingWork == 0 && pendingPrepare == 0
      ensures Valid()
      ensures var rs := old(All());
              forall i :: 0 <= i < |rs| ==>
                && rs[i].state == CleanState(old(rs[i].state), rs[i], env)
                && rs[i].calls == old(rs[i].calls) + CleanCalls(old(rs[i].state), rs[i], env)
      ensures events == old(events) + Change(old(state), Idle)
      ensures clock.Reading(env.nowUs) == old(clock.Reading(env.nowUs))
      ensures clock.sets == old(clock.sets) && clock.lastSetUs == old(clock.lastSetUs)
    {
      pendingWork, pendingPrepare := 0, 0;
      clock.Stop(env.nowUs);
      if renderers.None? {
        return;
      }
      CleanUpAll(renderers.value, env);
      renderers := None;
      timeSource := null;
      enabledRenderers := [];
      SetState(Idle);
    }

    // -------------------------------------------------------------- position

    ghost predicate TimeSourceIsEnabled()
      reads this
    {
      timeSource != null && timeSource in enabledRenderers
    }

    ghost function PositionNow(env: Env): Position
      reads this, clock
    {
      if TimeSourceIsEnabled() then env.position(timeSource) else PositionAt(clock.Reading(env.nowUs))
    }

    /** The time source says where playback is while it is enabled, the clock otherwise. */
    method UpdatePositionUs(env: Env) returns (o: Outcome)
      modifies `positionUs
      ensures o == if PositionNow(env).PositionThrows? then Threw else Done
      ensures NothingFails(enabledRenderers, env) ==> o == Done
      ensures o == Done ==> PositionNow(env) == PositionAt(positionUs)
      ensures o == Done ==>
                PositionAt(positionUs) ==
                  if timeSource != null && timeSource in enabledRenderers then env.position(timeSource)
                  else PositionAt(clock.Reading(env.nowUs))
    {
      if timeSource != null && timeSource in enabledRenderers {
        match env.position(timeSource) {
          case PositionThrows => return Threw;
          case PositionAt(t) => positionUs := t;
        }
      } else {
        positionUs := clock.Reading(env.nowUs);
      }
      return Done;
    }

    /** Positions may have moved, the clock goes on from the same reading. */
    twostate predicate ClockContinues(nowUs: int)
      reads clock
    {
      && clock.Reading(nowUs) == old(clock.Reading(nowUs))
      && clock.sets == old(clock.sets) && clock.lastSetUs == old(clock.lastSetUs)
    }

    /** The clock reads a new time. */
    twostate predicate ClockSet(nowUs: int)
      reads clock
    {
      clock.Reading(nowUs) == clock.lastSetUs && clock.sets == old(clock.sets) + 1
    }

    /** The time a message sets the clock to: a seek does, and the enabled time source when it is disabled. */
    ghost function TimeSetBy(m: Message, env: Env): Option<int>
      reads this, flags, All()
    {
      if m.SeekTo? then Some(m.positionMs * 1000)
      else if m.SetRendererEnabled? && m.index < flags.Length && HandsOver(m.index, m.enabled, env) then
        Some(env.position(timeSource).timeUs)
      else None
    }

    /** The clock is set to the given time, or goes on. */
    twostate predicate ClockFollows(t: Option<int>, nowUs: int)
      reads clock
    {
      if t.Some? then ClockSet(nowUs) && clock.lastSetUs == t.value else ClockContinues(nowUs)
    }

    method StartRenderers(env: Env) returns (o: Outcome)
      requires Consistent() && Listed(Enabled)
      modifies `rebuffering, clock, enabledRenderers
      ensures !rebuffering && clock.started && ClockContinues(env.nowUs) && o != IllegalState && Consistent()
      ensures NothingFails(enabledRenderers, env) ==> o == Done
      ensures o == Done ==> Listed(Started) && (old(Adopted(Ready)) ==> Adopted(Ready))
      ensures o == Done ==> forall j :: 0 <= j < |enabledRenderers| ==>
                              enabledRenderers[j].calls == old(enabledRenderers[j].calls) + [OnStarted]
    {
      rebuffering := false;
      clock.Start(env.nowUs);
      o := StartAll(enabledRenderers, env);
    }

    method StopRenderers(env: Env) returns (o: Outcome)
      requires Consistent() && (Listed(Started) || Listed(Enabled))
      modifies clock, enabledRenderers
      ensures !clock.started && ClockContinues(env.nowUs) && o != IllegalState && Consistent()
      ensures NothingFails(enabledRenderers, env) ==> o == Done
      ensures o == Done ==> Listed(Enabled) && (old(Adopted(Ready)) ==> Adopted(Ready))
      ensures o == Done ==> forall j :: 0 <= j < |enabledRenderers| ==>
                              enabledRenderers[j].calls == old(enabledRenderers[j].calls)
                                + StopCalls(old(enabledRenderers[j].state))
    {
      clock.Stop(env.nowUs);
      o := StopAll(enabledRenderers, env);
    }

    // -------------------------------------------------------------- handlers

    method StopPlayback(env: Env) returns (o: Outcome)
      requires Valid()
      modifies `rebuffering, `playWhenReady, clock, enabledRenderers
      ensures o != IllegalState && Consistent() && !playWhenReady && !rebuffering && ClockContinues(env.nowUs)
      ensures NothingFails(enabledRenderers, env) ==> o == Done
      ensures o == Done ==> Valid()
      ensures o == Done ==> forall j :: 0 <= j < |enabledRenderers| ==>
                enabledRenderers[j].calls == old(enabledRenderers[j].calls) + Turn(old(Playing()), Playing())
    {
      rebuffering, playWhenReady := false, false;
      o := StopRenderers(env);
    }

    method Pause(env: Env) returns (o: Outcome)
      requires Valid()
      modifies `rebuffering, `playWhenReady, `positionUs, clock, enabledRenderers
      ensures o != IllegalState && Consistent() && !playWhenReady && !rebuffering && ClockContinues(env.nowUs)
      ensures NothingFails(enabledRenderers, env) ==> o == Done
      ensures o == Done ==> Valid() && PositionNow(env) == PositionAt(positionUs)
      ensures o == Done ==> forall j :: 0 <= j < |enabledRenderers| ==>
                enabledRenderers[j].calls == old(enabledRenderers[j].calls) + Turn(old(Playing()), Playing())
    {
      o := StopPlayback(env);
      if o == Done {
        o := UpdatePositionUs(env);
      }
    }

    method Unpause(env: Env) returns (o: Outcome)
      requires Valid() && !playWhenReady
      modifies `rebuffering, `playWhenReady, clock, enabledRenderers
      ensures o != IllegalState && Consistent() && playWhenReady && !rebuffering && ClockContinues(env.nowUs)
      ensures NothingFails(enabledRenderers, env) ==> o == Done
      ensures o == Done ==> Valid()
      ensures o == Done ==> forall j :: 0 <= j < |enabledRenderers| ==>
                enabledRenderers[j].calls == old(enabledRenderers[j].calls) + Turn(old(Playing()), Playing())
    {
      o := Done;
      rebuffering, playWhenReady := false, true;
      if state == Ready {
        o := StartRenderers(env);
      }
    }

    method Resume(env: Env) returns (o: Outcome)
      requires Valid() && !playWhenReady
      modifies `rebuffering, `playWhenReady, `pendingWork, clock, enabledRenderers
      ensures o != IllegalState && Consistent() && playWhenReady && !rebuffering && ClockContinues(env.nowUs)
      ensures NothingFails(enabledRenderers, env) ==> o == Done
      ensures o == Done ==> Valid()
      ensures o == Done ==> pendingWork == old(pendingWork) + if state == Ready || state == Buffering then 1 else 0
      ensures o == Done ==> forall j :: 0 <= j < |enabledRenderers| ==>
                enabledRenderers[j].calls == old(enabledRenderers[j].calls) + Turn(old(Playing()), Playing())
    {
      o := Unpause(env);
      if o == Done && (state == Ready || state == Buffering) {
        pendingWork := pendingWork + 1;
      }
    }

    /** The application is told of every change of playWhenReady, even of one that fails. */
    method SetPlayWhenReadyInternal(play: bool, env: Env) returns (o: Outcome)
      requires Valid() && play != playWhenReady
      modifies `rebuffering, `playWhenReady, `positionUs, `pendingWork, `events, clock, enabledRenderers
      ensures o != IllegalState && Consistent() && playWhenReady == play && !rebuffering
      ensures NothingFails(enabledRenderers, env) ==> o == Done
      ensures events == old(events) + [PlayWhenReadyAck] && ClockContinues(env.nowUs)
      ensures o == Done ==> Valid()
      ensures o == Done ==>
                pendingWork == old(pendingWork) + if play && (state == Ready || state == Buffering) then 1 else 0
      ensures o == Done && play ==> positionUs == old(positionUs)
      ensures o == Done && !play ==> PositionNow(env) == PositionAt(positionUs)
      ensures o == Done ==> forall i :: 0 <= i < |All()| ==>
                All()[i].calls ==
                  if All()[i] in enabledRenderers then old(All()[i].calls) + Turn(old(Playing()), Playing())
                  else old(All()[i].calls)
    {
      if play {
        o := Resume(env);
      } else {
        o := Pause(env);
      }
      events := events + [PlayWhenReadyAck];
    }

    /** There is one time source at most. */
    method FindTimeSource(rs: seq<TrackRenderer>) returns (o: Outcome)
      requires Distinct(rs) && timeSource == null
      modifies `timeSource
      ensures o == if exists i, j :: 0 <= i < j < |rs| && rs[i].isTimeSource && rs[j].isTimeSource then Threw else Done
      ensures o == Done ==> timeSource != null ==> timeSource in rs
      ensures o == Done ==> forall i :: 0 <= i < |rs| && rs[i].isTimeSource ==> rs[i] == timeSource
    {
      DistinctMeansApart(rs);
      for i := 0 to |rs|
        invariant timeSource == null ==> forall j :: 0 <= j < i ==> !rs[j].isTimeSource
        invariant timeSource != null ==>
                    && timeSource.isTimeSource && timeSource in rs[..i]
                    && forall j :: 0 <= j < i && rs[j].isTimeSource ==> rs[j] == timeSource
      {
        if rs[i].isTimeSource {
          if timeSource != null {
            return Threw;
          }
          timeSource := rs[i];
        }
      }
      o := Done;
    }

    /** A second time source makes the call fail; the renderers are then still adopted, and nothing is posted. */
    method PrepareInternal(rs: seq<TrackRenderer>, env: Env) returns (o: Outcome)
      requires Valid() && state == Idle && Distinct(rs) && |rs| == flags.Length
      requires forall i :: 0 <= i < |rs| ==> rs[i].state == Unprepared
      modifies `rebuffering, `renderers, `timeSource, `state, `events, `pendingPrepare
      ensures o == if exists i, j :: 0 <= i < j < |rs| && rs[i].isTimeSource && rs[j].isTimeSource then Threw else Done
      ensures renderers == Some(rs) && !rebuffering && Consistent()
      ensures o == Done ==> Valid() && state == Preparing && events == old(events) + [StateChanged(Preparing)]
      ensures o == Threw ==> state == Idle && events == old(events)
    {
      rebuffering := false;
      renderers := Some(rs);
      o := FindTimeSource(rs);
      if o == Done {
        SetState(Preparing);
        pendingPrepare := pendingPrepare + 1;
      }
    }

    /** How much must be buffered ahead of the position: more after an interruption. */
    ghost function RequiredUs(): int
      reads `rebuffering
    {
      if rebuffering then minRebufferUs else minBufferUs
    }

    ghost function Consulted(): Consultation
      reads `state, `rebuffering, `positionUs
    {
      Consultation(state == Ready, RequiredUs(), positionUs)
    }

    /** A new state is entered with every listed renderer enabled: playing starts them. */
    method Enter(s: PlayerState, env: Env) returns (o: Outcome)
      requires Consistent() && renderers.Some? && Adopted(Buffering) && Listed(Enabled) && !clock.started && IsActive(s)
      modifies `rebuffering, `state, `events, clock, enabledRenderers
      ensures state == s && events == old(events) + Change(old(state), s)
      ensures o != IllegalState && Consistent() && ClockContinues(env.nowUs)
      ensures o == Done ==> rebuffering == (old(rebuffering) && !Playing())
      ensures NothingFails(enabledRenderers, env) ==> o == Done
      ensures o == Done ==> Adopted(s) && Listed(if Playing() then Started else Enabled) && clock.started == Playing()
      ensures o == Done ==> forall j :: 0 <= j < |enabledRenderers| ==>
                enabledRenderers[j].calls == old(enabledRenderers[j].calls) + Turn(false, Playing())
    {
      o := Done;
      SetState(s);
      if playWhenReady && state == Ready {
        o := StartRenderers(env);
      }
    }

    /** The last steps of incrementalPrepareInternal. */
    method Begin(s: PlayerState, env: Env) returns (o: Outcome)
      requires Consistent() && renderers.Some? && Adopted(Buffering) && Listed(Enabled) && !clock.started && IsActive(s)
      requires pendingPrepare == 0
      modifies `rebuffering, `state, `events, `pendingWork, clock, enabledRenderers
      ensures state == s && events == old(events) + Change(old(state), s)
      ensures o != IllegalState && Consistent() && ClockContinues(env.nowUs)
      ensures NothingFails(enabledRenderers, env) ==> o == Done
      ensures o == Done ==> Valid() && pendingWork == old(pendingWork) + 1
      ensures o == Done ==> forall j :: 0 <= j < |enabledRenderers| ==>
                enabledRenderers[j].calls == old(enabledRenderers[j].calls) + Turn(false, Playing())
    {
      o := Enter(s, env);
      if o == Done {
        pendingWork := pendingWork + 1;
      }
    }

    /** Every renderer that is ready to be enabled and flagged is enabled and listed; the answers say where the player
        goes from here. */
    method EnableAndList(env: Env) returns (o: Outcome, s: PlayerState)
      requires Consistent() && state == Preparing && Adopted(Preparing) && enabledRenderers == []
      requires forall i :: 0 <= i < |All()| ==> All()[i].state in {Prepared, Ignore}
      modifies `enabledRenderers, All()
      ensures o != IllegalState && Consistent()
      ensures o != Done ==> enabledRenderers == []
      ensures o == Done ==> Adopted(Buffering) && Listed(Enabled)
      ensures o == Done ==> FollowsAnswers(Preparing, enabledRenderers, env, RequiredUs(), positionUs, s)
      ensures o == Done ==> forall i :: 0 <= i < |All()| ==>
                && (All()[i] in enabledRenderers <==> flags[i] && old(All()[i].state) == Prepared)
                && All()[i].calls ==
                     if All()[i] in enabledRenderers then old(All()[i].calls) + [OnEnabled(positionUs, false)]
                     else old(All()[i].calls)
      ensures NothingFails(All(), env) ==> o == Done
    {
      var c := Consultation(state == Ready, if rebuffering then minRebufferUs else minBufferUs, positionUs);
      var listed, isEnded, allReadyOrEnded;
      o, listed, isEnded, allReadyOrEnded := EnableFlagged(renderers.value, flags, env, c);
      s := if isEnded then Ended else if allReadyOrEnded then Ready else Buffering;
      if o == Done {
        AnswersDecide(Buffering, listed, env, c);
        enabledRenderers := listed;
      }
    }

    /** The second half of incrementalPrepareInternal, reached once no renderer is unprepared. */
    method EnableAndBegin(env: Env) returns (o: Outcome)
      requires Consistent() && state == Preparing && Adopted(Preparing)
      requires forall i :: 0 <= i < |All()| ==> All()[i].state in {Prepared, Ignore}
      requires enabledRenderers == [] && pendingWork == 0 && pendingPrepare == 0 && !clock.started
      modifies `rebuffering, `enabledRenderers, `state, `events, `pendingWork, clock, All()
      ensures o != IllegalState && Consistent() && ClockContinues(env.nowUs)
      ensures events == old(events) + Change(Preparing, state)
      ensures o == Done ==> Valid() && pendingWork == 1
      ensures o == Done ==> FollowsAnswers(Preparing, enabledRenderers, env, old(RequiredUs()), positionUs, state)
      ensures o == Done ==> forall i :: 0 <= i < |All()| ==>
                && (All()[i] in enabledRenderers <==> flags[i] && old(All()[i].state) == Prepared)
                && All()[i].calls ==
                     if All()[i] in enabledRenderers then
                       old(All()[i].calls) + [OnEnabled(positionUs, false)] + Turn(false, Playing())
                     else old(All()[i].calls)
      ensures NothingFails(All(), env) ==> o == Done
    {
      var s;
      o, s := EnableAndList(env);
      if o == Done {
        o := Begin(s, env);
      }
    }

    /** The same, with what the answers decide spelt out. */
    method FinishPreparing(env: Env) returns (o: Outcome)
      requires Consistent() && state == Preparing && Adopted(Preparing)
      requires forall i :: 0 <= i < |All()| ==> All()[i].state in {Prepared, Ignore}
      requires enabledRenderers == [] && pendingWork == 0 && pendingPrepare == 0 && !clock.started
      modifies `rebuffering, `enabledRenderers, `state, `events, `pendingWork, clock, All()
      ensures o != IllegalState && Consistent() && ClockContinues(env.nowUs)
      ensures events == old(events) + Change(Preparing, state)
      ensures o == Done ==> Valid() && pendingWork == 1
      ensures o == Done ==> FollowsAnswers(Preparing, enabledRenderers, env, old(RequiredUs()), positionUs, state)
      ensures o == Done ==>
                (state == Ended <==> forall r :: r in enabledRenderers ==> env.answer(r).ended)
      ensures o == Done && state != Ended ==>
                var requiredUs := if old(rebuffering) then minRebufferUs else minBufferUs;
                (state == Ready <==> forall r :: r in enabledRenderers ==>
                  || env.answer(r).endedAgain
                  || (env.answer(r).ready
                      && (|| requiredUs <= 0
                          || env.answer(r).bufferedUs == UNKNOWN_TIME_US || env.answer(r).bufferedUs == END_OF_TRACK_US
                          || env.answer(r).bufferedUs >= positionUs + requiredUs
                          || (env.answer(r).durationUs != UNKNOWN_TIME_US
                              && env.answer(r).durationUs != MATCH_LONGEST_US
                              && env.answer(r).bufferedUs >= env.answer(r).durationUs))))
      ensures o == Done ==> forall i :: 0 <= i < |All()| ==>
                && (All()[i] in enabledRenderers <==> flags[i] && old(All()[i].state) == Prepared)
                && All()[i].calls ==
                     if All()[i] in enabledRenderers then
                       old(All()[i].calls) + [OnEnabled(positionUs, false)] + Turn(false, Playing())
                     else old(All()[i].calls)
      ensures NothingFails(All(), env) ==> o == Done
    {
      o := EnableAndBegin(env);
    }

    /** The first half of incrementalPrepareInternal: every unprepared renderer is asked. */
    method AskRenderers(env: Env) returns (o: Outcome, prepared: bool)
      requires Valid() && state == Preparing
      modifies All()
      ensures o != IllegalState && Consistent() && (NothingFails(All(), env) ==> o == Done)
      ensures o == Done ==> Adopted(Preparing) && (prepared <==> !SomeStayUnprepared(All(), old(StatesOf(All())), env))
      ensures o == Done && prepared ==> forall i :: 0 <= i < |All()| ==> All()[i].state in {Prepared, Ignore}
      ensures o == Done ==> forall i :: 0 <= i < |All()| ==>
                && All()[i].state == AfterPrepare(old(All()[i].state), env.prepare(All()[i]))
                && All()[i].calls == old(All()[i].calls)
                     + if old(All()[i].state) == Unprepared then [OnPrepare] else []
    {
      o, prepared := PrepareAll(renderers.value, env);
    }

    method IncrementalPrepareInternal(env: Env) returns (o: Outcome)
      requires Valid() && pendingPrepare > 0
      modifies `rebuffering, `enabledRenderers, `state, `events, `pendingWork, `pendingPrepare, clock, All()
      ensures o != IllegalState && Consistent() && ClockContinues(env.nowUs)
      ensures events == old(events) + Change(Preparing, state)
      ensures o == Done ==> Valid()
      ensures o == Done ==>
                (state == Preparing <==> SomeStayUnprepared(All(), old(StatesOf(All())), env))
      ensures o == Done && state == Preparing ==> enabledRenderers == [] && pendingWork == 0
      ensures o == Done && state != Preparing ==>
                && FollowsAnswers(Preparing, enabledRenderers, env, old(RequiredUs()), positionUs, state)
                && pendingWork == 1
      ensures o == Done ==> forall i :: 0 <= i < |All()| ==>
                && (All()[i] in enabledRenderers <==>
                      && state != Preparing && flags[i]
                      && AfterPrepare(old(All()[i].state), env.prepare(All()[i])) == Prepared)
                && var asked := old(All()[i].calls) + if old(All()[i].state) == Unprepared then [OnPrepare] else [];
                   All()[i].calls ==
                     if All()[i] in enabledRenderers then
                       asked + [OnEnabled(positionUs, false)] + Turn(false, Playing())
                     else asked
      ensures NothingFails(All(), env) ==> o == Done
    {
      var prepared;
      o, prepared := AskRenderers(env);
      pendingPrepare := pendingPrepare - 1;
      if o != Done { return; }
      if !prepared {
        pendingPrepare := pendingPrepare + 1;
        return;
      }
      o := FinishPreparing(env);
    }

    /** A state in which nothing plays is entered. */
    method Leave(s: PlayerState, env: Env) returns (o: Outcome)
      requires Consistent() && renderers.Some? && IsActive(state) && Adopted(Ready) && s in {Buffering, Ended}
      requires Listed(if Playing() then Started else Enabled) && clock.started == Playing()
      modifies `state, `events, clock, enabledRenderers
      ensures state == s && events == old(events) + Change(old(state), s)
      ensures o != IllegalState && Consistent() && ClockContinues(env.nowUs)
      ensures NothingFails(enabledRenderers, env) ==> o == Done
      ensures o == Done ==> Adopted(Ready) && Listed(Enabled) && !clock.started
      ensures o == Done ==> forall j :: 0 <= j < |enabledRenderers| ==>
                enabledRenderers[j].calls == old(enabledRenderers[j].calls) + Turn(old(Playing()), false)
    {
      SetState(s);
      o := StopRenderers(env);
    }

    /** The middle of doSomeWork: the answers move the state, and playback stops or starts with it. */
    method Judge(isEnded: bool, allReadyOrEnded: bool, env: Env) returns (o: Outcome)
      requires Consistent() && renderers.Some? && IsActive(state) && Adopted(Ready)
      requires Listed(if Playing() then Started else Enabled) && clock.started == Playing()
      modifies `rebuffering, `state, `events, clock, enabledRenderers
      ensures o != IllegalState && Consistent() && ClockContinues(env.nowUs)
      ensures NothingFails(enabledRenderers, env) ==> o == Done
      ensures events == old(events) + Change(old(state), state)
      ensures state == Judged(old(state), isEnded, allReadyOrEnded)
      ensures o == Done ==>
                Adopted(Ready) && Listed(if Playing() then Started else Enabled) && clock.started == Playing()
      ensures o == Done ==>
                rebuffering == if old(state) == Ready && state == Buffering then playWhenReady
                               else old(rebuffering) && !(old(state) == Buffering && state == Ready && playWhenReady)
      ensures o == Done ==> forall j :: 0 <= j < |enabledRenderers| ==>
                enabledRenderers[j].calls == old(enabledRenderers[j].calls) + Turn(old(Playing()), Playing())
    {
      o := Done;
      if isEnded {
        o := Leave(Ended, env);
      } else if state == Buffering && allReadyOrEnded {
        o := Enter(Ready, env);
      } else if state == Ready && !allReadyOrEnded {
        rebuffering := playWhenReady;
        o := Leave(Buffering, env);
      }
    }

    /** The first part of doSomeWork: the position is updated, and every enabled renderer works there. */
    method Work(env: Env) returns (o: Outcome, isEnded: bool, allReadyOrEnded: bool)
      requires Listed(Started) || Listed(Enabled)
      modifies `positionUs, enabledRenderers`calls
      ensures o != IllegalState
      ensures NothingFails(enabledRenderers, env) ==> o == Done
      ensures o == Done ==> old(PositionNow(env)) == PositionAt(positionUs)
      ensures o == Done && IsActive(state) ==>
                FollowsAnswers(state, enabledRenderers, env, RequiredUs(), positionUs,
                               Judged(state, isEnded, allReadyOrEnded))
      ensures o == Done && enabledRenderers == [] ==> isEnded
      ensures o == Done ==> forall j :: 0 <= j < |enabledRenderers| ==>
                enabledRenderers[j].calls == old(enabledRenderers[j].calls) + [OnWork(positionUs)]
    {
      isEnded, allReadyOrEnded := true, true;
      o := UpdatePositionUs(env);
      if o == Done {
        var c := Consultation(state == Ready, if rebuffering then minRebufferUs else minBufferUs, positionUs);
        o, isEnded, allReadyOrEnded := WorkAll(enabledRenderers, env, c);
        if o == Done && IsActive(state) {
          AnswersDecide(state, enabledRenderers, env, c);
        }
      }
    }

    method Reschedule()
      modifies `pendingWork
      ensures pendingWork == if Playing() || state == Buffering || enabledRenderers != [] then 1 else 0
    {
      pendingWork := 0;
      if (playWhenReady && state == Ready) || state == Buffering {
        pendingWork := pendingWork + 1;
      } else if |enabledRenderers| > 0 {
        pendingWork := pendingWork + 1;
      }
    }

    /** The last part of doSomeWork. */
    method Settle(isEnded: bool, allReadyOrEnded: bool, env: Env) returns (o: Outcome)
      requires Valid() && pendingWork > 0 && (enabledRenderers == [] ==> isEnded)
      modifies `rebuffering, `state, `events, `pendingWork, clock, enabledRenderers
      ensures o != IllegalState && Consistent() && ClockContinues(env.nowUs)
      ensures NothingFails(enabledRenderers, env) ==> o == Done
      ensures events == old(events) + Change(old(state), state)
      ensures state == Judged(old(state), isEnded, allReadyOrEnded)
      ensures o == Done ==>
                Valid() && pendingWork == if Playing() || state == Buffering || enabledRenderers != [] then 1 else 0
      ensures o == Done ==>
                rebuffering == if old(state) == Ready && state == Buffering then playWhenReady
                               else old(rebuffering) && !(old(state) == Buffering && state == Ready && playWhenReady)
      ensures o == Done ==> forall j :: 0 <= j < |enabledRenderers| ==>
                enabledRenderers[j].calls == old(enabledRenderers[j].calls) + Turn(old(Playing()), Playing())
    {
      o := Judge(isEnded, allReadyOrEnded, env);
      if o == Done {
        Reschedule();
      }
    }

    /** doSomeWork: one round of work, after which the answers decide where the player goes. */
    method RoundOfWork(env: Env) returns (o: Outcome)
      requires Valid() && pendingWork > 0
      modifies `rebuffering, `state, `events, `pendingWork, `positionUs, clock, enabledRenderers
      ensures o != IllegalState && Consistent() && ClockContinues(env.nowUs)
      ensures NothingFails(enabledRenderers, env) ==> o == Done
      ensures events == old(events) + Change(old(state), state)
      ensures o == Done ==>
                Valid() && pendingWork == if Playing() || state == Buffering || enabledRenderers != [] then 1 else 0
      ensures o == Done ==> old(PositionNow(env)) == PositionAt(positionUs)
      ensures o == Done ==>
                FollowsAnswers(old(state), enabledRenderers, env, old(RequiredUs()), positionUs, state)
      ensures o == Done ==>
                rebuffering == if old(state) == Ready && state == Buffering then playWhenReady
                               else old(rebuffering) && !(old(state) == Buffering && state == Ready && playWhenReady)
      ensures o == Done ==> forall j :: 0 <= j < |enabledRenderers| ==>
                enabledRenderers[j].calls == old(enabledRenderers[j].calls) + [OnWork(positionUs)]
                  + Turn(old(Playing()), Playing())
    {
      var isEnded, allReadyOrEnded;
      o, isEnded, allReadyOrEnded := Work(env);
      if o == Done {
        o := Settle(isEnded, allReadyOrEnded, env);
      }
    }

    /** The same, for all renderers. */
    method WorkAndSettle(env: Env) returns (o: Outcome)
      requires Valid() && pendingWork > 0
      modifies `rebuffering, `state, `events, `pendingWork, `positionUs, clock, enabledRenderers
      ensures o != IllegalState && Consistent() && ClockContinues(env.nowUs)
      ensures NothingFails(enabledRenderers, env) ==> o == Done
      ensures events == old(events) + Change(old(state), state)
      ensures o == Done ==>
                Valid() && pendingWork == if Playing() || state == Buffering || enabledRenderers != [] then 1 else 0
      ensures o == Done ==> old(PositionNow(env)) == PositionAt(positionUs)
      ensures o == Done ==>
                FollowsAnswers(old(state), enabledRenderers, env, old(RequiredUs()), positionUs, state)
      ensures o == Done ==>
                rebuffering == if old(state) == Ready && state == Buffering then playWhenReady
                               else old(rebuffering) && !(old(state) == Buffering && state == Ready && playWhenReady)
      ensures o == Done ==> forall i :: 0 <= i < |All()| ==>
                All()[i].calls ==
                  if All()[i] in enabledRenderers then
                    old(All()[i].calls) + [OnWork(positionUs)] + Turn(old(Playing()), Playing())
                  else old(All()[i].calls)
    {
      o := RoundOfWork(env);
    }

    /** What the answers decide, spelt out: a player ends when every renderer has; from BUFFERING it gets ready exactly
        when each of them has ended, or is ready with the required duration ahead of the position or with all there is
        buffered; and it stays READY exactly while each has ended or is ready. The duration required is greater after
        an interruption. */
    method DoSomeWorkInternal(env: Env) returns (o: Outcome)
      requires Valid() && pendingWork > 0
      modifies `rebuffering, `state, `events, `pendingWork, `positionUs, clock, enabledRenderers
      ensures o != IllegalState && Consistent() && ClockContinues(env.nowUs)
      ensures NothingFails(enabledRenderers, env) ==> o == Done
      ensures events == old(events) + Change(old(state), state)
      ensures o == Done ==>
                Valid() && pendingWork == if Playing() || state == Buffering || enabledRenderers != [] then 1 else 0
      ensures o == Done ==> old(PositionNow(env)) == PositionAt(positionUs)
      ensures o == Done ==>
                FollowsAnswers(old(state), enabledRenderers, env, old(RequiredUs()), positionUs, state)
      ensures o == Done ==>
                (state == Ended <==> old(state) == Ended || (forall r :: r in enabledRenderers ==> env.answer(r).ended))
      ensures o == Done && state != Ended && old(state) == Buffering ==>
                var requiredUs := if old(rebuffering) then minRebufferUs else minBufferUs;
                (state == Ready <==> forall r :: r in enabledRenderers ==>
                  || env.answer(r).endedAgain
                  || (env.answer(r).ready
                      && (|| requiredUs <= 0
                          || env.answer(r).bufferedUs == UNKNOWN_TIME_US || env.answer(r).bufferedUs == END_OF_TRACK_US
                          || env.answer(r).bufferedUs >= positionUs + requiredUs
                          || (env.answer(r).durationUs != UNKNOWN_TIME_US
                              && env.answer(r).durationUs != MATCH_LONGEST_US
                              && env.answer(r).bufferedUs >= env.answer(r).durationUs))))
      ensures o == Done && state != Ended && old(state) == Ready ==>
                (state == Ready <==> forall r :: r in enabledRenderers ==>
                  env.answer(r).endedAgain || env.answer(r).ready)
      ensures o == Done ==>
                rebuffering == if old(state) == Ready && state == Buffering then playWhenReady
                               else old(rebuffering) && !(old(state) == Buffering && state == Ready && playWhenReady)
      ensures o == Done ==> forall i :: 0 <= i < |All()| ==>
                All()[i].calls ==
                  if All()[i] in enabledRenderers then
                    old(All()[i].calls) + [OnWork(positionUs)] + Turn(old(Playing()), Playing())
                  else old(All()[i].calls)
    {
      o := WorkAndSettle(env);
    }

    /** Every enabled renderer is sent to the position. */
    method SeekRenderers(env: Env) returns (o: Outcome)
      requires Consistent() && IsActive(state) && Adopted(Ready) && Listed(if Playing() then Started else Enabled)
      modifies enabledRenderers
      ensures o != IllegalState && Consistent()
      ensures NothingFails(enabledRenderers, env) ==> o == Done
      ensures o == Done ==> Adopted(Ready) && Listed(Enabled)
      ensures o == Done ==> forall j :: 0 <= j < |enabledRenderers| ==>
                enabledRenderers[j].calls == old(enabledRenderers[j].calls) + Turn(Playing(), false)
                  + [OnSeek(positionUs)]
    {
      o := SeekAll(enabledRenderers, positionUs, env);
    }

    /** The last part of seekToInternal: the clock has been set, and there are renderers to send there. */
    method BufferAgain(env: Env) returns (o: Outcome)
      requires Consistent() && IsActive(state) && Adopted(Ready) && Listed(if Playing() then Started else Enabled)
      modifies `state, `events, `pendingWork, enabledRenderers
      ensures o != IllegalState && Consistent()
      ensures NothingFails(enabledRenderers, env) ==> o == Done
      ensures events == old(events) + Change(old(state), state)
      ensures o == Done ==> Adopted(Ready) && Listed(Enabled) && state == Buffering
      ensures o == Done ==> pendingWork == old(pendingWork) + 1
      ensures o == Threw ==> state == old(state)
      ensures o == Done ==> forall j :: 0 <= j < |enabledRenderers| ==>
                enabledRenderers[j].calls == old(enabledRenderers[j].calls) + Turn(old(Playing()), false)
                  + [OnSeek(positionUs)]
    {
      o := SeekRenderers(env);
      if o == Done {
        SetState(Buffering);
        pendingWork := pendingWork + 1;
      }
    }

    /** The clock is stopped at a position. */
    method MoveTo(positionMs: int, env: Env)
      modifies `rebuffering, `positionUs, clock
      ensures !rebuffering && positionUs == positionMs * 1000 && !clock.started
      ensures clock.sets == old(clock.sets) + 1 && clock.Reading(env.nowUs) == clock.lastSetUs == positionUs
    {
      rebuffering := false;
      positionUs := positionMs * 1000;
      clock.Stop(env.nowUs);
      clock.SetTimeUs(positionUs, env.nowUs);
    }

    method SeekListed(positionMs: int, env: Env) returns (o: Outcome)
      requires Valid()
      modifies `rebuffering, `state, `events, `pendingWork, `positionUs, clock, enabledRenderers
      ensures o != IllegalState && Consistent() && !rebuffering
      ensures NothingFails(enabledRenderers, env) ==> o == Done
      ensures positionUs == positionMs * 1000 && clock.sets == old(clock.sets) + 1
      ensures clock.Reading(env.nowUs) == clock.lastSetUs == positionUs
      ensures events == old(events) + Change(old(state), state)
      ensures o == Done ==> Valid() && state == if IsActive(old(state)) then Buffering else old(state)
      ensures o == Done ==> pendingWork == old(pendingWork) + if IsActive(old(state)) then 1 else 0
      ensures o == Done && IsActive(state) ==>
                forall j :: 0 <= j < |enabledRenderers| ==>
                  enabledRenderers[j].calls == old(enabledRenderers[j].calls) + Turn(old(Playing()), false)
                    + [OnSeek(positionUs)]
      ensures o == Threw ==> state == old(state)
    {
      MoveTo(positionMs, env);
      o := Done;
      if state != Idle && state != Preparing {
        o := BufferAgain(env);
      }
    }

    /** seekToInternal: no renderer that is not enabled is sent anywhere. */
    method SeekToInternal(positionMs: int, env: Env) returns (o: Outcome)
      requires Valid()
      modifies `rebuffering, `state, `events, `pendingWork, `positionUs, clock, enabledRenderers
      ensures o != IllegalState && Consistent() && !rebuffering
      ensures NothingFails(enabledRenderers, env) ==> o == Done
      ensures positionUs == positionMs * 1000 && clock.sets == old(clock.sets) + 1
      ensures clock.Reading(env.nowUs) == clock.lastSetUs == positionUs
      ensures events == old(events) + Change(old(state), state)
      ensures o == Done ==> Valid() && state == if IsActive(old(state)) then Buffering else old(state)
      ensures o == Done ==> pendingWork == old(pendingWork) + if IsActive(old(state)) then 1 else 0
      ensures o == Done ==> forall i :: 0 <= i < |All()| ==>
                All()[i].calls ==
                  if All()[i] in enabledRenderers then
                    old(All()[i].calls) + Turn(old(Playing()), false) + [OnSeek(positionUs)]
                  else old(All()[i].calls)
      ensures o == Threw ==> state == old(state)
    {
      o := SeekListed(positionMs, env);
    }

    method StopInternal(env: Env)
      requires Consistent()
      modifies `rebuffering, `pendingWork, `pendingPrepare, `renderers, `timeSource, `enabledRenderers, `state, `events
      modifies clock, All()
      ensures state == Idle && !rebuffering && Valid() && events == old(events) + Change(old(state), Idle)
      ensures ClockContinues(env.nowUs)
      ensures var rs := old(All());
              forall i :: 0 <= i < |rs| ==>
                && rs[i].state == CleanState(old(rs[i].state), rs[i], env)
                && rs[i].calls == old(rs[i].calls) + CleanCalls(old(rs[i].state), rs[i], env)
    {
      rebuffering := false;
      ResetInternal(env);
    }

    method ReleaseInternal(env: Env)
      requires Valid()
      modifies `released, `pendingWork, `pendingPrepare, `renderers, `timeSource, `enabledRenderers, `state, `events
      modifies clock, All()
      ensures released && state == Idle && Valid() && events == old(events) + Change(old(state), Idle)
      ensures ClockContinues(env.nowUs)
      ensures var rs := old(All());
              forall i :: 0 <= i < |rs| ==>
                && rs[i].state == CleanState(old(rs[i].state), rs[i], env)
                && rs[i].calls == old(rs[i].calls) + CleanCalls(old(rs[i].state), rs[i], env)
    {
      ResetInternal(env);
      released := true;
    }

    /** The message counts as processed even when its target throws. */
    method SendMessageInternal(payload: int, env: Env) returns (o: Outcome)
      requires Valid()
      modifies `customMessagesProcessed, `delivered, `pendingWork
      ensures o == if env.componentThrows then Threw else Done
      ensures customMessagesProcessed == old(customMessagesProcessed) + 1 && delivered == old(delivered) + [payload]
      ensures Valid() && pendingWork == old(pendingWork) + if o == Done && IsActive(state) then 1 else 0
    {
      delivered := delivered + [payload];
      customMessagesProcessed := customMessagesProcessed + 1;
      if env.componentThrows {
        return Threw;
      }
      if state != Idle && state != Preparing {
        pendingWork := pendingWork + 1;
      }
      o := Done;
    }

    /** A renderer whose flag has just been set joins the list. */
    method EnableRenderer(index: nat, env: Env) returns (o: Outcome)
      requires Consistent() && IsActive(state) && index < |All()| == flags.Length && flags[index]
      requires forall i :: 0 <= i < |All()| && i != index ==>
                Fits(Ready, All()[i].state, All()[i] in enabledRenderers, flags[i])
      requires All()[index].state == Prepared && All()[index] !in enabledRenderers
      requires Listed(if Playing() then Started else Enabled)
      modifies `enabledRenderers, `pendingWork, All()[index]
      ensures o != IllegalState && Consistent()
      ensures forall i :: 0 <= i < |All()| && i != index ==> All()[i].calls == old(All()[i].calls)
      ensures NothingFails(All(), env) ==> o == Done
      ensures o == Done ==>
                enabledRenderers == old(enabledRenderers) + [All()[index]] && pendingWork == old(pendingWork) + 1
      ensures o == Done ==> Listed(if Playing() then Started else Enabled)
      ensures o == Done ==> forall i :: 0 <= i < |All()| ==>
                Fits(Ready, All()[i].state, All()[i] in enabledRenderers, flags[i])
      ensures o == Done ==>
                All()[index].calls == old(All()[index].calls) + [OnEnabled(positionUs, Playing())]
                  + Turn(false, Playing())
    {
      DistinctMeansApart(All());
      var r := renderers.value[index];
      var playing := playWhenReady && state == Ready;
      o := r.Enable(positionUs, playing, env.throws(r, OnEnabled(positionUs, playing)));
      if o != Done { return; }
      DistinctAppend(enabledRenderers, r);
      enabledRenderers := enabledRenderers + [r];
      if playing {
        o := r.Start(env.throws(r, OnStarted));
        if o != Done { return; }
      }
      pendingWork := pendingWork + 1;
    }

    /** The clock takes over from the time source. */
    method HandOver(r: TrackRenderer, env: Env) returns (o: Outcome)
      modifies clock
      ensures clock.started == old(clock.started)
      ensures o == if r == timeSource && env.position(r).PositionThrows? then Threw else Done
      ensures if r == timeSource && env.position(r).PositionAt? then
                ClockSet(env.nowUs) && PositionAt(clock.lastSetUs) == env.position(r)
              else ClockContinues(env.nowUs)
    {
      if r == timeSource {
        match env.position(timeSource) {
          case PositionThrows => return Threw;
          case PositionAt(t) => clock.SetTimeUs(t, env.nowUs);
        }
      }
      o := Done;
    }

    /** A renderer whose flag has just been cleared leaves the list; from the time source the clock takes over. */
    method DisableRenderer(index: nat, env: Env) returns (o: Outcome)
      requires Consistent() && IsActive(state) && index < |All()| == flags.Length && !flags[index]
      requires forall i :: 0 <= i < |All()| && i != index ==>
                Fits(Ready, All()[i].state, All()[i] in enabledRenderers, flags[i])
      requires All()[index] in enabledRenderers && Listed(if Playing() then Started else Enabled)
      modifies `enabledRenderers, clock, All()[index]
      ensures o != IllegalState && Consistent() && clock.started == old(clock.started)
      ensures forall i :: 0 <= i < |All()| && i != index ==> All()[i].calls == old(All()[i].calls)
      ensures NothingFails(All(), env) ==> o == Done
      ensures o == Done ==> enabledRenderers == Without(old(enabledRenderers), All()[index])
      ensures o == Done ==> Listed(if Playing() then Started else Enabled)
      ensures o == Done ==> forall i :: 0 <= i < |All()| ==>
                Fits(Ready, All()[i].state, All()[i] in enabledRenderers, flags[i])
      ensures o == Done ==> All()[index].calls == old(All()[index].calls) + Turn(Playing(), false) + [OnDisabled]
      ensures if All()[index] == timeSource && env.position(timeSource).PositionAt? then
                ClockSet(env.nowUs) && PositionAt(clock.lastSetUs) == env.position(timeSource)
              else ClockContinues(env.nowUs)
    {
      DistinctMeansApart(enabledRenderers);
      DistinctMeansApart(All());
      var r := renderers.value[index];
      o := HandOver(r, env);
      if o != Done { return; }
      o := EnsureStopped(r, env);
      if o != Done { return; }
      WithoutRemovesJustOne(enabledRenderers, r);
      enabledRenderers := Without(enabledRenderers, r);
      o := r.Disable(env.throws(r, OnDisabled));
    }

    /** A renderer is enabled or disabled at once when the player has got past preparing it. */
    ghost predicate TakesEffect(index: nat, enabled: bool)
      requires index < flags.Length
      reads this, flags, All()
    {
      IsActive(state) && flags[index] != enabled && index < |All()| && All()[index].state != Ignore
    }

    /** The enabled time source is disabled, and says where it is: the clock takes over from there. */
    ghost predicate HandsOver(index: nat, enabled: bool, env: Env)
      requires index < flags.Length
      reads this, flags, All()
    {
      && TakesEffect(index, enabled) && !enabled
      && timeSource == All()[index] && env.position(timeSource).PositionAt?
    }

    /** The last part of setRendererEnabledInternal, with the flag already switched. */
    method JoinOrLeave(index: nat, enabled: bool, env: Env) returns (o: Outcome)
      requires Consistent() && IsActive(state) && index < |All()| == flags.Length && flags[index] == enabled
      requires forall i :: 0 <= i < |All()| && i != index ==>
                 Fits(Ready, All()[i].state, All()[i] in enabledRenderers, flags[i])
      requires Fits(Ready, All()[index].state, All()[index] in enabledRenderers, !enabled)
      requires Listed(if Playing() then Started else Enabled)
      modifies `enabledRenderers, `pendingWork, clock, All()[index]
      ensures o != IllegalState && Consistent() && clock.started == old(clock.started)
      ensures NothingFails(All(), env) ==> o == Done
      ensures o == Done ==> Listed(if Playing() then Started else Enabled)
      ensures o == Done ==> forall i :: 0 <= i < |All()| ==>
                Fits(Ready, All()[i].state, All()[i] in enabledRenderers, flags[i])
      ensures forall i :: 0 <= i < |All()| && i != index ==> All()[i].calls == old(All()[i].calls)
      ensures o == Done && old(All()[index].state) == Ignore ==>
                && enabledRenderers == old(enabledRenderers) && pendingWork == old(pendingWork)
                && All()[index].calls == old(All()[index].calls)
      ensures o == Done && old(All()[index].state) != Ignore && enabled ==>
                && enabledRenderers == old(enabledRenderers) + [All()[index]] && pendingWork == old(pendingWork) + 1
                && All()[index].calls == old(All()[index].calls) + [OnEnabled(positionUs, Playing())]
                  + Turn(false, Playing())
      ensures o == Done && old(All()[index].state) != Ignore && !enabled ==>
                && enabledRenderers == Without(old(enabledRenderers), All()[index]) && pendingWork == old(pendingWork)
                && All()[index].calls == old(All()[index].calls) + Turn(Playing(), false) + [OnDisabled]
      ensures if old(All()[index].state) != Ignore && !enabled && timeSource == All()[index]
                    && env.position(timeSource).PositionAt? then
                ClockSet(env.nowUs) && PositionAt(clock.lastSetUs) == env.position(timeSource)
              else ClockContinues(env.nowUs)
    {
      var rendererState := renderers.value[index].state;
      DistinctMeansApart(All());
      if rendererState != Prepared && rendererState != Enabled && rendererState != Started {
        return Done;
      }
      if enabled {
        o := EnableRenderer(index, env);
      } else {
        o := DisableRenderer(index, env);
      }
    }

    method SetRendererEnabledInternal(index: nat, enabled: bool, env: Env) returns (o: Outcome)
      requires Valid() && index < flags.Length
      modifies flags, `enabledRenderers, `pendingWork, clock, All()
      ensures o != IllegalState && Consistent() && flags[..] == old(flags[..])[index := enabled]
      ensures NothingFails(All(), env) ==> o == Done
      ensures o == Done ==> Valid()
      ensures o == Done && !old(TakesEffect(index, enabled)) ==>
                && enabledRenderers == old(enabledRenderers) && pendingWork == old(pendingWork)
                && forall i :: 0 <= i < |All()| ==> All()[i].calls == old(All()[i].calls)
      ensures forall i :: 0 <= i < |All()| && i != index ==> All()[i].calls == old(All()[i].calls)
      ensures o == Done && old(TakesEffect(index, enabled)) && enabled ==>
                && enabledRenderers == old(enabledRenderers) + [All()[index]] && pendingWork == old(pendingWork) + 1
                && All()[index].calls == old(All()[index].calls) + [OnEnabled(positionUs, Playing())]
                  + Turn(false, Playing())
      ensures o == Done && old(TakesEffect(index, enabled)) && !enabled ==>
                && enabledRenderers == Without(old(enabledRenderers), All()[index]) && pendingWork == old(pendingWork)
                && All()[index].calls == old(All()[index].calls) + Turn(Playing(), false) + [OnDisabled]
      ensures if old(HandsOver(index, enabled, env)) then
                ClockSet(env.nowUs) && PositionAt(clock.lastSetUs) == env.position(timeSource)
              else ClockContinues(env.nowUs)
    {
      o := Done;
      if flags[index] != enabled {
        flags[index] := enabled;
        if state != Idle && state != Preparing {
          o := JoinOrLeave(index, enabled, env);
        }
      }
    }

    /** The messages the environment may deliver: a player is prepared only when idle and with renderers of its own,
        set-play messages alternate, and self-posted messages are delivered only if they were posted. */
    predicate Deliverable(m: Message)
      reads this, flags, Brought(m)
    {
      match m
      case Prepare(rs) =>
        && state == Idle && Distinct(rs) && |rs| == flags.Length
        && forall i :: 0 <= i < |rs| ==> rs[i].state == Unprepared
      case IncrementalPrepare => pendingPrepare > 0
      case DoSomeWork => pendingWork > 0
      case SetPlayWhenReady(play) => play != playWhenReady
      case SetRendererEnabled(index, _) => index < flags.Length
      case _ => true
    }

    ghost function Snap(): Snapshot
      reads `playWhenReady, `state, `delivered, `events, `customMessagesProcessed, `released, flags
    {
      Snapshot(playWhenReady, state, flags[..], delivered, events, customMessagesProcessed, released)
    }

    /** The renderers the player has while it handles a message. */
    function Roster(m: Message): seq<TrackRenderer>
      reads `renderers
    {
      if m.Prepare? then m.prepared else All()
    }

    /** Every renderer is released unless its own callbacks keep it from being released. */
    ghost predicate AllReleased(rs: seq<TrackRenderer>, env: Env)
      reads rs
    {
      forall i :: 0 <= i < |rs| ==> CannotBeReleased(rs[i], env) || rs[i].state == Released
    }

    /** What handling a message comes to, whichever handler it reaches, for the renderers of the player. */
    twostate predicate Takes(m: Message, env: Env, o: Outcome, roster: seq<TrackRenderer>)
      requires old(Deliverable(m))
      reads this, clock, flags, All(), Brought(m), roster
    {
      && o != IllegalState && Consistent() && (o == Done ==> Valid())
      && Snap() == After(old(Snap()), m, state, Done)
      && (m.SetPlayWhenReady? ==> state == old(state))
      && ClockFollows(old(TimeSetBy(m, env)), env.nowUs)
      && All() == (if m.Stop? || m.Release? then [] else roster)
      && (m.Stop? || m.Release? ==> o == Done && AllReleased(roster, env))
      && (NothingFails(roster, env) && !m.Prepare? ==> o == Done)
      && (m.Prepare? ==> (o == Threw <==> exists i, j :: 0 <= i < j < |m.prepared|
                                            && m.prepared[i].isTimeSource && m.prepared[j].isTimeSource))
    }

    ghost function SceneNow(env: Env, roster: seq<TrackRenderer>): Scene
      reads this, clock, flags, roster
    {
      Scene(state, playWhenReady, rebuffering, enabledRenderers, flags[..], CallsOf(roster), StatesOf(roster),
        positionUs, PositionNow(env), pendingWork)
    }

    /** What a message that goes through brings about: what each renderer is called with, which are enabled, where the
        player goes and where playback stands. */
    ghost predicate Achieves(m: Message, env: Env, roster: seq<TrackRenderer>, was: Scene, now: Scene) {
      && |roster| == |was.calls| == |now.calls| == |was.lifecycles|
      && (!m.SetRendererEnabled? ==> now.flags == was.flags)
      && match m
         case Prepare(_) => Unmoved(roster, was, now) && now.state == Preparing && now.pendingWork == was.pendingWork
         case IncrementalPrepare => |roster| == |was.flags| && Prepares(env, roster, was, now)
         case SetPlayWhenReady(play) => Turns(play, roster, was, now)
         case DoSomeWork => Works(env, roster, was, now)
         case SeekTo(positionMs) => Seeks(positionMs * 1000, roster, was, now)
         case Stop => CleansUp(env, roster, was, now)
         case Release => CleansUp(env, roster, was, now)
         case Custom(_) =>
           && Unmoved(roster, was, now) && now.state == was.state
           && now.pendingWork == was.pendingWork + if IsActive(was.state) then 1 else 0
         case SetRendererEnabled(index, enabled) =>
           index < |was.flags| && Switches(index, enabled, roster, was, now)
    }

    /** A message that has not thrown has achieved what it should, and only Prepare throws of its own accord. */
    ghost predicate Explains(h: Handling) {
      && (h.o != Threw ==> Achieves(h.m, h.env, h.roster, h.was, h.now))
      && (NothingFails(h.roster, h.env) && !h.m.Prepare? ==> h.o == Done)
    }

    /** No renderer is called, and playback stands where it did. */
    ghost predicate Unmoved(roster: seq<TrackRenderer>, was: Scene, now: Scene)
      requires |roster| == |was.calls| == |now.calls|
    {
      && now.list == was.list && now.positionUs == was.positionUs
      && forall i :: 0 <= i < |roster| ==> now.calls[i] == was.calls[i]
    }

    /** Each unprepared renderer is asked to prepare; once none is left, each prepared one that is flagged is enabled,
        and the player goes where their answers call for. */
    ghost predicate Prepares(env: Env, roster: seq<TrackRenderer>, was: Scene, now: Scene)
      requires |roster| == |was.calls| == |now.calls| == |was.lifecycles| == |was.flags|
    {
      && now.positionUs == was.positionUs
      && (now.state == Preparing <==> SomeStayUnprepared(roster, was.lifecycles, env))
      && (now.state != Preparing ==>
            FollowsAnswers(Preparing, now.list, env, if was.rebuffering then minRebufferUs else minBufferUs,
                           was.positionUs, now.state))
      && now.pendingWork == (if now.state == Preparing then 0 else 1)
      && forall i :: 0 <= i < |roster| ==>
           && (roster[i] in now.list <==>
                 && now.state != Preparing && was.flags[i]
                 && AfterPrepare(was.lifecycles[i], env.prepare(roster[i])) == Prepared)
           && var asked := was.calls[i] + if was.lifecycles[i] == Unprepared then [OnPrepare] else [];
              now.calls[i] ==
                if roster[i] in now.list then asked + [OnEnabled(was.positionUs, false)] + Turn(false, now.Playing())
                else asked
    }

    /** Playback starts or stops: the listed renderers are told, and a paused player knows where it is. */
    ghost predicate Turns(play: bool, roster: seq<TrackRenderer>, was: Scene, now: Scene)
      requires |roster| == |was.calls| == |now.calls|
    {
      && now.playWhenReady == play && now.state == was.state && now.list == was.list
      && (forall i :: 0 <= i < |roster| ==>
            now.calls[i] ==
              if roster[i] in was.list then was.calls[i] + Turn(was.Playing(), now.Playing()) else was.calls[i])
      && (if play then now.positionUs == was.positionUs else was.position == PositionAt(now.positionUs))
      && now.pendingWork == was.pendingWork + if play && was.state in {Ready, Buffering} then 1 else 0
    }

    /** A round of work: each listed renderer works at the new position, and the player goes where their answers call
        for, which may start or stop them. */
    ghost predicate Works(env: Env, roster: seq<TrackRenderer>, was: Scene, now: Scene)
      requires |roster| == |was.calls| == |now.calls|
    {
      && was.position == PositionAt(now.positionUs) && now.list == was.list
      && FollowsAnswers(was.state, was.list, env, if was.rebuffering then minRebufferUs else minBufferUs,
                        now.positionUs, now.state)
      && (forall i :: 0 <= i < |roster| ==>
            now.calls[i] ==
              if roster[i] in was.list then
                was.calls[i] + [OnWork(now.positionUs)] + Turn(was.Playing(), now.Playing())
              else was.calls[i])
      && now.rebuffering == (if was.state == Ready && now.state == Buffering then was.playWhenReady
                             else was.rebuffering && !(was.state == Buffering && now.Playing()))
      && now.pendingWork == (if now.Playing() || now.state == Buffering || now.list != [] then 1 else 0)
    }

    /** A seek: an active player buffers again, each listed renderer having been stopped and sent to the position. */
    ghost predicate Seeks(timeUs: int, roster: seq<TrackRenderer>, was: Scene, now: Scene)
      requires |roster| == |was.calls| == |now.calls|
    {
      && now.positionUs == timeUs && now.list == was.list && !now.rebuffering
      && now.state == (if IsActive(was.state) then Buffering else was.state)
      && now.pendingWork == was.pendingWork + (if IsActive(was.state) then 1 else 0)
      && forall i :: 0 <= i < |roster| ==>
           now.calls[i] ==
             if roster[i] in was.list then was.calls[i] + Turn(was.Playing(), false) + [OnSeek(timeUs)]
             else was.calls[i]
    }

    ghost predicate CleansUp(env: Env, roster: seq<TrackRenderer>, was: Scene, now: Scene)
      requires |roster| == |was.calls| == |now.calls| == |was.lifecycles|
    {
      && now.state == Idle && now.list == [] && now.pendingWork == 0
      && forall i :: 0 <= i < |roster| ==>
           now.calls[i] == was.calls[i] + CleanCalls(was.lifecycles[i], roster[i], env)
    }

    /** A renderer that has been prepared joins the list or leaves it at once, started or stopped as need be; no other
        is touched. */
    ghost predicate Switches(index: nat, enabled: bool, roster: seq<TrackRenderer>, was: Scene, now: Scene)
      requires |roster| == |was.calls| == |now.calls| == |was.lifecycles| && index < |was.flags|
    {
      && now.flags == was.flags[index := enabled] && now.state == was.state && now.positionUs == was.positionUs
      && (forall i :: 0 <= i < |roster| && i != index ==> now.calls[i] == was.calls[i])
      && if !IsActive(was.state) || was.flags[index] == enabled || index >= |roster| || was.lifecycles[index] == Ignore
         then
           && (index < |roster| ==> now.calls[index] == was.calls[index])
           && now.list == was.list && now.pendingWork == was.pendingWork
         else
           && now.list == (if enabled then was.list + [roster[index]] else Without(was.list, roster[index]))
           && now.pendingWork == was.pendingWork + (if enabled then 1 else 0)
           && now.calls[index] ==
                if enabled then
                  was.calls[index] + [OnEnabled(was.positionUs, was.Playing())] + Turn(false, was.Playing())
                else was.calls[index] + Turn(was.Playing(), false) + [OnDisabled]
    }

    method DispatchPrepare(m: Message, env: Env) returns (o: Outcome)
      requires Valid() && Deliverable(m) && m.Prepare?
      modifies this, clock, flags, All()
      ensures Takes(m, env, o, old(Roster(m)))
      ensures o == Done ==>
                Achieves(m, env, old(Roster(m)), old(SceneNow(env, Roster(m))), SceneNow(env, old(Roster(m))))
    {
      o := PrepareInternal(m.prepared, env);
    }

    method DispatchStop(m: Message, env: Env) returns (o: Outcome)
      requires Valid() && Deliverable(m) && (m.Stop? || m.Release?)
      modifies this, clock, flags, All()
      ensures Takes(m, env, o, old(Roster(m)))
      ensures o == Done ==>
                Achieves(m, env, old(Roster(m)), old(SceneNow(env, Roster(m))), SceneNow(env, old(Roster(m))))
    {
      o := Done;
      if m.Stop? {
        StopInternal(env);
      } else {
        ReleaseInternal(env);
      }
    }

    /** Preparing goes on, as a change of scene. */
    method PrepareOn(m: Message, env: Env) returns (o: Outcome)
      requires Valid() && pendingPrepare > 0 && m.IncrementalPrepare?
      modifies `rebuffering, `enabledRenderers, `state, `events, `pendingWork, `pendingPrepare, clock, All()
      ensures o != IllegalState && Consistent() && ClockContinues(env.nowUs)
      ensures NothingFails(All(), env) ==> o == Done
      ensures events == old(events) + Change(Preparing, state)
      ensures o == Done ==> Valid()
      ensures o == Done ==>
                Achieves(m, env, old(Roster(m)), old(SceneNow(env, Roster(m))), SceneNow(env, old(Roster(m))))
    {
      o := IncrementalPrepareInternal(env);
    }

    method DispatchIncrementalPrepare(m: Message, env: Env) returns (o: Outcome)
      requires Valid() && Deliverable(m) && m.IncrementalPrepare?
      modifies this, clock, flags, All()
      ensures Takes(m, env, o, old(Roster(m)))
      ensures o == Done ==>
                Achieves(m, env, old(Roster(m)), old(SceneNow(env, Roster(m))), SceneNow(env, old(Roster(m))))
    {
      o := PrepareOn(m, env);
    }

    /** A round of work, as a change of scene. */
    method WorkOn(m: Message, env: Env) returns (o: Outcome)
      requires Valid() && pendingWork > 0 && m.DoSomeWork?
      modifies `rebuffering, `state, `events, `pendingWork, `positionUs, clock, enabledRenderers
      ensures o != IllegalState && Consistent() && ClockContinues(env.nowUs)
      ensures NothingFails(All(), env) ==> o == Done
      ensures events == old(events) + Change(old(state), state)
      ensures o == Done ==> Valid()
      ensures o == Done ==>
                Achieves(m, env, old(Roster(m)), old(SceneNow(env, Roster(m))), SceneNow(env, old(Roster(m))))
    {
      o := DoSomeWorkInternal(env);
    }

    method DispatchWork(m: Message, env: Env) returns (o: Outcome)
      requires Valid() && Deliverable(m) && m.DoSomeWork?
      modifies this, clock, flags, All()
      ensures Takes(m, env, o, old(Roster(m)))
      ensures o == Done ==>
                Achieves(m, env, old(Roster(m)), old(SceneNow(env, Roster(m))), SceneNow(env, old(Roster(m))))
    {
      o := WorkOn(m, env);
    }

    /** Pausing or resuming, as a change of scene. */
    method PauseOrResume(m: Message, env: Env) returns (o: Outcome)
      requires Valid() && m.SetPlayWhenReady? && m.play != playWhenReady
      modifies `rebuffering, `playWhenReady, `positionUs, `pendingWork, `events, clock, enabledRenderers
      ensures o != IllegalState && Consistent() && playWhenReady == m.play && (o == Done ==> Valid())
      ensures NothingFails(All(), env) ==> o == Done
      ensures events == old(events) + [PlayWhenReadyAck] && ClockContinues(env.nowUs)
      ensures o == Done ==>
                Achieves(m, env, old(Roster(m)), old(SceneNow(env, Roster(m))), SceneNow(env, old(Roster(m))))
    {
      o := SetPlayWhenReadyInternal(m.play, env);
    }

    method DispatchSetPlayWhenReady(m: Message, env: Env) returns (o: Outcome)
      requires Valid() && Deliverable(m) && m.SetPlayWhenReady?
      modifies this, clock, flags, All()
      ensures Takes(m, env, o, old(Roster(m)))
      ensures o == Done ==>
                Achieves(m, env, old(Roster(m)), old(SceneNow(env, Roster(m))), SceneNow(env, old(Roster(m))))
    {
      o := PauseOrResume(m, env);
    }

    /** A seek, as a change of scene. */
    method SeekOn(m: Message, env: Env) returns (o: Outcome)
      requires Valid() && m.SeekTo?
      modifies `rebuffering, `state, `events, `pendingWork, `positionUs, clock, enabledRenderers
      ensures o != IllegalState && Consistent() && (o == Done ==> Valid())
      ensures NothingFails(enabledRenderers, env) ==> o == Done
      ensures clock.sets == old(clock.sets) + 1 && clock.Reading(env.nowUs) == clock.lastSetUs == m.positionMs * 1000
      ensures events == old(events) + Change(old(state), state)
      ensures o == Done ==>
                Achieves(m, env, old(Roster(m)), old(SceneNow(env, Roster(m))), SceneNow(env, old(Roster(m))))
    {
      o := SeekToInternal(m.positionMs, env);
    }

    method DispatchSeek(m: Message, env: Env) returns (o: Outcome)
      requires Valid() && Deliverable(m) && m.SeekTo?
      modifies this, clock, flags, All()
      ensures Takes(m, env, o, old(Roster(m)))
      ensures o == Done ==>
                Achieves(m, env, old(Roster(m)), old(SceneNow(env, Roster(m))), SceneNow(env, old(Roster(m))))
    {
      o := SeekOn(m, env);
    }

    method DispatchCustom(m: Message, env: Env) returns (o: Outcome)
      requires Valid() && Deliverable(m) && m.Custom?
      modifies this, clock, flags, All()
      ensures Takes(m, env, o, old(Roster(m)))
      ensures o == Done ==>
                Achieves(m, env, old(Roster(m)), old(SceneNow(env, Roster(m))), SceneNow(env, old(Roster(m))))
    {
      o := SendMessageInternal(m.payload, env);
    }

    /** A switch, as a change of scene. */
    method SwitchRenderer(m: Message, env: Env) returns (o: Outcome)
      requires Valid() && m.SetRendererEnabled? && m.index < flags.Length
      modifies flags, `enabledRenderers, `pendingWork, clock, All()
      ensures o != IllegalState && Consistent() && flags[..] == old(flags[..])[m.index := m.enabled]
      ensures NothingFails(All(), env) ==> o == Done
      ensures o == Done ==> Valid()
      ensures o == Done ==>
                Achieves(m, env, old(Roster(m)), old(SceneNow(env, Roster(m))), SceneNow(env, old(Roster(m))))
      ensures if old(HandsOver(m.index, m.enabled, env)) then
                ClockSet(env.nowUs) && PositionAt(clock.lastSetUs) == env.position(timeSource)
              else ClockContinues(env.nowUs)
    {
      o := SetRendererEnabledInternal(m.index, m.enabled, env);
    }

    method DispatchSwitch(m: Message, env: Env) returns (o: Outcome)
      requires Valid() && Deliverable(m) && m.SetRendererEnabled?
      modifies this, clock, flags, All()
      ensures Takes(m, env, o, old(Roster(m)))
      ensures o == Done ==>
                Achieves(m, env, old(Roster(m)), old(SceneNow(env, Roster(m))), SceneNow(env, old(Roster(m))))
    {
      o := SwitchRenderer(m, env);
    }

    /** The switch over the message's kind. */
    method Dispatch(m: Message, env: Env) returns (o: Outcome)
      requires Valid() && Deliverable(m)
      modifies this, clock, flags, All()
      ensures Takes(m, env, o, old(Roster(m)))
      ensures o == Done ==>
                Achieves(m, env, old(Roster(m)), old(SceneNow(env, Roster(m))), SceneNow(env, old(Roster(m))))
    {
      match m {
        case Prepare(_) => o := DispatchPrepare(m, env);
        case IncrementalPrepare => o := DispatchIncrementalPrepare(m, env);
        case SetPlayWhenReady(_) => o := DispatchSetPlayWhenReady(m, env);
        case DoSomeWork => o := DispatchWork(m, env);
        case SeekTo(_) => o := DispatchSeek(m, env);
        case Stop => o := DispatchStop(m, env);
        case Release => o := DispatchStop(m, env);
        case Custom(_) => o := DispatchCustom(m, env);
        case SetRendererEnabled(_, _) => o := DispatchSwitch(m, env);
      }
    }

    /** What handleMessage does with anything thrown. */
    method Recover(env: Env)
      requires Consistent()
      modifies `rebuffering, `pendingWork, `pendingPrepare, `renderers, `timeSource, `enabledRenderers, `state, `events
      modifies clock, All()
      ensures Valid() && !rebuffering && All() == [] && ClockContinues(env.nowUs)
      ensures Snap() == Failed(old(Snap())) && events == old(events) + ([PlayerError] + Change(old(state), Idle))
      ensures AllReleased(old(All()), env)
    {
      events := events + [PlayerError];
      StopInternal(env);
    }

    /** The message is dispatched; whatever is thrown, the player is reset. */
    method DispatchOrRecover(m: Message, env: Env, cleanup: Env) returns (o: Outcome, ghost mid: PlayerState)
      requires Valid() && Deliverable(m) && cleanup.nowUs == env.nowUs
      modifies this, clock, flags, All(), Brought(m)
      ensures Valid() && o != IllegalState
      ensures Snap() == After(old(Snap()), m, mid, o) && (o == Threw ==> !rebuffering)
      ensures m.SetPlayWhenReady? ==> mid == old(state)
      ensures ClockFollows(old(TimeSetBy(m, env)), env.nowUs)
      ensures All() == if o == Threw || m.Stop? || m.Release? then [] else old(Roster(m))
      ensures o == Done ==>
                Achieves(m, env, old(Roster(m)), old(SceneNow(env, Roster(m))), SceneNow(env, old(Roster(m))))
      ensures m.DoSomeWork? && o == Done ==>
                PositionAt(positionUs) ==
                  if old(timeSource != null && timeSource in enabledRenderers) then env.position(old(timeSource))
                  else PositionAt(old(clock.Reading(env.nowUs)))
      ensures NothingFails(old(Roster(m)), env) && !m.Prepare? ==> o == Done
      ensures m.Prepare? ==> (o == Threw <==> exists i, j :: 0 <= i < j < |m.prepared|
                                                && m.prepared[i].isTimeSource && m.prepared[j].isTimeSource)
      ensures events == old(events) + (if m.SetPlayWhenReady? then [PlayWhenReadyAck] else Change(old(state), mid))
                          + if o == Threw then [PlayerError] + Change(mid, Idle) else []
      ensures m.Stop? || m.Release? ==> AllReleased(old(All()), env)
      ensures o == Threw ==> AllReleased(old(Roster(m)), cleanup)
    {
      o := Dispatch(m, env);
      mid := state;
      FailingAfterwards(old(Snap()), m, mid);
      if o != Done {
        Recover(cleanup);
      }
    }

    /** handleMessage: whatever is thrown on the way, the player is reset and goes on from there. No lifecycle check
        fails in any handler, and a reset releases every renderer whose own callbacks do not prevent it. */
    method HandleMessage(m: Message, env: Env, cleanup: Env) returns (o: Outcome, ghost mid: PlayerState)
      requires Valid() && Deliverable(m) && cleanup.nowUs == env.nowUs
      modifies this, clock, flags, All(), Brought(m)
      ensures Valid() && o != IllegalState
      ensures Snap() == After(old(Snap()), m, mid, o) && (o == Threw ==> !rebuffering)
      ensures m.SetPlayWhenReady? ==> mid == old(state)
      ensures ClockFollows(old(TimeSetBy(m, env)), env.nowUs)
      ensures All() == if o == Threw || m.Stop? || m.Release? then [] else old(Roster(m))
      ensures o == Done ==>
                Achieves(m, env, old(Roster(m)), old(SceneNow(env, Roster(m))), SceneNow(env, old(Roster(m))))
      ensures m.DoSomeWork? && o == Done ==>
                PositionAt(positionUs) ==
                  if old(timeSource != null && timeSource in enabledRenderers) then env.position(old(timeSource))
                  else PositionAt(old(clock.Reading(env.nowUs)))
      ensures m.DoSomeWork? && o == Done ==> forall i :: 0 <= i < |All()| ==>
                All()[i].calls ==
                  if All()[i] in old(enabledRenderers) then
                    old(All()[i].calls) + [OnWork(positionUs)] + Turn(old(Playing()), Playing())
                  else old(All()[i].calls)
      ensures m.SeekTo? && o == Done ==> forall i :: 0 <= i < |All()| ==>
                All()[i].calls ==
                  if All()[i] in old(enabledRenderers) then
                    old(All()[i].calls) + Turn(old(Playing()), false) + [OnSeek(m.positionMs * 1000)]
                  else old(All()[i].calls)
      ensures m.SetPlayWhenReady? && o == Done ==> forall i :: 0 <= i < |All()| ==>
                All()[i].calls ==
                  if All()[i] in old(enabledRenderers) then
                    old(All()[i].calls) + Turn(old(Playing()), state == Ready && m.play)
                  else old(All()[i].calls)
      ensures NothingFails(old(Roster(m)), env) && !m.Prepare? ==> o == Done
      ensures m.Prepare? ==> (o == Threw <==> exists i, j :: 0 <= i < j < |m.prepared|
                                                && m.prepared[i].isTimeSource && m.prepared[j].isTimeSource)
      ensures events == old(events) + (if m.SetPlayWhenReady? then [PlayWhenReadyAck] else Change(old(state), mid))
                          + if o == Threw then [PlayerError] + Change(mid, Idle) else []
      ensures m.Stop? || m.Release? ==> AllReleased(old(All()), env)
      ensures o == Threw ==> AllReleased(old(Roster(m)), cleanup)
    {
      o, mid := DispatchOrRecover(m, env, cleanup);
    }

    /** The handling of a message, told as a whole. */
    method Receive(m: Message, env: Env, cleanup: Env) returns (ghost h: Handling)
      requires Valid() && Deliverable(m) && cleanup.nowUs == env.nowUs
      modifies this, clock, flags, All(), Brought(m)
      ensures Valid() && h.o != IllegalState && (m.SetPlayWhenReady? ==> h.mid == old(state))
      ensures Snap() == After(old(Snap()), m, h.mid, h.o)
      ensures All() == if h.o == Threw || m.Stop? || m.Release? then [] else old(Roster(m))
      ensures ClockFollows(old(TimeSetBy(m, env)), env.nowUs)
      ensures h.m == m && h.env == env && h.roster == old(Roster(m))
      ensures h.was == old(SceneNow(env, Roster(m))) && h.now == SceneNow(env, h.roster)
      ensures Explains(h)
    {
      ghost var roster, was := Roster(m), SceneNow(env, Roster(m));
      var o, mid := HandleMessage(m, env, cleanup);
      h := Handling(m, env, o, mid, roster, was, SceneNow(env, roster));
    }
  }
}
