/** The application's side of the player (ExoPlayerImpl.java) and the two queues between it and the playback
    thread: one FIFO of commands, one FIFO of events, and the playback thread's self-posted messages, which may
    be delivered at any time. */
module PlayerMirror {
  import opened Basics
  import opened Clocks
  import opened Renderers
  import opened PlaybackEngine

  // ---------------------------------------------------------------- what is in the queues

  /** The messages the application sends. */
  predicate IsCommand(m: Message) {
    !m.IncrementalPrepare? && !m.DoSomeWork?
  }

  function SetPlays(commands: seq<Message>): nat {
    if commands == [] then 0 else (if commands[0].SetPlayWhenReady? then 1 else 0) + SetPlays(commands[1..])
  }

  function Acks(events: seq<Event>): nat {
    if events == [] then 0 else (if events[0] == PlayWhenReadyAck then 1 else 0) + Acks(events[1..])
  }

  /** The set-play commands lead from one value to the other, each changing the value. */
  predicate Toggles(from: bool, commands: seq<Message>, to: bool)
    decreases |commands|
  {
    if commands == [] then from == to
    else if commands[0].SetPlayWhenReady? then commands[0].play != from && Toggles(commands[0].play, commands[1..], to)
    else Toggles(from, commands[1..], to)
  }

  /** The state-changed events lead from one state to the other, each changing the state. */
  predicate Narrates(from: PlayerState, events: seq<Event>, to: PlayerState)
    decreases |events|
  {
    if events == [] then from == to
    else if events[0].StateChanged? then events[0].state != from && Narrates(events[0].state, events[1..], to)
    else Narrates(from, events[1..], to)
  }

  /** The components' messages that are still to be delivered. */
  function Payloads(commands: seq<Message>): seq<int> {
    if commands == [] then [] else Payload(commands[0]) + Payloads(commands[1..])
  }

  /** The flags once every command has been handled. */
  function FlagsAfter(flags: seq<bool>, commands: seq<Message>): seq<bool>
    decreases |commands|
  {
    if commands == [] then flags else FlagsAfter(Switched(flags, commands[0]), commands[1..])
  }

  lemma {:induction false} NoSwitchesLeft(flags: seq<bool>, commands: seq<Message>)
    requires forall k :: 0 <= k < |commands| ==> !commands[k].SetRendererEnabled?
    ensures FlagsAfter(flags, commands) == flags
    decreases |commands|
  {
    if commands != [] {
      NoSwitchesLeft(flags, commands[1..]);
    }
  }

  lemma {:induction false} PayloadsAppend(a: seq<Message>, m: Message)
    ensures Payloads(a + [m]) == Payloads(a) + Payload(m)
  {
    if a == [] {
      assert a + [m] == [m] && [m][1..] == [];
    } else {
      assert (a + [m])[1..] == a[1..] + [m];
      PayloadsAppend(a[1..], m);
    }
  }

  lemma {:induction false} CommandsAppend(a: seq<Message>, m: Message, flags: seq<bool>)
    ensures SetPlays(a + [m]) == SetPlays(a) + SetPlays([m])
    ensures FlagsAfter(flags, a + [m]) == Switched(FlagsAfter(flags, a), m)
  {
    if a == [] {
      assert a + [m] == [m] && [m][1..] == [];
    } else {
      assert (a + [m])[1..] == a[1..] + [m];
      CommandsAppend(a[1..], m, Switched(flags, a[0]));
    }
  }

  lemma {:induction false} TogglesAppend(from: bool, a: seq<Message>, to: bool, m: Message)
    requires Toggles(from, a, to)
    ensures m.SetPlayWhenReady? && m.play != to ==> Toggles(from, a + [m], m.play)
    ensures !m.SetPlayWhenReady? ==> Toggles(from, a + [m], to)
    decreases |a|
  {
    if a == [] {
      assert a + [m] == [m] && [m][1..] == [];
    } else {
      assert (a + [m])[1..] == a[1..] + [m];
      TogglesAppend(if a[0].SetPlayWhenReady? then a[0].play else from, a[1..], to, m);
    }
  }

  lemma {:induction false} EventsAppend(from: PlayerState, a: seq<Event>, mid: PlayerState, b: seq<Event>,
      to: PlayerState)
    requires Narrates(from, a, mid) && Narrates(mid, b, to)
    ensures Narrates(from, a + b, to) && Acks(a + b) == Acks(a) + Acks(b)
    decreases |a|
  {
    if a == [] {
      assert a + b == b;
    } else {
      assert (a + b)[1..] == a[1..] + b;
      EventsAppend(if a[0].StateChanged? then a[0].state else from, a[1..], mid, b, to);
    }
  }

  /** With no set-play command in the queue both sides agree; otherwise they agree after an even number. */
  lemma {:induction false} TogglesParity(from: bool, commands: seq<Message>, to: bool)
    requires Toggles(from, commands, to)
    ensures from == to <==> SetPlays(commands) % 2 == 0
    decreases |commands|
  {
    if commands != [] {
      TogglesParity(if commands[0].SetPlayWhenReady? then commands[0].play else from, commands[1..], to);
    }
  }

  /** The state the last state-changed event carries, or the given one if there is none. */
  function LastState(events: seq<Event>, s: PlayerState): PlayerState {
    if events == [] then s
    else LastState(events[1..], if events[0].StateChanged? then events[0].state else s)
  }

  lemma {:induction false} NarratesToTheLast(from: PlayerState, events: seq<Event>, to: PlayerState)
    requires Narrates(from, events, to)
    ensures LastState(events, from) == to
    decreases |events|
  {
    if events != [] {
      NarratesToTheLast(if events[0].StateChanged? then events[0].state else from, events[1..], to);
    }
  }

  /** No two state-changed events with nothing but other events between them carry the same state. */
  lemma {:induction false} ConsecutiveStatesDiffer(from: PlayerState, events: seq<Event>, to: PlayerState, i: nat,
      j: nat)
    requires Narrates(from, events, to) && i < j < |events| && events[i].StateChanged? && events[j].StateChanged?
    requires forall k :: i < k < j ==> !events[k].StateChanged?
    ensures events[i] != events[j]
    decreases |events|
  {
    var rest := events[1..];
    if i > 0 {
      ConsecutiveStatesDiffer(if events[0].StateChanged? then events[0].state else from, rest, to, i - 1, j - 1);
    } else {
      FirstStateDiffers(events[0].state, rest, to, j - 1);
    }
  }

  lemma {:induction false} FirstStateDiffers(from: PlayerState, events: seq<Event>, to: PlayerState, j: nat)
    requires Narrates(from, events, to) && j < |events| && events[j].StateChanged?
    requires forall k :: 0 <= k < j ==> !events[k].StateChanged?
    ensures events[j] != StateChanged(from)
    decreases |events|
  {
    if j > 0 {
      assert events[1..][j - 1] == events[j];
      FirstStateDiffers(from, events[1..], to, j - 1);
    }
  }

  // ---------------------------------------------------------------- the mirror

  /** What the application believes, what the playback thread has, and the queues between them. */
  datatype View = View(
    playWhenReady: bool, playbackState: PlayerState, pendingPlayWhenReadyAcks: int, flags: seq<bool>,
    customMessagesSent: nat, sent: seq<int>,
    commands: seq<Message>, engine: Snapshot)

  /** Handling what is queued brings the playback thread to where the application believes it is. */
  predicate QueueFits(v: View) {
    && (forall k :: 0 <= k < |v.commands| ==> IsCommand(v.commands[k]))
    && Toggles(v.engine.playWhenReady, v.commands, v.playWhenReady)
    && FlagsAfter(v.engine.flags, v.commands) == v.flags
    && v.sent == v.engine.delivered + Payloads(v.commands)
    && |v.sent| == v.customMessagesSent && |v.engine.delivered| == v.engine.processed
  }

  /** What holds over every interleaving of the two threads. */
  predicate Mirrors(v: View) {
    && QueueFits(v)
    && Narrates(v.playbackState, v.engine.events, v.engine.state)
    && v.pendingPlayWhenReadyAcks == SetPlays(v.commands) + Acks(v.engine.events)
  }

  /** The view after the application has sent a command. */
  function Sent(v: View, m: Message): View {
    v.(commands := v.commands + [m],
       playWhenReady := if m.SetPlayWhenReady? then m.play else v.playWhenReady,
       pendingPlayWhenReadyAcks := v.pendingPlayWhenReadyAcks + if m.SetPlayWhenReady? then 1 else 0,
       flags := Switched(v.flags, m),
       sent := v.sent + Payload(m),
       customMessagesSent := v.customMessagesSent + |Payload(m)|)
  }

  lemma SendingKeepsMirror(v: View, m: Message)
    requires Mirrors(v) && IsCommand(m) && (m.SetPlayWhenReady? ==> m.play != v.playWhenReady)
    ensures Mirrors(Sent(v, m))
  {
    PayloadsAppend(v.commands, m);
    CommandsAppend(v.commands, m, v.engine.flags);
    TogglesAppend(v.engine.playWhenReady, v.commands, v.playWhenReady, m);
  }

  /** The view after the playback thread has handled a message: normally, which leaves it in state mid, or by
      throwing in state mid and being reset. */
  function Handled(v: View, m: Message, mid: PlayerState, o: Outcome): View {
    v.(commands := if IsCommand(m) && v.commands != [] then v.commands[1..] else v.commands,
       engine := After(v.engine, m, mid, o))
  }

  /** What a handler posts tells the truth about the states it went through, and acknowledges what it must. */
  lemma PostsNarrate(m: Message, from: PlayerState, mid: PlayerState, o: Outcome)
    requires m.SetPlayWhenReady? ==> mid == from
    ensures Narrates(from, Posts(m, from, mid), mid) && Acks(Posts(m, from, mid)) == SetPlays([m])
    ensures Narrates(mid, PostsOfFailure(o, mid), if o == Done then mid else Idle) && Acks(PostsOfFailure(o, mid)) == 0
  {
    assert [m][1..] == [] && Posts(m, from, mid)[|Posts(m, from, mid)|..] == [];
    if o != Done {
      assert PostsOfFailure(o, mid)[1..] == Change(mid, Idle);
      assert mid != Idle ==> Change(mid, Idle)[1..] == [];
    }
  }

  lemma EventsStayInStep(v: View, m: Message, mid: PlayerState, o: Outcome)
    requires Narrates(v.playbackState, v.engine.events, v.engine.state)
              && (m.SetPlayWhenReady? ==> mid == v.engine.state)
    ensures var after := After(v.engine, m, mid, o);
            Narrates(v.playbackState, after.events, after.state)
              && Acks(after.events) == Acks(v.engine.events) + SetPlays([m])
  {
    var posts, failure := Posts(m, v.engine.state, mid), PostsOfFailure(o, mid);
    PostsNarrate(m, v.engine.state, mid, o);
    EventsAppend(v.playbackState, v.engine.events, v.engine.state, posts, mid);
    EventsAppend(v.playbackState, v.engine.events + posts, mid, failure, if o == Done then mid else Idle);
  }

  /** Taking the first command from the queue, or a self-posted message from elsewhere. */
  lemma QueueStaysInStep(v: View, m: Message, mid: PlayerState, o: Outcome)
    requires QueueFits(v) && (IsCommand(m) ==> v.commands != [] && v.commands[0] == m)
    ensures QueueFits(Handled(v, m, mid, o))
    ensures SetPlays(v.commands) == SetPlays([m]) + SetPlays(Handled(v, m, mid, o).commands)
  {
    var rest := Handled(v, m, mid, o).commands;
    assert [m][1..] == [];
    if IsCommand(m) {
      assert v.commands[1..] == rest;
      assert v.engine.delivered + (Payload(m) + Payloads(rest)) == v.engine.delivered + Payload(m) + Payloads(rest);
    } else {
      assert Payload(m) == [];
    }
  }

  /** However a handler ends, the two sides stay in step. */
  lemma HandlingKeepsMirror(v: View, m: Message, mid: PlayerState, o: Outcome)
    requires Mirrors(v) && (IsCommand(m) ==> v.commands != [] && v.commands[0] == m)
    requires m.SetPlayWhenReady? ==> mid == v.engine.state
    ensures Mirrors(Handled(v, m, mid, o))
  {
    EventsStayInStep(v, m, mid, o);
    QueueStaysInStep(v, m, mid, o);
  }

  /** The view after the application has handled an event. */
  function Noticed(v: View): View
    requires v.engine.events != []
  {
    v.(engine := v.engine.(events := v.engine.events[1..]),
       playbackState := if v.engine.events[0].StateChanged? then v.engine.events[0].state else v.playbackState,
       pendingPlayWhenReadyAcks := v.pendingPlayWhenReadyAcks - if v.engine.events[0] == PlayWhenReadyAck then 1 else 0)
  }

  lemma NoticingKeepsMirror(v: View)
    requires Mirrors(v) && v.engine.events != []
    ensures Mirrors(Noticed(v))
  {
  }

  /** Nothing is committed before the playback thread has seen it: once no acknowledgement is pending, both sides
      have the same playWhenReady. */
  lemma CommittedMeansAgreed(v: View)
    requires Mirrors(v) && v.pendingPlayWhenReadyAcks == 0
    ensures v.playWhenReady == v.engine.playWhenReady
  {
    TogglesParity(v.engine.playWhenReady, v.commands, v.playWhenReady);
  }

  lemma LastEventIsTheState(v: View)
    requires Mirrors(v)
    ensures LastState(v.engine.events, v.playbackState) == v.engine.state
  {
    NarratesToTheLast(v.playbackState, v.engine.events, v.engine.state);
  }

  /** Messages to components are delivered in the order they were sent, none is lost, and the k-th is still on its
      way exactly while fewer than k + 1 have been delivered. */
  lemma DeliveredInOrder(v: View, k: nat)
    requires Mirrors(v) && k < |v.sent|
    ensures |v.engine.delivered| <= |v.sent| && v.engine.delivered == v.sent[..|v.engine.delivered|]
    ensures if k < |v.engine.delivered| then v.engine.delivered[k] == v.sent[k]
            else && k - |v.engine.delivered| < |Payloads(v.commands)|
                 && Payloads(v.commands)[k - |v.engine.delivered|] == v.sent[k]
  {
  }

  // ---------------------------------------------------------------- the player

  /** One step of either thread, or the passing of time. */
  datatype Step =
    | AppSetPlayWhenReady(play: bool)
    | AppSetRendererEnabled(index: nat, enabled: bool)
    | AppPrepare(rs: seq<TrackRenderer>)
    | AppSeekTo(positionMs: int)
    | AppStop
    | AppSend(payload: int)
    | AppBlockingSend(payload: int)
    | AppWake
    | AppRelease
    | AppHandleEvent
    | EngineHandleCommand(env: Env, cleanup: Env)
    | EngineIncrementalPrepare(env: Env, cleanup: Env)
    | EngineDoSomeWork(env: Env, cleanup: Env)
    | Tick(elapsedUs: nat)

  /** What a command makes of playWhenReady. */
  function Requested(m: Message, playWhenReady: bool): bool {
    if m.SetPlayWhenReady? then m.play else playWhenReady
  }

  /** The environment of a step of the playback thread, at the time it is taken. */
  function EnvOf(step: Step, nowUs: int): Env
    requires step.EngineHandleCommand? || step.EngineIncrementalPrepare? || step.EngineDoSomeWork?
  {
    step.env.(nowUs := nowUs)
  }

  function ElapsedIn(step: Step): nat {
    if step.Tick? then step.elapsedUs else 0
  }

  function SentIn(step: Step): seq<int> {
    match step
    case AppSend(payload) => [payload]
    case AppBlockingSend(payload) => [payload]
    case _ => []
  }

  /** The commands an application call sends, given the values it finds: set-play and switches only for a change, and
      release only once. */
  function CommandsOf(step: Step, playWhenReady: bool, flags: seq<bool>, released: bool): seq<Message> {
    match step
    case AppSetPlayWhenReady(play) => if play == playWhenReady then [] else [SetPlayWhenReady(play)]
    case AppSetRendererEnabled(index, enabled) =>
      if index < |flags| && flags[index] != enabled then [SetRendererEnabled(index, enabled)] else []
    case AppPrepare(rs) => [Prepare(rs)]
    case AppSeekTo(positionMs) => [SeekTo(positionMs)]
    case AppStop => [Stop]
    case AppSend(payload) => [Custom(payload)]
    case AppBlockingSend(payload) => [Custom(payload)]
    case AppRelease => if released then [] else [Release]
    case _ => []
  }

  /** The real time a run takes. */
  function Elapsed(script: seq<Step>): nat {
    if script == [] then 0 else Elapsed(script[..|script| - 1]) + ElapsedIn(script[|script| - 1])
  }

  class Player {
    const engine: Engine
    const flags: array<bool>
    /** Every renderer the application ever hands over. */
    ghost const cast: set<TrackRenderer>
    var playWhenReady: bool
    var playbackState: PlayerState
    var pendingPlayWhenReadyAcks: int
    /** Commands sent and not yet handled. */
    var commands: seq<Message>
    var customMessagesSent: nat
    /** The application thread is blocked: until this message is processed, or until the player is released. */
    var waiting: Option<nat>
    var releasing: bool
    /** Real time. */
    var nowUs: int
    ghost var sent: seq<int>
    /** The real time spent playing since the clock was last set. */
    ghost var playedUs: int

    ghost function Sees(): View
      reads `playWhenReady, `playbackState, `pendingPlayWhenReadyAcks, `customMessagesSent, `sent, `commands, flags
      reads engine`playWhenReady, engine`state, engine`delivered, engine`events, engine`customMessagesProcessed
      reads engine`released, engine.flags
    {
      View(playWhenReady, playbackState, pendingPlayWhenReadyAcks, flags[..], customMessagesSent, sent, commands,
        engine.Snap())
    }

    /** What every step of a run keeps. */
    ghost predicate Valid()
      reads this, flags, engine, engine.flags, engine.clock, engine.All()`state
    {
      && engine.Valid()
      && Mirrors(Sees())
      && flags != engine.flags && flags.Length == engine.flags.Length
      && (forall i :: 0 <= i < |engine.All()| ==> engine.All()[i] in cast)
      && (forall k :: 0 <= k < |commands| ==> Allowed(commands[k]))
      && (waiting.Some? ==> waiting.value < customMessagesSent)
      && engine.clock.Reading(nowUs) == engine.clock.lastSetUs + playedUs
    }

    /** What a command may refer to. */
    ghost predicate Allowed(m: Message)
      reads this
    {
      && (forall i :: 0 <= i < |Brought(m)| ==> Brought(m)[i] in cast)
      && (m.SetRendererEnabled? ==> m.index < flags.Length)
    }

    constructor (rendererCount: nat, minBufferMs: int, minRebufferMs: int, nowUs: int, ghost cast: set<TrackRenderer>)
      ensures Valid() && fresh(engine) && fresh(engine.clock) && fresh(engine.flags) && fresh(flags)
      ensures this.cast == cast && commands == [] && engine.events == [] && !playWhenReady && playbackState == Idle
      ensures flags.Length == rendererCount
    {
      playWhenReady, playbackState, pendingPlayWhenReadyAcks := false, Idle, 0;
      flags := new bool[rendererCount](i => true);
      commands, customMessagesSent, waiting, releasing, this.nowUs := [], 0, None, false, nowUs;
      sent, playedUs := [], 0;
      this.cast := cast;
      engine := new Engine(rendererCount, false, minBufferMs, minRebufferMs);
      new;
      assert engine.flags[..] == flags[..];
    }

    /** The application thread is not inside a blocking call. */
    predicate Free()
      reads this
    {
      waiting.None? && !releasing
    }

    // -------------------------------------------------------------- the application thread

    method Send(m: Message)
      requires Valid() && IsCommand(m) && Allowed(m) && !m.SetPlayWhenReady? && !m.SetRendererEnabled? && !m.Custom?
      modifies `commands
      ensures Valid() && commands == old(commands) + [m]
    {
      SendingKeepsMirror(Sees(), m);
      commands := commands + [m];
    }

    /** Only a change is sent, so the commands alternate. */
    method SetPlayWhenReady(play: bool)
      requires Valid()
      modifies `playWhenReady, `pendingPlayWhenReadyAcks, `commands
      ensures Valid() && playWhenReady == play
      ensures commands == if old(playWhenReady) == play then old(commands)
                else old(commands) + [Message.SetPlayWhenReady(play)]
    {
      if playWhenReady != play {
        SendingKeepsMirror(Sees(), Message.SetPlayWhenReady(play));
        playWhenReady := play;
        pendingPlayWhenReadyAcks := pendingPlayWhenReadyAcks + 1;
        commands := commands + [Message.SetPlayWhenReady(play)];
      }
    }

    method SetRendererEnabled(index: nat, enabled: bool)
      requires Valid() && index < flags.Length
      modifies flags, `commands
      ensures Valid() && flags[..] == old(flags[..])[index := enabled]
      ensures commands == if old(flags[index]) == enabled then old(commands)
                          else old(commands) + [Message.SetRendererEnabled(index, enabled)]
    {
      if flags[index] != enabled {
        SendingKeepsMirror(Sees(), Message.SetRendererEnabled(index, enabled));
        flags[index] := enabled;
        commands := commands + [Message.SetRendererEnabled(index, enabled)];
      }
    }

    method SendMessage(payload: int) returns (number: nat)
      requires Valid()
      modifies `customMessagesSent, `commands, `sent
      ensures Valid() && commands == old(commands) + [Custom(payload)] && sent == old(sent) + [payload]
      ensures number == old(customMessagesSent) && sent[number] == payload
    {
      SendingKeepsMirror(Sees(), Custom(payload));
      number := customMessagesSent;
      customMessagesSent := customMessagesSent + 1;
      commands := commands + [Custom(payload)];
      sent := sent + [payload];
    }

    /** The first half of blockingSendMessage: the thread goes to sleep. */
    method BlockingSend(payload: int)
      requires Valid() && Free()
      modifies `customMessagesSent, `commands, `sent, `waiting
      ensures Valid() && sent == old(sent) + [payload] && waiting == Some(old(|sent|))
      ensures commands == old(commands) + [Custom(payload)]
    {
      var number := SendMessage(payload);
      waiting := Some(number);
    }

    /** The second half: the thread returns from the call only once its own message has been delivered. */
    method Wake()
      requires Valid() && waiting.Some?
      modifies `waiting
      ensures Valid()
      ensures var k := old(waiting.value);
              if waiting.None? then k < |engine.delivered| && engine.delivered[k] == sent[k]
              else waiting == old(waiting) && |engine.delivered| <= k
                   && k - |engine.delivered| < |Payloads(commands)|
                   && Payloads(commands)[k - |engine.delivered|] == sent[k]
    {
      DeliveredInOrder(Sees(), waiting.value);
      if engine.customMessagesProcessed > waiting.value {
        waiting := None;
      }
    }

    /** An event is handled; whoever listens is told when the last pending change has been committed. */
    method HandleEvent() returns (committed: bool)
      requires Valid() && engine.events != []
      modifies `playbackState, `pendingPlayWhenReadyAcks, engine`events
      ensures Valid() && engine.events == old(engine.events)[1..]
      ensures playbackState == if old(engine.events)[0].StateChanged? then old(engine.events)[0].state
                else old(playbackState)
      ensures committed ==> playWhenReady == engine.playWhenReady
      ensures committed <==> old(engine.events)[0] == PlayWhenReadyAck && pendingPlayWhenReadyAcks == 0
    {
      var e := engine.events[0];
      engine.events := engine.events[1..];
      committed := false;
      match e {
        case StateChanged(s) => playbackState := s;
        case PlayWhenReadyAck =>
          pendingPlayWhenReadyAcks := pendingPlayWhenReadyAcks - 1;
          committed := pendingPlayWhenReadyAcks == 0;
        case PlayerError =>
      }
      if committed {
        CommittedMeansAgreed(Sees());
      }
    }

    // -------------------------------------------------------------- the playback thread

    /** A time that is set is remembered, and the count of the time played begins again; otherwise it goes on. */
    twostate predicate PlayedOn(t: Option<int>, elapsedUs: nat)
      reads `playedUs, engine.clock
    {
      if t.Some? then playedUs == 0 && engine.clock.lastSetUs == t.value
      else playedUs == old(playedUs) + elapsedUs && engine.clock.lastSetUs == old(engine.clock.lastSetUs)
    }

    /** A message is handled: what the application can tell of that, and what it means to the renderers. */
    method Handle(m: Message, env: Env, cleanup: Env) returns (ghost h: Handling)
      requires engine.Valid() && engine.Deliverable(m) && cleanup.nowUs == env.nowUs && flags != engine.flags
      modifies engine, engine.clock, engine.flags, engine.All(), Brought(m)
      ensures engine.Valid() && h.o != IllegalState && (m.SetPlayWhenReady? ==> h.mid == old(engine.state))
      ensures Sees() == Handled(old(Sees()), m, h.mid, h.o).(commands := commands)
      ensures engine.All() == [] || engine.All() == h.roster
      ensures engine.ClockFollows(old(engine.TimeSetBy(m, env)), env.nowUs)
      ensures h.m == m && h.env == env && h.roster == old(engine.Roster(m))
      ensures h.was == old(engine.SceneNow(env, engine.Roster(m))) && h.now == engine.SceneNow(env, h.roster)
      ensures engine.Explains(h)
    {
      h := engine.Receive(m, env, cleanup);
    }

    /** A command that has been handled leaves the queue. The playback thread has no part in that. */
    method Pop(m: Message, ghost h: Handling, ghost before: View)
      requires (IsCommand(m) ==> commands != [] && commands[0] == m) && commands == before.commands
      requires Sees() == Handled(before, m, h.mid, h.o).(commands := commands)
      requires m.SetPlayWhenReady? ==> h.mid == before.engine.state
      modifies `commands
      ensures (old(engine.Valid()) ==> engine.Valid()) && engine.All() == old(engine.All())
      ensures Sees() == Handled(before, m, h.mid, h.o) && (Mirrors(before) ==> Mirrors(Sees()))
      ensures engine.SceneNow(h.env, h.roster) == old(engine.SceneNow(h.env, h.roster))
      ensures commands == if IsCommand(m) then old(commands)[1..] else old(commands)
    {
      if IsCommand(m) {
        commands := commands[1..];
      }
      if Mirrors(before) {
        HandlingKeepsMirror(before, m, h.mid, h.o);
      }
    }

    /** And the time played is counted from the last time set. */
    method Close(m: Message, ghost h: Handling, ghost t: Option<int>, ghost before: View)
      requires (IsCommand(m) ==> commands != [] && commands[0] == m) && commands == before.commands
      requires Sees() == Handled(before, m, h.mid, h.o).(commands := commands)
      requires m.SetPlayWhenReady? ==> h.mid == before.engine.state
      modifies `commands, `playedUs
      ensures commands == if IsCommand(m) then old(commands)[1..] else old(commands)
      ensures playedUs == if t.Some? then 0 else old(playedUs)
      ensures (old(engine.Valid()) ==> engine.Valid()) && engine.All() == old(engine.All())
      ensures Sees() == Handled(before, m, h.mid, h.o) && (Mirrors(before) ==> Mirrors(Sees()))
      ensures engine.SceneNow(h.env, h.roster) == old(engine.SceneNow(h.env, h.roster))
    {
      Pop(m, h, before);
      playedUs := if t.Some? then 0 else playedUs;
    }

    /** A message is handled, and leaves its queue. */
    method Process(m: Message, env: Env, cleanup: Env) returns (ghost h: Handling)
      requires engine.Valid() && engine.Deliverable(m) && nowUs == cleanup.nowUs == env.nowUs && flags != engine.flags
      requires Mirrors(Sees()) && (IsCommand(m) ==> commands != [] && commands[0] == m)
      requires engine.clock.Reading(nowUs) == engine.clock.lastSetUs + playedUs
      modifies `commands, `playedUs, engine, engine.clock, engine.flags, engine.All(), Brought(m)
      ensures engine.Valid() && h.o != IllegalState && (m.SetPlayWhenReady? ==> h.mid == old(engine.state))
      ensures Sees() == Handled(old(Sees()), m, h.mid, h.o) && Mirrors(Sees())
      ensures engine.All() == [] || engine.All() == h.roster
      ensures engine.clock.Reading(nowUs) == engine.clock.lastSetUs + playedUs
      ensures var t := old(engine.TimeSetBy(m, env));
              && playedUs == (if t.Some? then 0 else old(playedUs))
              && engine.clock.lastSetUs == (if t.Some? then t.value else old(engine.clock.lastSetUs))
      ensures h.m == m && h.env == env && h.roster == old(engine.Roster(m))
      ensures h.was == old(engine.SceneNow(env, engine.Roster(m))) && h.now == engine.SceneNow(env, h.roster)
      ensures engine.Explains(h)
    {
      ghost var t, before := engine.TimeSetBy(m, env), Sees();
      h := Handle(m, env, cleanup);
      Close(m, h, t, before);
    }

    /** A message reaches the handler: the next command, or one the handler has posted to itself. */
    method Deliver(m: Message, env: Env, cleanup: Env) returns (ghost h: Handling)
      requires Valid() && engine.Deliverable(m) && Allowed(m) && nowUs == cleanup.nowUs == env.nowUs
      requires IsCommand(m) ==> commands != [] && commands[0] == m
      modifies `commands, `playedUs, engine, engine.clock, engine.flags, engine.All(), Brought(m)
      ensures Valid() && h.o != IllegalState && Sees() == Handled(old(Sees()), m, h.mid, h.o)
      ensures PlayedOn(old(engine.TimeSetBy(m, env)), 0)
      ensures h.m == m && h.env == env && h.roster == old(engine.Roster(m))
      ensures h.was == old(engine.SceneNow(env, engine.Roster(m))) && h.now == engine.SceneNow(env, h.roster)
      ensures engine.Explains(h)
    {
      h := Process(m, env, cleanup);
    }

    /** Real time passes between two handlers. */
    method Elapse(elapsedUs: nat)
      requires Valid()
      modifies `nowUs, `playedUs
      ensures Valid() && nowUs == old(nowUs) + elapsedUs
      ensures PlayedOn(None, if engine.state == Ready && engine.playWhenReady then elapsedUs else 0)
    {
      engine.clock.Advances(nowUs, elapsedUs);
      nowUs := nowUs + elapsedUs;
      playedUs := playedUs + if engine.Playing() then elapsedUs else 0;
    }

    // -------------------------------------------------------------- runs

    /** The message a step of the playback thread takes: the next command, or one the handler has posted to itself. */
    function Head(step: Step): Option<Message>
      reads `commands
    {
      match step
      case EngineHandleCommand(_, _) => if commands != [] then Some(commands[0]) else None
      case EngineIncrementalPrepare(_, _) => Some(IncrementalPrepare)
      case EngineDoSomeWork(_, _) => Some(DoSomeWork)
      case _ => None
    }

    /** The message a step has handled. */
    ghost function Next(step: Step): Option<Message>
      reads `commands, engine, engine.flags, Heads()
    {
      if Head(step).Some? && engine.Deliverable(Head(step).value) then Head(step) else None
    }

    /** The renderers the next command brings along. */
    function Heads(): seq<TrackRenderer>
      reads `commands
    {
      if commands != [] then Brought(commands[0]) else []
    }

    /** The time a step sets the clock to: only a message that is handled can do that. */
    ghost function TimeSetIn(step: Step): Option<int>
      reads `commands, `nowUs, engine, engine.flags, engine.All(), Heads()
    {
      if Next(step).Some? then engine.TimeSetBy(Next(step).value, EnvOf(step, nowUs)) else None
    }

    /** How long a step has the player play. */
    ghost function PlaysFor(step: Step): nat
      reads engine
    {
      if step.Tick? && engine.state == Ready && engine.playWhenReady then step.elapsedUs else 0
    }

    /** A message is handled if it may be; a command always may, unless it is a prepare that would break the
        environment's promise. */
    method Attempt(m: Message, env: Env, cleanup: Env) returns (ghost h: Option<Handling>)
      requires Valid() && Allowed(m) && nowUs == cleanup.nowUs == env.nowUs
      requires IsCommand(m) ==> commands != [] && commands[0] == m
      modifies `commands, `playedUs, engine, engine.clock, engine.flags, engine.All(), Brought(m)
      ensures Valid() && (h.Some? <==> old(engine.Deliverable(m))) && (IsCommand(m) && !m.Prepare? ==> h.Some?)
      ensures h.None? ==> Sees() == old(Sees()) && PlayedOn(None, 0)
      ensures h.Some? ==>
                && h.value.o != IllegalState && Sees() == Handled(old(Sees()), m, h.value.mid, h.value.o)
                && PlayedOn(old(engine.TimeSetBy(m, env)), 0)
                && h.value.m == m && h.value.env == env && h.value.roster == old(engine.Roster(m))
                && h.value.was == old(engine.SceneNow(env, engine.Roster(m)))
                && h.value.now == engine.SceneNow(env, h.value.roster)
      ensures h.Some? ==> engine.Explains(h.value)
    {
      h := None;
      if engine.Deliverable(m) {
        ghost var handling := Deliver(m, env, cleanup);
        h := Some(handling);
      }
    }

    /** A step of the playback thread: the message it takes, if any, is handled. */
    method PerformEngine(step: Step) returns (ghost h: Option<Handling>)
      requires Valid() && (step.EngineHandleCommand? || step.EngineIncrementalPrepare? || step.EngineDoSomeWork?)
      modifies `commands, `playedUs, engine, engine.clock, engine.flags, cast
      ensures Valid() && PlayedOn(old(TimeSetIn(step)), 0)
      ensures step.EngineHandleCommand? && old(commands) != [] && !old(commands)[0].Prepare? ==> h.Some?
      ensures h.None? ==> Sees() == old(Sees())
      ensures h.Some? <==> old(Next(step)).Some?
      ensures h.Some? ==>
                && h.value.m == old(Next(step)).value && h.value.env == EnvOf(step, old(nowUs))
                && h.value.o != IllegalState && Sees() == Handled(old(Sees()), h.value.m, h.value.mid, h.value.o)
                && h.value.roster == old(engine.Roster(Next(step).value))
                && h.value.was == old(engine.SceneNow(EnvOf(step, nowUs), engine.Roster(Next(step).value)))
                && h.value.now == engine.SceneNow(h.value.env, h.value.roster)
      ensures h.Some? ==> engine.Explains(h.value)
    {
      h := None;
      var m := Head(step);
      if m.Some? {
        h := Attempt(m.value, EnvOf(step, nowUs), step.cleanup.(nowUs := nowUs));
      }
    }

    /** Any step that can be taken is taken; the others change nothing. */
    method Perform(step: Step) returns (ghost h: Option<Handling>)
      requires Valid() && (step.AppPrepare? ==> forall i :: 0 <= i < |step.rs| ==> step.rs[i] in cast)
      modifies this, flags, engine, engine.clock, engine.flags, cast
      ensures Valid() && PlayedOn(old(TimeSetIn(step)), old(PlaysFor(step)))
      ensures nowUs == old(nowUs) + ElapsedIn(step)
      ensures sent == old(sent) + if old(Free()) then SentIn(step) else []
      ensures playWhenReady == if old(Free()) && step.AppSetPlayWhenReady? then step.play else old(playWhenReady)
      ensures step.EngineHandleCommand? && old(commands) != [] && !old(commands)[0].Prepare? ==> h.Some?
      ensures h.Some? <==> old(Next(step)).Some?
      ensures h.Some? ==>
                && h.value.m == old(Next(step)).value && h.value.env == EnvOf(step, old(nowUs))
                && h.value.o != IllegalState && Sees() == Handled(old(Sees()), h.value.m, h.value.mid, h.value.o)
                && h.value.roster == old(engine.Roster(Next(step).value))
                && h.value.was == old(engine.SceneNow(EnvOf(step, nowUs), engine.Roster(Next(step).value)))
                && h.value.now == engine.SceneNow(h.value.env, h.value.roster)
      ensures h.Some? ==> engine.Explains(h.value)
      ensures !step.EngineHandleCommand? && !step.EngineIncrementalPrepare? && !step.EngineDoSomeWork? ==>
                commands == old(commands) + if !old(Free()) then []
                                            else CommandsOf(step, old(playWhenReady), old(flags[..]), engine.released)
    {
      h := None;
      if step.EngineHandleCommand? || step.EngineIncrementalPrepare? || step.EngineDoSomeWork? {
        h := PerformEngine(step);
      } else {
        PerformElsewhere(step);
      }
    }

    /** Any other step: time passes, or the application thread does something. */
    method PerformElsewhere(step: Step)
      requires Valid() && (step.AppPrepare? ==> forall i :: 0 <= i < |step.rs| ==> step.rs[i] in cast)
      requires !step.EngineHandleCommand? && !step.EngineIncrementalPrepare? && !step.EngineDoSomeWork?
      modifies `playWhenReady, `pendingPlayWhenReadyAcks, `playbackState, `commands, `customMessagesSent, `sent
      modifies `waiting, `releasing, `nowUs, `playedUs, flags, engine`events
      ensures Valid() && PlayedOn(None, old(PlaysFor(step))) && nowUs == old(nowUs) + ElapsedIn(step)
      ensures sent == old(sent) + if old(Free()) then SentIn(step) else []
      ensures playWhenReady == if old(Free()) && step.AppSetPlayWhenReady? then step.play else old(playWhenReady)
      ensures commands == old(commands) + if !old(Free()) then []
                                          else CommandsOf(step, old(playWhenReady), old(flags[..]), engine.released)
    {
      if step.Tick? {
        Elapse(step.elapsedUs);
      } else {
        PerformApplication(step);
      }
    }

    /** A step of the application thread. Inside a blocking call it can only wake up. */
    method PerformApplication(step: Step)
      requires Valid() && (step.AppPrepare? ==> forall i :: 0 <= i < |step.rs| ==> step.rs[i] in cast)
      requires !step.EngineHandleCommand? && !step.EngineIncrementalPrepare? && !step.EngineDoSomeWork? && !step.Tick?
      modifies `playWhenReady, `pendingPlayWhenReadyAcks, `playbackState, `commands, `customMessagesSent, `sent
      modifies `waiting, `releasing, flags, engine`events
      ensures Valid()
      ensures sent == old(sent) + if old(Free()) then SentIn(step) else []
      ensures playWhenReady == if old(Free()) && step.AppSetPlayWhenReady? then step.play else old(playWhenReady)
      ensures commands == old(commands) + if !old(Free()) then []
                                          else CommandsOf(step, old(playWhenReady), old(flags[..]), engine.released)
      ensures engine.events ==
                if step.AppHandleEvent? && old(Free() && engine.events != []) then old(engine.events)[1..]
                else old(engine.events)
    {
      if step.AppWake? {
        if waiting.Some? {
          Wake();
        }
      } else if !Free() {
        return;
      } else if step.AppHandleEvent? {
        if engine.events != [] {
          var _ := HandleEvent();
        }
      } else {
        Call(step);
      }
    }

    method Call(step: Step)
      requires Valid() && (step.AppPrepare? ==> forall i :: 0 <= i < |step.rs| ==> step.rs[i] in cast)
      requires Free() && !step.EngineHandleCommand? && !step.EngineIncrementalPrepare? && !step.EngineDoSomeWork?
      requires !step.Tick? && !step.AppWake? && !step.AppHandleEvent?
      modifies `playWhenReady, `pendingPlayWhenReadyAcks, `commands, `customMessagesSent, `sent
      modifies `waiting, `releasing, flags
      ensures Valid() && sent == old(sent) + SentIn(step)
      ensures playWhenReady == if step.AppSetPlayWhenReady? then step.play else old(playWhenReady)
      ensures commands == old(commands) + CommandsOf(step, old(playWhenReady), old(flags[..]), engine.released)
    {
      match step {
        case AppSetPlayWhenReady(play) => SetPlayWhenReady(play);
        case AppSetRendererEnabled(index, enabled) =>
          if index < flags.Length {
            SetRendererEnabled(index, enabled);
          }
        case AppPrepare(rs) => Send(Prepare(rs));
        case AppSeekTo(positionMs) => Send(SeekTo(positionMs));
        case AppStop => Send(Stop);
        case AppSend(payload) => var _ := SendMessage(payload);
        case AppBlockingSend(payload) => BlockingSend(payload);
        case AppRelease => Release();
      }
    }

    /** The application thread blocks until the playback thread has released everything, unless it already has. */
    method Release()
      requires Valid() && Free()
      modifies `commands, `releasing
      ensures Valid() && releasing == !engine.released
      ensures commands == old(commands) + if engine.released then [] else [Message.Release]
    {
      if !engine.released {
        Send(Message.Release);
        releasing := true;
      }
    }

    /** Whatever the application asks for, whatever the renderers answer or throw, and however the two threads
        interleave: every reachable state is valid. */
    method Run(script: seq<Step>)
      requires Valid()
      requires forall k :: 0 <= k < |script| && script[k].AppPrepare? ==>
                 forall i :: 0 <= i < |script[k].rs| ==> script[k].rs[i] in cast
      modifies this, flags, engine, engine.clock, engine.flags, cast
      ensures Valid() && nowUs == old(nowUs) + Elapsed(script)
    {
      for k := 0 to |script|
        invariant Valid() && nowUs == old(nowUs) + Elapsed(script[..k])
      {
        var _ := Perform(script[k]);
        assert script[..k + 1][..k] == script[..k];
      }
      assert script[..|script|] == script;
    }

    /** What validity means to the application. */
    lemma {:induction false} ValidMeans()
      requires Valid()
      ensures pendingPlayWhenReadyAcks == 0 ==> playWhenReady == engine.playWhenReady
      ensures LastState(engine.events, playbackState) == engine.state
      ensures (forall k :: 0 <= k < |commands| ==> !commands[k].SetRendererEnabled?) ==> engine.flags[..] == flags[..]
      ensures IsActive(engine.state) ==> forall i :: 0 <= i < |engine.All()| ==>
                var r := engine.All()[i];
                if engine.flags[i] && r.state != Ignore then
                  r in engine.enabledRenderers && r.state == if engine.Playing() then Started else Enabled
                else
                  r !in engine.enabledRenderers && r.state in {Prepared, Ignore}
      ensures engine.state in {Idle, Preparing} ==> engine.pendingWork == 0
      ensures engine.state == Preparing <==> engine.pendingPrepare == 1
      ensures engine.state in {Buffering, Ready} || (engine.state == Ended && engine.enabledRenderers != []) ==>
                engine.pendingWork > 0
      ensures waiting.Some? ==> waiting.value < |engine.delivered| || sent[waiting.value] in Payloads(commands)
      ensures engine.clock.Reading(nowUs) == engine.clock.lastSetUs + playedUs
    {
      if pendingPlayWhenReadyAcks == 0 {
        CommittedMeansAgreed(Sees());
      }
      LastEventIsTheState(Sees());
      if forall k :: 0 <= k < |commands| ==> !commands[k].SetRendererEnabled? {
        NoSwitchesLeft(engine.flags[..], commands);
      }
      if waiting.Some? {
        DeliveredInOrder(Sees(), waiting.value);
      }
    }
  }
}
