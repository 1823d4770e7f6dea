/** The lifecycle of a renderer (TrackRenderer.java): every lifecycle method checks the state it is called in
    and moves to the next one before it calls back. */
module Renderers {

  datatype RendererState = Released | Ignore | Unprepared | Prepared | Enabled | Started

  /** How a call ended: normally, with an exception of the renderer's own, or because a state check failed. */
  datatype Outcome = Done | Threw | IllegalState

  /** What the renderer answers when it is asked to prepare. */
  datatype PrepareAnswer = PrepareThrows | StaysUnprepared | BecomesPrepared | AsksToBeIgnored

  /** The calls a renderer receives. */
  datatype Callback =
    | OnPrepare
    | OnEnabled(timeUs: int, joining: bool)
    | OnStarted
    | OnStopped
    | OnDisabled
    | OnReleased
    | OnSeek(seekUs: int)
    | OnWork(positionUs: int)

  class TrackRenderer {
    const isTimeSource: bool
    var state: RendererState
    ghost var calls: seq<Callback>

    constructor (isTimeSource: bool)
      ensures state == Unprepared && this.isTimeSource == isTimeSource && calls == []
    {
      this.isTimeSource := isTimeSource;
      state, calls := Unprepared, [];
    }

    method Prepare(answer: PrepareAnswer) returns (o: Outcome)
      modifies this
      ensures old(state) != Unprepared ==> o == IllegalState && state == old(state) && calls == old(calls)
      ensures old(state) == Unprepared ==>
                && calls == old(calls) + [OnPrepare]
                && o == (if answer == PrepareThrows then Threw else Done)
                && state == match answer
                            case BecomesPrepared => Prepared
                            case AsksToBeIgnored => Ignore
                            case _ => Unprepared
    {
      if state != Unprepared {
        return IllegalState;
      }
      calls := calls + [OnPrepare];
      match answer {
        case PrepareThrows => return Threw;
        case StaysUnprepared =>
        case BecomesPrepared => state := Prepared;
        case AsksToBeIgnored => state := Ignore;
      }
      return Done;
    }

    method Enable(timeUs: int, joining: bool, throws: bool) returns (o: Outcome)
      modifies this
      ensures Moves(old(state), old(calls), Prepared, Enabled, OnEnabled(timeUs, joining), throws, o)
    {
      o := Move(Prepared, Enabled, OnEnabled(timeUs, joining), throws);
    }

    method Start(throws: bool) returns (o: Outcome)
      modifies this
      ensures Moves(old(state), old(calls), Enabled, Started, OnStarted, throws, o)
    {
      o := Move(Enabled, Started, OnStarted, throws);
    }

    method Stop(throws: bool) returns (o: Outcome)
      modifies this
      ensures Moves(old(state), old(calls), Started, Enabled, OnStopped, throws, o)
    {
      o := Move(Started, Enabled, OnStopped, throws);
    }

    method Disable(throws: bool) returns (o: Outcome)
      modifies this
      ensures Moves(old(state), old(calls), Enabled, Prepared, OnDisabled, throws, o)
    {
      o := Move(Enabled, Prepared, OnDisabled, throws);
    }

    method Release(throws: bool) returns (o: Outcome)
      modifies this
      ensures old(state) in {Enabled, Started, Released} ==>
                o == IllegalState && state == old(state) && calls == old(calls)
      ensures old(state) !in {Enabled, Started, Released} ==>
                state == Released && calls == old(calls) + [OnReleased] && o == (if throws then Threw else Done)
    {
      if state == Enabled || state == Started || state == Released {
        return IllegalState;
      }
      state := Released;
      calls := calls + [OnReleased];
      return if throws then Threw else Done;
    }

    /** May be called in the enabled state only. */
    method SeekTo(timeUs: int, throws: bool) returns (o: Outcome)
      modifies `calls
      ensures old(state) != Enabled ==> o == IllegalState && calls == old(calls)
      ensures old(state) == Enabled ==> calls == old(calls) + [OnSeek(timeUs)] && o == (if throws then Threw else Done)
    {
      if state != Enabled {
        return IllegalState;
      }
      calls := calls + [OnSeek(timeUs)];
      return if throws then Threw else Done;
    }

    /** May be called in the enabled and started states only. */
    method DoSomeWork(positionUs: int, throws: bool) returns (o: Outcome)
      modifies `calls
      ensures old(state) !in {Enabled, Started} ==> o == IllegalState && calls == old(calls)
      ensures old(state) in {Enabled, Started} ==>
                calls == old(calls) + [OnWork(positionUs)] && o == (if throws then Threw else Done)
    {
      if state != Enabled && state != Started {
        return IllegalState;
      }
      calls := calls + [OnWork(positionUs)];
      return if throws then Threw else Done;
    }

    /** A checked transition from one state to the next: the state moves even when the callback throws. */
    ghost predicate Moves(before: RendererState, callsBefore: seq<Callback>, from: RendererState, to: RendererState,
                          callback: Callback, throws: bool, o: Outcome)
      reads this
    {
      if before == from then
        state == to && calls == callsBefore + [callback] && o == (if throws then Threw else Done)
      else
        state == before && calls == callsBefore && o == IllegalState
    }

    method Move(from: RendererState, to: RendererState, callback: Callback, throws: bool) returns (o: Outcome)
      modifies this
      ensures Moves(old(state), old(calls), from, to, callback, throws, o)
    {
      if state != from {
        return IllegalState;
      }
      state := to;
      calls := calls + [callback];
      return if throws then Threw else Done;
    }
  }
}
