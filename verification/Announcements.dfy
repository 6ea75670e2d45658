/**
 What the host is shown: the combined event log, frame by frame (`process_frame` and `run`,
 crates/zephyrvox-realtime/src/engine/socket.rs), and which error ends a socket.
 */
module Announcements {
  import opened Common
  import opened ClientModel
  import opened Projection
  import opened KeyHistory
  import opened Store
  import opened Sync
  import opened Socket
  import opened Handoff

  // ----- how far a batch applies -----------------------------------------------------------

  /** How many events of the batch apply, one after the other, before one does not. */
  function Leading(state: ClientState, events: seq<StateEvent>): (k: nat)
    ensures k <= |events|
    decreases |events|
  {
    if |events| == 0 || ApplyEvent(state, events[0]).Err? then 0
    else 1 + Leading(ApplyEvent(state, events[0]).value, events[1..])
  }

  /** The state once they have applied. */
  function AfterLeading(state: ClientState, events: seq<StateEvent>): ClientState
    decreases |events|
  {
    if |events| == 0 || ApplyEvent(state, events[0]).Err? then state
    else AfterLeading(ApplyEvent(state, events[0]).value, events[1..])
  }

  /** The leading events fold to that state, and the next one, if there is one, does not apply. */
  lemma {:induction false} LeadingFolds(state: ClientState, events: seq<StateEvent>)
    ensures var k := Leading(state, events);
      && Fold(state, events[..k]) == Some(AfterLeading(state, events))
      && (k < |events| ==> ApplyEvent(AfterLeading(state, events), events[k]).Err?)
      && (Fold(state, events).Some? <==> k == |events|)
    decreases |events|
  {
    hide ApplyEvent;
    if |events| > 0 {
      assert events[..1] == [events[0]] && events[..1] + events[1..] == events;
      FoldAppend(state, [], events[0]);
      assert [] + [events[0]] == events[..1];
      FoldConcat(state, events[..1], events[1..]);
      if ApplyEvent(state, events[0]).Ok? {
        var next, k := ApplyEvent(state, events[0]).value, Leading(state, events);
        LeadingFolds(next, events[1..]);
        assert events[..k] == events[..1] + events[1..][..k - 1];
        FoldConcat(state, events[..1], events[1..][..k - 1]);
      }
    }
  }

  // ----- what a resync shows ---------------------------------------------------------------

  /** The notice that an authority the host held is gone. */
  function LossNotice(current: ClientState, snapshot: Option<ClientState>): seq<ClientEvent> {
    var held := current.selfUser.voiceAuthority;
    if held.Some? && snapshot.Some? && snapshot.value.selfUser.voiceAuthority != held
    then [VoiceWasLost(held.value)] else []
  }

  /** A resync is announced, then its status, then, once the snapshot is there, what it took away. */
  function ResyncNotices(current: ClientState, snapshot: Option<ClientState>): seq<ClientEvent> {
    [SyncRequired, StatusChanged(StatusSyncing)] + LossNotice(current, snapshot)
  }

  lemma ResyncShows(e: Engine, env: Env)
    requires e.machine.phase == Syncing || e.machine.phase == Live
    ensures Resync(Announce(e), env).0.log == e.log + ResyncNotices(e.store.state, env.snapshot)
  {
  }

  // ----- what a batch shows ----------------------------------------------------------------

  function BatchNotices(state: ClientState, events: seq<StateEvent>, env: Env): seq<ClientEvent> {
    var k := Leading(state, events);
    Changes(events[..k])
    + (if k == |events| then [] else ResyncNotices(AfterLeading(state, events), env.snapshot))
  }

  lemma {:induction false} DrainShows(e: Engine, events: seq<StateEvent>, env: Env)
    requires e.machine.phase == Syncing || e.machine.phase == Live
    ensures Drain(e, events, env).0.log == e.log + BatchNotices(e.store.state, events, env)
    decreases |events|
  {
    hide ApplyEvent, Resync;
    if |events| > 0 {
      var (next, r) := ApplyOrResync(e, events[0], env);
      if ApplyEvent(e.store.state, events[0]).Ok? {
        DrainShows(next, events[1..], env);
        NoticesCons(e.store.state, events, env);
      } else {
        ResyncShows(e, env);
        ResyncIsNoSuccess(e, events[0], env);
      }
    }
  }

  lemma ResyncIsNoSuccess(e: Engine, event: StateEvent, env: Env)
    requires ApplyEvent(e.store.state, event).Err?
    ensures ApplyOrResync(e, event, env).1 != Ok(true)
    ensures ApplyOrResync(e, event, env).0 == Resync(Announce(e), env).0
  {
    hide ApplyEvent, Resync;
  }

  lemma NoticesCons(state: ClientState, events: seq<StateEvent>, env: Env)
    requires |events| > 0 && ApplyEvent(state, events[0]).Ok?
    ensures BatchNotices(state, events, env)
         == [StateChanged(events[0])]
            + BatchNotices(ApplyEvent(state, events[0]).value, events[1..], env)
  {
    hide ApplyEvent, ResyncNotices;
    var k := Leading(state, events);
    ChangesCons(events[..k]);
    assert events[..k][1..] == events[1..][..k - 1];
  }

  // ----- what a frame shows ----------------------------------------------------------------

  /** The events a frame hands to the store. */
  ghost function Handed(e: Engine, frame: ServerFrame): seq<StateEvent> {
    match frame
    case ReplayFrame(replay) => if InOrder(e.machine, replay) then replay.events else []
    case CompleteFrame(_) => e.machine.queue
    case EventFrame(event) =>
      if e.machine.phase == Live && event.geid > e.machine.geid then [event] else []
    case _ => []
  }

  /** What follows the applied events. */
  ghost function Closing(e: Engine, frame: ServerFrame, env: Env): seq<ClientEvent> {
    if NeedsResync(e, frame) then
      ResyncNotices(AfterLeading(e.store.state, Handed(e, frame)), env.snapshot)
    else
      match frame
      case CompleteFrame(_) => [StatusChanged(StatusLive)]
      case UnknownFrame(frameType) => [UnknownReceived(frameType)]
      case _ => []
  }

  lemma ReplayShows(e: Engine, replay: SyncReplay, env: Env)
    requires e.machine.phase == Syncing
    ensures var frame := ReplayFrame(replay); var handed := Handed(e, frame);
      ProcessReplay(e, replay, env).0.log
      == e.log + Changes(handed[..Leading(e.store.state, handed)]) + Closing(e, frame, env)
  {
    hide ApplyEvent, Resync, Drain, AcceptReplay, ResyncNotices, InOrder;
    var (machine, refused) := AcceptReplay(e.machine, replay);
    ReplayVerdict(e.machine, replay);
    LeadingFolds(e.store.state, replay.events);
    if refused.Some? {
      ResyncShows(e.(machine := machine), env);
      assert Changes([]) == [] && e.log + [] == e.log;
    } else {
      DrainShows(e.(machine := machine, admitted := e.admitted + replay.events), replay.events, env);
    }
  }

  lemma CompleteShows(e: Engine, cursor: Cursor, env: Env)
    requires e.machine.phase == Syncing
    ensures var frame := CompleteFrame(cursor); var handed := Handed(e, frame);
      ProcessComplete(e, cursor, env).0.log
      == e.log + Changes(handed[..Leading(e.store.state, handed)]) + Closing(e, frame, env)
  {
    hide ApplyEvent, Resync, Drain, ResyncNotices;
    var queue, e1 := e.machine.queue, Completed(e, cursor);
    LeadingFolds(e.store.state, queue);
    CursorHardlyMatters(e.store.state, queue, cursor, env);
    DrainShows(e1, queue, env);
    if Fold(e.store.state, queue).Some? {
      FoldIgnoresCursor(e.store.state, queue, cursor);
      DrainApplies(e1, queue, env);
      assert e.log + Changes(queue) + [] == e.log + Changes(queue);
    } else {
      FoldIgnoresCursor(e.store.state, queue, cursor);
      DrainResyncs(e1, queue, env);
    }
  }

  /** The cursor of the starting point is neither read nor shown. */
  lemma CursorHardlyMatters(state: ClientState, events: seq<StateEvent>, cursor: Cursor, env: Env)
    ensures BatchNotices(state.(cursor := cursor), events, env) == BatchNotices(state, events, env)
  {
    hide ApplyEvent;
    if |events| > 0 {
      ApplyIgnoresCursor(state, events[0], cursor);
    }
  }

  lemma EventShows(e: Engine, event: StateEvent, env: Env)
    requires e.machine.phase == Syncing || e.machine.phase == Live
    ensures var frame := EventFrame(event); var handed := Handed(e, frame);
      ProcessEvent(e, event, env).0.log
      == e.log + Changes(handed[..Leading(e.store.state, handed)]) + Closing(e, frame, env)
  {
    hide ApplyEvent, Resync, ResyncNotices;
    var (machine, r) := AcceptLive(e.machine, event);
    assert Changes([]) == [] && e.log + [] == e.log;
    if r.Err? {
      ResyncShows(e.(machine := machine), env);
    } else if e.machine.phase == Live {
      var e2 := e.(machine := machine, admitted := e.admitted + [event]);
      assert [event][1..] == [] && [event][..1] == [event] && [event][..0] == [];
      assert Changes([event]) == [StateChanged(event)] by { ChangesCons([event]); }
      if ApplyEvent(e.store.state, event).Err? {
        ResyncShows(e2, env);
        ResyncIsNoSuccess(e2, event, env);
      }
    }
  }

  /**
   Every frame that does not break the life cycle shows the host the events it applied, in
   order, and then, exactly if a resync is needed, that it is, its status and what it took
   away; else that the connection is live, or the unknown frame.
   */
  lemma FrameShows(e: Engine, frame: ServerFrame, env: Env)
    requires Coupled(e) && !BreaksLifecycle(e, frame)
    ensures var handed := Handed(e, frame);
      ProcessFrame(e, frame, env).0.log
      == e.log + Changes(handed[..Leading(e.store.state, handed)]) + Closing(e, frame, env)
  {
    hide ApplyEvent, Coupled, Resync, ProcessReplay, ProcessComplete, ProcessEvent, ResyncNotices;
    CoupledPhase(e);
    assert Changes([]) == [] && e.log + [] == e.log;
    match frame {
      case ReplayFrame(replay) => ReplayShows(e, replay, env);
      case CompleteFrame(cursor) => CompleteShows(e, cursor, env);
      case EventFrame(event) => EventShows(e, event, env);
      case RequiredFrame => ResyncShows(e, env);
      case UnknownFrame(_) => ResyncShows(e, env);
      case _ =>
    }
  }

  /** One that breaks it shows nothing and ends the socket with its own error. */
  lemma BrokenLifecycleShows(e: Engine, frame: ServerFrame, env: Env)
    requires Coupled(e) && BreaksLifecycle(e, frame)
    ensures var (next, error) := ProcessFrame(e, frame, env);
      && next == e
      && error == Some(match frame
                       case ConnectionReady(_) => ProtocolViolation
                       case AuthRevoked => Revoked
                       case _ => SyncFailed(InvalidPhase))
  {
    hide Coupled;
  }

  /** The hello prefix shows readiness and, once the hello is out, that replay has begun. */
  lemma OpeningShows(store: StoreView, log: seq<ClientEvent>, hellos: seq<Cursor>, first: ServerFrame,
                     sendOk: bool)
    ensures var (e, error) := Open(store, log, hellos, first, sendOk);
      && error == (if !first.ConnectionReady? then Some(ProtocolViolation)
                   else if !sendOk then Some(SendFailed) else None)
      && e.log == log + (if !first.ConnectionReady? then []
                         else [StatusChanged(StatusReady), ReadyEvent(first.id)]
                              + (if sendOk then [StatusChanged(StatusSyncing)] else []))
      && (first.ConnectionReady? ==> e.machine.controlId == Some(first.id))
  {
  }
}
