/**
 Where a new socket resumes: the cursor in its hello, followed over whole runs of
 `Lifetime` (`update_cursor`, crates/zephyrvox-realtime/src/state.rs; the hello of `run`,
 crates/zephyrvox-realtime/src/engine/socket.rs).
 */
module Resumption {
  import opened Common
  import opened ClientModel
  import opened Projection
  import opened Store
  import opened Sync
  import opened Socket
  import opened Handoff
  import opened Lifetime

  function StoreOf(link: Link): StoreView {
    match link
    case Down(store, _, _) => store
    case Up(e) => e.store
  }

  /** The completion the store acts on, if the input brings one. */
  function Completion(before: Link, input: LinkInput): Option<Cursor> {
    if before.Down? || before.engine.machine.phase != Syncing then None
    else
      match input
      case Receive(CompleteFrame(cursor), _) => Some(cursor)
      case StopInside(CompleteFrame(cursor), _, cut) => if cut > 0 then Some(cursor) else None
      case _ => None
  }

  /**
   The cursor once the store has gone from one state to the next: that of a snapshot
   installed meanwhile, else of the last event sent, else of the completion, else as before.
   */
  function Moved(before: StoreView, after: StoreView, completion: Option<Cursor>, cursor: Cursor): Cursor {
    if after.generation != before.generation then after.base.cursor
    else if |after.sent| > |before.sent| then after.sent[|after.sent| - 1].cursor
    else if completion.Some? then completion.value
    else cursor
  }

  /**
   The cursor of the last snapshot, sent event or accepted completion of the run, whichever
   came last.
   */
  function LastCursorOf(snapshot: ClientState, inputs: seq<LinkInput>): Cursor {
    if |inputs| == 0 then snapshot.cursor
    else
      var n := |inputs| - 1;
      var before := Run(snapshot, inputs[..n]);
      Moved(StoreOf(before), StoreOf(Advance(before, inputs[n])), Completion(before, inputs[n]),
            LastCursorOf(snapshot, inputs[..n]))
  }

  /** The store's cursor moved so, and a channel that was kept was only appended to. */
  predicate Tracks(before: StoreView, after: StoreView, completion: Option<Cursor>) {
    && after.state.cursor == Moved(before, after, completion, before.state.cursor)
    && (after.generation == before.generation ==> before.sent <= after.sent)
  }

  lemma Unmoved(s: StoreView)
    ensures Tracks(s, s, None)
  {
  }

  lemma ResyncTracks(e: Engine, env: Env)
    ensures Tracks(e.store, Resync(e, env).0.store, None)
  {
  }

  lemma AppliedTracks(e: Engine, event: StateEvent, env: Env)
    ensures Tracks(e.store, ApplyOrResync(e, event, env).0.store, None)
  {
    hide ApplyEvent, Resync;
    AppliedCheckpoint(e.store.state, event);
    ResyncTracks(Announce(e), env);
  }

  lemma AppliedKeeps(e: Engine, event: StateEvent, env: Env)
    requires ApplyOrResync(e, event, env).1 == Ok(true)
    ensures var next := ApplyOrResync(e, event, env).0.store;
      && next.generation == e.store.generation && next.sent == e.store.sent + [event]
      && next.state.cursor == event.cursor
  {
    hide ApplyEvent, Resync;
    AppliedCheckpoint(e.store.state, event);
  }

  lemma {:induction false} DrainTracks(e: Engine, events: seq<StateEvent>, env: Env)
    ensures Tracks(e.store, Drain(e, events, env).0.store, None)
    decreases |events|
  {
    hide ApplyOrResync;
    if |events| > 0 {
      AppliedTracks(e, events[0], env);
      var (next, r) := ApplyOrResync(e, events[0], env);
      if r == Ok(true) {
        AppliedKeeps(e, events[0], env);
        DrainTracks(next, events[1..], env);
      }
    }
  }

  lemma RecoverTracks(e: Engine, error: SyncError, env: Env)
    ensures Tracks(e.store, Recover(e, error, env).0.store, None)
  {
    hide Resync;
    ResyncTracks(Announce(e), env);
  }

  /** A completion moves the cursor and nothing else, so what follows it is tracked from there. */
  lemma CompletedTracks(e: Engine, cursor: Cursor, after: StoreView)
    requires Tracks(Completed(e, cursor).store, after, None)
    ensures Tracks(e.store, after, Some(cursor))
  {
  }

  lemma ReplayTracks(e: Engine, replay: SyncReplay, env: Env)
    ensures Tracks(e.store, ProcessReplay(e, replay, env).0.store, None)
  {
    hide Drain, Recover, AcceptReplay, Tracks;
    var (machine, refused) := AcceptReplay(e.machine, replay);
    var e1 := e.(machine := machine);
    if refused.Some? {
      RecoverTracks(e1, refused.value, env);
    } else {
      DrainTracks(e1.(admitted := e.admitted + replay.events), replay.events, env);
    }
  }

  lemma CompleteTracks(e: Engine, cursor: Cursor, env: Env)
    ensures Tracks(e.store, ProcessComplete(e, cursor, env).0.store,
                   if e.machine.phase == Syncing then Some(cursor) else None)
  {
    hide Drain, Tracks, Resync;
    if e.machine.phase == Syncing {
      var e1 := Completed(e, cursor);
      DrainTracks(e1, e.machine.queue, env);
      CompletedTracks(e, cursor, Drain(e1, e.machine.queue, env).0.store);
    } else {
      Unmoved(e.store);
    }
  }

  lemma EventTracks(e: Engine, event: StateEvent, env: Env)
    ensures Tracks(e.store, ProcessEvent(e, event, env).0.store, None)
  {
    hide ApplyOrResync, Recover, Tracks, AcceptLive;
    var (machine, r) := AcceptLive(e.machine, event);
    var e1 := e.(machine := machine);
    Unmoved(e.store);
    if r.Err? {
      RecoverTracks(e1, r.error, env);
    } else {
      AppliedTracks(e1.(admitted := e.admitted + [event]), event, env);
    }
  }

  lemma FrameTracks(e: Engine, frame: ServerFrame, env: Env)
    ensures Tracks(e.store, ProcessFrame(e, frame, env).0.store,
                   Completion(Up(e), Receive(frame, env)))
  {
    hide ProcessReplay, ProcessComplete, ProcessEvent, Resync, Tracks;
    Unmoved(e.store);
    match frame {
      case ReplayFrame(replay) => ReplayTracks(e, replay, env);
      case CompleteFrame(cursor) => CompleteTracks(e, cursor, env);
      case EventFrame(event) => EventTracks(e, event, env);
      case RequiredFrame => ResyncTracks(Announce(e), env);
      case UnknownFrame(_) => ResyncTracks(Announce(e), env);
      case _ =>
    }
  }

  lemma InterruptTracks(e: Engine, frame: ServerFrame, env: Env, cut: nat)
    ensures Tracks(e.store, Interrupt(e, frame, env, cut).store,
                   Completion(Up(e), StopInside(frame, env, cut)))
  {
    hide Drain, Recover, AcceptReplay, AcceptLive, ProcessEvent, ProcessFrame, Tracks;
    Unmoved(e.store);
    match frame {
      case ReplayFrame(replay) =>
        var (machine, refused) := AcceptReplay(e.machine, replay);
        if refused.Some? {
          RecoverTracks(e.(machine := machine), refused.value, env);
        } else {
          DrainTracks(e.(machine := machine, admitted := e.admitted + replay.events),
                      replay.events[..Min(cut, |replay.events|)], env);
        }
      case CompleteFrame(cursor) => InterruptedCompleteTracks(e, cursor, env, cut);
      case EventFrame(event) => EventTracks(e, event, env);
      case _ => FrameTracks(e, frame, env);
    }
  }

  lemma InterruptedCompleteTracks(e: Engine, cursor: Cursor, env: Env, cut: nat)
    ensures Tracks(e.store, Interrupt(e, CompleteFrame(cursor), env, cut).store,
                   Completion(Up(e), StopInside(CompleteFrame(cursor), env, cut)))
  {
    hide Drain, Tracks, Resync;
    Unmoved(e.store);
    if e.machine.phase == Syncing && cut > 0 {
      var e1, first := Completed(e, cursor), e.machine.queue[..Min(cut - 1, |e.machine.queue|)];
      DrainTracks(e1, first, env);
      CompletedTracks(e, cursor, Drain(e1, first, env).0.store);
    }
  }

  lemma AdvanceTracks(link: Link, input: LinkInput)
    ensures Tracks(StoreOf(link), StoreOf(Advance(link, input)), Completion(link, input))
  {
    hide Tracks, ProcessFrame, Interrupt;
    Unmoved(StoreOf(link));
    match (link, input) {
      case (Up(e), Receive(frame, env)) => FrameTracks(e, frame, env);
      case (Up(e), StopInside(frame, env, cut)) => InterruptTracks(e, frame, env, cut);
      case (Down(store, log, hellos), OpenSocket(first, sendOk)) =>
        assert Open(store, log, hellos, first, sendOk).0.store == store;
      case _ =>
    }
  }

  /**
   Over every run, stopped anywhere: the store's cursor is that of the last snapshot, sent
   event or accepted completion, whichever came last.
   */
  lemma {:induction false} StoreCursorIsLast(snapshot: ClientState, inputs: seq<LinkInput>)
    ensures StoreOf(Run(snapshot, inputs)).state.cursor == LastCursorOf(snapshot, inputs)
  {
    hide Advance, Completion;
    if |inputs| > 0 {
      var n := |inputs| - 1;
      StoreCursorIsLast(snapshot, inputs[..n]);
      AdvanceTracks(Run(snapshot, inputs[..n]), inputs[n]);
    }
  }

  /** A new socket's hello resumes from there. */
  lemma NewSocketResumes(snapshot: ClientState, inputs: seq<LinkInput>, id: nat)
    requires Run(snapshot, inputs).Down?
    ensures var before := Run(snapshot, inputs);
            var after := Run(snapshot, inputs + [OpenSocket(ConnectionReady(id), true)]);
      after.Up? && after.engine.hellos == before.hellos + [LastCursorOf(snapshot, inputs)]
  {
    hide Consistent, Coupled, Open, Run, LastCursorOf;
    var before := Run(snapshot, inputs);
    RunAppend(snapshot, inputs, OpenSocket(ConnectionReady(id), true));
    ReachableIsSound(snapshot, inputs);
    StoreCursorIsLast(snapshot, inputs);
    OpenIsCoupled(before.store, before.log, before.hellos, ConnectionReady(id), true);
  }

  /**
   In particular: a socket lost right after a completion with nothing queued resumes, when
   reopened, from the completion's cursor.
   */
  lemma CompletionIsResumedFrom(snapshot: ClientState, inputs: seq<LinkInput>, cursor: Cursor,
                                env: Env, id: nat)
    requires Run(snapshot, inputs).Up?
    requires Run(snapshot, inputs).engine.machine.phase == Syncing
    requires Run(snapshot, inputs).engine.machine.queue == []
    ensures var after := Run(snapshot, inputs + [Receive(CompleteFrame(cursor), env)] + [SocketLost]
                                       + [OpenSocket(ConnectionReady(id), true)]);
      && after.Up? && |after.engine.hellos| > 0
      && after.engine.hellos[|after.engine.hellos| - 1] == cursor
  {
    hide Run, Advance, LastCursorOf;
    var complete := Receive(CompleteFrame(cursor), env);
    var completed := inputs + [complete];
    RunAppend(snapshot, inputs, complete);
    RunAppend(snapshot, completed, SocketLost);
    LostAfterCompletion(Run(snapshot, inputs).engine, cursor, env);
    NewSocketResumes(snapshot, completed + [SocketLost], id);
    StoreCursorIsLast(snapshot, completed + [SocketLost]);
  }

  lemma LostAfterCompletion(e: Engine, cursor: Cursor, env: Env)
    requires e.machine.phase == Syncing && e.machine.queue == []
    ensures var lost := Advance(Advance(Up(e), Receive(CompleteFrame(cursor), env)), SocketLost);
      lost.Down? && lost.store.state.cursor == cursor
  {
  }
}
