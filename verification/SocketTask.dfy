/**
 The socket task as it runs: handlers and loops over one machine and one store, each
 proved to do what the functions of `Socket` say (crates/zephyrvox-realtime/src/engine/socket.rs).
 */
module SocketTasks {
  import opened Common
  import opened ClientModel
  import opened Projection
  import opened Store
  import opened Sync
  import opened Socket

  lemma ReplacedFields(s: StoreView, env: Env)
    requires env.snapshot.Some?
    ensures Replace(s, env.snapshot.value).state == env.snapshot.value
    ensures Replace(s, env.snapshot.value).sent == []
  {
  }

  /** A rebound machine is ready, so replay can begin, and from the snapshot's cursor. */
  lemma RebindStarts(m: Machine, state: ClientState)
    ensures BeginSync(Rebind(m, state)).1 == Ok(state.cursor)
  {
  }

  class SocketTask {
    const machine: SyncMachine
    const store: StateStore
    var status: Status
    var log: seq<ClientEvent>
    var hellos: seq<Cursor>
    ghost var admitted: seq<StateEvent>
    ghost var applied: seq<StateEvent>
    ghost var sentBefore: seq<StateEvent>
    ghost var shownBefore: seq<StateEvent>

    ghost predicate Valid()
      reads this, store
    {
      store.Valid()
    }

    ghost function View(): Engine
      reads this, machine, store
    {
      Engine(machine.View(), store.View(), status, log, hellos,
             admitted, applied, sentBefore, shownBefore)
    }

    /** A task for a new socket, on a store that earlier sockets may have used. */
    constructor (store: StateStore, log: seq<ClientEvent>, hellos: seq<Cursor>)
      requires store.Valid()
      ensures Valid() && fresh(machine) && this.store == store
      ensures View() == Engine(New(store.current), store.View(), StatusConnecting, log, hellos,
                               [], [], [], [])
    {
      machine := new SyncMachine(store.current);
      this.store := store;
      status := StatusConnecting;
      this.log, this.hellos := log, hellos;
      admitted, applied, sentBefore, shownBefore := [], [], [], [];
    }

    method Publish(event: ClientEvent)
      modifies this`log
      ensures log == old(log) + [event]
    {
      log := log + [event];
    }

    method ChangeStatus(next: Status)
      modifies this`status, this`log
      ensures status == next && log == old(log) + [StatusChanged(next)]
    {
      status := next;
      Publish(StatusChanged(next));
    }

    /** The hello prefix of `run`; the machine cannot refuse any of its three calls. */
    method Start(first: ServerFrame, sendOk: bool) returns (error: Option<EngineError>)
      requires Valid() && View().admitted == View().applied == []
      requires View().sentBefore == View().shownBefore == []
      requires status == StatusConnecting && machine.View() == New(store.current)
      modifies this, machine
      ensures Valid() && store.View() == old(store.View())
      ensures (View(), error) == Open(store.View(), old(log), old(hellos), first, sendOk)
    {
      hide Consistent, Shown;
      var refused := machine.Connect();
      assert refused.None?;
      if !first.ConnectionReady? {
        return Some(ProtocolViolation);
      }
      refused := machine.ReceiveReady(first.id);
      assert refused.None?;
      ChangeStatus(StatusReady);
      Publish(ReadyEvent(first.id));
      var cursor := machine.StartSync();
      assert cursor.Ok?;
      if !sendOk {
        return Some(SendFailed);
      }
      hellos := hellos + [cursor.value];
      sentBefore, shownBefore := store.channel, Shown(log);
      ChangeStatus(StatusSyncing);
      return None;
    }

    /** `replace_snapshot_and_hello`; once the snapshot is installed, the hello is never refused. */
    method ReplaceSnapshotAndHello(env: Env) returns (error: Option<EngineError>)
      requires Valid()
      modifies this, machine, store
      ensures Valid() && (View(), error) == Resync(old(View()), env)
    {
      hide Consistent, Shown, VoiceLost, Rebind, BeginSync, Replace;
      var refused := machine.Require();
      if refused.Some? {
        return Some(SyncFailed(refused.value));
      }
      ChangeStatus(StatusSyncing);
      if env.snapshot.None? {
        return Some(ProviderFailed);
      }
      ReplacedFields(store.View(), env);
      var lost := store.ReplaceSnapshot(env.snapshot.value);
      if lost.Some? {
        Publish(VoiceWasLost(lost.value));
      }
      ghost var required := machine.View();
      machine.ReplaceSnapshot(store.current);
      RebindStarts(required, store.current);
      var cursor := machine.StartSync();
      assert cursor.Ok?;
      if !env.sendOk {
        return Some(SendFailed);
      }
      hellos := hellos + [cursor.value];
      admitted, applied := [], [];
      sentBefore, shownBefore := store.channel, Shown(log);
      return None;
    }

    /** `recover_sync_error` */
    method RecoverSyncError(failure: SyncError, env: Env) returns (error: Option<EngineError>)
      requires Valid()
      modifies this, machine, store
      ensures Valid() && (View(), error) == Recover(old(View()), failure, env)
    {
      hide Consistent;
      if failure.InvalidPhase? {
        return Some(SyncFailed(failure));
      }
      Publish(SyncRequired);
      error := ReplaceSnapshotAndHello(env);
    }

    /** `apply_or_resync` */
    method TryApply(event: StateEvent, env: Env) returns (r: Result<bool, EngineError>)
      requires Valid()
      modifies this, machine, store
      ensures Valid() && (View(), r) == ApplyOrResync(old(View()), event, env)
    {
      hide Consistent, ApplyEvent;
      var rejected := store.ApplyOne(event);
      if rejected.None? {
        Publish(StateChanged(event));
        applied := applied + [event];
        return Ok(true);
      }
      Publish(SyncRequired);
      var error := ReplaceSnapshotAndHello(env);
      return if error.Some? then Err(error.value) else Ok(false);
    }

    /** The loop both replay and completion run over their events. */
    method ApplyInOrder(events: seq<StateEvent>, env: Env) returns (r: Result<bool, EngineError>)
      requires Valid()
      modifies this, machine, store
      ensures Valid() && (View(), r) == Drain(old(View()), events, env)
    {
      hide Consistent, ApplyOrResync;
      var i := 0;
      while i < |events|
        invariant 0 <= i <= |events| && Valid()
        invariant Drain(View(), events[i..], env) == Drain(old(View()), events, env)
      {
        assert events[i..][1..] == events[i + 1..];
        r := TryApply(events[i], env);
        if r != Ok(true) {
          return;
        }
        i := i + 1;
      }
      return Ok(true);
    }

    method HandleReplay(replay: SyncReplay, env: Env) returns (error: Option<EngineError>)
      requires Valid()
      modifies this, machine, store
      ensures Valid() && (View(), error) == ProcessReplay(old(View()), replay, env)
    {
      hide Consistent, Drain, Recover, AcceptReplay;
      var refused := machine.ReceiveReplay(replay);
      if refused.Some? {
        error := RecoverSyncError(refused.value, env);
        return;
      }
      admitted := admitted + replay.events;
      var r := ApplyInOrder(replay.events, env);
      return ErrorOf(r);
    }

    method HandleComplete(cursor: Cursor, env: Env) returns (error: Option<EngineError>)
      requires Valid()
      modifies this, machine, store
      ensures Valid() && (View(), error) == ProcessComplete(old(View()), cursor, env)
    {
      hide Consistent, Drain, Recover;
      var queued := machine.Complete(cursor);
      if queued.Err? {
        error := RecoverSyncError(queued.error, env);
        return;
      }
      store.SetCursor(cursor);
      var r := ApplyInOrder(queued.value, env);
      if r == Ok(true) {
        ChangeStatus(StatusLive);
        return None;
      }
      return ErrorOf(r);
    }

    method HandleEvent(event: StateEvent, env: Env) returns (error: Option<EngineError>)
      requires Valid()
      modifies this, machine, store
      ensures Valid() && (View(), error) == ProcessEvent(old(View()), event, env)
    {
      hide Consistent, ApplyOrResync, Recover;
      var accepted := machine.ReceiveLive(event);
      if accepted.Err? {
        error := RecoverSyncError(accepted.error, env);
        return;
      }
      admitted := admitted + [event];
      if accepted.value.None? {
        return None;
      }
      var r := TryApply(event, env);
      return ErrorOf(r);
    }

    /** `process_frame` */
    method HandleFrame(frame: ServerFrame, env: Env) returns (error: Option<EngineError>)
      requires Valid()
      modifies this, machine, store
      ensures Valid() && (View(), error) == ProcessFrame(old(View()), frame, env)
    {
      hide Consistent, Resync, ProcessReplay, ProcessComplete, ProcessEvent;
      match frame {
        case ConnectionReady(_) =>
          error := Some(ProtocolViolation);
        case ReplayFrame(replay) =>
          error := HandleReplay(replay, env);
        case CompleteFrame(cursor) =>
          error := HandleComplete(cursor, env);
        case RequiredFrame =>
          Publish(SyncRequired);
          error := ReplaceSnapshotAndHello(env);
        case EventFrame(event) =>
          error := HandleEvent(event, env);
        case CommandResult =>
          error := None;
        case AuthRevoked =>
          error := Some(Revoked);
        case UnknownFrame(frameType) =>
          if "state." <= frameType {
            Publish(SyncRequired);
            error := ReplaceSnapshotAndHello(env);
          } else {
            Publish(UnknownReceived(frameType));
            error := None;
          }
      }
    }
  }
}
