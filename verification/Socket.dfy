/**
 The realtime hand-off: one socket task drives the synchronization machine and the
 store (crates/zephyrvox-realtime/src/engine/socket.rs).

 `Engine` is the task's state with its history. The functions say what each handler
 does to it; `SocketTask` holds the two objects and is proved to follow them. The
 provider and the transport are the outcomes in `Env`; one frame uses each at most
 once.
 */
module Socket {
  import opened Common
  import opened ClientModel
  import opened Projection
  import opened Store
  import opened Sync

  datatype Status = StatusDisconnected | StatusConnecting | StatusReady | StatusSyncing | StatusLive

  datatype EngineError =
    | ProtocolViolation
    | SyncFailed(error: SyncError)
    | Revoked
    | ProviderFailed
    | SendFailed

  datatype ServerFrame =
    | ConnectionReady(id: nat)
    | ReplayFrame(replay: SyncReplay)
    | CompleteFrame(cursor: Cursor)
    | RequiredFrame
    | EventFrame(event: StateEvent)
    | CommandResult
    | AuthRevoked
    | UnknownFrame(frameType: string)

  /** The combined event stream of the connection. */
  datatype ClientEvent =
    | ReadyEvent(id: nat)
    | StateChanged(event: StateEvent)
    | SyncRequired
    | VoiceWasLost(authority: VoiceAuthority)
    | StatusChanged(status: Status)
    | UnknownReceived(frameType: string)

  /** What the provider and the transport would answer while one frame is processed. */
  datatype Env = Env(snapshot: Option<ClientState>, sendOk: bool)

  datatype Engine = Engine(
    machine: Machine,
    store: StoreView,
    status: Status,
    log: seq<ClientEvent>,
    /** Cursors of the `sync.hello` frames sent so far. */
    hellos: seq<Cursor>,
    /** Events the machine admitted since the last hello, in wire order. */
    admitted: seq<StateEvent>,
    /** Events the store applied since the last hello. */
    applied: seq<StateEvent>,
    /** What the store had sent, and the log had shown, when the last hello went out. */
    sentBefore: seq<StateEvent>,
    shownBefore: seq<StateEvent>)

  function SetStatus(e: Engine, status: Status): Engine {
    e.(status := status, log := e.log + [StatusChanged(status)])
  }

  /** The bookkeeping of a hello that went out. */
  function SaidHello(e: Engine, cursor: Cursor): Engine {
    e.(hellos := e.hellos + [cursor], admitted := [], applied := [],
       sentBefore := e.store.sent, shownBefore := Shown(e.log))
  }

  /** The state events a subscriber of the log has been shown. */
  function Shown(log: seq<ClientEvent>): seq<StateEvent> {
    if |log| == 0 then []
    else
      var earlier := Shown(log[..|log| - 1]);
      match log[|log| - 1]
      case StateChanged(event) => earlier + [event]
      case _ => earlier
  }

  /** `replace_snapshot_and_hello` */
  function Resync(e: Engine, env: Env): (Engine, Option<EngineError>) {
    var (required, error) := RequireSnapshot(e.machine);
    if error.Some? then (e, Some(SyncFailed(error.value)))
    else
      var e1 := SetStatus(e.(machine := required), StatusSyncing);
      if env.snapshot.None? then (e1, Some(ProviderFailed))
      else
        var snapshot := env.snapshot.value;
        var lost := VoiceLost(e1.store.state, snapshot);
        var (syncing, cursor) := BeginSync(Rebind(required, snapshot));
        var e2 := e1.(machine := syncing,
                      store := Replace(e1.store, snapshot),
                      log := if lost.Some? then e1.log + [VoiceWasLost(lost.value)] else e1.log);
        if cursor.Err? then (e2, Some(SyncFailed(cursor.error)))
        else if !env.sendOk then (e2, Some(SendFailed))
        else (SaidHello(e2, cursor.value), None)
  }

  function Announce(e: Engine): Engine {
    e.(log := e.log + [SyncRequired])
  }

  /** `recover_sync_error`: stream-order failures resync, lifecycle failures are fatal. */
  function Recover(e: Engine, error: SyncError, env: Env): (Engine, Option<EngineError>) {
    if error.InvalidPhase? then (e, Some(SyncFailed(error)))
    else Resync(Announce(e), env)
  }

  /** `apply_or_resync`: whether the event was applied, or a resync took its place. */
  function ApplyOrResync(e: Engine, event: StateEvent, env: Env)
    : (Engine, Result<bool, EngineError>)
  {
    if ApplyEvent(e.store.state, event).Ok? then
      (e.(store := Apply(e.store, event),
          log := e.log + [StateChanged(event)],
          applied := e.applied + [event]),
       Ok(true))
    else
      var (next, error) := Resync(Announce(e), env);
      (next, if error.Some? then Err(error.value) else Ok(false))
  }

  /** The events in order, up to the first that is not applied. */
  function Drain(e: Engine, events: seq<StateEvent>, env: Env): (Engine, Result<bool, EngineError>)
    decreases |events|
  {
    if |events| == 0 then (e, Ok(true))
    else
      var (next, r) := ApplyOrResync(e, events[0], env);
      if r == Ok(true) then Drain(next, events[1..], env) else (next, r)
  }

  function ErrorOf(r: Result<bool, EngineError>): Option<EngineError> {
    match r case Ok(_) => None case Err(error) => Some(error)
  }

  function ProcessReplay(e: Engine, replay: SyncReplay, env: Env): (Engine, Option<EngineError>) {
    var (machine, error) := AcceptReplay(e.machine, replay);
    var e1 := e.(machine := machine);
    if error.Some? then Recover(e1, error.value, env)
    else
      var (e2, r) := Drain(e1.(admitted := e.admitted + replay.events), replay.events, env);
      (e2, ErrorOf(r))
  }

  function ProcessComplete(e: Engine, cursor: Cursor, env: Env): (Engine, Option<EngineError>) {
    var (machine, queued) := AcceptComplete(e.machine, cursor);
    var e1 := e.(machine := machine);
    if queued.Err? then Recover(e1, queued.error, env)
    else
      var (e2, r) := Drain(e1.(store := UpdateCursor(e.store, cursor)), queued.value, env);
      if r == Ok(true) then (SetStatus(e2, StatusLive), None) else (e2, ErrorOf(r))
  }

  function ProcessEvent(e: Engine, event: StateEvent, env: Env): (Engine, Option<EngineError>) {
    var (machine, r) := AcceptLive(e.machine, event);
    var e1 := e.(machine := machine);
    if r.Err? then Recover(e1, r.error, env)
    else
      var e2 := e1.(admitted := e.admitted + [event]);
      if r.value.None? then (e2, None)
      else
        var (e3, applied) := ApplyOrResync(e2, event, env);
        (e3, ErrorOf(applied))
  }

  /** `process_frame`; command results only touch the pending table. */
  function ProcessFrame(e: Engine, frame: ServerFrame, env: Env): (Engine, Option<EngineError>) {
    match frame
    case ConnectionReady(_) => (e, Some(ProtocolViolation))
    case ReplayFrame(replay) => ProcessReplay(e, replay, env)
    case CompleteFrame(cursor) => ProcessComplete(e, cursor, env)
    case RequiredFrame => Resync(Announce(e), env)
    case EventFrame(event) => ProcessEvent(e, event, env)
    case CommandResult => (e, None)
    case AuthRevoked => (e, Some(Revoked))
    case UnknownFrame(frameType) =>
      if "state." <= frameType then Resync(Announce(e), env)
      else (e.(log := e.log + [UnknownReceived(frameType)]), None)
  }

  /** The prefix of `run`: first frame, ready, first hello, on the store as it stands. */
  function Open(store: StoreView, log: seq<ClientEvent>, hellos: seq<Cursor>,
                first: ServerFrame, sendOk: bool): (Engine, Option<EngineError>)
  {
    var (connecting, error) := BeginConnecting(New(store.state));
    var e := Engine(connecting, store, StatusConnecting, log, hellos, [], [], [], []);
    if error.Some? then (e, Some(SyncFailed(error.value)))
    else if !first.ConnectionReady? then (e, Some(ProtocolViolation))
    else
      var (ready, refused) := AcceptReady(connecting, first.id);
      if refused.Some? then (e, Some(SyncFailed(refused.value)))
      else
        var e1 := SetStatus(e.(machine := ready), StatusReady);
        var (syncing, cursor) := BeginSync(ready);
        var e2 := e1.(machine := syncing, log := e1.log + [ReadyEvent(first.id)]);
        if cursor.Err? then (e2, Some(SyncFailed(cursor.error)))
        else if !sendOk then (e2, Some(SendFailed))
        else (SetStatus(SaidHello(e2, cursor.value), StatusSyncing), None)
  }
}
