/**
 Whole connections: socket generations open, process frames and are lost, over one
 store. What is reachable stays coupled, and `Live` is a publication barrier.
 */
module Lifetime {
  import opened Common
  import opened ClientModel
  import opened Projection
  import opened KeyHistory
  import opened Store
  import opened Sync
  import opened Socket
  import opened Handoff

  /** Between sockets only the store, the log and the hellos already sent remain. */
  datatype Link =
    | Down(store: StoreView, log: seq<ClientEvent>, hellos: seq<Cursor>)
    | Up(engine: Engine)

  datatype LinkInput =
    | OpenSocket(first: ServerFrame, sendOk: bool)
    | Receive(frame: ServerFrame, env: Env)
    /** The host stops while the frame's handler waits: `cut` of its store steps were made. */
    | StopInside(frame: ServerFrame, env: Env, cut: nat)
    | SocketLost

  /**
   What a handler dropped at an await leaves behind. Dropped between two events, it has
   worked off the first `cut` of them; dropped inside a resync, it is where a provider or
   a transport that fails would have left it.
   */
  function Interrupt(e: Engine, frame: ServerFrame, env: Env, cut: nat): Engine {
    match frame
    case ReplayFrame(replay) =>
      var (machine, refused) := AcceptReplay(e.machine, replay);
      if refused.Some? then Recover(e.(machine := machine), refused.value, env).0
      else
        Drain(e.(machine := machine, admitted := e.admitted + replay.events),
              replay.events[..Min(cut, |replay.events|)], env).0
    case CompleteFrame(cursor) =>
      var (machine, queued) := AcceptComplete(e.machine, cursor);
      if queued.Err? then Recover(e.(machine := machine), queued.error, env).0
      else if cut == 0 then e.(machine := machine)
      else
        Drain(Completed(e, cursor), queued.value[..Min(cut - 1, |queued.value|)], env).0
    case EventFrame(event) =>
      if cut == 0 then e.(machine := AcceptLive(e.machine, event).0) else ProcessEvent(e, event, env).0
    case _ => if cut == 0 then e else ProcessFrame(e, frame, env).0
  }

  function Dropped(e: Engine): Link {
    Down(e.store, e.log, e.hellos)
  }

  function Advance(link: Link, input: LinkInput): Link {
    match (link, input)
    case (Down(store, log, hellos), OpenSocket(first, sendOk)) =>
      var (e, error) := Open(store, log, hellos, first, sendOk);
      if error.None? then Up(e) else Dropped(e)
    case (Up(e), Receive(frame, env)) =>
      var (next, error) := ProcessFrame(e, frame, env);
      if error.None? then Up(next) else Dropped(next)
    case (Up(e), StopInside(frame, env, cut)) => Dropped(Interrupt(e, frame, env, cut))
    case (Up(e), SocketLost) => Dropped(e)
    case _ => link
  }

  function Run(snapshot: ClientState, inputs: seq<LinkInput>): Link {
    if |inputs| == 0 then Down(FromSnapshot(snapshot), [], [])
    else Advance(Run(snapshot, inputs[..|inputs| - 1]), inputs[|inputs| - 1])
  }

  ghost predicate Sound(link: Link) {
    match link
    case Down(store, _, _) => Consistent(store)
    case Up(e) => Coupled(e)
  }

  /** A new socket starts coupled: its machine is bound to the store as it stands. */
  lemma OpenIsCoupled(store: StoreView, log: seq<ClientEvent>, hellos: seq<Cursor>,
                      first: ServerFrame, sendOk: bool)
    requires Consistent(store)
    ensures var (e, error) := Open(store, log, hellos, first, sendOk);
      && e.store == store
      && (error.None? <==> first.ConnectionReady? && sendOk)
      && (error.None? ==> Coupled(e) && e.hellos == hellos + [store.state.cursor])
  {
    StoreStandsAtLastSent(store);
    hide Consistent;
    var (e, error) := Open(store, log, hellos, first, sendOk);
    if error.None? {
      assert e.sentBefore + e.applied == e.sentBefore;
      assert e.shownBefore + e.applied == e.shownBefore;
      assert e.log[..|e.log| - 1] + [StatusChanged(StatusSyncing)] == e.log;
    }
  }

  lemma StoreStandsAtLastSent(store: StoreView)
    requires Consistent(store)
    ensures store.state.geid == LastGeid(store.base.geid, store.sent)
  {
  }

  lemma DrainConsistent(e: Engine, events: seq<StateEvent>, env: Env)
    requires Consistent(e.store) && (e.machine.phase == Syncing || e.machine.phase == Live)
    ensures Consistent(Drain(e, events, env).0.store)
  {
    hide Consistent, ApplyEvent, Drain;
    if ApplyAll(e.store, events).Some? {
      DrainApplies(e, events, env);
      DrainedStore(e.store, events);
    } else {
      DrainResyncs(e, events, env);
    }
  }

  lemma RecoverConsistent(e: Engine, error: SyncError, env: Env)
    requires Consistent(e.store) && (e.machine.phase == Syncing || e.machine.phase == Live)
    ensures Consistent(Recover(e, error, env).0.store)
  {
    hide Consistent;
    if !error.InvalidPhase? {
      ResyncOutcome(Announce(e), env);
    }
  }

  /** Wherever it is dropped, a handler leaves the store the fold of what it sent. */
  lemma InterruptIsConsistent(e: Engine, frame: ServerFrame, env: Env, cut: nat)
    requires Coupled(e)
    ensures Consistent(Interrupt(e, frame, env, cut).store)
  {
    CoupledPhase(e);
    hide Consistent, QueueAccounted, InStep, Drain, Recover, ApplyEvent;
    match frame {
      case ReplayFrame(replay) =>
        var (machine, refused) := AcceptReplay(e.machine, replay);
        ReplayKeepsPhase(e.machine, replay);
        if refused.Some? {
          RecoverConsistent(e.(machine := machine), refused.value, env);
        } else {
          DrainConsistent(e.(machine := machine, admitted := e.admitted + replay.events),
                          replay.events[..Min(cut, |replay.events|)], env);
        }
      case CompleteFrame(cursor) =>
        var (machine, queued) := AcceptComplete(e.machine, cursor);
        CursorConsistent(e.store, cursor);
        if queued.Err? {
          RecoverConsistent(e.(machine := machine), queued.error, env);
        } else if cut > 0 {
          DrainConsistent(Completed(e, cursor), queued.value[..Min(cut - 1, |queued.value|)], env);
        }
      case EventFrame(event) =>
        if cut > 0 { FrameKeepsCoupling(e, frame, env); }
      case _ =>
        if cut > 0 { FrameKeepsCoupling(e, frame, env); }
    }
  }

  lemma ReplayKeepsPhase(m: Machine, replay: SyncReplay)
    ensures AcceptReplay(m, replay).0.phase == m.phase
  {
    OrderedAllFrame(m, replay.events);
  }

  lemma AdvanceIsSound(link: Link, input: LinkInput)
    requires Sound(link)
    ensures Sound(Advance(link, input))
  {
    hide Consistent, QueueAccounted, InStep, Interrupt;
    match (link, input) {
      case (Down(store, log, hellos), OpenSocket(first, sendOk)) =>
        OpenIsCoupled(store, log, hellos, first, sendOk);
      case (Up(e), Receive(frame, env)) =>
        FrameKeepsCoupling(e, frame, env);
      case (Up(e), StopInside(frame, env, cut)) =>
        InterruptIsConsistent(e, frame, env, cut);
      case _ =>
    }
  }

  /**
   Over every run of socket generations and server frames, stopped anywhere: the store is the fold of
   what it sent, and while a socket is up the machine and the store are coupled.
   */
  lemma {:induction false} ReachableIsSound(snapshot: ClientState, inputs: seq<LinkInput>)
    ensures Sound(Run(snapshot, inputs))
  {
    hide Consistent, Coupled;
    if |inputs| == 0 {
      ReplaceConsistent(FromSnapshot(snapshot), snapshot);
    } else {
      ReachableIsSound(snapshot, inputs[..|inputs| - 1]);
      AdvanceIsSound(Run(snapshot, inputs[..|inputs| - 1]), inputs[|inputs| - 1]);
    }
  }

  /** What the invariant says to a reader of the public status. */
  lemma ReachableStatus(snapshot: ClientState, inputs: seq<LinkInput>)
    requires Run(snapshot, inputs).Up?
    ensures var e := Run(snapshot, inputs).engine;
      && (e.status == StatusLive <==> e.machine.phase == Live)
      && (e.status == StatusLive ==>
            e.machine.geid == e.store.state.geid && e.machine.queue == []
            && e.admitted == e.applied)
      && (e.status != StatusLive ==> e.machine.phase == Syncing)
      && (e.machine.queue == [] ==> e.machine.geid == e.store.state.geid)
      && (e.machine.queue != [] ==>
            e.machine.geid == MaxInt(e.store.state.geid, LastGeid(0, e.machine.queue)))
  {
    ReachableIsSound(snapshot, inputs);
  }

  // ----- the publication barrier -----------------------------------------------------------

  /**
   `Live` is published exactly when everything queued applies, and then the events
   installed since the hello are the admitted ones in wire order. Otherwise the
   task is back at a fresh snapshot and a fresh hello.
   */
  lemma PublicationBarrier(e: Engine, cursor: Cursor, env: Env)
    requires Coupled(e) && e.machine.phase == Syncing
    requires ProcessFrame(e, CompleteFrame(cursor), env).1 == None
    ensures var next := ProcessFrame(e, CompleteFrame(cursor), env).0;
      && (next.status == StatusLive <==> Fold(e.store.state, e.machine.queue).Some?)
      && (next.status == StatusLive ==>
            && next.applied == next.admitted == e.admitted == e.applied + e.machine.queue
            && next.store.sent == next.sentBefore + next.admitted
            && next.store.state.cursor == LastCursor(cursor, e.machine.queue)
            && next.machine.cursor == cursor)
      && (next.status != StatusLive ==>
            env.snapshot.Some? && Fresh(e, next, env.snapshot.value))
  {
    hide ApplyEvent, Fold, Consistent, QueueAccounted;
    CompleteStep(e, cursor, env);
  }

  /** A replay batch that overtook a queued event rules `Live` out. */
  lemma OvertakenNeverLive(e: Engine, cursor: Cursor, env: Env)
    requires Coupled(e) && e.machine.phase == Syncing && e.machine.queue != []
    requires e.machine.queue[0].geid <= e.store.state.geid
    ensures ProcessFrame(e, CompleteFrame(cursor), env).0.status != StatusLive
  {
    var queue := e.machine.queue;
    if Fold(e.store.state, queue).Some? {
      FoldAscends(e.store.state, queue);
      AscendingCons(e.store.state.geid, queue);
    }
    CompleteResult(e, cursor, env);
    FoldIgnoresCursor(e.store.state, queue, cursor);
    var (next, error) := ProcessFrame(e, CompleteFrame(cursor), env);
    if error.Some? {
      FatalKeepsSyncing(Completed(e, cursor), queue, env);
    }
  }

  /** A resync that fails, fails after `Syncing` was published. */
  lemma {:induction false} FatalKeepsSyncing(e: Engine, events: seq<StateEvent>, env: Env)
    requires e.machine.phase == Live && e.status == StatusSyncing
    ensures Drain(e, events, env).0.status == StatusSyncing
    decreases |events|
  {
    hide ApplyEvent;
    if |events| > 0 {
      var (next, r) := ApplyOrResync(e, events[0], env);
      if r == Ok(true) {
        FatalKeepsSyncing(next, events[1..], env);
      }
    }
  }

  /** So does any other order in which the installed events would differ from the wire. */
  lemma BrokenOrderNeverLive(e: Engine, cursor: Cursor, env: Env)
    requires Coupled(e) && e.machine.phase == Syncing
    requires e.admitted != e.applied + e.machine.queue
    requires ProcessFrame(e, CompleteFrame(cursor), env).1 == None
    ensures ProcessFrame(e, CompleteFrame(cursor), env).0.status == StatusSyncing
    ensures env.snapshot.Some?
    ensures Fresh(e, ProcessFrame(e, CompleteFrame(cursor), env).0, env.snapshot.value)
  {
    hide ApplyEvent, Fold, Coupled;
    PublicationBarrier(e, cursor, env);
  }

  // ----- a queued event may fall behind the store ------------------------------------------

  /** The frames received since the last hello; none once the socket is down. */
  function FramesSinceHello(snapshot: ClientState, inputs: seq<LinkInput>): seq<ServerFrame> {
    if |inputs| == 0 then []
    else
      var n := |inputs| - 1;
      var earlier, before := FramesSinceHello(snapshot, inputs[..n]), Run(snapshot, inputs[..n]);
      match (before, inputs[n])
      case (Up(e), Receive(frame, env)) =>
        var after := Advance(before, inputs[n]);
        if after.Up? && after.engine.hellos == e.hellos then earlier + [frame] else []
      case (Up(_), OpenSocket(_, _)) => earlier
      case _ => []
  }

  predicate SomeLive(frames: seq<ServerFrame>) {
    exists i :: 0 <= i < |frames| && frames[i].EventFrame?
  }

  /** Whether a non-empty replay batch came after a live event. */
  predicate BatchAfterLive(frames: seq<ServerFrame>) {
    |frames| > 0 &&
    var n := |frames| - 1;
    || BatchAfterLive(frames[..n])
    || (frames[n].ReplayFrame? && frames[n].replay.events != [] && SomeLive(frames[..n]))
  }

  /** What the frames since the hello say of the queue. */
  ghost predicate ToldBy(e: Engine, frames: seq<ServerFrame>) {
    e.machine.phase == Syncing ==>
      && (e.machine.queue != [] <==> SomeLive(frames))
      && (e.admitted == e.applied + e.machine.queue <==> !BatchAfterLive(frames))
  }

  lemma OneMoreFrame(frames: seq<ServerFrame>, frame: ServerFrame)
    ensures SomeLive(frames + [frame]) <==> SomeLive(frames) || frame.EventFrame?
    ensures BatchAfterLive(frames + [frame])
       <==> BatchAfterLive(frames)
            || (frame.ReplayFrame? && frame.replay.events != [] && SomeLive(frames))
  {
    var longer := frames + [frame];
    assert longer[..|frames|] == frames;
    if SomeLive(frames) {
      var i :| 0 <= i < |frames| && frames[i].EventFrame?;
      assert longer[i].EventFrame?;
    }
    if frame.EventFrame? {
      assert longer[|frames|].EventFrame?;
    }
  }

  /** A batch keeps the wire order only of an empty queue. */
  lemma BatchOvertakes(admitted: seq<StateEvent>, applied: seq<StateEvent>, queue: seq<StateEvent>,
                       events: seq<StateEvent>, geid: Geid)
    requires LastGeid(-1, queue) <= geid && Ascending(geid, events)
    ensures admitted + events == applied + events + queue
       <==> admitted == applied + queue && (queue == [] || events == [])
  {
    if queue != [] && events != [] {
      AllAboveFloor(geid, events, |events| - 1);
      assert (admitted + events)[|admitted + events| - 1] == events[|events| - 1];
      var all := applied + events + queue;
      assert all[|all| - 1] == queue[|queue| - 1];
    } else if queue == [] {
      assert applied + events + queue == applied + events;
      assert applied + queue == applied;
      SuffixCancels(admitted, applied, events);
    } else {
      assert admitted + events == admitted && applied + events == applied;
    }
  }

  lemma SuffixCancels<T>(a: seq<T>, b: seq<T>, suffix: seq<T>)
    ensures a + suffix == b + suffix <==> a == b
  {
    if a + suffix == b + suffix {
      assert |a| == |b|;
      assert a == (a + suffix)[..|a|] && b == (b + suffix)[..|b|];
    }
  }

  lemma ReplayToldBy(e: Engine, replay: SyncReplay, frames: seq<ServerFrame>)
    requires Coupled(e) && e.machine.phase == Syncing && ToldBy(e, frames)
    requires InOrder(e.machine, replay)
    ensures ToldBy(AfterReplay(e, replay), frames + [ReplayFrame(replay)])
  {
    hide Consistent, ApplyEvent, Fold, SomeLive, BatchAfterLive, AllApplied;
    ReplayVerdict(e.machine, replay);
    OneMoreFrame(frames, ReplayFrame(replay));
    BatchOvertakes(e.admitted, e.applied, e.machine.queue, replay.events, e.machine.geid);
  }

  lemma EventToldBy(e: Engine, event: StateEvent, frames: seq<ServerFrame>)
    requires Coupled(e) && e.machine.phase == Syncing && ToldBy(e, frames)
    requires Fits(e.machine, event) && event.geid > e.machine.geid
    ensures ToldBy(Admitted(e, event), frames + [EventFrame(event)])
  {
    hide Consistent, ApplyEvent, Fold, SomeLive, BatchAfterLive;
    OneMoreFrame(frames, EventFrame(event));
    Assoc(e.applied, e.machine.queue, [event]);
    SuffixCancels(e.admitted, e.applied + e.machine.queue, [event]);
  }

  /** A frame that brought no new hello is one more in the account. */
  lemma FrameToldBy(e: Engine, frame: ServerFrame, env: Env, frames: seq<ServerFrame>)
    requires Coupled(e) && ToldBy(e, frames)
    requires ProcessFrame(e, frame, env).1.None? && ProcessFrame(e, frame, env).0.hellos == e.hellos
    ensures ToldBy(ProcessFrame(e, frame, env).0, frames + [frame])
  {
    hide ApplyEvent, Fold, Consistent, QueueAccounted, InStep, InOrder, ToldBy;
    FrameFates(e, frame, env);
    CoupledPhase(e);
    OneMoreFrame(frames, frame);
    match frame {
      case ReplayFrame(replay) =>
        ReplayResult(e, replay, env);
        ReplayToldBy(e, replay, frames);
      case CompleteFrame(cursor) =>
        CompleteResult(e, cursor, env);
        LiveIsNotTold(AfterComplete(e, cursor), frames + [frame]);
      case EventFrame(event) =>
        EventResult(e, event, env);
        if e.machine.phase == Syncing {
          EventToldBy(e, event, frames);
        } else {
          LiveIsNotTold(Applied(Admitted(e, event), event), frames + [frame]);
        }
      case _ =>
        SameIsTold(e, ProcessFrame(e, frame, env).0, frames, frame);
    }
  }

  lemma LiveIsNotTold(e: Engine, frames: seq<ServerFrame>)
    requires e.machine.phase == Live
    ensures ToldBy(e, frames)
  {
  }

  lemma SameIsTold(e: Engine, next: Engine, frames: seq<ServerFrame>, frame: ServerFrame)
    requires ToldBy(e, frames) && !frame.EventFrame? && !frame.ReplayFrame?
    requires next.machine == e.machine && next.admitted == e.admitted && next.applied == e.applied
    ensures ToldBy(next, frames + [frame])
  {
    OneMoreFrame(frames, frame);
  }

  lemma FreshIsTold(e: Engine)
    requires e.machine.queue == [] && e.admitted == [] && e.applied == []
    ensures ToldBy(e, [])
  {
  }

  lemma {:induction false} ReachableIsTold(snapshot: ClientState, inputs: seq<LinkInput>)
    ensures Run(snapshot, inputs).Up? ==>
              ToldBy(Run(snapshot, inputs).engine, FramesSinceHello(snapshot, inputs))
  {
    hide Consistent, Coupled, ToldBy, ProcessFrame, Open;
    if |inputs| > 0 {
      var n := |inputs| - 1;
      var before := Run(snapshot, inputs[..n]);
      ReachableIsTold(snapshot, inputs[..n]);
      ReachableIsSound(snapshot, inputs[..n]);
      match (before, inputs[n]) {
        case (Up(e), Receive(frame, env)) =>
          if ProcessFrame(e, frame, env).1.None? {
            StepIsTold(e, frame, env, FramesSinceHello(snapshot, inputs[..n]));
          }
        case (Down(store, log, hellos), OpenSocket(first, sendOk)) =>
          OpenIsTold(store, log, hellos, first, sendOk);
        case _ =>
      }
    }
  }

  lemma StepIsTold(e: Engine, frame: ServerFrame, env: Env, frames: seq<ServerFrame>)
    requires Coupled(e) && ToldBy(e, frames) && ProcessFrame(e, frame, env).1.None?
    ensures var next := ProcessFrame(e, frame, env).0;
            ToldBy(next, if next.hellos == e.hellos then frames + [frame] else [])
  {
    hide ProcessFrame, ToldBy, Coupled, Consistent, Followed;
    FrameFates(e, frame, env);
    var next := ProcessFrame(e, frame, env).0;
    if next.hellos == e.hellos {
      FrameToldBy(e, frame, env, frames);
    } else {
      FollowedKeepsHellos(e, next);
      FreshIsTold(next);
    }
  }

  lemma FollowedKeepsHellos(e: Engine, next: Engine)
    ensures Followed(e, next) ==> next.hellos == e.hellos
  {
  }

  lemma OpenIsTold(store: StoreView, log: seq<ClientEvent>, hellos: seq<Cursor>,
                   first: ServerFrame, sendOk: bool)
    ensures var (e, error) := Open(store, log, hellos, first, sendOk);
            error.None? ==> ToldBy(e, [])
  {
    hide ToldBy;
    var (e, error) := Open(store, log, hellos, first, sendOk);
    if error.None? {
      FreshIsTold(e);
    }
  }

  /**
   The exact condition, over every run: while syncing, every queued event is above the
   store exactly when no non-empty replay batch has come after a live event since the
   last hello.
   */
  lemma QueuedAboveStoreExactly(snapshot: ClientState, inputs: seq<LinkInput>)
    requires Run(snapshot, inputs).Up? && Run(snapshot, inputs).engine.machine.phase == Syncing
    ensures QueuedAboveStore(Run(snapshot, inputs).engine)
       <==> !BatchAfterLive(FramesSinceHello(snapshot, inputs))
  {
    hide Coupled, QueuedAboveStore, BatchAfterLive, FramesSinceHello, SomeLive, Run;
    ReachableIsSound(snapshot, inputs);
    ReachableIsTold(snapshot, inputs);
    QueuedAboveExactly(Run(snapshot, inputs).engine);
  }

  /** A `server.updated` event: it applies to any earlier state and changes only the checkpoint. */
  function Tick(geid: Geid): StateEvent {
    StateEvent("state.event", geid, "c", "state", EventScope(ServerScope, None), ServerUpdated,
               Payload(None, None, None, None, None, None, None, None, None, None, None), Some(1))
  }

  /**
   "Every queued event is above the store's GEID" is false: after a live event and
   then a replay batch beyond it, the queued event lies behind the store.
   */
  lemma QueuedEventOvertaken(snapshot: ClientState, env: Env)
    requires snapshot.geid + 2 <= U64_MAX
    ensures var inputs := [OpenSocket(ConnectionReady(1), true),
                           Receive(EventFrame(Tick(snapshot.geid + 1)), env),
                           Receive(ReplayFrame(SyncReplay(snapshot.geid + 2, snapshot.geid + 2,
                                                          [Tick(snapshot.geid + 2)])), env)];
      && Run(snapshot, inputs).Up?
      && Run(snapshot, inputs).engine.machine.queue == [Tick(snapshot.geid + 1)]
      && Run(snapshot, inputs).engine.store.state.geid == snapshot.geid + 2
  {
    hide Run, Advance;
    var g := snapshot.geid;
    var open := OpenSocket(ConnectionReady(1), true);
    var live := Receive(EventFrame(Tick(g + 1)), env);
    var batch := SyncReplay(g + 2, g + 2, [Tick(g + 2)]);
    RunAppend(snapshot, [], open);
    RunAppend(snapshot, [open], live);
    RunAppend(snapshot, [open, live], Receive(ReplayFrame(batch), env));
    assert [] + [open] == [open] && [open] + [live] == [open, live];
    FirstHello(snapshot);
    var e1 := Run(snapshot, [open]).engine;
    QueuedTick(e1, g + 1, env);
    var e2 := Run(snapshot, [open, live]).engine;
    BatchFollowed(e2, batch, env);
    OvertakingBatch(e2, g + 2, env);
    assert [open, live] + [Receive(ReplayFrame(batch), env)]
        == [open, live, Receive(ReplayFrame(batch), env)];
  }

  lemma RunAppend(snapshot: ClientState, inputs: seq<LinkInput>, input: LinkInput)
    ensures Run(snapshot, inputs + [input]) == Advance(Run(snapshot, inputs), input)
  {
    hide Advance;
    assert (inputs + [input])[..|inputs|] == inputs;
  }

  lemma FirstHello(snapshot: ClientState)
    ensures var link := Advance(Run(snapshot, []), OpenSocket(ConnectionReady(1), true));
      && link.Up? && link.engine.machine.phase == Syncing && link.engine.machine.queue == []
      && link.engine.machine.geid == snapshot.geid == link.engine.store.state.geid
      && link.engine.machine.queueBytes == 0
  {
  }

  lemma QueuedTick(e: Engine, geid: Geid, env: Env)
    requires e.machine.phase == Syncing && e.machine.queue == [] && e.machine.queueBytes == 0
    requires e.machine.geid < geid
    ensures var link := Advance(Up(e), Receive(EventFrame(Tick(geid)), env));
      && link.Up? && link.engine.machine.phase == Syncing && link.engine.store == e.store
      && link.engine.machine.queue == [Tick(geid)] && link.engine.machine.geid == geid
  {
    hide ApplyEvent;
    assert [] + [Tick(geid)] == [Tick(geid)];
  }

  lemma BatchFollowed(e: Engine, batch: SyncReplay, env: Env)
    ensures ProcessReplay(e, batch, env).1 == None ==>
              Advance(Up(e), Receive(ReplayFrame(batch), env)) == Up(ProcessReplay(e, batch, env).0)
  {
    hide ProcessReplay;
  }

  lemma OvertakingBatch(e: Engine, geid: Geid, env: Env)
    requires e.machine.phase == Syncing
    requires e.machine.geid < geid && e.store.state.geid < geid
    ensures var (next, error) := ProcessReplay(e, SyncReplay(geid, geid, [Tick(geid)]), env);
      error.None? && next.machine.queue == e.machine.queue && next.store.state.geid == geid
  {
    var batch := SyncReplay(geid, geid, [Tick(geid)]);
    hide ApplyEvent, Fold;
    TickFolds(e.store.state, geid);
    AscendingAppend(e.machine.geid, [], Tick(geid));
    assert [] + [Tick(geid)] == batch.events;
    assert InOrder(e.machine, batch);
    ReplayResult(e, batch, env);
    FoldAscends(e.store.state, [Tick(geid)]);
    ReplayVerdict(e.machine, batch);
  }

  lemma TickFolds(state: ClientState, geid: Geid)
    requires state.geid < geid
    ensures Fold(state, [Tick(geid)]).Some?
  {
    assert [Tick(geid)][..0] == [];
    assert ApplyEvent(state, Tick(geid)).Ok?;
  }
}
