/**
 What the socket task keeps over whole runs: the machine and the store advance
 separately, and this module says how they stay coupled, when a frame forces a new
 snapshot, and what publishing `Live` promises.
 */
module Handoff {
  import opened Common
  import opened ClientModel
  import opened Projection
  import opened KeyHistory
  import opened Store
  import opened Sync
  import opened Socket

  /**
   The invariant between frames. A queued live event may lie below the store's GEID
   (a later replay batch can overtake it), so the machine stands at the greater of
   the two. The admitted events are the applied ones and the queued ones together.
   */
  ghost predicate Coupled(e: Engine) {
    Consistent(e.store) && QueueAccounted(e.machine) && InStep(e)
  }

  ghost predicate InStep(e: Engine) {
    && PhaseShown(e)
    && e.machine.geid == MaxInt(e.store.state.geid, LastGeid(e.store.state.geid, e.machine.queue))
    && e.store.sent == e.sentBefore + e.applied
    && Shown(e.log) == e.shownBefore + e.applied
    && multiset(e.admitted) == multiset(e.applied) + multiset(e.machine.queue)
    && Ascending(HelloGeid(e), e.admitted)
    && LastGeid(HelloGeid(e), e.admitted) <= e.machine.geid
    && (e.machine.phase == Live ==> e.admitted == e.applied)
  }

  /** Where the store stood when the last hello went out. */
  function HelloGeid(e: Engine): int {
    LastGeid(e.store.base.geid, e.sentBefore)
  }

  predicate PhaseShown(e: Engine) {
    || (e.machine.phase == Syncing && e.status == StatusSyncing)
    || (e.machine.phase == Live && e.status == StatusLive)
  }

  function MaxInt(a: int, b: int): int {
    if a < b then b else a
  }

  lemma Assoc<T>(a: seq<T>, b: seq<T>, c: seq<T>)
    ensures a + b + c == a + (b + c)
  {
  }

  // ----- sequences of events ---------------------------------------------------------------

  lemma {:induction false} LowerFloor(floor: int, lower: int, events: seq<StateEvent>)
    requires Ascending(floor, events) && lower <= floor
    ensures Ascending(lower, events)
  {
    if |events| > 0 {
      LowerFloor(floor, lower, events[..|events| - 1]);
    }
  }

  lemma {:induction false} LastIsGreatest(floor: int, events: seq<StateEvent>, event: StateEvent)
    requires Ascending(floor, events) && event in events
    ensures event.geid <= LastGeid(floor, events)
  {
    var i :| 0 <= i < |events| && events[i] == event;
    if i < |events| - 1 {
      AscendingPairs(floor, events, i, |events| - 1);
    }
  }

  /** Two ascending sequences of the same events are the same sequence. */
  lemma {:induction false} AscendingUnique(floor: int, a: seq<StateEvent>, b: seq<StateEvent>)
    requires Ascending(floor, a) && Ascending(floor, b) && multiset(a) == multiset(b)
    ensures a == b
    decreases |a|
  {
    assert |a| == |multiset(a)| == |multiset(b)| == |b|;
    if |a| > 0 {
      var n := |a| - 1;
      SplitLast(a);
      SplitLast(b);
      assert a[n] in multiset(b) && b[n] in multiset(a);
      LastIsGreatest(floor, b, a[n]);
      LastIsGreatest(floor, a, b[n]);
      SameGeidSameEvent(floor, a, b[n]);
      assert multiset(a[..n]) == multiset(a) - multiset{a[n]};
      assert multiset(b[..n]) == multiset(b) - multiset{b[n]};
      AscendingUnique(floor, a[..n], b[..n]);
    }
  }

  lemma SplitLast(events: seq<StateEvent>)
    requires |events| > 0
    ensures events == events[..|events| - 1] + [events[|events| - 1]]
    ensures multiset(events)
         == multiset(events[..|events| - 1]) + multiset{events[|events| - 1]}
  {
    assert events == events[..|events| - 1] + [events[|events| - 1]];
  }

  lemma SameGeidSameEvent(floor: int, events: seq<StateEvent>, event: StateEvent)
    requires Ascending(floor, events) && event in events
    requires event.geid == LastGeid(floor, events)
    ensures event == events[|events| - 1]
  {
    var i :| 0 <= i < |events| && events[i] == event;
    if i < |events| - 1 {
      AscendingPairs(floor, events, i, |events| - 1);
    }
  }

  // ----- resynchronization -----------------------------------------------------------------

  /** What a resync comes to, given the provider and the transport. */
  function ResyncError(env: Env): Option<EngineError> {
    if env.snapshot.None? then Some(ProviderFailed)
    else if !env.sendOk then Some(SendFailed)
    else None
  }

  /** A new hand-off from `snapshot`, with its hello sent, on the same socket. */
  ghost predicate Fresh(e: Engine, next: Engine, snapshot: ClientState) {
    && next.store == Replace(e.store, snapshot)
    && next.machine.phase == Syncing && next.status == StatusSyncing
    && next.machine.geid == snapshot.geid && next.machine.cursor == snapshot.cursor
    && next.machine.queue == [] && next.machine.queueBytes == 0
    && next.hellos == e.hellos + [snapshot.cursor]
    && next.admitted == [] && next.applied == [] && next.sentBefore == []
    && next.shownBefore == Shown(next.log)
  }

  lemma ResyncOutcome(e: Engine, env: Env)
    requires e.machine.phase == Syncing || e.machine.phase == Live
    ensures var (next, error) := Resync(e, env);
      && error == ResyncError(env)
      && (error.None? ==> Fresh(e, next, env.snapshot.value))
      && (Consistent(e.store) ==> Consistent(next.store))
  {
    if env.snapshot.Some? {
      ReplaceConsistent(e.store, env.snapshot.value);
    }
  }

  lemma FreshIsCoupled(e: Engine, next: Engine, snapshot: ClientState)
    requires Fresh(e, next, snapshot)
    ensures Coupled(next)
  {
    ReplaceConsistent(e.store, snapshot);
    assert next.store.sent == next.sentBefore + next.applied;
    assert Shown(next.log) == next.shownBefore + next.applied;
  }

  // ----- applying events in order ----------------------------------------------------------

  function Changes(events: seq<StateEvent>): seq<ClientEvent> {
    if |events| == 0 then []
    else Changes(events[..|events| - 1]) + [StateChanged(events[|events| - 1])]
  }

  lemma {:induction false} ShownChanges(log: seq<ClientEvent>, events: seq<StateEvent>)
    ensures Shown(log + Changes(events)) == Shown(log) + events
    decreases |events|
  {
    if |events| == 0 {
      assert log + Changes(events) == log;
    } else {
      var n := |events| - 1;
      ShownChanges(log, events[..n]);
      var longer := log + Changes(events);
      assert longer[..|longer| - 1] == log + Changes(events[..n]);
      assert events == events[..n] + [events[n]];
    }
  }

  lemma {:induction false} ChangesCons(events: seq<StateEvent>)
    requires |events| > 0
    ensures Changes(events) == [StateChanged(events[0])] + Changes(events[1..])
    decreases |events|
  {
    if |events| > 1 {
      var init := events[..|events| - 1];
      ChangesCons(init);
      assert init[1..] == events[1..][..|events| - 2];
    }
  }

  /** The store with all the events applied, if they apply. */
  function AllApplied(s: StoreView, events: seq<StateEvent>): StoreView {
    var all := ApplyAll(s, events);
    if all.Some? then all.value else s
  }

  /** All the events applied, shown and recorded. */
  function Drained(e: Engine, events: seq<StateEvent>): Engine {
    e.(store := AllApplied(e.store, events),
       log := e.log + Changes(events),
       applied := e.applied + events)
  }

  /** Same machine and history of hellos; the store may have applied more on its channel. */
  ghost predicate Progressed(e: Engine, next: Engine) {
    && next.machine == e.machine && next.hellos == e.hellos
    && next.store.generation == e.store.generation
    && (Consistent(e.store) ==> Consistent(next.store))
  }

  /** The engine after one applied event. */
  function Applied(e: Engine, event: StateEvent): Engine {
    e.(store := Apply(e.store, event), log := e.log + [StateChanged(event)],
       applied := e.applied + [event])
  }

  lemma ApplyOneStep(e: Engine, event: StateEvent, env: Env)
    requires e.machine.phase == Syncing || e.machine.phase == Live
    ensures var (next, r) := ApplyOrResync(e, event, env);
      && (r == Ok(true) <==> ApplyEvent(e.store.state, event).Ok?)
      && (r == Ok(true) ==>
            && Progressed(e, next)
            && next == Applied(e, event))
      && (r != Ok(true) ==>
            && ErrorOf(r) == ResyncError(env)
            && (r.Ok? ==> Fresh(e, next, env.snapshot.value))
            && (Consistent(e.store) ==> Consistent(next.store)))
  {
    hide ApplyEvent;
    if ApplyEvent(e.store.state, event).Ok? {
      if Consistent(e.store) {
        ApplyConsistent(e.store, event);
      }
    } else {
      ResyncOutcome(Announce(e), env);
    }
  }

  lemma DrainedNone(e: Engine)
    ensures ApplyAll(e.store, []).Some? && Drained(e, []) == e
  {
    assert e.store.sent + [] == e.store.sent;
    assert e.log + Changes([]) == e.log;
    assert e.applied + [] == e.applied;
  }

  lemma DrainedCons(e: Engine, events: seq<StateEvent>)
    requires |events| > 0 && ApplyAll(e.store, events).Some?
    ensures ApplyAll(Applied(e, events[0]).store, events[1..]).Some?
    ensures Drained(Applied(e, events[0]), events[1..]) == Drained(e, events)
  {
    hide ApplyEvent;
    ApplyAllCons(e.store, events);
    ChangesCons(events);
    assert e.log + [StateChanged(events[0])] + Changes(events[1..]) == e.log + Changes(events);
    assert e.applied + [events[0]] + events[1..] == e.applied + events;
  }

  lemma {:induction false} DrainApplies(e: Engine, events: seq<StateEvent>, env: Env)
    requires e.machine.phase == Syncing || e.machine.phase == Live
    requires ApplyAll(e.store, events).Some?
    ensures Drain(e, events, env) == (Drained(e, events), Ok(true))
    decreases |events|
  {
    hide ApplyEvent;
    if |events| == 0 {
      DrainedNone(e);
    } else {
      ApplyAllCons(e.store, events);
      ApplyOneStep(e, events[0], env);
      DrainedCons(e, events);
      DrainApplies(Applied(e, events[0]), events[1..], env);
    }
  }

  /** A resync takes the place of the first event that does not apply. */
  lemma {:induction false} DrainResyncs(e: Engine, events: seq<StateEvent>, env: Env)
    requires e.machine.phase == Syncing || e.machine.phase == Live
    requires ApplyAll(e.store, events).None?
    ensures var (next, r) := Drain(e, events, env);
      && r != Ok(true) && ErrorOf(r) == ResyncError(env)
      && (r.Ok? ==> Fresh(e, next, env.snapshot.value))
      && (Consistent(e.store) ==> Consistent(next.store))
    decreases |events|
  {
    hide ApplyEvent;
    ApplyOneStep(e, events[0], env);
    ApplyAllCons(e.store, events);
    var (next, r) := ApplyOrResync(e, events[0], env);
    if r == Ok(true) {
      DrainResyncs(next, events[1..], env);
    }
  }

  // ----- one frame -------------------------------------------------------------------------

  /** The frame breaks the connection's life cycle: no snapshot can repair it. */
  predicate BreaksLifecycle(e: Engine, frame: ServerFrame) {
    match frame
    case ConnectionReady(_) => true
    case AuthRevoked => true
    case ReplayFrame(_) => e.machine.phase == Live
    case CompleteFrame(_) => e.machine.phase == Live
    case _ => false
  }

  /** A replay batch whose bounds and order the machine accepts. */
  ghost predicate InOrder(m: Machine, replay: SyncReplay) {
    if replay.events == [] then replay.fromGeid == replay.toGeid == m.geid
    else
      && replay.events[0].geid == replay.fromGeid
      && replay.events[|replay.events| - 1].geid == replay.toGeid
      && Ascending(m.geid, replay.events)
  }

  /** The frame cannot be followed from the present state without a new snapshot. */
  ghost predicate NeedsResync(e: Engine, frame: ServerFrame) {
    match frame
    case ReplayFrame(replay) =>
      e.machine.phase == Syncing
      && !(InOrder(e.machine, replay) && Fold(e.store.state, replay.events).Some?)
    case CompleteFrame(cursor) =>
      e.machine.phase == Syncing && Fold(e.store.state, e.machine.queue).None?
    case RequiredFrame => true
    case EventFrame(event) =>
      if e.machine.phase == Syncing then !Fits(e.machine, event) || event.geid <= e.machine.geid
      else event.geid <= e.machine.geid || ApplyEvent(e.store.state, event).Err?
    case UnknownFrame(frameType) => "state." <= frameType
    case _ => false
  }

  lemma ReplayVerdict(m: Machine, replay: SyncReplay)
    requires m.phase == Syncing
    ensures var (next, error) := AcceptReplay(m, replay);
      && (error.None? <==> InOrder(m, replay))
      && (error.Some? ==> !error.value.InvalidPhase?)
      && next == m.(geid := next.geid, cursor := next.cursor)
      && (error.None? ==> next.geid == LastGeid(m.geid, replay.events)
                          && Ascending(m.geid, replay.events))
  {
    OrderedAllFrame(m, replay.events);
  }

  /** The step of a frame that is followed: no resync, no new hello, same channel. */
  ghost predicate Followed(e: Engine, next: Engine) {
    && Coupled(next)
    && next.store.base == e.store.base && next.store.generation == e.store.generation
    && next.hellos == e.hellos
    && next.sentBefore == e.sentBefore
    && e.applied <= next.applied && e.admitted <= next.admitted
  }

  /** The step of a frame that needs a resync. */
  ghost predicate Resynced(e: Engine, next: Engine, error: Option<EngineError>, env: Env) {
    && error == ResyncError(env)
    && (error.None? ==> Fresh(e, next, env.snapshot.value))
    && Consistent(next.store)
  }

  /** The same hand-off with `events` applied on top: stored, shown and recorded. */
  ghost predicate ExtendedBy(e: Engine, next: Engine, events: seq<StateEvent>) {
    && next.store.sent == e.store.sent + events
    && next.store.base == e.store.base && next.store.generation == e.store.generation
    && next.applied == e.applied + events
    && Shown(next.log) == Shown(e.log) + events
    && next.hellos == e.hellos
    && next.sentBefore == e.sentBefore && next.shownBefore == e.shownBefore
  }

  lemma ExtendedHistories(e: Engine, next: Engine, events: seq<StateEvent>)
    requires ExtendedBy(e, next, events)
    requires e.store.sent == e.sentBefore + e.applied
    requires Shown(e.log) == e.shownBefore + e.applied
    ensures next.store.sent == next.sentBefore + next.applied
    ensures Shown(next.log) == next.shownBefore + next.applied
  {
    Assoc(e.sentBefore, e.applied, events);
    Assoc(e.shownBefore, e.applied, events);
  }

  lemma DrainedExtends(e: Engine, events: seq<StateEvent>)
    requires ApplyAll(e.store, events).Some?
    ensures ExtendedBy(e, Drained(e, events), events)
  {
    ShownChanges(e.log, events);
  }

  /** The store after a complete batch. */
  lemma DrainedStore(s: StoreView, events: seq<StateEvent>)
    requires ApplyAll(s, events).Some?
    ensures Consistent(s) ==> Consistent(ApplyAll(s, events).value)
    ensures ApplyAll(s, events).value.state.geid == LastGeid(s.state.geid, events)
    ensures Ascending(s.state.geid, events)
    ensures LastGeid(s.state.geid, events) >= s.state.geid
  {
    if Consistent(s) {
      ApplyAllConsistent(s, events);
    }
    FoldAscends(s.state, events);
    LastAboveFloor(s.state.geid, events);
  }

  lemma AdmittedMore(floor: int, admitted: seq<StateEvent>, events: seq<StateEvent>, geid: Geid)
    requires Ascending(floor, admitted) && LastGeid(floor, admitted) <= geid
    requires Ascending(geid, events)
    ensures Ascending(floor, admitted + events)
    ensures LastGeid(floor, admitted + events) <= LastGeid(geid, events)
    ensures LastGeid(geid, events) >= geid
  {
    LowerFloor(geid, LastGeid(floor, admitted), events);
    AscendingConcat(floor, admitted, events);
    LastAboveFloor(geid, events);
  }

  lemma ReplayInStep(e: Engine, next: Engine, events: seq<StateEvent>)
    requires InStep(e) && e.machine.phase == Syncing && QueueAccounted(e.machine)
    requires ExtendedBy(e, next, events) && PhaseShown(next)
    requires next.machine.phase == Syncing && next.machine.queue == e.machine.queue
    requires next.machine.geid == LastGeid(e.machine.geid, events)
    requires next.store.state.geid == LastGeid(e.store.state.geid, events)
    requires Ascending(e.machine.geid, events)
    requires next.admitted == e.admitted + events
    ensures InStep(next)
  {
    ExtendedHistories(e, next, events);
    AdmittedMore(HelloGeid(e), e.admitted, events, e.machine.geid);
  }

  /** The task after a followed replay batch. */
  function AfterReplay(e: Engine, replay: SyncReplay): Engine {
    Drained(e.(machine := AcceptReplay(e.machine, replay).0,
               admitted := e.admitted + replay.events), replay.events)
  }

  /** Moving a machine's checkpoint forward leaves its queue accounted for. */
  lemma AdvancedAccounted(m: Machine, next: Machine)
    requires QueueAccounted(m) && next == m.(geid := next.geid, cursor := next.cursor)
    requires next.geid >= m.geid
    ensures QueueAccounted(next)
  {
  }

  lemma ReplayExtends(e: Engine, replay: SyncReplay)
    requires ApplyAll(e.store, replay.events).Some?
    ensures ExtendedBy(e, AfterReplay(e, replay), replay.events)
  {
    hide ApplyEvent;
    DrainedExtends(e.(machine := AcceptReplay(e.machine, replay).0,
                      admitted := e.admitted + replay.events), replay.events);
  }

  lemma ReplayFollowed(e: Engine, replay: SyncReplay)
    requires Coupled(e) && e.machine.phase == Syncing
    requires InOrder(e.machine, replay) && ApplyAll(e.store, replay.events).Some?
    ensures Followed(e, AfterReplay(e, replay))
  {
    hide ApplyEvent, Fold, Consistent, QueueAccounted;
    var next := AfterReplay(e, replay);
    ReplayVerdict(e.machine, replay);
    LastAboveFloor(e.machine.geid, replay.events);
    AdvancedAccounted(e.machine, next.machine);
    ReplayExtends(e, replay);
    DrainedStore(e.store, replay.events);
    ReplayInStep(e, next, replay.events);
  }

  lemma ReplayResult(e: Engine, replay: SyncReplay, env: Env)
    requires e.machine.phase == Syncing
    ensures var (next, error) := ProcessReplay(e, replay, env);
      if InOrder(e.machine, replay) && ApplyAll(e.store, replay.events).Some?
      then error.None? && next == AfterReplay(e, replay)
      else
        && error == ResyncError(env)
        && (error.None? ==> Fresh(e, next, env.snapshot.value))
        && (Consistent(e.store) ==> Consistent(next.store))
  {
    hide ApplyEvent;
    var (machine, refused) := AcceptReplay(e.machine, replay);
    ReplayVerdict(e.machine, replay);
    if refused.Some? {
      ResyncOutcome(Announce(e.(machine := machine)), env);
    } else {
      var e2 := e.(machine := machine, admitted := e.admitted + replay.events);
      if ApplyAll(e.store, replay.events).None? {
        DrainResyncs(e2, replay.events, env);
      } else {
        DrainApplies(e2, replay.events, env);
      }
    }
  }

  lemma ReplayStep(e: Engine, replay: SyncReplay, env: Env)
    requires Coupled(e) && e.machine.phase == Syncing
    ensures var (next, error) := ProcessReplay(e, replay, env);
      if NeedsResync(e, ReplayFrame(replay)) then Resynced(e, next, error, env)
      else error.None? && Followed(e, next)
  {
    hide ApplyEvent;
    ReplayResult(e, replay, env);
    if !NeedsResync(e, ReplayFrame(replay)) {
      ReplayFollowed(e, replay);
    }
  }

  /** With everything queued applied, what was applied is what was admitted, in wire order. */
  lemma WireOrder(e: Engine)
    requires Coupled(e) && ApplyAll(e.store, e.machine.queue).Some?
    ensures e.admitted == e.applied + e.machine.queue
  {
    hide ApplyEvent;
    var all := e.applied + e.machine.queue;
    ApplyAllConsistent(e.store, e.machine.queue);
    Assoc(e.sentBefore, e.applied, e.machine.queue);
    AscendingConcat(e.store.base.geid, e.sentBefore, all);
    AscendingUnique(HelloGeid(e), e.admitted, all);
  }

  lemma {:induction false} AllAboveFloor(floor: int, events: seq<StateEvent>, i: nat)
    requires Ascending(floor, events) && i < |events|
    ensures events[i].geid > floor
    decreases |events|
  {
    if i < |events| - 1 {
      AllAboveFloor(floor, events[..|events| - 1], i);
    } else {
      LastAboveFloor(floor, events[..i]);
    }
  }

  /** An ascending sequence ascends from anything below its first element. */
  lemma RaiseFloor(floor: int, higher: int, events: seq<StateEvent>)
    requires Ascending(floor, events)
    requires events != [] ==> events[0].geid > higher
    ensures Ascending(higher, events)
  {
    if events != [] {
      AscendingCons(floor, events);
      AscendingCons(higher, events);
    }
  }

  /** The store stands at the last event applied since the hello. */
  lemma AppliedFromHello(e: Engine)
    requires Coupled(e)
    ensures Ascending(HelloGeid(e), e.applied)
    ensures e.store.state.geid == LastGeid(HelloGeid(e), e.applied)
  {
    AscendingConcat(e.store.base.geid, e.sentBefore, e.applied);
  }

  predicate QueuedAboveStore(e: Engine) {
    forall i :: 0 <= i < |e.machine.queue| ==> e.machine.queue[i].geid > e.store.state.geid
  }

  /** Every queued event is above the store exactly while nothing has overtaken the queue. */
  lemma QueuedAboveExactly(e: Engine)
    requires Coupled(e)
    ensures QueuedAboveStore(e) <==> e.admitted == e.applied + e.machine.queue
  {
    hide ApplyEvent, Fold;
    var queue := e.machine.queue;
    AppliedFromHello(e);
    AscendingConcat(HelloGeid(e), e.applied, queue);
    if QueuedAboveStore(e) {
      RaiseFloor(-1, e.store.state.geid, queue);
      AscendingUnique(HelloGeid(e), e.admitted, e.applied + queue);
    }
    if e.admitted == e.applied + queue {
      forall i | 0 <= i < |queue| ensures queue[i].geid > e.store.state.geid {
        AllAboveFloor(e.store.state.geid, queue, i);
      }
    }
  }

  lemma CompleteInStep(e: Engine, next: Engine)
    requires InStep(e) && e.machine.phase == Syncing
    requires ExtendedBy(e, next, e.machine.queue) && PhaseShown(next)
    requires next.machine.phase == Live && next.machine.queue == []
    requires next.machine.geid == e.machine.geid
    requires next.store.state.geid == LastGeid(e.store.state.geid, e.machine.queue)
    requires LastGeid(e.store.state.geid, e.machine.queue) >= e.store.state.geid
    requires next.admitted == e.admitted == e.applied + e.machine.queue
    ensures InStep(next)
  {
    ExtendedHistories(e, next, e.machine.queue);
  }

  /** The task once `sync.complete` is accepted, before the queue is drained. */
  function Completed(e: Engine, cursor: Cursor): Engine {
    e.(machine := AcceptComplete(e.machine, cursor).0, store := UpdateCursor(e.store, cursor))
  }

  /** The task after a followed completion. */
  function AfterComplete(e: Engine, cursor: Cursor): Engine {
    SetStatus(Drained(Completed(e, cursor), e.machine.queue), StatusLive)
  }

  lemma CompleteExtends(e: Engine, cursor: Cursor)
    requires ApplyAll(Completed(e, cursor).store, e.machine.queue).Some?
    ensures ExtendedBy(e, AfterComplete(e, cursor), e.machine.queue)
  {
    hide ApplyEvent;
    var e1 := Completed(e, cursor);
    DrainedExtends(e1, e.machine.queue);
    ShownStatus(Drained(e1, e.machine.queue).log, StatusLive);
  }

  lemma ReleasedAccounted(m: Machine, cursor: Cursor)
    requires QueueAccounted(m)
    ensures QueueAccounted(AcceptComplete(m, cursor).0)
  {
  }

  lemma CompleteFollowed(e: Engine, cursor: Cursor)
    requires Coupled(e) && e.machine.phase == Syncing
    requires ApplyAll(Completed(e, cursor).store, e.machine.queue).Some?
    ensures Followed(e, AfterComplete(e, cursor))
    ensures e.admitted == e.applied + e.machine.queue
  {
    hide ApplyEvent, Fold, Consistent, QueueAccounted;
    var queue := e.machine.queue;
    var store := Completed(e, cursor).store;
    CursorConsistent(e.store, cursor);
    FoldIgnoresCursor(e.store.state, queue, cursor);
    WireOrder(e);
    ReleasedAccounted(e.machine, cursor);
    CompleteExtends(e, cursor);
    DrainedStore(store, queue);
    CompleteInStep(e, AfterComplete(e, cursor));
  }

  /** The store's cursor is the completion's, or the last queued event's; the machine keeps the former. */
  lemma CompletedCursor(e: Engine, cursor: Cursor)
    requires e.machine.phase == Syncing
    requires ApplyAll(Completed(e, cursor).store, e.machine.queue).Some?
    ensures AfterComplete(e, cursor).store.state.cursor == LastCursor(cursor, e.machine.queue)
    ensures AfterComplete(e, cursor).machine.cursor == cursor
  {
    hide ApplyEvent, Fold;
    RestHistory(Completed(e, cursor).store.state, e.machine.queue);
  }

  lemma CompleteResult(e: Engine, cursor: Cursor, env: Env)
    requires e.machine.phase == Syncing
    ensures var (next, error) := ProcessComplete(e, cursor, env);
      if ApplyAll(Completed(e, cursor).store, e.machine.queue).Some?
      then error.None? && next == AfterComplete(e, cursor)
      else
        && error == ResyncError(env)
        && (error.None? ==> Fresh(e, next, env.snapshot.value))
        && (Consistent(Completed(e, cursor).store) ==> Consistent(next.store))
  {
    hide ApplyEvent;
    var e1 := Completed(e, cursor);
    if ApplyAll(e1.store, e.machine.queue).None? {
      DrainResyncs(e1, e.machine.queue, env);
    } else {
      DrainApplies(e1, e.machine.queue, env);
    }
  }

  lemma CompleteStep(e: Engine, cursor: Cursor, env: Env)
    requires Coupled(e) && e.machine.phase == Syncing
    ensures var (next, error) := ProcessComplete(e, cursor, env);
      if NeedsResync(e, CompleteFrame(cursor)) then Resynced(e, next, error, env)
      else error.None? && Followed(e, next) && next.status == StatusLive
           && next.admitted == e.admitted && next.applied == e.applied + e.machine.queue
           && next.store.state.cursor == LastCursor(cursor, e.machine.queue)
           && next.machine.cursor == cursor
  {
    hide ApplyEvent;
    FoldIgnoresCursor(e.store.state, e.machine.queue, cursor);
    CursorConsistent(e.store, cursor);
    CompleteResult(e, cursor, env);
    if !NeedsResync(e, CompleteFrame(cursor)) {
      CompleteFollowed(e, cursor);
      CompletedCursor(e, cursor);
    }
  }

  lemma ShownStatus(log: seq<ClientEvent>, status: Status)
    ensures Shown(log + [StatusChanged(status)]) == Shown(log)
  {
    assert (log + [StatusChanged(status)])[..|log|] == log;
  }

  lemma AdmittedOne(floor: int, admitted: seq<StateEvent>, event: StateEvent, geid: Geid)
    requires Ascending(floor, admitted) && LastGeid(floor, admitted) <= geid < event.geid
    ensures Ascending(floor, admitted + [event]) && LastGeid(floor, admitted + [event]) == event.geid
  {
    AscendingAppend(floor, admitted, event);
  }

  /** The task after admitting one live event, before anything is applied. */
  function Admitted(e: Engine, event: StateEvent): Engine {
    e.(machine := AcceptLive(e.machine, event).0, admitted := e.admitted + [event])
  }

  lemma QueuedInStep(e: Engine, next: Engine, event: StateEvent)
    requires InStep(e) && e.machine.phase == Syncing && event.geid > e.machine.geid
    requires ExtendedBy(e, next, []) && PhaseShown(next)
    requires next.machine.phase == Syncing && next.machine.queue == e.machine.queue + [event]
    requires next.machine.geid == event.geid && next.store.state == e.store.state
    requires next.admitted == e.admitted + [event]
    ensures InStep(next)
  {
    ExtendedHistories(e, next, []);
    AdmittedOne(HelloGeid(e), e.admitted, event, e.machine.geid);
  }

  lemma LiveInStep(e: Engine, next: Engine, event: StateEvent)
    requires InStep(e) && e.machine.phase == Live && e.machine.queue == []
    requires event.geid > e.machine.geid
    requires ExtendedBy(e, next, [event]) && PhaseShown(next)
    requires next.machine.phase == Live && next.machine.queue == []
    requires next.machine.geid == event.geid == next.store.state.geid
    requires next.admitted == e.admitted + [event]
    ensures InStep(next)
  {
    ExtendedHistories(e, next, [event]);
    AdmittedOne(HelloGeid(e), e.admitted, event, e.machine.geid);
  }

  lemma QueuedStep(e: Engine, event: StateEvent)
    requires Coupled(e) && e.machine.phase == Syncing
    requires Fits(e.machine, event) && event.geid > e.machine.geid
    ensures Followed(e, Admitted(e, event))
  {
    hide ApplyEvent;
    var next := Admitted(e, event);
    EnqueueAccounted(e.machine, event);
    assert ExtendedBy(e, next, []) by {
      assert e.store.sent + [] == e.store.sent;
      assert e.applied + [] == e.applied;
      assert Shown(e.log) + [] == Shown(e.log);
    }
    QueuedInStep(e, next, event);
  }

  lemma LiveExtends(e: Engine, event: StateEvent)
    requires ApplyEvent(e.store.state, event).Ok?
    ensures ExtendedBy(e, Applied(Admitted(e, event), event), [event])
  {
    hide ApplyEvent;
    assert (e.log + [StateChanged(event)])[..|e.log|] == e.log;
  }

  lemma LiveStep(e: Engine, event: StateEvent)
    requires Coupled(e) && e.machine.phase == Live
    requires ApplyEvent(e.store.state, event).Ok? && event.geid > e.machine.geid
    ensures Followed(e, Applied(Admitted(e, event), event))
  {
    hide ApplyEvent;
    var next := Applied(Admitted(e, event), event);
    AppliedCheckpoint(e.store.state, event);
    ApplyConsistent(e.store, event);
    AdvancedAccounted(e.machine, next.machine);
    LiveExtends(e, event);
    LiveInStep(e, next, event);
  }

  lemma EventResult(e: Engine, event: StateEvent, env: Env)
    requires e.machine.phase == Syncing || e.machine.phase == Live
    ensures var (next, error) := ProcessEvent(e, event, env);
      if NeedsResync(e, EventFrame(event)) then
        && error == ResyncError(env)
        && (error.None? ==> Fresh(e, next, env.snapshot.value))
        && (Consistent(e.store) ==> Consistent(next.store))
      else
        && error.None?
        && next == if e.machine.phase == Syncing then Admitted(e, event)
                   else Applied(Admitted(e, event), event)
  {
    hide ApplyEvent;
    var (machine, r) := AcceptLive(e.machine, event);
    if r.Err? {
      ResyncOutcome(Announce(e.(machine := machine)), env);
    } else if e.machine.phase == Live {
      ApplyOneStep(Admitted(e, event), event, env);
    }
  }

  lemma EventStep(e: Engine, event: StateEvent, env: Env)
    requires Coupled(e)
    ensures var (next, error) := ProcessEvent(e, event, env);
      if NeedsResync(e, EventFrame(event)) then Resynced(e, next, error, env)
      else error.None? && Followed(e, next)
  {
    hide ApplyEvent;
    EventResult(e, event, env);
    if !NeedsResync(e, EventFrame(event)) {
      if e.machine.phase == Syncing {
        QueuedStep(e, event);
      } else {
        LiveStep(e, event);
      }
    }
  }

  lemma RequiredStep(e: Engine, env: Env)
    requires Coupled(e)
    ensures Resynced(e, Resync(Announce(e), env).0, Resync(Announce(e), env).1, env)
  {
    ResyncOutcome(Announce(e), env);
  }

  lemma UnknownStep(e: Engine, frameType: string)
    requires Coupled(e)
    ensures Followed(e, e.(log := e.log + [UnknownReceived(frameType)]))
  {
    assert (e.log + [UnknownReceived(frameType)])[..|e.log|] == e.log;
  }

  /**
   Every frame, in every coupled state, has one of three fates: it breaks the life
   cycle and is fatal; or it needs a resync, and then only the provider or the
   transport can make it fail; or it is followed. A phase error is never reported
   from the resync itself.
   */
  lemma FrameFates(e: Engine, frame: ServerFrame, env: Env)
    requires Coupled(e)
    ensures var (next, error) := ProcessFrame(e, frame, env);
      if BreaksLifecycle(e, frame) then
        && error.Some? && next.store == e.store
        && (error == Some(SyncFailed(InvalidPhase)) <==> frame.ReplayFrame? || frame.CompleteFrame?)
      else if NeedsResync(e, frame) then Resynced(e, next, error, env)
      else error.None? && Followed(e, next)
  {
    hide ApplyEvent, Coupled;
    match frame {
      case ReplayFrame(replay) =>
        if !BreaksLifecycle(e, frame) { CoupledPhase(e); ReplayStep(e, replay, env); }
      case CompleteFrame(cursor) =>
        if !BreaksLifecycle(e, frame) { CoupledPhase(e); CompleteStep(e, cursor, env); }
      case EventFrame(event) => EventStep(e, event, env);
      case RequiredFrame => RequiredStep(e, env);
      case UnknownFrame(frameType) =>
        RequiredStep(e, env);
        UnknownStep(e, frameType);
      case _ =>
    }
  }

  lemma CoupledPhase(e: Engine)
    requires Coupled(e)
    ensures e.machine.phase == Syncing || e.machine.phase == Live
  {
  }

  /** What a frame leaves coupled or, on a fatal error, at least consistent. */
  lemma FrameKeepsCoupling(e: Engine, frame: ServerFrame, env: Env)
    requires Coupled(e)
    ensures var (next, error) := ProcessFrame(e, frame, env);
      (error.None? ==> Coupled(next)) && Consistent(next.store)
  {
    hide ApplyEvent;
    FrameFates(e, frame, env);
    var (next, error) := ProcessFrame(e, frame, env);
    if !BreaksLifecycle(e, frame) && NeedsResync(e, frame) && error.None? {
      FreshIsCoupled(e, next, env.snapshot.value);
    }
  }
}
