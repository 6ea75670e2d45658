/**
 The synchronization validator (`SyncMachine` of crates/zephyrvox-realtime/src/sync.rs):
 phases, ordered replay, and the bounded queue of live events that arrive while
 replay is still running.
 */
module Sync {
  import opened Common
  import opened ClientModel
  import opened Store

  const MAX_QUEUED_LIVE_EVENTS := 256
  const MAX_QUEUED_LIVE_BYTES := 0x10_0000

  datatype Phase = Disconnected | Connecting | Ready | Syncing | Live | Reconnecting

  datatype SyncError =
    | InvalidPhase
    | ReplayBounds
    | QueueLimit
    | OutOfOrder(current: Geid, actual: Geid)
    | GeidGap(expected: Geid, actual: Geid)
    | StreamEpochChanged(bound: nat, claimed: nat)
    | NeedsSnapshot

  datatype SyncReplay = SyncReplay(fromGeid: Geid, toGeid: Geid, events: seq<StateEvent>)

  datatype Machine = Machine(
    phase: Phase,
    cursor: Cursor,
    streamEpoch: nat,
    geid: Geid,
    controlId: Option<nat>,
    queue: seq<StateEvent>,
    queueBytes: nat)

  function New(state: ClientState): Machine {
    Machine(Disconnected, state.cursor, state.streamEpoch, state.geid, None, [], 0)
  }

  function Rebind(m: Machine, state: ClientState): Machine {
    m.(cursor := state.cursor, streamEpoch := state.streamEpoch, geid := state.geid,
       queue := [], queueBytes := 0, phase := Ready)
  }

  function BeginConnecting(m: Machine): (Machine, Option<SyncError>) {
    if m.phase.Disconnected? || m.phase.Reconnecting? then (m.(phase := Connecting), None)
    else (m, Some(InvalidPhase))
  }

  function AcceptReady(m: Machine, id: nat): (Machine, Option<SyncError>) {
    if m.phase.Connecting? || m.phase.Reconnecting?
    then (m.(controlId := Some(id), phase := Ready), None)
    else (m, Some(InvalidPhase))
  }

  function BeginSync(m: Machine): (Machine, Result<Cursor, SyncError>) {
    if m.phase != Ready then (m, Err(InvalidPhase))
    else (m.(phase := Syncing, queue := [], queueBytes := 0), Ok(m.cursor))
  }

  function AcceptOrdered(m: Machine, event: StateEvent): (Machine, Option<SyncError>) {
    if event.geid <= m.geid then (m, Some(OutOfOrder(m.geid, event.geid)))
    else (m.(geid := event.geid, cursor := event.cursor), None)
  }

  /** The events in order, keeping the progress made before the first refusal. */
  function AcceptOrderedAll(m: Machine, events: seq<StateEvent>): (Machine, Option<SyncError>)
    decreases |events|
  {
    if |events| == 0 then (m, None)
    else
      var (next, error) := AcceptOrdered(m, events[0]);
      if error.Some? then (next, error) else AcceptOrderedAll(next, events[1..])
  }

  /** Not atomic: a batch refused in the middle leaves the cursor where it stopped. */
  function AcceptReplay(m: Machine, replay: SyncReplay): (Machine, Option<SyncError>) {
    if m.phase != Syncing then (m, Some(InvalidPhase))
    else if |replay.events| == 0 then
      (m, if replay.fromGeid != replay.toGeid || replay.fromGeid != m.geid
          then Some(ReplayBounds) else None)
    else if replay.events[0].geid != replay.fromGeid
         || replay.events[|replay.events| - 1].geid != replay.toGeid then (m, Some(ReplayBounds))
    else AcceptOrderedAll(m, replay.events)
  }

  /** Whether one more live event fits in the hand-off queue. */
  predicate Fits(m: Machine, event: StateEvent) {
    && event.encodedSize.Some?
    && |m.queue| < MAX_QUEUED_LIVE_EVENTS
    && m.queueBytes + event.encodedSize.value <= MAX_QUEUED_LIVE_BYTES
  }

  /** `Ok(None)` is a queued event, `Ok(Some(_))` one to apply now. */
  function AcceptLive(m: Machine, event: StateEvent)
    : (Machine, Result<Option<StateEvent>, SyncError>)
  {
    if m.phase != Syncing && m.phase != Live then (m, Err(InvalidPhase))
    else if m.phase == Syncing && !Fits(m, event) then (m, Err(QueueLimit))
    else
      var (next, error) := AcceptOrdered(m, event);
      if error.Some? then (next, Err(error.value))
      else if m.phase == Syncing then
        (next.(queue := m.queue + [event],
               queueBytes := if event.encodedSize.Some? then m.queueBytes + event.encodedSize.value
                             else m.queueBytes),
         Ok(None))
      else (next, Ok(Some(event)))
  }

  function AcceptComplete(m: Machine, cursor: Cursor)
    : (Machine, Result<seq<StateEvent>, SyncError>)
  {
    if m.phase != Syncing then (m, Err(InvalidPhase))
    else (m.(cursor := cursor, phase := Live, queue := [], queueBytes := 0), Ok(m.queue))
  }

  function RequireSnapshot(m: Machine): (Machine, Option<SyncError>) {
    if m.phase != Ready && m.phase != Syncing && m.phase != Live then (m, Some(InvalidPhase))
    else (m.(queue := [], queueBytes := 0, phase := Ready), None)
  }

  /** `disconnect` and `reconnecting` differ only in the phase they leave. */
  function Detach(m: Machine, phase: Phase): Machine {
    m.(queue := [], queueBytes := 0, controlId := None, phase := phase)
  }

  // ----- queue accounting ------------------------------------------------------------------

  function TotalSize(events: seq<StateEvent>): nat {
    if |events| == 0 then 0
    else
      TotalSize(events[..|events| - 1])
      + (var size := events[|events| - 1].encodedSize; if size.Some? then size.value else 0)
  }

  /**
   The byte counter is the sum of the queued encodings, both limits hold, the queue
   ascends to no more than the machine's GEID, and only replay leaves one behind.
   */
  ghost predicate QueueAccounted(m: Machine) {
    && m.queueBytes == TotalSize(m.queue) <= MAX_QUEUED_LIVE_BYTES
    && |m.queue| <= MAX_QUEUED_LIVE_EVENTS
    && (m.queue != [] ==> m.phase == Syncing)
    && (forall i :: 0 <= i < |m.queue| ==> m.queue[i].encodedSize.Some?)
    && Ascending(-1, m.queue)
    && LastGeid(-1, m.queue) <= m.geid
  }

  datatype MachineCall =
    | CallBeginConnecting
    | CallAcceptReady(id: nat)
    | CallBeginSync
    | CallAcceptReplay(replay: SyncReplay)
    | CallAcceptLive(event: StateEvent)
    | CallAcceptComplete(cursor: Cursor)
    | CallRequireSnapshot
    | CallRebind(state: ClientState)
    | CallDisconnect
    | CallReconnecting

  function Call(m: Machine, call: MachineCall): Machine {
    match call
    case CallBeginConnecting => BeginConnecting(m).0
    case CallAcceptReady(id) => AcceptReady(m, id).0
    case CallBeginSync => BeginSync(m).0
    case CallAcceptReplay(replay) => AcceptReplay(m, replay).0
    case CallAcceptLive(event) => AcceptLive(m, event).0
    case CallAcceptComplete(cursor) => AcceptComplete(m, cursor).0
    case CallRequireSnapshot => RequireSnapshot(m).0
    case CallRebind(state) => Rebind(m, state)
    case CallDisconnect => Detach(m, Disconnected)
    case CallReconnecting => Detach(m, Reconnecting)
  }

  function CallAll(m: Machine, calls: seq<MachineCall>): Machine {
    if |calls| == 0 then m else Call(CallAll(m, calls[..|calls| - 1]), calls[|calls| - 1])
  }

  /** What a run of ordered events does: only the GEID and cursor move, and only forward. */
  lemma {:induction false} OrderedAllFrame(m: Machine, events: seq<StateEvent>)
    ensures var (next, error) := AcceptOrderedAll(m, events);
      && next == m.(geid := next.geid, cursor := next.cursor)
      && next.geid >= m.geid
      && (error.None? <==> Ascending(m.geid, events))
      && (error.None? ==> next.geid == LastGeid(m.geid, events))
      && (error.None? ==> next.cursor == LastCursor(m.cursor, events))
      && (error.Some? ==> error.value.OutOfOrder? && error.value.actual <= error.value.current == next.geid)
    decreases |events|
  {
    if |events| > 0 {
      var (next, error) := AcceptOrdered(m, events[0]);
      AscendingCons(m.geid, events);
      if error.None? {
        OrderedAllFrame(next, events[1..]);
      }
    }
  }

  lemma EnqueueAccounted(m: Machine, event: StateEvent)
    requires QueueAccounted(m)
    ensures QueueAccounted(AcceptLive(m, event).0)
  {
    if m.phase == Syncing && Fits(m, event) && event.geid > m.geid {
      AscendingAppend(-1, m.queue, event);
      assert (m.queue + [event])[..|m.queue|] == m.queue;
    }
  }

  /** Every sequence of calls, in any phase, keeps the queue accounted for. */
  lemma {:induction false} ReachableQueueAccounted(state: ClientState, calls: seq<MachineCall>)
    ensures QueueAccounted(CallAll(New(state), calls))
  {
    if |calls| > 0 {
      var before := CallAll(New(state), calls[..|calls| - 1]);
      ReachableQueueAccounted(state, calls[..|calls| - 1]);
      match calls[|calls| - 1] {
        case CallAcceptReplay(replay) => OrderedAllFrame(before, replay.events);
        case CallAcceptLive(event) => EnqueueAccounted(before, event);
        case _ =>
      }
    }
  }

  // ----- one hand-off ----------------------------------------------------------------------

  /** What may arrive between `sync.hello` and `sync.complete`. */
  datatype Arrival = Batch(replay: SyncReplay) | LiveEvent(event: StateEvent)

  function Receive(m: Machine, arrival: Arrival): (Machine, Option<SyncError>) {
    match arrival
    case Batch(replay) => AcceptReplay(m, replay)
    case LiveEvent(event) =>
      var (next, r) := AcceptLive(m, event);
      (next, if r.Err? then Some(r.error) else None)
  }

  function ReceiveAll(m: Machine, arrivals: seq<Arrival>): (Machine, Option<SyncError>) {
    if |arrivals| == 0 then (m, None)
    else
      var (before, error) := ReceiveAll(m, arrivals[..|arrivals| - 1]);
      if error.Some? then (before, error) else Receive(before, arrivals[|arrivals| - 1])
  }

  function LiveArrivals(arrivals: seq<Arrival>): seq<StateEvent> {
    if |arrivals| == 0 then []
    else
      var earlier := LiveArrivals(arrivals[..|arrivals| - 1]);
      match arrivals[|arrivals| - 1]
      case Batch(_) => earlier
      case LiveEvent(event) => earlier + [event]
  }

  /**
   `accept_complete` releases exactly the live events that arrived since `begin_sync`,
   in arrival order, however they were interleaved with replay batches.
   */
  lemma {:induction false} HandoffReleasesArrivals(m: Machine, arrivals: seq<Arrival>, cursor: Cursor)
    requires BeginSync(m).1.Ok?
    requires ReceiveAll(BeginSync(m).0, arrivals).1 == None
    ensures AcceptComplete(ReceiveAll(BeginSync(m).0, arrivals).0, cursor).1
         == Ok(LiveArrivals(arrivals))
  {
    if |arrivals| > 0 {
      var before := ReceiveAll(BeginSync(m).0, arrivals[..|arrivals| - 1]).0;
      HandoffReleasesArrivals(m, arrivals[..|arrivals| - 1], cursor);
      match arrivals[|arrivals| - 1] {
        case Batch(replay) => OrderedAllFrame(before, replay.events);
        case LiveEvent(_) =>
      }
    }
  }

  // ----- how much the queue holds ----------------------------------------------------------

  function AsLive(events: seq<StateEvent>): seq<Arrival> {
    if |events| == 0 then [] else AsLive(events[..|events| - 1]) + [LiveEvent(events[|events| - 1])]
  }

  predicate AllSized(events: seq<StateEvent>) {
    forall i :: 0 <= i < |events| ==> events[i].encodedSize.Some?
  }

  /** Up to 256 events and a mebibyte of their encodings. */
  ghost predicate QueueHolds(geid: Geid, events: seq<StateEvent>) {
    && Ascending(geid, events) && AllSized(events)
    && |events| <= 256 && TotalSize(events) <= 1_048_576
  }

  /** Live events alone: all are queued exactly when they ascend and are within both limits. */
  lemma {:induction false} QueueHoldsExactly(m: Machine, events: seq<StateEvent>)
    requires BeginSync(m).1.Ok?
    ensures var (next, error) := ReceiveAll(BeginSync(m).0, AsLive(events));
      && (error.None? <==> QueueHolds(m.geid, events))
      && (error.None? ==> Queued(next, m.geid, events))
  {
    hide Receive, QueueHolds, Queued;
    if |events| == 0 {
      NothingQueued(m);
    } else {
      var n := |events| - 1;
      QueueHoldsExactly(m, events[..n]);
      QueueHoldsOneMore(m.geid, events);
      var before := ReceiveAll(BeginSync(m).0, AsLive(events[..n]));
      LiveArrivesLast(BeginSync(m).0, events);
      if before.1.None? {
        QueuesOneMore(before.0, m.geid, events);
      }
    }
  }

  /** The machine is syncing with exactly these events queued since it stood at `geid`. */
  ghost predicate Queued(m: Machine, geid: Geid, events: seq<StateEvent>) {
    && m.phase == Syncing && m.queue == events && m.queueBytes == TotalSize(events)
    && m.geid == LastGeid(geid, events)
  }

  lemma NothingQueued(m: Machine)
    requires BeginSync(m).1.Ok?
    ensures QueueHolds(m.geid, []) && Queued(BeginSync(m).0, m.geid, [])
  {
  }

  lemma LiveArrivesLast(m: Machine, events: seq<StateEvent>)
    requires |events| > 0
    ensures var n := |events| - 1; var (before, error) := ReceiveAll(m, AsLive(events[..n]));
      ReceiveAll(m, AsLive(events))
      == if error.Some? then (before, error) else Receive(before, LiveEvent(events[n]))
  {
    hide Receive;
    var arrivals := AsLive(events);
    assert arrivals[..|arrivals| - 1] == AsLive(events[..|events| - 1]);
  }

  lemma QueuesOneMore(m: Machine, geid: Geid, events: seq<StateEvent>)
    requires |events| > 0 && Queued(m, geid, events[..|events| - 1])
    ensures var n := |events| - 1; var (next, error) := Receive(m, LiveEvent(events[n]));
      && (error.None? <==>
            && events[n].geid > LastGeid(geid, events[..n])
            && events[n].encodedSize.Some? && n < 256
            && TotalSize(events[..n]) + events[n].encodedSize.value <= 1_048_576)
      && (error.None? ==> Queued(next, geid, events))
  {
    assert events == events[..|events| - 1] + [events[|events| - 1]];
  }

  lemma QueueHoldsOneMore(geid: Geid, events: seq<StateEvent>)
    requires |events| > 0
    ensures var n := |events| - 1;
      QueueHolds(geid, events)
      <==> && QueueHolds(geid, events[..n]) && events[n].geid > LastGeid(geid, events[..n])
           && events[n].encodedSize.Some? && n < 256
           && TotalSize(events[..n]) + events[n].encodedSize.value <= 1_048_576
  {
    var n := |events| - 1;
    if QueueHolds(geid, events) {
      assert AllSized(events[..n]);
    }
    if AllSized(events[..n]) && events[n].encodedSize.Some? {
      forall i | 0 <= i < |events| ensures events[i].encodedSize.Some? {
        assert i < n ==> events[..n][i] == events[i];
      }
    }
  }

  // ----- the life cycle --------------------------------------------------------------------

  predicate Admits(phase: Phase, call: MachineCall) {
    match call
    case CallBeginConnecting => phase.Disconnected? || phase.Reconnecting?
    case CallAcceptReady(_) => phase.Connecting? || phase.Reconnecting?
    case CallBeginSync => phase.Ready?
    case CallAcceptReplay(_) => phase.Syncing?
    case CallAcceptComplete(_) => phase.Syncing?
    case CallAcceptLive(_) => phase.Syncing? || phase.Live?
    case CallRequireSnapshot => phase.Ready? || phase.Syncing? || phase.Live?
    case _ => true
  }

  function PhaseAfter(call: MachineCall, phase: Phase): Phase {
    match call
    case CallBeginConnecting => Connecting
    case CallAcceptReady(_) => Ready
    case CallBeginSync => Syncing
    case CallAcceptComplete(_) => Live
    case CallRequireSnapshot => Ready
    case CallRebind(_) => Ready
    case CallDisconnect => Disconnected
    case CallReconnecting => Reconnecting
    case _ => phase
  }

  function Refusal(m: Machine, call: MachineCall): Option<SyncError> {
    match call
    case CallBeginConnecting => BeginConnecting(m).1
    case CallAcceptReady(id) => AcceptReady(m, id).1
    case CallBeginSync => (match BeginSync(m).1 case Err(error) => Some(error) case Ok(_) => None)
    case CallAcceptReplay(replay) => AcceptReplay(m, replay).1
    case CallAcceptLive(event) =>
      (match AcceptLive(m, event).1 case Err(error) => Some(error) case Ok(_) => None)
    case CallAcceptComplete(cursor) =>
      (match AcceptComplete(m, cursor).1 case Err(error) => Some(error) case Ok(_) => None)
    case CallRequireSnapshot => RequireSnapshot(m).1
    case _ => None
  }

  /**
   The life cycle: a call is refused for its phase exactly outside its own phases, and then
   changes nothing; inside, it moves on as the table says. Only readiness sets the control
   identity and only detaching clears it; only a new snapshot moves the stream epoch.
   */
  lemma LifecycleExactly(m: Machine, call: MachineCall)
    ensures Refusal(m, call) == Some(InvalidPhase) <==> !Admits(m.phase, call)
    ensures var next := Call(m, call);
      && (!Admits(m.phase, call) ==> next == m)
      && (Admits(m.phase, call) ==> next.phase == PhaseAfter(call, m.phase))
      && next.controlId == (if !Admits(m.phase, call) then m.controlId
                            else if call.CallAcceptReady? then Some(call.id)
                            else if call.CallDisconnect? || call.CallReconnecting? then None
                            else m.controlId)
      && next.streamEpoch == (if call.CallRebind? then call.state.streamEpoch else m.streamEpoch)
  {
    if call.CallAcceptReplay? {
      OrderedAllFrame(m, call.replay.events);
    }
  }

  // ----- the object ------------------------------------------------------------------------

  class SyncMachine {
    var phase: Phase
    var cursor: Cursor
    var streamEpoch: nat
    var geid: Geid
    var controlId: Option<nat>
    var queue: seq<StateEvent>
    var queueBytes: nat

    ghost function View(): Machine
      reads this
    {
      Machine(phase, cursor, streamEpoch, geid, controlId, queue, queueBytes)
    }

    constructor (state: ClientState)
      ensures View() == New(state)
    {
      phase, cursor, streamEpoch, geid := Disconnected, state.cursor, state.streamEpoch, state.geid;
      controlId, queue, queueBytes := None, [], 0;
    }

    method ReplaceSnapshot(state: ClientState)
      modifies this
      ensures View() == Rebind(old(View()), state)
    {
      cursor, streamEpoch, geid := state.cursor, state.streamEpoch, state.geid;
      queue, queueBytes := [], 0;
      phase := Ready;
    }

    method Connect() returns (error: Option<SyncError>)
      modifies this
      ensures (View(), error) == BeginConnecting(old(View()))
    {
      if phase.Disconnected? || phase.Reconnecting? {
        phase := Connecting;
        return None;
      }
      return Some(InvalidPhase);
    }

    method ReceiveReady(id: nat) returns (error: Option<SyncError>)
      modifies this
      ensures (View(), error) == AcceptReady(old(View()), id)
    {
      if !(phase.Connecting? || phase.Reconnecting?) {
        return Some(InvalidPhase);
      }
      controlId := Some(id);
      phase := Ready;
      return None;
    }

    method StartSync() returns (r: Result<Cursor, SyncError>)
      modifies this
      ensures (View(), r) == BeginSync(old(View()))
    {
      if phase != Ready {
        return Err(InvalidPhase);
      }
      phase := Syncing;
      queue, queueBytes := [], 0;
      return Ok(cursor);
    }

    method AdvanceTo(event: StateEvent) returns (error: Option<SyncError>)
      modifies this`geid, this`cursor
      ensures (View(), error) == AcceptOrdered(old(View()), event)
    {
      if event.geid <= geid {
        return Some(OutOfOrder(geid, event.geid));
      }
      geid := event.geid;
      cursor := event.cursor;
      return None;
    }

    method ReceiveReplay(replay: SyncReplay) returns (error: Option<SyncError>)
      modifies this
      ensures (View(), error) == AcceptReplay(old(View()), replay)
    {
      if phase != Syncing {
        return Some(InvalidPhase);
      }
      var events := replay.events;
      if |events| == 0 {
        if replay.fromGeid != replay.toGeid || replay.fromGeid != geid {
          return Some(ReplayBounds);
        }
        return None;
      }
      if events[0].geid != replay.fromGeid || events[|events| - 1].geid != replay.toGeid {
        return Some(ReplayBounds);
      }
      var i := 0;
      while i < |events|
        invariant 0 <= i <= |events|
        invariant AcceptOrderedAll(View(), events[i..]) == AcceptOrderedAll(old(View()), events)
      {
        assert events[i..][1..] == events[i + 1..];
        error := AdvanceTo(events[i]);
        if error.Some? {
          return;
        }
        i := i + 1;
      }
      return None;
    }

    method ReceiveLive(event: StateEvent) returns (r: Result<Option<StateEvent>, SyncError>)
      modifies this
      ensures (View(), r) == AcceptLive(old(View()), event)
    {
      if phase != Syncing && phase != Live {
        return Err(InvalidPhase);
      }
      var eventBytes := 0;
      if phase == Syncing {
        if event.encodedSize.None? {
          return Err(QueueLimit);
        }
        eventBytes := event.encodedSize.value;
        if |queue| >= MAX_QUEUED_LIVE_EVENTS || queueBytes + eventBytes > MAX_QUEUED_LIVE_BYTES {
          return Err(QueueLimit);
        }
      }
      var error := AdvanceTo(event);
      if error.Some? {
        return Err(error.value);
      }
      if phase == Syncing {
        queueBytes := queueBytes + eventBytes;
        queue := queue + [event];
        return Ok(None);
      }
      return Ok(Some(event));
    }

    method Complete(complete: Cursor) returns (r: Result<seq<StateEvent>, SyncError>)
      modifies this
      ensures (View(), r) == AcceptComplete(old(View()), complete)
    {
      if phase != Syncing {
        return Err(InvalidPhase);
      }
      cursor := complete;
      phase := Live;
      r := Ok(queue);
      queue, queueBytes := [], 0;
    }

    method Require() returns (error: Option<SyncError>)
      modifies this
      ensures (View(), error) == RequireSnapshot(old(View()))
    {
      if phase != Ready && phase != Syncing && phase != Live {
        return Some(InvalidPhase);
      }
      queue, queueBytes := [], 0;
      phase := Ready;
      return None;
    }

    method Disconnect()
      modifies this
      ensures View() == Detach(old(View()), Disconnected)
    {
      queue, queueBytes, controlId, phase := [], 0, None, Disconnected;
    }

    method MarkReconnecting()
      modifies this
      ensures View() == Detach(old(View()), Reconnecting)
    {
      queue, queueBytes, controlId, phase := [], 0, None, Reconnecting;
    }
  }
}
