/**
 The atomic client-side store (`StateStore` of crates/zephyrvox-realtime/src/state.rs).

 `StoreView` is the store's state together with its history: the snapshot last
 installed and every event sent on the event channel that snapshot opened.
 */
module Store {
  import opened Common
  import opened ClientModel
  import opened Projection
  import opened KeyHistory
  import KeyedList

  datatype StoreView = StoreView(
    state: ClientState,
    generation: u64,
    base: ClientState,
    sent: seq<StateEvent>)

  function FromSnapshot(snapshot: ClientState): StoreView {
    StoreView(snapshot, 0, snapshot, [])
  }

  /** The authority a replacement takes away, if it does not carry it over unchanged. */
  function VoiceLost(current: ClientState, replacement: ClientState): Option<VoiceAuthority> {
    var previous := current.selfUser.voiceAuthority;
    if previous.Some? && replacement.selfUser.voiceAuthority != previous then previous else None
  }

  /** The host hears of an authority exactly when it held it and the replacement does not carry it over. */
  lemma LossIsReportedExactly(current: ClientState, replacement: ClientState, authority: VoiceAuthority)
    ensures VoiceLost(current, replacement) == Some(authority)
       <==> && current.selfUser.voiceAuthority == Some(authority)
            && replacement.selfUser.voiceAuthority != Some(authority)
  {
  }

  function Replace(s: StoreView, snapshot: ClientState): StoreView {
    StoreView(snapshot, (s.generation + 1) % U64_SIZE, snapshot, [])
  }

  function UpdateCursor(s: StoreView, cursor: Cursor): StoreView {
    s.(state := s.state.(cursor := cursor))
  }

  /** A rejected event changes neither the state nor what was sent. */
  function Apply(s: StoreView, event: StateEvent): StoreView {
    match ApplyEvent(s.state, event)
    case Ok(next) => s.(state := next, sent := s.sent + [event])
    case Err(_) => s
  }

  function LastGeid(floor: int, events: seq<StateEvent>): int {
    if |events| == 0 then floor else events[|events| - 1].geid
  }

  function LastCursor(start: Cursor, events: seq<StateEvent>): Cursor {
    if |events| == 0 then start else events[|events| - 1].cursor
  }

  /** GEIDs strictly increase along the events, starting above `floor`. */
  ghost predicate Ascending(floor: int, events: seq<StateEvent>) {
    |events| > 0 ==>
      && Ascending(floor, events[..|events| - 1])
      && events[|events| - 1].geid > LastGeid(floor, events[..|events| - 1])
  }

  lemma AscendingAppend(floor: int, events: seq<StateEvent>, event: StateEvent)
    requires Ascending(floor, events) && event.geid > LastGeid(floor, events)
    ensures Ascending(floor, events + [event])
  {
    assert (events + [event])[..|events|] == events;
  }

  /** Ascending sequences join where the second starts above the end of the first. */
  lemma {:induction false} AscendingConcat(floor: int, a: seq<StateEvent>, b: seq<StateEvent>)
    ensures Ascending(floor, a + b) <==> Ascending(floor, a) && Ascending(LastGeid(floor, a), b)
    ensures LastGeid(floor, a + b) == LastGeid(LastGeid(floor, a), b)
    decreases |b|
  {
    if |b| == 0 {
      assert a + b == a;
    } else {
      var n := |b| - 1;
      AscendingConcat(floor, a, b[..n]);
      assert (a + b)[..|a + b| - 1] == a + b[..n];
    }
  }

  lemma AscendingCons(floor: int, events: seq<StateEvent>)
    requires |events| > 0
    ensures Ascending(floor, events)
       <==> events[0].geid > floor && Ascending(events[0].geid, events[1..])
    ensures LastGeid(floor, events) == LastGeid(events[0].geid, events[1..])
  {
    AscendingConcat(floor, events[..1], events[1..]);
    assert events[..1] + events[1..] == events;
    assert events[..1][..0] == [];
  }

  lemma {:induction false} LastAboveFloor(floor: int, events: seq<StateEvent>)
    requires Ascending(floor, events)
    ensures LastGeid(floor, events) >= floor
  {
    if |events| > 0 {
      LastAboveFloor(floor, events[..|events| - 1]);
    }
  }

  /** The pairwise reading: later events have greater GEIDs, and all are above the floor. */
  lemma {:induction false} AscendingPairs(floor: int, events: seq<StateEvent>, i: nat, j: nat)
    requires Ascending(floor, events) && i < j < |events|
    ensures floor < events[i].geid < events[j].geid
    decreases |events|
  {
    var init := events[..|events| - 1];
    if j < |init| {
      AscendingPairs(floor, init, i, j);
    } else if i + 1 < j {
      AscendingPairs(floor, init, i, j - 1);
    } else {
      LastAboveFloor(floor, init[..i]);
      assert init[..i] == events[..i];
    }
  }

  /**
   The store is its last snapshot with the sent events folded in, the cursor aside;
   those events ascend from the snapshot's GEID to the store's.
   */
  ghost predicate Consistent(s: StoreView) {
    && Fold(s.base, s.sent).Some?
    && s.state == Fold(s.base, s.sent).value.(cursor := s.state.cursor)
    && Ascending(s.base.geid, s.sent)
    && s.state.geid == LastGeid(s.base.geid, s.sent)
  }

  lemma ReplaceConsistent(s: StoreView, snapshot: ClientState)
    ensures Consistent(Replace(s, snapshot)) && Consistent(FromSnapshot(snapshot))
  {
  }

  lemma CursorConsistent(s: StoreView, cursor: Cursor)
    requires Consistent(s)
    ensures Consistent(UpdateCursor(s, cursor))
  {
  }

  /** An accepted event moves the checkpoint forward, to itself. */
  lemma AppliedCheckpoint(state: ClientState, event: StateEvent)
    ensures match ApplyEvent(state, event)
            case Ok(next) => event.geid > state.geid && next.geid == event.geid
                             && next.cursor == event.cursor
            case Err(_) => true
  {
  }

  lemma FoldExtends(s: StoreView, event: StateEvent)
    requires Consistent(s) && ApplyEvent(s.state, event).Ok?
    ensures Fold(s.base, s.sent + [event]) == Some(ApplyEvent(s.state, event).value)
  {
    FoldAppend(s.base, s.sent, event);
    ApplyIgnoresCursor(Fold(s.base, s.sent).value, event, s.state.cursor);
  }

  lemma ApplyConsistent(s: StoreView, event: StateEvent)
    requires Consistent(s)
    ensures Consistent(Apply(s, event))
  {
    AppliedCheckpoint(s.state, event);
    if ApplyEvent(s.state, event).Ok? {
      FoldExtends(s, event);
      AscendingAppend(s.base.geid, s.sent, event);
    }
  }

  /** Applies the events in order; `None` once one is rejected. */
  function ApplyAll(s: StoreView, events: seq<StateEvent>): Option<StoreView> {
    var next := Fold(s.state, events);
    if next.None? then None else Some(s.(state := next.value, sent := s.sent + events))
  }

  /** A batch that applies completely ascends from the store's checkpoint to its new one. */
  lemma {:induction false} FoldAscends(state: ClientState, events: seq<StateEvent>)
    requires Fold(state, events).Some?
    ensures Ascending(state.geid, events)
    ensures Fold(state, events).value.geid == LastGeid(state.geid, events)
  {
    if |events| > 0 {
      var n := |events| - 1;
      FoldAscends(state, events[..n]);
      AppliedCheckpoint(Fold(state, events[..n]).value, events[n]);
    }
  }

  /** The cursor of the starting point only matters to an empty batch. */
  lemma {:induction false} FoldIgnoresCursor(state: ClientState, events: seq<StateEvent>, cursor: Cursor)
    ensures Fold(state, events).Some? <==> Fold(state.(cursor := cursor), events).Some?
    ensures Fold(state, events).Some? && events != [] ==>
              Fold(state, events) == Fold(state.(cursor := cursor), events)
  {
    if |events| == 1 {
      assert events[..0] == [];
      ApplyIgnoresCursor(state, events[0], cursor);
    } else if |events| > 1 {
      FoldIgnoresCursor(state, events[..|events| - 1], cursor);
    }
  }

  lemma ApplyAllConsistent(s: StoreView, events: seq<StateEvent>)
    requires Consistent(s) && ApplyAll(s, events).Some?
    ensures Consistent(ApplyAll(s, events).value)
  {
    FoldAscends(s.state, events);
    AscendingConcat(s.base.geid, s.sent, events);
    FoldConcat(s.base, s.sent, events);
    FoldIgnoresCursor(Fold(s.base, s.sent).value, events, s.state.cursor);
  }

  lemma ApplyAllCons(s: StoreView, events: seq<StateEvent>)
    requires |events| > 0
    ensures ApplyAll(s, events).Some?
       <==> ApplyEvent(s.state, events[0]).Ok? && ApplyAll(Apply(s, events[0]), events[1..]).Some?
    ensures ApplyAll(s, events).Some? ==>
              ApplyAll(s, events) == ApplyAll(Apply(s, events[0]), events[1..])
  {
    FoldConcat(s.state, events[..1], events[1..]);
    assert events[..1] + events[1..] == events;
    assert events[..1][..0] == [];
    assert s.sent + [events[0]] + events[1..] == s.sent + events;
  }

  // ----- whole runs ------------------------------------------------------------------------

  datatype StoreCall =
    | CallReplace(snapshot: ClientState)
    | CallUpdateCursor(cursor: Cursor)
    | CallApply(event: StateEvent)

  function Call(s: StoreView, call: StoreCall): StoreView {
    match call
    case CallReplace(snapshot) => Replace(s, snapshot)
    case CallUpdateCursor(cursor) => UpdateCursor(s, cursor)
    case CallApply(event) => Apply(s, event)
  }

  function CallAll(s: StoreView, calls: seq<StoreCall>): StoreView {
    if |calls| == 0 then s else Call(CallAll(s, calls[..|calls| - 1]), calls[|calls| - 1])
  }

  /** In every reachable state the store is the fold of what its channel was sent. */
  lemma {:induction false} ReachableStoreIsFold(snapshot: ClientState, calls: seq<StoreCall>)
    ensures Consistent(CallAll(FromSnapshot(snapshot), calls))
  {
    if |calls| == 0 {
      ReplaceConsistent(FromSnapshot(snapshot), snapshot);
    } else {
      var before := CallAll(FromSnapshot(snapshot), calls[..|calls| - 1]);
      ReachableStoreIsFold(snapshot, calls[..|calls| - 1]);
      match calls[|calls| - 1] {
        case CallReplace(next) => ReplaceConsistent(before, next);
        case CallUpdateCursor(cursor) => CursorConsistent(before, cursor);
        case CallApply(event) => ApplyConsistent(before, event);
      }
    }
  }

  /** With `ListsAreMaps`: what a reader finds is decided by the events sent since the snapshot. */
  lemma StoreLookups(s: StoreView, user: Snowflake, channel: Snowflake)
    requires Consistent(s) && UniqueKeys(s.base)
    ensures UniqueKeys(s.state)
    ensures KeyedList.Find(s.state.voiceMemberships, MemberKey, user)
         == MemberHistory(KeyedList.Find(s.base.voiceMemberships, MemberKey, user), s.sent, user)
    ensures KeyedList.Find(s.state.channels, ChannelKey, channel)
         == ChannelHistory(KeyedList.Find(s.base.channels, ChannelKey, channel), s.sent, channel)
  {
    ListsAreMaps(s.base, s.sent);
  }

  /** One store; each method is one critical section under the write lock. */
  class StateStore {
    /** The value behind the lock. */
    var current: ClientState
    /** The value last published on the watch channel. */
    var watched: ClientState
    var generation: u64
    /** Everything sent on the current event channel since it was created. */
    var channel: seq<StateEvent>
    ghost var base: ClientState

    ghost function View(): StoreView
      reads this
    {
      StoreView(current, generation, base, channel)
    }

    ghost predicate Valid()
      reads this
    {
      watched == current && Consistent(View())
    }

    constructor (snapshot: ClientState)
      ensures Valid() && View() == FromSnapshot(snapshot)
    {
      current, watched, generation, channel := snapshot, snapshot, 0, [];
      base := snapshot;
    }

    method ReplaceSnapshot(snapshot: ClientState) returns (lost: Option<VoiceAuthority>)
      requires Valid()
      modifies this
      ensures Valid()
      ensures View() == Replace(old(View()), snapshot)
      ensures current == watched == snapshot && channel == []
      ensures generation == (old(generation) + 1) % U64_SIZE
      ensures lost == VoiceLost(old(current), snapshot)
      ensures lost.Some? ==> old(current).selfUser.voiceAuthority == lost
      ensures lost.Some? <==> && old(current).selfUser.voiceAuthority.Some?
                              && snapshot.selfUser.voiceAuthority != old(current).selfUser.voiceAuthority
    {
      match (current.selfUser.voiceAuthority, snapshot.selfUser.voiceAuthority) {
        case (Some(previous), Some(next)) =>
          lost := if previous == next then None else Some(previous);
        case (Some(previous), None) =>
          lost := Some(previous);
        case (None, _) =>
          lost := None;
      }
      channel := [];
      generation := (generation + 1) % U64_SIZE;
      current := snapshot;
      watched := snapshot;
      base := snapshot;
    }

    method SetCursor(cursor: Cursor)
      requires Valid()
      modifies this
      ensures Valid() && View() == UpdateCursor(old(View()), cursor)
      ensures current.cursor == watched.cursor == cursor
      ensures current.(cursor := old(current).cursor) == old(current)
      ensures generation == old(generation) && channel == old(channel) && base == old(base)
    {
      var next := current.(cursor := cursor);
      current := next;
      watched := next;
    }

    /** `apply_event`: all or nothing, and the watchers never see a partial state. */
    method ApplyOne(event: StateEvent) returns (error: Option<StateApplyError>)
      requires Valid()
      modifies this
      ensures Valid() && View() == Apply(old(View()), event)
      ensures error.None? <==> ApplyEvent(old(current), event).Ok?
      ensures error.Some? ==> ApplyEvent(old(current), event) == Err(error.value)
      ensures error.Some? ==> View() == old(View()) && watched == old(watched)
    {
      ghost var before := View();
      ApplyConsistent(before, event);
      error := ValidateEvent(event, current.geid);
      if error.Some? {
        return;
      }
      var draft := new Draft(current);
      error := draft.ApplyKnown(event);
      if error.Some? {
        return;
      }
      var next := draft.View().(cursor := event.cursor, geid := event.geid);
      current := next;
      watched := next;
      channel := channel + [event];
      assert View() == Apply(before, event);
    }
  }
}
