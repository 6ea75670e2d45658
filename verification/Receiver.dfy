/**
 Event receivers and snapshot boundaries (`StateEventReceiver` and the publication
 half of `replace_snapshot`, crates/zephyrvox-realtime/src/state.rs).

 Any number of receivers run beside one store. A step is what happens between two
 points at which another task may run: reading the generation marker, taking a
 channel under the lock, popping, and checking the marker again. Channels are
 numbered by the snapshot that opened them; the marker is that number as a `u64`.
 */
module Receivers {
  import opened Common

  type Event = nat

  /** How far a replacement has come while it holds the channel's write lock. */
  datatype Writer = Unlocked | Swapped | Marked

  datatype Position =
    | Idle
    /** `refresh_generation` read a marker that differs from the observed one. */
    | Switching(marker: u64)
    /** About to pop from the receiver's channel. */
    | Polling
    /** Popped an event from channel `origin`; about to compare the marker. */
    | Checking(origin: nat, event: Event)

  datatype Receiver = Receiver(at: Position, channel: nat, next: nat, observed: u64)

  /** An event handed to a caller, with the generation published at its check. */
  datatype Delivery = Delivery(receiver: nat, origin: nat, event: Event, generation: nat)

  datatype System = System(
    writer: Writer,
    /** The channel now behind the lock. */
    epoch: nat,
    marker: u64,
    /** Everything sent on each channel. */
    sent: map<nat, seq<Event>>,
    receivers: map<nat, Receiver>,
    delivered: seq<Delivery>)

  const INITIAL := System(Unlocked, 0, 0, map[0 := []], map[], [])

  datatype Action =
    | SwapChannel | PublishMarker | Unlock
    | Send(event: Event)
    | Subscribe(id: nat)
    | Refresh(id: nat)
    | Switch(id: nat, thenPoll: bool)
    | Pop(id: nat)
    | Lag(id: nat, skipped: nat)
    | Check(id: nat)

  /** The snapshot whose marker is published: the previous one while a swap is unannounced. */
  function Published(s: System): nat {
    if s.writer == Swapped && s.epoch > 0 then s.epoch - 1 else s.epoch
  }

  function Put(s: System, id: nat, r: Receiver): System {
    s.(receivers := s.receivers[id := r])
  }

  function Events(s: System, channel: nat): seq<Event> {
    if channel in s.sent then s.sent[channel] else []
  }

  /** One step; an action that is not enabled changes nothing. */
  function Step(s: System, a: Action): System {
    match a
    case SwapChannel =>
      if s.writer != Unlocked then s
      else s.(writer := Swapped, epoch := s.epoch + 1, sent := s.sent[s.epoch + 1 := []])
    case PublishMarker =>
      if s.writer != Swapped then s
      else s.(writer := Marked, marker := (s.marker + 1) % U64_SIZE)
    case Unlock =>
      if s.writer != Marked then s else s.(writer := Unlocked)
    case Send(event) =>
      if s.writer != Unlocked then s
      else s.(sent := s.sent[s.epoch := Events(s, s.epoch) + [event]])
    case Subscribe(id) =>
      if s.writer != Unlocked || id in s.receivers then s
      else Put(s, id, Receiver(Idle, s.epoch, |Events(s, s.epoch)|, s.marker))
    case Refresh(id) =>
      if id !in s.receivers then s
      else
        var r := s.receivers[id];
        if !(r.at.Idle? || r.at.Polling?) then s
        else if s.marker == r.observed then Put(s, id, r.(at := Polling))
        else Put(s, id, r.(at := Switching(s.marker)))
    case Switch(id, thenPoll) =>
      if id !in s.receivers || s.writer != Unlocked then s
      else
        var r := s.receivers[id];
        if !r.at.Switching? then s
        else Put(s, id, Receiver(if thenPoll then Polling else Idle, s.epoch,
                                 |Events(s, s.epoch)|, r.at.marker))
    case Pop(id) =>
      if id !in s.receivers then s
      else
        var r := s.receivers[id];
        if r.at != Polling || r.next >= |Events(s, r.channel)| then s
        else Put(s, id, r.(at := Checking(r.channel, Events(s, r.channel)[r.next]),
                           next := r.next + 1))
    case Lag(id, skipped) =>
      if id !in s.receivers then s
      else Put(s, id, s.receivers[id].(next := s.receivers[id].next + skipped))
    case Check(id) =>
      if id !in s.receivers then s
      else
        var r := s.receivers[id];
        if !r.at.Checking? then s
        else if s.marker != r.observed then Put(s, id, r.(at := Idle))
        else
          Put(s, id, r.(at := Idle))
            .(delivered := s.delivered + [Delivery(id, r.at.origin, r.at.event, Published(s))])
  }

  function Run(s: System, actions: seq<Action>): System {
    if |actions| == 0 then s
    else Step(Run(s, actions[..|actions| - 1]), actions[|actions| - 1])
  }

  /** A receiver never holds a channel older than the generation it has observed. */
  ghost predicate Paired(s: System, r: Receiver) {
    && r.observed <= r.channel <= Published(s)
    && (r.at.Switching? ==> r.at.marker <= Published(s))
    && (r.at.Checking? ==> r.at.origin == r.channel)
  }

  ghost predicate Invariant(s: System) {
    && s.epoch < U64_SIZE
    && (s.writer == Swapped ==> s.epoch > 0)
    && s.marker == Published(s)
    && (forall id :: id in s.receivers ==> Paired(s, s.receivers[id]))
    && (forall i :: 0 <= i < |s.delivered| ==> s.delivered[i].origin == s.delivered[i].generation)
  }

  lemma StepKeepsInvariant(s: System, a: Action)
    requires Invariant(s) && Step(s, a).epoch < U64_SIZE
    ensures Invariant(Step(s, a))
  {
    var next := Step(s, a);
    assert Published(s) <= Published(next);
    match a {
      case Check(id) =>
        if id in s.receivers && s.receivers[id].at.Checking? && s.marker == s.receivers[id].observed {
          assert Paired(s, s.receivers[id]);
        }
      case _ =>
    }
  }

  lemma EpochGrows(s: System, a: Action)
    ensures s.epoch <= Step(s, a).epoch
    ensures Invariant(s) ==> Published(s) <= Published(Step(s, a))
  {
  }

  /** A step delivers at most one event, labelled with the generation then published. */
  lemma DeliveriesAppend(s: System, a: Action)
    ensures var next := Step(s, a);
      || next.delivered == s.delivered
      || (&& |next.delivered| == |s.delivered| + 1 && s.delivered <= next.delivered
          && next.delivered[|s.delivered|].generation == Published(s))
  {
  }

  /** What was delivered after `start`, when snapshot `floor` had been published, is no older. */
  ghost predicate NoneOlder(s: System, start: nat, floor: nat) {
    forall i :: start <= i < |s.delivered| ==> s.delivered[i].origin >= floor
  }

  lemma StepNoneOlder(s: System, a: Action, start: nat, floor: nat)
    requires Invariant(s) && Invariant(Step(s, a))
    requires NoneOlder(s, start, floor) && floor <= Published(s)
    ensures NoneOlder(Step(s, a), start, floor)
  {
    hide Step;
    DeliveriesAppend(s, a);
    var next := Step(s, a);
    forall i | start <= i < |next.delivered| ensures next.delivered[i].origin >= floor {
      if i < |s.delivered| {
        assert next.delivered[i] == s.delivered[i];
      }
    }
  }

  /**
   From any state of the invariant, over every interleaving with fewer than 2^64
   snapshot replacements: each receiver's channel stays at least as new as the
   generation it has observed, every event delivered comes from the generation
   published at its check, and nothing older than the snapshot now published is
   delivered from here on.
   */
  lemma {:induction false} NothingStaleIsDelivered(s: System, actions: seq<Action>)
    requires Invariant(s) && Run(s, actions).epoch < U64_SIZE
    ensures Invariant(Run(s, actions))
    ensures Published(s) <= Published(Run(s, actions))
    ensures |s.delivered| <= |Run(s, actions).delivered|
    ensures NoneOlder(Run(s, actions), |s.delivered|, Published(s))
  {
    hide Step, Invariant, NoneOlder;
    if |actions| == 0 {
      NothingYet(s);
    } else {
      var before, last := Run(s, actions[..|actions| - 1]), actions[|actions| - 1];
      EpochGrows(before, last);
      NothingStaleIsDelivered(s, actions[..|actions| - 1]);
      StepKeepsInvariant(before, last);
      DeliveriesAppend(before, last);
      StepNoneOlder(before, last, |s.delivered|, Published(s));
    }
  }

  lemma NothingYet(s: System)
    ensures NoneOlder(s, |s.delivered|, Published(s))
  {
  }

  lemma InitialInvariant()
    ensures Invariant(INITIAL)
  {
  }

  // ----- the wrap of the marker ------------------------------------------------------------

  function Replace(s: System): System {
    Step(Step(Step(s, SwapChannel), PublishMarker), Unlock)
  }

  function ReplaceTimes(s: System, n: nat): System {
    if n == 0 then s else Replace(ReplaceTimes(s, n - 1))
  }

  /** A replacement opens an empty channel under the next marker and leaves the others alone. */
  lemma ReplaceEffect(s: System)
    requires s.writer == Unlocked
    ensures var t := Replace(s);
      && t.writer == Unlocked && t.epoch == s.epoch + 1 && t.marker == (s.marker + 1) % U64_SIZE
      && t.receivers == s.receivers && t.delivered == s.delivered && Events(t, 0) == Events(s, 0)
      && Events(t, t.epoch) == []
      && (forall channel: nat :: channel <= s.epoch ==> Events(t, channel) == Events(s, channel))
  {
  }

  lemma {:induction false} ReplaceTimesEffect(s: System, n: nat)
    requires s.writer == Unlocked && s.epoch == 0 && s.marker == 0
    ensures var t := ReplaceTimes(s, n);
      && t.writer == Unlocked && t.epoch == n && t.marker == n % U64_SIZE
      && t.receivers == s.receivers && t.delivered == s.delivered && Events(t, 0) == Events(s, 0)
  {
    hide Step, Replace, Events;
    if n > 0 {
      ReplaceTimesEffect(s, n - 1);
      ReplaceEffect(ReplaceTimes(s, n - 1));
      NextResidue(n - 1);
    }
  }

  lemma NextResidue(n: nat)
    ensures (n % U64_SIZE + 1) % U64_SIZE == (n + 1) % U64_SIZE
  {
  }

  /**
   The bound is needed: a receiver that sleeps through exactly 2^64 replacements finds
   its old marker again and is handed an event of the first channel.
   */
  lemma WrappedMarkerDeliversStale(event: Event)
    ensures var ready := Step(Step(INITIAL, Subscribe(0)), Send(event));
      var wrapped := ReplaceTimes(ready, U64_SIZE);
      var end := Step(Step(Step(wrapped, Refresh(0)), Pop(0)), Check(0));
      end.delivered == [Delivery(0, 0, event, U64_SIZE)]
  {
    var ready := Step(Step(INITIAL, Subscribe(0)), Send(event));
    ReplaceTimesEffect(ready, U64_SIZE);
    var wrapped := ReplaceTimes(ready, U64_SIZE);
    assert wrapped.receivers[0] == Receiver(Idle, 0, 0, 0);
    var polling := Step(wrapped, Refresh(0));
    assert polling.receivers[0].at == Polling;
    assert Events(polling, 0) == [event];
    var popped := Step(polling, Pop(0));
    assert popped.receivers[0].at == Checking(0, event);
  }
}
