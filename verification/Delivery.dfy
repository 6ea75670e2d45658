/**
 What a receiver does get (`StateEventReceiver`, crates/zephyrvox-realtime/src/state.rs):
 between two snapshots, everything sent since it subscribed, in order, unless it lags.
 */
module Deliveries {
  import opened Common
  import opened Receivers

  /** The events handed to one receiver, in order. */
  function HandedTo(id: nat, deliveries: seq<Delivery>): seq<Event> {
    if |deliveries| == 0 then []
    else
      var earlier, last := HandedTo(id, deliveries[..|deliveries| - 1]), deliveries[|deliveries| - 1];
      if last.receiver == id then earlier + [last.event] else earlier
  }

  /** The event popped and not yet checked. */
  function InHand(r: Receiver): seq<Event> {
    if r.at.Checking? then [r.at.event] else []
  }

  /**
   The receiver stands on the current channel, no replacement is under way, and what it was
   handed from `first` on, with what it holds, is what was sent from `start` on.
   */
  ghost predicate KeepsUp(s: System, id: nat, channel: nat, start: nat, first: nat) {
    && s.writer == Unlocked && s.epoch == channel && id in s.receivers
    && var r := s.receivers[id];
    && r.channel == channel && r.observed == s.marker && !r.at.Switching?
    && start <= r.next <= |Events(s, channel)| && first <= |s.delivered|
    && HandedTo(id, s.delivered[first..]) + InHand(r) == Events(s, channel)[start..r.next]
  }

  /** Neither a replacement nor a lag of this receiver. */
  predicate Undisturbed(a: Action, id: nat) {
    !a.SwapChannel? && !(a.Lag? && a.id == id)
  }

  lemma HandedAppend(id: nat, deliveries: seq<Delivery>, d: Delivery)
    ensures HandedTo(id, deliveries + [d])
         == if d.receiver == id then HandedTo(id, deliveries) + [d.event] else HandedTo(id, deliveries)
  {
    assert (deliveries + [d])[..|deliveries|] == deliveries;
  }

  lemma CheckKeepsUp(s: System, id: nat, channel: nat, start: nat, first: nat, other: nat)
    requires KeepsUp(s, id, channel, start, first)
    ensures KeepsUp(Step(s, Check(other)), id, channel, start, first)
  {
    var next := Step(s, Check(other));
    if next.delivered != s.delivered {
      var d := next.delivered[|s.delivered|];
      DeliveredMore(id, s.delivered, first, d);
      hide HandedTo, Published;
    }
  }

  lemma DeliveredMore(id: nat, deliveries: seq<Delivery>, first: nat, d: Delivery)
    requires first <= |deliveries|
    ensures HandedTo(id, (deliveries + [d])[first..])
         == if d.receiver == id then HandedTo(id, deliveries[first..]) + [d.event]
            else HandedTo(id, deliveries[first..])
  {
    assert (deliveries + [d])[first..] == deliveries[first..] + [d];
    HandedAppend(id, deliveries[first..], d);
  }

  lemma PopKeepsUp(s: System, id: nat, channel: nat, start: nat, first: nat, other: nat)
    requires KeepsUp(s, id, channel, start, first)
    ensures KeepsUp(Step(s, Pop(other)), id, channel, start, first)
  {
    var r := s.receivers[id];
    if other == id && r.at == Polling && r.next < |Events(s, channel)| {
      assert Events(s, channel)[start..r.next + 1]
          == Events(s, channel)[start..r.next] + [Events(s, channel)[r.next]];
    }
  }

  lemma SendKeepsUp(s: System, id: nat, channel: nat, start: nat, first: nat, event: Event)
    requires KeepsUp(s, id, channel, start, first)
    ensures KeepsUp(Step(s, Send(event)), id, channel, start, first)
  {
    var next, r := Step(s, Send(event)), s.receivers[id];
    assert Events(next, channel) == Events(s, channel) + [event];
    assert Events(next, channel)[start..r.next] == Events(s, channel)[start..r.next];
  }

  lemma StepKeepsUp(s: System, id: nat, channel: nat, start: nat, first: nat, a: Action)
    requires KeepsUp(s, id, channel, start, first) && Undisturbed(a, id)
    ensures KeepsUp(Step(s, a), id, channel, start, first)
  {
    match a {
      case Send(event) => SendKeepsUp(s, id, channel, start, first, event);
      case Pop(other) => PopKeepsUp(s, id, channel, start, first, other);
      case Check(other) => CheckKeepsUp(s, id, channel, start, first, other);
      case _ =>
    }
  }

  lemma {:induction false} RunKeepsUp(s: System, id: nat, channel: nat, start: nat, first: nat,
                                      actions: seq<Action>)
    requires KeepsUp(s, id, channel, start, first)
    requires forall a :: a in actions ==> Undisturbed(a, id)
    ensures KeepsUp(Run(s, actions), id, channel, start, first)
  {
    hide Step, KeepsUp, Undisturbed;
    if |actions| > 0 {
      var n := |actions| - 1;
      assert actions[n] in actions && forall a :: a in actions[..n] ==> a in actions;
      RunKeepsUp(s, id, channel, start, first, actions[..n]);
      StepKeepsUp(Run(s, actions[..n]), id, channel, start, first, actions[n]);
    }
  }

  /**
   From its subscription on, while no snapshot replaces the channel and it does not lag, a
   receiver is handed exactly what is sent, in order: nothing before, nothing left out.
   */
  lemma SubscriberMissesNothing(s: System, id: nat, actions: seq<Action>)
    requires s.writer == Unlocked && id !in s.receivers
    requires forall a :: a in actions ==> Undisturbed(a, id)
    ensures var end := Run(Step(s, Subscribe(id)), actions); var start := |Events(s, s.epoch)|;
      && id in end.receivers
      && start <= end.receivers[id].next <= |Events(end, s.epoch)| && |s.delivered| <= |end.delivered|
      && HandedTo(id, end.delivered[|s.delivered|..]) + InHand(end.receivers[id])
      == Events(end, s.epoch)[start..end.receivers[id].next]
  {
    hide Run;
    var subscribed := Step(s, Subscribe(id));
    assert subscribed.delivered[|s.delivered|..] == [];
    RunKeepsUp(subscribed, id, s.epoch, |Events(s, s.epoch)|, |s.delivered|, actions);
  }

  lemma TwoSteps(s: System, a: Action, b: Action)
    ensures Run(s, [a, b]) == Step(Step(s, a), b)
  {
    hide Step;
    assert [a, b][..1] == [a] && [a][..0] == [];
    assert Run(s, [a]) == Step(s, a);
  }

  lemma ThreeSteps(s: System, a: Action, b: Action, c: Action)
    ensures Run(s, [a, b, c]) == Step(Step(Step(s, a), b), c)
  {
    hide Step;
    assert [a, b, c][..2] == [a, b];
    TwoSteps(s, a, b);
  }

  /** An idle receiver that has something to read gets it, under the generation now published. */
  lemma NextEventIsHandedOver(s: System, id: nat)
    requires id in s.receivers && s.receivers[id].at.Idle? && s.receivers[id].observed == s.marker
    requires s.receivers[id].next < |Events(s, s.receivers[id].channel)|
    ensures var r := s.receivers[id];
      Run(s, [Refresh(id), Pop(id), Check(id)])
      == Put(s, id, r.(next := r.next + 1))
           .(delivered := s.delivered
               + [Delivery(id, r.channel, Events(s, r.channel)[r.next], Published(s))])
  {
    var r := s.receivers[id];
    ThreeSteps(s, Refresh(id), Pop(id), Check(id));
    hide Run;
    var polling := Step(s, Refresh(id));
    assert polling == Put(s, id, r.(at := Polling));
    assert Events(polling, r.channel) == Events(s, r.channel);
    var event := Events(s, r.channel)[r.next];
    assert Step(polling, Pop(id)) == Put(s, id, r.(at := Checking(r.channel, event), next := r.next + 1));
  }

  /** After a replacement an idle receiver moves to the new channel, at its end. */
  lemma ReceiverCatchesUp(s: System, id: nat)
    requires s.writer == Unlocked && id in s.receivers && s.receivers[id].at.Idle?
    requires s.receivers[id].observed != s.marker
    ensures Run(s, [Refresh(id), Switch(id, false)])
         == Put(s, id, Receiver(Idle, s.epoch, |Events(s, s.epoch)|, s.marker))
  {
    TwoSteps(s, Refresh(id), Switch(id, false));
    hide Run;
    assert Step(s, Refresh(id)) == Put(s, id, s.receivers[id].(at := Switching(s.marker)));
  }

  /** An event popped from a channel that was replaced meanwhile is not handed over. */
  lemma StaleEventIsDiscarded(s: System, id: nat)
    requires id in s.receivers && s.receivers[id].at.Checking?
    ensures Step(s, Check(id)).delivered == s.delivered <==> s.marker != s.receivers[id].observed
    ensures Step(s, Check(id)).receivers[id].at == Idle
  {
  }
}
