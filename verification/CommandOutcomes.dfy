/**
 What a command comes to (`send_command`, crates/zephyrvox-realtime/src/connection.rs): the
 steps of `Commands` that one caller makes on each way out, put together.
 */
module CommandOutcomes {
  import opened Common
  import opened RequestIds
  import opened Commands

  /** The caller has ended so, its entry is gone, and nothing else has changed. */
  predicate EndsAs(s: System, s': System, c: nat, name: Name, outcome: Outcome) {
    s' == s.(calls := s.calls[c := Ended(outcome)], pending := s.pending - {Text(name)})
  }

  lemma TwoSteps(s: System, a: Action, b: Action)
    ensures Run(s, [a, b]) == Step(Step(s, a), b)
  {
    hide Step;
    assert [a, b][..1] == [a] && [a][..0] == [];
    assert Run(s, [a]) == Step(s, a);
  }

  lemma ThreeSteps(s: System, a: Action, b: Action, c: Action)
    ensures Run(s, [a, b, c]) == Step(Step(Step(s, a), b), c)
  {
    hide Step;
    assert [a, b, c][..2] == [a, b];
    TwoSteps(s, a, b);
  }

  /** A command is begun only on a live connection, and registered only if it encodes and there is room. */
  lemma CallIsRegisteredExactly(s: System, c: nat, live: bool, millis: nat, encodes: bool)
    requires c !in s.calls
    ensures var next := Run(s, [Call(c, live, millis, encodes), Register(c)]);
            var name := Name(millis, s.issued + 1);
      if !live then next == s.(calls := s.calls[c := Ended(NotLive)])
      else if !encodes then next == s.(issued := s.issued + 1, calls := s.calls[c := Ended(BadPayload)])
      else if |s.pending| >= s.limit then
        next == s.(issued := s.issued + 1, calls := s.calls[c := Ended(CapacityFull)])
      else
        next == s.(issued := s.issued + 1, calls := s.calls[c := Registered(name)],
                   pending := s.pending[Text(name) := c])
  {
    hide Step, Run, Text;
    TwoSteps(s, Call(c, live, millis, encodes), Register(c));
    Begins(s, c, live, millis, encodes);
    var drawn := s.(issued := s.issued + 1);
    if !live {
      EndedStays(s, c, NotLive);
    } else if !encodes {
      EndedStays(drawn, c, BadPayload);
    } else {
      Registers(drawn, c, Name(millis, s.issued + 1));
    }
  }

  lemma Begins(s: System, c: nat, live: bool, millis: nat, encodes: bool)
    requires c !in s.calls
    ensures Step(s, Call(c, live, millis, encodes))
         == if !live then Move(s, c, Ended(NotLive))
            else Move(s.(issued := s.issued + 1), c,
                      if encodes then Numbered(Name(millis, s.issued + 1)) else Ended(BadPayload))
  {
  }

  lemma EndedStays(s: System, c: nat, outcome: Outcome)
    ensures Step(Move(s, c, Ended(outcome)), Register(c)) == Move(s, c, Ended(outcome))
  {
  }

  lemma Registers(s: System, c: nat, name: Name)
    ensures Step(Move(s, c, Numbered(name)), Register(c))
         == if |s.pending| >= s.limit then Move(s, c, Ended(CapacityFull))
            else Move(s, c, Registered(name)).(pending := s.pending[Text(name) := c])
  {
    hide Text;
    assert s.calls[c := Numbered(name)][c := Registered(name)] == s.calls[c := Registered(name)];
    assert s.calls[c := Numbered(name)][c := Ended(CapacityFull)] == s.calls[c := Ended(CapacityFull)];
  }

  lemma GuardDropped(s: System, c: nat, name: Name, outcome: Outcome)
    ensures EndsAs(s, Step(Move(s, c, Leaving(name, outcome)), DropGuard(c)), c, name, outcome)
  {
    hide Text;
    assert s.calls[c := Leaving(name, outcome)][c := Ended(outcome)] == s.calls[c := Ended(outcome)];
  }

  lemma TakesOutbound(s: System, c: nat, name: Name, open: bool)
    requires c in s.calls && s.calls[c] == Registered(name)
    ensures Step(s, TakeOutbound(c, open))
         == Move(s, c, if open then Enqueuing(name) else Leaving(name, NotLive))
  {
  }

  lemma Enqueues(s: System, c: nat, name: Name, accepted: bool)
    ensures Step(Move(s, c, Enqueuing(name)), Enqueue(c, accepted))
         == Move(s, c, if accepted then Awaiting(name) else Leaving(name, Closed))
  {
    var p := if accepted then Awaiting(name) else Leaving(name, Closed);
    assert s.calls[c := Enqueuing(name)][c := p] == s.calls[c := p];
  }

  /** Without an outbound channel the command was never live. */
  lemma NoOutboundEnds(s: System, c: nat, name: Name)
    requires c in s.calls && s.calls[c] == Registered(name)
    ensures EndsAs(s, Run(s, [TakeOutbound(c, false), DropGuard(c)]), c, name, NotLive)
  {
    hide Step, Run, EndsAs;
    TwoSteps(s, TakeOutbound(c, false), DropGuard(c));
    TakesOutbound(s, c, name, false);
    GuardDropped(s, c, name, NotLive);
  }

  /** With one that takes the payload the caller goes on to wait; with one that does not it is closed. */
  lemma OutboundDecides(s: System, c: nat, name: Name)
    requires c in s.calls && s.calls[c] == Registered(name)
    ensures Run(s, [TakeOutbound(c, true), Enqueue(c, true)]) == s.(calls := s.calls[c := Awaiting(name)])
    ensures EndsAs(s, Run(s, [TakeOutbound(c, true), Enqueue(c, false), DropGuard(c)]), c, name, Closed)
  {
    hide Step, Run, EndsAs;
    TwoSteps(s, TakeOutbound(c, true), Enqueue(c, true));
    ThreeSteps(s, TakeOutbound(c, true), Enqueue(c, false), DropGuard(c));
    TakesOutbound(s, c, name, true);
    Enqueues(s, c, name, true);
    Enqueues(s, c, name, false);
    GuardDropped(s, c, name, Closed);
  }

  lemma IsAnswered(s: System, c: nat, name: Name, reply: Reply)
    requires Text(name) in s.pending && s.pending[Text(name)] == c
    ensures Step(s, Resolve(Text(name), reply))
         == s.(pending := s.pending - {Text(name)}, inbox := s.inbox[c := reply])
  {
  }

  lemma Receives(s: System, c: nat, name: Name, reply: Reply)
    requires c in s.calls && s.calls[c] == Awaiting(name) && c in s.inbox && s.inbox[c] == reply
    ensures Step(s, Receive(c)) == Move(s, c, Leaving(name, Answered(reply)))
  {
  }

  /** A reply under the caller's own identifier is what the command returns. */
  lemma ReplyIsReturned(s: System, c: nat, name: Name, reply: Reply)
    requires c in s.calls && s.calls[c] == Awaiting(name) && Waits(s, c, s.calls[c])
    ensures var next := Run(s, [Resolve(Text(name), reply), Receive(c), DropGuard(c)]);
            EndsAs(s.(inbox := s.inbox[c := reply]), next, c, name, Answered(reply))
  {
    hide Step, Run, Text;
    ThreeSteps(s, Resolve(Text(name), reply), Receive(c), DropGuard(c));
    IsAnswered(s, c, name, reply);
    var told := s.(pending := s.pending - {Text(name)}, inbox := s.inbox[c := reply]);
    Receives(told, c, name, reply);
    GuardDropped(told, c, name, Answered(reply));
    assert s.pending - {Text(name)} - {Text(name)} == s.pending - {Text(name)};
  }

  /** So is the loss of the socket. */
  lemma LossIsReturned(s: System, c: nat, name: Name)
    requires c in s.calls && s.calls[c] == Awaiting(name) && Waits(s, c, s.calls[c])
    ensures var next := Run(s, [LoseSocket, Receive(c), DropGuard(c)]);
      next.calls == s.calls[c := Ended(Answered(SocketLost))] && next.pending == map[]
  {
    hide Text;
    ThreeSteps(s, LoseSocket, Receive(c), DropGuard(c));
    hide Run;
    assert c in s.pending.Values;
    var lost := Step(s, LoseSocket);
    assert c in lost.inbox && lost.inbox[c] == SocketLost;
  }

  lemma TimesOut(s: System, c: nat, name: Name)
    requires c in s.calls && s.calls[c] == Awaiting(name) && c !in s.inbox
    ensures Step(s, TimeOut(c)) == Move(s, c, Leaving(name, TimedOut))
    ensures c !in s.pending.Values ==> Step(s, SenderGone(c)) == Move(s, c, Leaving(name, Closed))
  {
  }

  /** A caller that has been told nothing times out, or is closed if its sender is gone. */
  lemma SilenceEnds(s: System, c: nat, name: Name)
    requires c in s.calls && s.calls[c] == Awaiting(name) && c !in s.inbox
    ensures EndsAs(s, Run(s, [TimeOut(c), DropGuard(c)]), c, name, TimedOut)
    ensures c !in s.pending.Values ==>
              EndsAs(s, Run(s, [SenderGone(c), DropGuard(c)]), c, name, Closed)
  {
    hide Step, Run, EndsAs;
    TwoSteps(s, TimeOut(c), DropGuard(c));
    TwoSteps(s, SenderGone(c), DropGuard(c));
    TimesOut(s, c, name);
    GuardDropped(s, c, name, TimedOut);
    GuardDropped(s, c, name, Closed);
  }

  /** One dropped at an await leaves the table as if it had never been registered. */
  lemma DroppedCallLeaves(s: System, c: nat, name: Name)
    requires c in s.calls && s.calls[c] in {Registered(name), Enqueuing(name), Awaiting(name)}
    ensures EndsAs(s, Step(s, Abandon(c)), c, name, Dropped)
  {
    hide Text;
  }
}
