/**
 What a call of `refresh_access` comes to (crates/zephyrvox-http/src/client/refresh.rs): the
 steps of `Refresh` that a leader and its followers make between their awaits, put together.
 */
module FlightProgress {
  import opened Common
  import opened Tokens
  import opened Refresh

  /** The leader's whole way out, from the result of `refresh_once` on. */
  function Delivery(c: nat, outcome: Outcome): seq<Action> {
    [RefreshOnceEnds(c, outcome), StoreResult(c), NotifyWaiters(c), MarkFinished(c), ClearGate(c)]
  }

  /** The system with one caller, its flight and the gate as given. */
  function With(s: System, c: nat, p: Position, f: nat, flight: Flight, gate: Option<nat>): System
    requires f < |s.flights|
  {
    System(gate, s.flights[f := flight], s.callers[c := p])
  }

  /** A leader that is not dropped returns what its refresh came to and leaves it for the others. */
  lemma LeaderDelivers(s: System, c: nat, f: nat, outcome: Outcome)
    requires Invariant(s) && c in s.callers && s.callers[c] == Leading(f)
    ensures f < |s.flights|
    ensures Run(s, Delivery(c, outcome))
         == With(s, c, Returned(f, outcome), f, s.flights[f].(result := Some(outcome), notified := 1), None)
  {
    hide Step, Run, Invariant, With;
    LeadingStands(s, c, f);
    var told := s.flights[f].(result := Some(outcome));
    FiveSteps(s, RefreshOnceEnds(c, outcome), StoreResult(c), NotifyWaiters(c), MarkFinished(c), ClearGate(c));
    Ends(s, c, f, outcome);
    Stores(s, c, f, s.flights[f], outcome);
    Notifies(s, c, f, told, outcome);
    Finishes(s, c, f, told.(notified := 1), outcome);
    Clears(s, c, f, told.(notified := 1), outcome);
  }

  lemma LeadingStands(s: System, c: nat, f: nat)
    requires Invariant(s) && c in s.callers && s.callers[c] == Leading(f)
    ensures f < |s.flights| && s.gate == Some(f) && s.flights[f].notified == 0
  {
    hide Invariant;
    LeaderStands(s, c);
  }

  lemma LeaderStands(s: System, c: nat)
    requires Invariant(s) && c in s.callers && IsLeading(s.callers[c])
    ensures s.callers[c].flight < |s.flights| && s.gate == Some(s.callers[c].flight)
    ensures s.callers[c].Leading? || s.callers[c].Storing? ==>
              var flight := s.flights[s.callers[c].flight];
              flight.result == None && flight.notified == 0 && !flight.cancelled
  {
  }

  lemma Ends(s: System, c: nat, f: nat, outcome: Outcome)
    requires c in s.callers && s.callers[c] == Leading(f) && f < |s.flights| && s.gate == Some(f)
    ensures Step(s, RefreshOnceEnds(c, outcome))
         == With(s, c, Storing(f, outcome), f, s.flights[f], Some(f))
  {
  }

  lemma Stores(s: System, c: nat, f: nat, flight: Flight, outcome: Outcome)
    requires f < |s.flights|
    ensures Step(With(s, c, Storing(f, outcome), f, flight, Some(f)), StoreResult(c))
         == With(s, c, Notifying(f, outcome), f, flight.(result := Some(outcome)), Some(f))
  {
  }

  lemma Notifies(s: System, c: nat, f: nat, flight: Flight, outcome: Outcome)
    requires f < |s.flights|
    ensures Step(With(s, c, Notifying(f, outcome), f, flight, Some(f)), NotifyWaiters(c))
         == With(s, c, Finishing(f, outcome), f, flight.(notified := flight.notified + 1), Some(f))
  {
  }

  lemma Finishes(s: System, c: nat, f: nat, flight: Flight, outcome: Outcome)
    requires f < |s.flights|
    ensures Step(With(s, c, Finishing(f, outcome), f, flight, Some(f)), MarkFinished(c))
         == With(s, c, Clearing(f, outcome), f, flight, Some(f))
  {
  }

  lemma Clears(s: System, c: nat, f: nat, flight: Flight, outcome: Outcome)
    requires f < |s.flights|
    ensures Step(With(s, c, Clearing(f, outcome), f, flight, Some(f)), ClearGate(c))
         == With(s, c, Returned(f, outcome), f, flight, None)
  {
  }

  lemma TwoSteps(s: System, a: Action, b: Action)
    ensures Run(s, [a, b]) == Step(Step(s, a), b)
  {
    hide Step;
    RunAppend(s, [], a);
    RunAppend(s, [a], b);
    assert [] + [a] == [a] && [a] + [b] == [a, b];
  }

  lemma ThreeSteps(s: System, a: Action, b: Action, c: Action)
    ensures Run(s, [a, b, c]) == Step(Step(Step(s, a), b), c)
  {
    hide Step;
    TwoSteps(s, a, b);
    RunAppend(s, [a, b], c);
    assert [a, b] + [c] == [a, b, c];
  }

  lemma FiveSteps(s: System, a: Action, b: Action, c: Action, d: Action, e: Action)
    ensures Run(s, [a, b, c, d, e]) == Step(Step(Step(Step(Step(s, a), b), c), d), e)
  {
    hide Step;
    ThreeSteps(s, a, b, c);
    RunAppend(s, [a, b, c], d);
    RunAppend(s, [a, b, c, d], e);
    assert [a, b, c] + [d] == [a, b, c, d] && [a, b, c, d] + [e] == [a, b, c, d, e];
  }

  predicate BeforeResult(p: Position, f: nat) {
    p == Leading(f) || (p.Storing? && p.flight == f)
  }

  /** A leader dropped before its result is stored cancels its flight and wakes the others. */
  lemma DroppedLeaderCancels(s: System, c: nat, f: nat)
    requires Invariant(s) && c in s.callers && BeforeResult(s.callers[c], f)
    ensures f < |s.flights|
    ensures Run(s, [Drop(c), GuardNotifies(c)])
         == With(s, c, Gone(f), f, s.flights[f].(cancelled := true, notified := 1), s.gate)
  {
    hide Step, Run, Invariant, With, BeforeResult;
    UnfinishedStands(s, c, f);
    TwoSteps(s, Drop(c), GuardNotifies(c));
    Cancels(s, c, f);
    GuardWakes(s, c, f, s.flights[f].(cancelled := true), s.gate);
  }

  lemma UnfinishedStands(s: System, c: nat, f: nat)
    requires Invariant(s) && c in s.callers && BeforeResult(s.callers[c], f)
    ensures f < |s.flights| && s.flights[f].notified == 0
  {
    LeaderStands(s, c);
  }

  lemma Cancels(s: System, c: nat, f: nat)
    requires c in s.callers && BeforeResult(s.callers[c], f) && f < |s.flights|
    ensures Step(s, Drop(c)) == With(s, c, Cancelling(f), f, s.flights[f].(cancelled := true), s.gate)
  {
  }

  lemma GuardWakes(s: System, c: nat, f: nat, flight: Flight, gate: Option<nat>)
    requires f < |s.flights|
    ensures Step(With(s, c, Cancelling(f), f, flight, gate), GuardNotifies(c))
         == With(s, c, Gone(f), f, flight.(notified := flight.notified + 1), gate)
  {
  }

  /** A waiter that has been notified since it began to wait returns. */
  lemma NotifiedWaiterReturns(s: System, c: nat, f: nat, seen: nat)
    requires c in s.callers && s.callers[c] == Waiting(f, seen) && f < |s.flights|
    requires s.flights[f].notified > seen
    ensures var answer := if s.flights[f].result.Some? then s.flights[f].result.value else AuthExpired;
      Run(s, [Wake(c), ReadFinal(c)]) == Move(s, c, Returned(f, answer))
  {
    TwoSteps(s, Wake(c), ReadFinal(c));
    hide Run, Step;
    Wakes(s, c, f, seen);
    ReadsFinal(s, c, f);
  }

  lemma Wakes(s: System, c: nat, f: nat, seen: nat)
    requires c in s.callers && s.callers[c] == Waiting(f, seen) && f < |s.flights|
    requires s.flights[f].notified > seen
    ensures Step(s, Wake(c)) == Move(s, c, Woken(f))
  {
  }

  lemma ReadsFinal(s: System, c: nat, f: nat)
    requires f < |s.flights|
    ensures var answer := if s.flights[f].result.Some? then s.flights[f].result.value else AuthExpired;
      Step(Move(s, c, Woken(f)), ReadFinal(c)) == Move(s, c, Returned(f, answer))
  {
  }

  /** One that joins a flight already over returns at once; one that joins earlier waits. */
  lemma JoinerReturns(s: System, c: nat, f: nat)
    requires c in s.callers && s.callers[c] == Joining(f) && f < |s.flights|
    ensures var flight := s.flights[f];
      Run(s, [CreateNotified(c), CheckCancelled(c), ReadResult(c)])
      == Move(s, c, if flight.cancelled then Returned(f, AuthExpired)
                    else if flight.result.Some? then Returned(f, flight.result.value)
                    else Waiting(f, flight.notified))
  {
    ThreeSteps(s, CreateNotified(c), CheckCancelled(c), ReadResult(c));
    hide Run, Step;
    var s1 := Move(s, c, Checking(f, s.flights[f].notified));
    Creates(s, c, f);
    Checks(s1, c, f, s.flights[f].notified);
    if !s.flights[f].cancelled {
      Reads(Move(s1, c, Reading(f, s.flights[f].notified)), c, f, s.flights[f].notified);
    } else {
      ReturnedStays(Move(s1, c, Returned(f, AuthExpired)), c);
    }
  }

  lemma Creates(s: System, c: nat, f: nat)
    requires c in s.callers && s.callers[c] == Joining(f) && f < |s.flights|
    ensures Step(s, CreateNotified(c)) == Move(s, c, Checking(f, s.flights[f].notified))
  {
  }

  lemma Checks(s: System, c: nat, f: nat, seen: nat)
    requires c in s.callers && s.callers[c] == Checking(f, seen) && f < |s.flights|
    ensures Step(s, CheckCancelled(c))
         == Move(s, c, if s.flights[f].cancelled then Returned(f, AuthExpired) else Reading(f, seen))
  {
  }

  lemma Reads(s: System, c: nat, f: nat, seen: nat)
    requires c in s.callers && s.callers[c] == Reading(f, seen) && f < |s.flights|
    ensures Step(s, ReadResult(c))
         == Move(s, c, if s.flights[f].result.Some? then Returned(f, s.flights[f].result.value)
                       else Waiting(f, seen))
  {
  }

  lemma ReturnedStays(s: System, c: nat)
    requires c in s.callers && s.callers[c].Returned?
    ensures Step(s, ReadResult(c)) == s
  {
  }

  lemma WaiterKnows(s: System, w: nat, f: nat, seen: nat)
    requires Invariant(s) && w in s.callers && s.callers[w] == Waiting(f, seen)
    ensures f < |s.flights| && seen == 0
  {
  }

  /** Whoever waits for a flight returns what its leader's refresh came to. */
  lemma WaitersGetTheOutcome(s: System, c: nat, w: nat, f: nat, seen: nat, outcome: Outcome)
    requires Invariant(s) && c in s.callers && s.callers[c] == Leading(f)
    requires w in s.callers && s.callers[w] == Waiting(f, seen)
    ensures Run(Run(s, Delivery(c, outcome)), [Wake(w), ReadFinal(w)]).callers
         == s.callers[c := Returned(f, outcome)][w := Returned(f, outcome)]
  {
    WaiterKnows(s, w, f, seen);
    hide Run, Invariant;
    LeaderDelivers(s, c, f, outcome);
    NotifiedWaiterReturns(Run(s, Delivery(c, outcome)), w, f, seen);
  }

  /** Or that the session has expired, if the leader is dropped before its result is stored. */
  lemma WaitersOutliveTheirLeader(s: System, c: nat, w: nat, f: nat, seen: nat)
    requires Invariant(s) && c in s.callers && s.callers[c] == Leading(f)
    requires w in s.callers && s.callers[w] == Waiting(f, seen)
    ensures Run(Run(s, [Drop(c), GuardNotifies(c)]), [Wake(w), ReadFinal(w)]).callers
         == s.callers[c := Gone(f)][w := Returned(f, AuthExpired)]
  {
    WaiterKnows(s, w, f, seen);
    LeaderStands(s, c);
    hide Run, Invariant;
    DroppedLeaderCancels(s, c, f);
    NotifiedWaiterReturns(Run(s, [Drop(c), GuardNotifies(c)]), w, f, seen);
  }

  /** A follower dropped at one of its awaits changes nothing for anybody else. */
  lemma DroppedFollowerIsGone(s: System, c: nat)
    requires c in s.callers && s.callers[c].flight < |s.flights|
    requires s.callers[c].Reading? || s.callers[c].Waiting? || s.callers[c].Woken?
    ensures Step(s, Drop(c)) == Move(s, c, Gone(s.callers[c].flight))
  {
  }
}
