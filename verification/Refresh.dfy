/**
 The refresh singleflight (`refresh_access` and `RefreshLeaderGuard`,
 crates/zephyrvox-http/src/client/refresh.rs).

 Any number of callers run the function concurrently and may be dropped at any of its
 await points. A step is the work between two points at which another task may run;
 on a multi-threaded runtime that splits even the leader's store, notify and mark.
 What happens inside `refresh_once` is the outcome it ends with.
 */
module Refresh {
  import opened Common
  import opened Tokens

  datatype Outcome = Refreshed(pair: Pair) | AuthExpired | OtherError(code: nat)

  /** `notified` counts the calls of `notify_waiters`. */
  datatype Flight = Flight(leader: nat, result: Option<Outcome>, notified: nat, cancelled: bool)

  /** Where a caller stands; a caller that has not entered has no position. */
  datatype Position =
    // the leader
    | Leading(flight: nat)
    | Storing(flight: nat, outcome: Outcome)
    | Notifying(flight: nat, outcome: Outcome)
    | Finishing(flight: nat, outcome: Outcome)
    | Clearing(flight: nat, outcome: Outcome)
    /** The guard has set `cancelled` and has not notified yet. */
    | Cancelling(flight: nat)
    // a follower
    | Joining(flight: nat)
    | Checking(flight: nat, seen: nat)
    | Reading(flight: nat, seen: nat)
    | Waiting(flight: nat, seen: nat)
    | Woken(flight: nat)
    // done
    | Returned(flight: nat, outcome: Outcome)
    | Gone(flight: nat)

  datatype System = System(
    gate: Option<nat>,
    flights: seq<Flight>,
    callers: map<nat, Position>)

  const INITIAL := System(None, [], map[])

  datatype Action =
    | Enter(caller: nat)
    | RefreshOnceEnds(caller: nat, outcome: Outcome)
    | StoreResult(caller: nat)
    | NotifyWaiters(caller: nat)
    | MarkFinished(caller: nat)
    | ClearGate(caller: nat)
    | CreateNotified(caller: nat)
    | CheckCancelled(caller: nat)
    | ReadResult(caller: nat)
    | Wake(caller: nat)
    | ReadFinal(caller: nat)
    | Drop(caller: nat)
    | GuardNotifies(caller: nat)

  function Move(s: System, caller: nat, position: Position): System {
    s.(callers := s.callers[caller := position])
  }

  function SetFlight(s: System, f: nat, flight: Flight): System
    requires f < |s.flights|
  {
    s.(flights := s.flights[f := flight])
  }

  /** Whether the caller is a leader that has not finished or been dropped. */
  predicate IsLeading(position: Position) {
    position.Leading? || position.Storing? || position.Notifying?
    || position.Finishing? || position.Clearing?
  }

  /** One step; an action that is not enabled changes nothing. */
  function Step(s: System, a: Action): System {
    if a.Enter? then
      if a.caller in s.callers then s
      else if s.gate.Some? && s.gate.value < |s.flights| && !s.flights[s.gate.value].cancelled
      then Move(s, a.caller, Joining(s.gate.value))
      else
        var f := |s.flights|;
        Move(s, a.caller, Leading(f))
          .(gate := Some(f), flights := s.flights + [Flight(a.caller, None, 0, false)])
    else if a.caller !in s.callers || s.callers[a.caller].flight >= |s.flights| then s
    else
      var p := s.callers[a.caller];
      var flight := s.flights[p.flight];
      match (a, p)
      case (RefreshOnceEnds(c, outcome), Leading(f)) => Move(s, c, Storing(f, outcome))
      case (StoreResult(c), Storing(f, outcome)) =>
        SetFlight(Move(s, c, Notifying(f, outcome)), f, flight.(result := Some(outcome)))
      case (NotifyWaiters(c), Notifying(f, outcome)) =>
        SetFlight(Move(s, c, Finishing(f, outcome)), f, flight.(notified := flight.notified + 1))
      case (MarkFinished(c), Finishing(f, outcome)) => Move(s, c, Clearing(f, outcome))
      case (ClearGate(c), Clearing(f, outcome)) =>
        Move(s, c, Returned(f, outcome)).(gate := if s.gate == Some(f) then None else s.gate)
      case (CreateNotified(c), Joining(f)) => Move(s, c, Checking(f, flight.notified))
      case (CheckCancelled(c), Checking(f, seen)) =>
        Move(s, c, if flight.cancelled then Returned(f, AuthExpired) else Reading(f, seen))
      case (ReadResult(c), Reading(f, seen)) =>
        Move(s, c, if flight.result.Some? then Returned(f, flight.result.value)
                   else Waiting(f, seen))
      case (Wake(c), Waiting(f, seen)) =>
        if flight.notified > seen then Move(s, c, Woken(f)) else s
      case (ReadFinal(c), Woken(f)) =>
        Move(s, c, Returned(f, if flight.result.Some? then flight.result.value else AuthExpired))
      case (Drop(c), Leading(f)) =>
        SetFlight(Move(s, c, Cancelling(f)), f, flight.(cancelled := true))
      case (Drop(c), Storing(f, _)) =>
        SetFlight(Move(s, c, Cancelling(f)), f, flight.(cancelled := true))
      case (GuardNotifies(c), Cancelling(f)) =>
        SetFlight(Move(s, c, Gone(f)), f, flight.(notified := flight.notified + 1))
      case (Drop(c), Clearing(f, _)) => Move(s, c, Gone(f))
      case (Drop(c), Reading(f, _)) => Move(s, c, Gone(f))
      case (Drop(c), Waiting(f, _)) => Move(s, c, Gone(f))
      case (Drop(c), Woken(f)) => Move(s, c, Gone(f))
      case _ => s
  }

  function Run(s: System, actions: seq<Action>): System {
    if |actions| == 0 then s
    else Step(Run(s, actions[..|actions| - 1]), actions[|actions| - 1])
  }

  // ----- the invariant ---------------------------------------------------------------------

  /** What a flight looks like while its leader stands at `position`. */
  predicate LedFrom(flight: Flight, f: nat, position: Position) {
    match position
    case Leading(g) => f == g && flight.result == None && flight.notified == 0 && !flight.cancelled
    case Storing(g, _) => f == g && flight.result == None && flight.notified == 0 && !flight.cancelled
    case Notifying(g, outcome) =>
      f == g && flight.result == Some(outcome) && flight.notified == 0 && !flight.cancelled
    case Finishing(g, outcome) =>
      f == g && flight.result == Some(outcome) && flight.notified == 1 && !flight.cancelled
    case Clearing(g, outcome) =>
      f == g && flight.result == Some(outcome) && flight.notified == 1 && !flight.cancelled
    case Cancelling(g) => f == g && flight.result == None && flight.notified == 0 && flight.cancelled
    case Returned(g, outcome) =>
      f == g && flight.result == Some(outcome) && flight.notified == 1 && !flight.cancelled
    case Gone(g) => f == g && flight.notified == 1 && (flight.result == None <==> flight.cancelled)
    case _ => false
  }

  /** What a follower at `position` knows about its flight. */
  predicate FollowsTo(flight: Flight, position: Position) {
    match position
    case Joining(_) => true
    case Checking(_, seen) =>
      seen <= flight.notified && (seen > 0 ==> flight.result.Some? || flight.cancelled)
    case Reading(_, seen) => seen <= flight.notified && (seen > 0 ==> flight.result.Some?)
    case Waiting(_, seen) => seen == 0
    case Woken(_) => flight.result.Some? || flight.cancelled
    case Returned(_, outcome) =>
      flight.result == Some(outcome) || (flight.cancelled && outcome == AuthExpired)
    case Gone(_) => true
    case _ => false
  }

  ghost predicate CallersAgree(s: System) {
    forall c :: c in s.callers ==>
      var p := s.callers[c];
      p.flight < |s.flights|
      && (if s.flights[p.flight].leader == c then LedFrom(s.flights[p.flight], p.flight, p)
          else FollowsTo(s.flights[p.flight], p))
  }

  ghost predicate LeadersKnown(s: System) {
    forall f :: 0 <= f < |s.flights| ==>
      var c := s.flights[f].leader; c in s.callers && s.callers[c].flight == f
  }

  /** The gate holds the flight of every leader still at work, and nothing already returned. */
  ghost predicate GateHolds(s: System) {
    && (s.gate.Some? ==> s.gate.value < |s.flights|)
    && (forall c :: c in s.callers && IsLeading(s.callers[c]) ==> s.gate == Some(s.callers[c].flight))
    && (s.gate.Some? ==>
          var leader := s.flights[s.gate.value].leader;
          leader in s.callers && !s.callers[leader].Returned?)
  }

  ghost predicate Invariant(s: System) {
    CallersAgree(s) && LeadersKnown(s) && GateHolds(s)
  }

  lemma InitialInvariant()
    ensures Invariant(INITIAL)
  {
  }

  /** A flight only ever gains a result, a cancellation or notifications. */
  predicate Grows(before: Flight, after: Flight) {
    && after.leader == before.leader
    && after.notified >= before.notified
    && (before.result.Some? ==> after.result == before.result)
    && (before.cancelled ==> after.cancelled)
  }

  lemma FollowerKeepsKnowledge(before: Flight, after: Flight, p: Position)
    requires Grows(before, after) && FollowsTo(before, p)
    ensures FollowsTo(after, p)
  {
  }

  /** One caller moves on its flight; the gate may only lose the flight its leader gives up. */
  lemma MoveKeepsInvariant(s: System, c: nat, p: Position, flight: Flight, gate: Option<nat>)
    requires Invariant(s) && c in s.callers && p.flight == s.callers[c].flight
    requires Grows(s.flights[p.flight], flight)
    requires if flight.leader == c then LedFrom(flight, p.flight, p)
             else FollowsTo(flight, p) && flight == s.flights[p.flight]
    requires IsLeading(p) ==> IsLeading(s.callers[c])
    requires gate == s.gate || (gate == None && s.gate == Some(p.flight) && flight.leader == c)
    requires flight.leader == c && p.Returned? ==> gate != Some(p.flight)
    requires gate != s.gate ==> !IsLeading(p)
    ensures Invariant(System(gate, s.flights[p.flight := flight], s.callers[c := p]))
  {
    hide CallersAgree, LeadersKnown, GateHolds;
    MoveKeepsCallers(s, c, p, flight, gate);
    MoveKeepsLeaders(s, c, p, flight, gate);
    MoveKeepsGate(s, c, p, flight, gate);
  }

  lemma MoveKeepsCallers(s: System, c: nat, p: Position, flight: Flight, gate: Option<nat>)
    requires Invariant(s) && c in s.callers && p.flight == s.callers[c].flight
    requires Grows(s.flights[p.flight], flight)
    requires if flight.leader == c then LedFrom(flight, p.flight, p)
             else FollowsTo(flight, p) && flight == s.flights[p.flight]
    ensures CallersAgree(System(gate, s.flights[p.flight := flight], s.callers[c := p]))
  {
    hide LeadersKnown, GateHolds;
    var next := System(gate, s.flights[p.flight := flight], s.callers[c := p]);
    forall d | d in next.callers
      ensures var q := next.callers[d];
        && q.flight < |next.flights|
        && (if next.flights[q.flight].leader == d then LedFrom(next.flights[q.flight], q.flight, q)
            else FollowsTo(next.flights[q.flight], q))
    {
      if d != c {
        var q := s.callers[d];
        if q.flight == p.flight && s.flights[q.flight].leader != d {
          FollowerKeepsKnowledge(s.flights[q.flight], flight, q);
        }
      }
    }
  }

  lemma MoveKeepsLeaders(s: System, c: nat, p: Position, flight: Flight, gate: Option<nat>)
    requires Invariant(s) && c in s.callers && p.flight == s.callers[c].flight
    requires Grows(s.flights[p.flight], flight)
    ensures LeadersKnown(System(gate, s.flights[p.flight := flight], s.callers[c := p]))
  {
    hide CallersAgree, GateHolds;
    InRange(s, c);
  }

  lemma InRange(s: System, c: nat)
    requires Invariant(s) && c in s.callers
    ensures s.callers[c].flight < |s.flights|
  {
  }

  lemma MoveKeepsGate(s: System, c: nat, p: Position, flight: Flight, gate: Option<nat>)
    requires Invariant(s) && c in s.callers && p.flight == s.callers[c].flight
    requires flight.leader == s.flights[p.flight].leader
    requires IsLeading(p) ==> IsLeading(s.callers[c])
    requires gate == s.gate || (gate == None && s.gate == Some(p.flight) && flight.leader == c)
    requires flight.leader == c && p.Returned? ==> gate != Some(p.flight)
    requires gate != s.gate ==> !IsLeading(p)
    ensures GateHolds(System(gate, s.flights[p.flight := flight], s.callers[c := p]))
  {
  }

  /** A new caller follows the flight in the gate. */
  lemma JoinKeepsInvariant(s: System, c: nat)
    requires Invariant(s) && c !in s.callers && s.gate.Some?
    ensures Invariant(Move(s, c, Joining(s.gate.value)))
  {
  }

  /** A new caller leads when the gate is empty or its flight was cancelled. */
  lemma LeadKeepsInvariant(s: System, c: nat)
    requires Invariant(s) && c !in s.callers
    requires s.gate.Some? ==> s.flights[s.gate.value].cancelled
    ensures Invariant(System(Some(|s.flights|), s.flights + [Flight(c, None, 0, false)],
                             s.callers[c := Leading(|s.flights|)]))
  {
    assert forall d :: d in s.callers ==> !IsLeading(s.callers[d]);
  }

  /** What a step of an entered caller may do: exactly the shape of `MoveKeepsInvariant`. */
  ghost predicate MovesOne(s: System, t: System, c: nat)
    requires c in s.callers && s.callers[c].flight < |s.flights|
  {
    || t == s
    || (&& c in t.callers
        && var p := t.callers[c];
           && p.flight == s.callers[c].flight < |t.flights|
           && var flight, gate := t.flights[p.flight], t.gate;
              && t == System(gate, s.flights[p.flight := flight], s.callers[c := p])
              && Grows(s.flights[p.flight], flight)
              && (if flight.leader == c then LedFrom(flight, p.flight, p)
                  else FollowsTo(flight, p) && flight == s.flights[p.flight])
              && (IsLeading(p) ==> IsLeading(s.callers[c]))
              && (gate == s.gate
                  || (gate == None && s.gate == Some(p.flight) && flight.leader == c))
              && (flight.leader == c && p.Returned? ==> gate != Some(p.flight))
              && (gate != s.gate ==> !IsLeading(p)))
  }

  predicate IsFollower(p: Position) {
    p.Joining? || p.Checking? || p.Reading? || p.Waiting? || p.Woken?
  }

  /** What the invariant says of one caller. */
  predicate CallerAgrees(s: System, c: nat) {
    && c in s.callers && s.callers[c].flight < |s.flights|
    && (var p := s.callers[c];
        var flight := s.flights[p.flight];
        && (if flight.leader == c then LedFrom(flight, p.flight, p) else FollowsTo(flight, p))
        && (flight.notified > 0 ==> flight.result.Some? || flight.cancelled)
        && (IsLeading(p) ==> s.gate == Some(p.flight)))
  }

  lemma InvariantOfCaller(s: System, c: nat)
    requires Invariant(s) && c in s.callers
    ensures CallerAgrees(s, c)
  {
    var leader := s.flights[s.callers[c].flight].leader;
    assert leader in s.callers;
  }

  lemma FollowerMoves(s: System, a: Action)
    requires !a.Enter? && CallerAgrees(s, a.caller) && IsFollower(s.callers[a.caller])
    ensures MovesOne(s, Step(s, a), a.caller)
  {
    var f := s.callers[a.caller].flight;
    assert s.flights[f := s.flights[f]] == s.flights;
  }

  lemma LeaderMoves(s: System, a: Action)
    requires !a.Enter? && CallerAgrees(s, a.caller) && !IsFollower(s.callers[a.caller])
    ensures MovesOne(s, Step(s, a), a.caller)
  {
    var p, t := s.callers[a.caller], Step(s, a);
    assert t != s ==> s.flights[p.flight].leader == a.caller;
  }

  lemma StepMoves(s: System, a: Action)
    requires Invariant(s) && !a.Enter? && a.caller in s.callers
    ensures s.callers[a.caller].flight < |s.flights|
    ensures MovesOne(s, Step(s, a), a.caller)
  {
    hide Step, MovesOne, Invariant;
    InvariantOfCaller(s, a.caller);
    if IsFollower(s.callers[a.caller]) {
      FollowerMoves(s, a);
    } else {
      LeaderMoves(s, a);
    }
  }

  lemma StepKeepsInvariant(s: System, a: Action)
    requires Invariant(s)
    ensures Invariant(Step(s, a))
  {
    hide Invariant;
    if a.Enter? {
      if a.caller !in s.callers {
        GateInRange(s);
        if s.gate.Some? && !s.flights[s.gate.value].cancelled {
          JoinKeepsInvariant(s, a.caller);
        } else {
          LeadKeepsInvariant(s, a.caller);
        }
      }
    } else if a.caller in s.callers {
      StepMoves(s, a);
      if Step(s, a) != s {
        var p := Step(s, a).callers[a.caller];
        MoveKeepsInvariant(s, a.caller, p, Step(s, a).flights[p.flight], Step(s, a).gate);
      }
    }
  }

  lemma GateInRange(s: System)
    requires Invariant(s)
    ensures s.gate.Some? ==> s.gate.value < |s.flights|
  {
  }

  // ----- what callers may rely on ----------------------------------------------------------

  lemma {:induction false} ReachableInvariant(actions: seq<Action>)
    ensures Invariant(Run(INITIAL, actions))
  {
    hide Invariant, Step;
    if |actions| == 0 {
      InitialInvariant();
    } else {
      ReachableInvariant(actions[..|actions| - 1]);
      StepKeepsInvariant(Run(INITIAL, actions[..|actions| - 1]), actions[|actions| - 1]);
    }
  }

  /** At most one caller is ever inside `refresh_once`. */
  lemma OneRefreshAtATime(actions: seq<Action>, c: nat, d: nat)
    requires var s := Run(INITIAL, actions);
      c in s.callers && d in s.callers && s.callers[c].Leading? && s.callers[d].Leading?
    ensures c == d
  {
    ReachableInvariant(actions);
  }

  /** A finishing leader finds its own flight in the gate: it never clears another's. */
  lemma FinisherClearsOwnFlight(actions: seq<Action>, c: nat)
    requires var s := Run(INITIAL, actions); c in s.callers && s.callers[c].Clearing?
    ensures var s := Run(INITIAL, actions);
      s.gate == Some(s.callers[c].flight) && Step(s, ClearGate(c)).gate == None
  {
    ReachableInvariant(actions);
  }

  /** A waiter has a wakeup pending, or its flight's leader is still bound to send one. */
  lemma NoWaiterIsForgotten(actions: seq<Action>, c: nat)
    requires var s := Run(INITIAL, actions); c in s.callers && s.callers[c].Waiting?
    ensures var s := Run(INITIAL, actions);
      var f := s.callers[c].flight;
      && f < |s.flights|
      && (|| s.flights[f].notified > s.callers[c].seen
          || (&& s.flights[f].leader in s.callers
              && var p := s.callers[s.flights[f].leader];
                 p.Leading? || p.Storing? || p.Notifying? || p.Cancelling?))
  {
    ReachableInvariant(actions);
  }

  /**
   Whoever returns from a flight returns its leader's exact result; only followers of a
   cancelled leader, whose flight never gets a result, return `AuthExpired` instead.
   */
  lemma AnswersAreTheLeaders(actions: seq<Action>, c: nat)
    requires var s := Run(INITIAL, actions); c in s.callers && s.callers[c].Returned?
    ensures var s := Run(INITIAL, actions);
      var p := s.callers[c];
      && p.flight < |s.flights|
      && (|| s.flights[p.flight].result == Some(p.outcome)
          || (&& s.flights[p.flight].cancelled && s.flights[p.flight].result == None
              && p.outcome == AuthExpired && s.flights[p.flight].leader != c))
  {
    ReachableInvariant(actions);
    var s := Run(INITIAL, actions);
    assert s.flights[s.callers[c].flight].leader in s.callers;
  }

  /** The gate holds a flight whose leader is at work, or that has a result or is cancelled. */
  lemma GateIsLiveOrFinished(actions: seq<Action>)
    requires Run(INITIAL, actions).gate.Some?
    ensures var s := Run(INITIAL, actions);
      var f := s.gate.value;
      && f < |s.flights| && s.flights[f].leader in s.callers
      && var p := s.callers[s.flights[f].leader];
         || p.Leading? || p.Storing?
         || s.flights[f].result.Some? || s.flights[f].cancelled
  {
    ReachableInvariant(actions);
  }

  // ----- what one step does to the others --------------------------------------------------

  lemma StepFrame(s: System, a: Action)
    ensures forall c :: c in s.callers ==>
              c in Step(s, a).callers && (Step(s, a).callers[c] == s.callers[c] || a.caller == c)
    ensures forall c :: c in Step(s, a).callers ==> c in s.callers || (a.Enter? && a.caller == c)
    ensures |Step(s, a).flights| >= |s.flights|
    ensures !a.Enter? ==> |Step(s, a).flights| == |s.flights|
  {
  }

  /** A leader leaves `refresh_once` only by its return or by being dropped. */
  lemma LeadingStays(s: System, a: Action, c: nat)
    requires c in s.callers && s.callers[c].Leading?
    requires !(a.RefreshOnceEnds? && a.caller == c) && !(a.Drop? && a.caller == c)
    ensures c in Step(s, a).callers && Step(s, a).callers[c] == s.callers[c]
  {
  }

  /** Entering joins the flight in the gate or opens the next one. */
  lemma EnterOpensOrJoins(s: System, c: nat)
    requires Invariant(s) && c !in s.callers
    ensures var t := Step(s, Enter(c)); var f := |s.flights|;
      && c in t.callers
      && (|t.flights| == f || |t.flights| == f + 1)
      && (|t.flights| == f + 1 ==> t.flights[f].leader == c && t.callers[c] == Leading(f))
  {
    if s.gate.Some? {
      GateInRange(s);
    }
  }

  /** At most one caller is inside `refresh_once`, in every state of the invariant. */
  lemma OneLeader(s: System, c: nat, d: nat)
    requires Invariant(s) && c in s.callers && d in s.callers
    requires s.callers[c].Leading? && s.callers[d].Leading?
    ensures c == d
  {
    InvariantOfCaller(s, c);
    InvariantOfCaller(s, d);
  }

  // ----- the flight that is never cleared --------------------------------------------------

  /** A finished flight in the gate whose leader was dropped before clearing it. */
  predicate Abandoned(s: System, f: nat, outcome: Outcome) {
    && s.gate == Some(f) && f < |s.flights|
    && s.flights[f].result == Some(outcome) && !s.flights[f].cancelled
    && s.flights[f].leader in s.callers && s.callers[s.flights[f].leader] == Gone(f)
  }

  /** The gate holds a flight that was not cancelled and whose leader is gone. */
  predicate Stuck(s: System) {
    && s.gate.Some? && s.gate.value < |s.flights|
    && !s.flights[s.gate.value].cancelled
    && s.flights[s.gate.value].leader in s.callers
    && s.callers[s.flights[s.gate.value].leader].Gone?
  }

  /** Such a flight has its result: it is abandoned. */
  lemma StuckIsAbandoned(s: System)
    requires Invariant(s)
    ensures Stuck(s) <==> exists f, outcome :: Abandoned(s, f, outcome)
  {
    if Stuck(s) {
      StuckHasResult(s);
      assert Abandoned(s, s.gate.value, s.flights[s.gate.value].result.value);
    }
  }

  lemma StuckHasResult(s: System)
    requires Invariant(s) && Stuck(s)
    ensures s.flights[s.gate.value].result.Some?
    ensures s.callers[s.flights[s.gate.value].leader].flight == s.gate.value
  {
  }

  /**
   When a call of `refresh_access` starts a refresh of its own: exactly when no leader is
   at work and no abandoned flight holds the gate.
   */
  lemma StartsRefreshExactly(s: System, c: nat)
    requires Invariant(s) && c !in s.callers
    ensures |Step(s, Enter(c)).flights| == |s.flights| + 1
       <==> (forall d :: d in s.callers ==> !IsLeading(s.callers[d])) && !Stuck(s)
  {
    if s.gate.Some? {
      GateInRange(s);
      GateLeader(s);
    } else {
      assert forall d :: d in s.callers && IsLeading(s.callers[d]) ==> s.gate.Some?;
    }
  }

  /** Whoever leads the gate's flight is at work, has been cancelled, or is gone. */
  lemma GateLeader(s: System)
    requires Invariant(s) && s.gate.Some?
    ensures s.gate.value < |s.flights|
    ensures var flight := s.flights[s.gate.value];
      && flight.leader in s.callers
      && (flight.cancelled <==> !IsLeading(s.callers[flight.leader]) && !Stuck(s))
      && (forall d :: d in s.callers && IsLeading(s.callers[d]) ==> d == flight.leader)
  {
    var flight := s.flights[s.gate.value];
    assert CallerAgrees(s, flight.leader);
    forall d | d in s.callers && IsLeading(s.callers[d]) ensures d == flight.leader {
      InvariantOfCaller(s, d);
    }
  }

  /** A leader is being dropped while it waits to take the gate again. */
  predicate DropsAtRelock(s: System, a: Action) {
    a.Drop? && a.caller in s.callers && s.callers[a.caller].Clearing?
  }

  /** What makes a flight stuck, and that nothing unsticks it. */
  lemma StuckStep(s: System, a: Action)
    requires Invariant(s)
    ensures Stuck(Step(s, a)) <==> Stuck(s) || DropsAtRelock(s, a)
  {
    hide Invariant, Step;
    if Stuck(s) {
      StuckHasResult(s);
      AbandonedStep(s, a, s.gate.value, s.flights[s.gate.value].result.value);
    } else if a.Enter? {
      NotStuckByEntering(s, a);
    } else if a.caller in s.callers {
      InvariantOfCaller(s, a.caller);
      if Step(s, a) != s {
        StuckByMoving(s, a);
      } else if DropsAtRelock(s, a) {
        assert false by { ClearingCanBeDropped(s, a); }
      }
    } else {
      AbsentCannotMove(s, a);
    }
  }

  lemma AbsentCannotMove(s: System, a: Action)
    requires !a.Enter? && a.caller !in s.callers
    ensures Step(s, a) == s
  {
  }

  lemma ClearingCanBeDropped(s: System, a: Action)
    requires DropsAtRelock(s, a) && s.callers[a.caller].flight < |s.flights|
    ensures Step(s, a) != s
  {
    assert Step(s, a).callers[a.caller].Gone?;
  }

  lemma NotStuckByEntering(s: System, a: Action)
    requires Invariant(s) && !Stuck(s) && a.Enter?
    ensures !Stuck(Step(s, a))
  {
    if s.gate.Some? {
      GateInRange(s);
    }
  }

  lemma StuckByMoving(s: System, a: Action)
    requires Invariant(s) && !Stuck(s) && !a.Enter? && a.caller in s.callers && Step(s, a) != s
    ensures Stuck(Step(s, a)) <==> DropsAtRelock(s, a)
  {
    var c := a.caller;
    InvariantOfCaller(s, c);
    if s.gate.Some? {
      GateLeader(s);
    }
  }

  /** Whether some leader of the run was dropped while it waited to take the gate again. */
  predicate DroppedAtRelock(actions: seq<Action>) {
    |actions| > 0 &&
    var n := |actions| - 1;
    DroppedAtRelock(actions[..n]) || DropsAtRelock(Run(INITIAL, actions[..n]), actions[n])
  }

  /**
   The exact condition, over every run: refreshing has stopped for good exactly when
   some leader was dropped while it waited to take the gate again.
   */
  lemma {:induction false} StuckExactly(actions: seq<Action>)
    ensures Stuck(Run(INITIAL, actions)) <==> DroppedAtRelock(actions)
  {
    hide Stuck, Step, DropsAtRelock;
    if |actions| == 0 {
      assert !Stuck(INITIAL) by { InitialIsNotStuck(); }
    } else {
      var n := |actions| - 1;
      StuckExactly(actions[..n]);
      ReachableInvariant(actions[..n]);
      StuckStep(Run(INITIAL, actions[..n]), actions[n]);
    }
  }

  lemma InitialIsNotStuck()
    ensures !Stuck(INITIAL)
  {
  }

  lemma AbandonedStep(s: System, a: Action, f: nat, outcome: Outcome)
    requires Invariant(s) && Abandoned(s, f, outcome)
    ensures Abandoned(Step(s, a), f, outcome) && |Step(s, a).flights| == |s.flights|
  {
    if !a.Enter? && a.caller in s.callers {
      StepMoves(s, a);
    }
  }

  /** The callers that entered after `s` all hang on flight `f`. */
  ghost predicate NewcomersFollow(s: System, t: System, f: nat) {
    && (forall c :: c in s.callers ==> c in t.callers)
    && (forall c :: c in t.callers && c !in s.callers ==> t.callers[c].flight == f)
  }

  lemma NewcomersStep(s: System, t: System, a: Action, f: nat, outcome: Outcome)
    requires Invariant(t) && Abandoned(t, f, outcome) && NewcomersFollow(s, t, f)
    ensures NewcomersFollow(s, Step(t, a), f)
  {
    if !a.Enter? && a.caller in t.callers {
      StepMoves(t, a);
    }
  }

  lemma NewcomersAnswer(s: System, t: System, f: nat, outcome: Outcome)
    requires Invariant(t) && Abandoned(t, f, outcome) && NewcomersFollow(s, t, f)
    requires f < |s.flights| && s.flights[f].leader in s.callers
    requires s.flights[f].leader == t.flights[f].leader
    ensures forall c :: c in t.callers && c !in s.callers && t.callers[c].Returned? ==>
              t.callers[c] == Returned(f, outcome)
  {
  }

  /**
   "Every refresh requested after the last one ended reaches the server" is false: once
   a flight is abandoned, no run of the system ever refreshes again. The gate keeps
   the flight, no flight is ever added, and every later caller that returns gets the
   old outcome.
   */
  lemma {:induction false} AbandonedForever(s: System, actions: seq<Action>, f: nat, outcome: Outcome)
    requires Invariant(s) && Abandoned(s, f, outcome)
    ensures var t := Run(s, actions);
      && Invariant(t) && Abandoned(t, f, outcome) && NewcomersFollow(s, t, f)
      && |t.flights| == |s.flights| && t.flights[f].leader == s.flights[f].leader
    decreases |actions|
  {
    hide Step, Invariant, NewcomersFollow;
    if |actions| == 0 {
      NewcomersNone(s, f);
    } else {
      var before, a := Run(s, actions[..|actions| - 1]), actions[|actions| - 1];
      AbandonedForever(s, actions[..|actions| - 1], f, outcome);
      StepKeepsInvariant(before, a);
      AbandonedStep(before, a, f, outcome);
      NewcomersStep(s, before, a, f, outcome);
      LeaderFixed(before, a, f);
    }
  }

  lemma NewcomersNone(s: System, f: nat)
    ensures NewcomersFollow(s, s, f)
  {
  }

  lemma LeaderFixed(s: System, a: Action, f: nat)
    requires Invariant(s) && f < |s.flights|
    ensures f < |Step(s, a).flights| && Step(s, a).flights[f].leader == s.flights[f].leader
  {
    if !a.Enter? && a.caller in s.callers {
      StepMoves(s, a);
    }
  }

  /** So a caller that enters after the abandonment is answered with the old outcome. */
  lemma LateCallersGetOldOutcome(s: System, actions: seq<Action>, f: nat, outcome: Outcome, c: nat)
    requires Invariant(s) && Abandoned(s, f, outcome)
    requires c in Run(s, actions).callers && c !in s.callers && Run(s, actions).callers[c].Returned?
    ensures Run(s, actions).callers[c] == Returned(f, outcome)
  {
    hide Step;
    AbandonedForever(s, actions, f, outcome);
    NewcomersAnswer(s, Run(s, actions), f, outcome);
  }

  lemma RunAppend(s: System, actions: seq<Action>, a: Action)
    ensures Run(s, actions + [a]) == Step(Run(s, actions), a)
  {
    assert (actions + [a])[..|actions|] == actions;
  }

  /** It takes one caller, dropped while it waits to take the gate again. */
  lemma AbandonedIsReachable(outcome: Outcome)
    ensures Abandoned(Run(INITIAL, [Enter(0), RefreshOnceEnds(0, outcome), StoreResult(0),
                                    NotifyWaiters(0), MarkFinished(0), Drop(0)]), 0, outcome)
  {
    hide Step;
    SixSteps(INITIAL, Enter(0), RefreshOnceEnds(0, outcome), StoreResult(0),
             NotifyWaiters(0), MarkFinished(0), Drop(0));
    FlightIsStored(outcome);
    StoredIsAbandoned(outcome);
  }

  function Alone(p: Position, result: Option<Outcome>, notified: nat): System {
    System(Some(0), [Flight(0, result, notified, false)], map[0 := p])
  }

  lemma FlightIsStored(outcome: Outcome)
    ensures Step(Step(Step(INITIAL, Enter(0)), RefreshOnceEnds(0, outcome)), StoreResult(0))
         == Alone(Notifying(0, outcome), Some(outcome), 0)
  {
    assert Step(INITIAL, Enter(0)) == Alone(Leading(0), None, 0);
    assert Step(Alone(Leading(0), None, 0), RefreshOnceEnds(0, outcome))
        == Alone(Storing(0, outcome), None, 0);
  }

  lemma StoredIsAbandoned(outcome: Outcome)
    ensures var s := Alone(Notifying(0, outcome), Some(outcome), 0);
            Abandoned(Step(Step(Step(s, NotifyWaiters(0)), MarkFinished(0)), Drop(0)), 0, outcome)
  {
    hide Step;
    AloneNotifies(outcome);
    AloneFinishes(outcome);
    AloneIsDropped(outcome);
  }

  lemma AloneEnds(outcome: Outcome)
    ensures Step(Alone(Leading(0), None, 0), RefreshOnceEnds(0, outcome))
         == Alone(Storing(0, outcome), None, 0)
  {
  }

  lemma AloneStores(outcome: Outcome)
    ensures Step(Alone(Storing(0, outcome), None, 0), StoreResult(0))
         == Alone(Notifying(0, outcome), Some(outcome), 0)
  {
  }

  lemma AloneClears(outcome: Outcome)
    ensures Step(Alone(Clearing(0, outcome), Some(outcome), 1), ClearGate(0))
         == Alone(Returned(0, outcome), Some(outcome), 1).(gate := None)
  {
  }

  lemma AloneNotifies(outcome: Outcome)
    ensures Step(Alone(Notifying(0, outcome), Some(outcome), 0), NotifyWaiters(0))
         == Alone(Finishing(0, outcome), Some(outcome), 1)
  {
  }

  lemma AloneFinishes(outcome: Outcome)
    ensures Step(Alone(Finishing(0, outcome), Some(outcome), 1), MarkFinished(0))
         == Alone(Clearing(0, outcome), Some(outcome), 1)
  {
  }

  lemma AloneIsDropped(outcome: Outcome)
    ensures Step(Alone(Clearing(0, outcome), Some(outcome), 1), Drop(0))
         == Alone(Gone(0), Some(outcome), 1)
  {
  }

  lemma SixSteps(s: System, a: Action, b: Action, c: Action, d: Action, e: Action, f: Action)
    ensures Run(s, [a, b, c, d, e, f]) == Step(Step(Step(Step(Step(Step(s, a), b), c), d), e), f)
  {
    hide Step;
    RunAppend(s, [], a);
    RunAppend(s, [a], b);
    RunAppend(s, [a, b], c);
    RunAppend(s, [a, b, c], d);
    RunAppend(s, [a, b, c, d], e);
    RunAppend(s, [a, b, c, d, e], f);
    assert [] + [a] == [a] && [a] + [b] == [a, b] && [a, b] + [c] == [a, b, c];
    assert [a, b, c] + [d] == [a, b, c, d] && [a, b, c, d] + [e] == [a, b, c, d, e];
    assert [a, b, c, d, e] + [f] == [a, b, c, d, e, f];
  }

  // ----- when every flight is over ---------------------------------------------------------

  /** A leader that is gone without being cancelled left its flight in the gate. */
  ghost predicate GoneHoldsGate(s: System) {
    forall c :: c in s.callers && s.callers[c].flight < |s.flights| && s.callers[c].Gone?
                && s.flights[s.callers[c].flight].leader == c
                && !s.flights[s.callers[c].flight].cancelled ==>
      s.gate == Some(s.callers[c].flight)
  }

  lemma StepKeepsGoneHoldsGate(s: System, a: Action)
    requires Invariant(s) && GoneHoldsGate(s)
    ensures GoneHoldsGate(Step(s, a))
  {
    hide Step, Invariant;
    if a.Enter? {
      EnterKeepsGoneHoldsGate(s, a);
    } else if a.caller in s.callers {
      MoveKeepsGoneHoldsGate(s, a);
    } else {
      AbsentCannotMove(s, a);
    }
  }

  lemma EnterKeepsGoneHoldsGate(s: System, a: Action)
    requires Invariant(s) && GoneHoldsGate(s) && a.Enter?
    ensures GoneHoldsGate(Step(s, a))
  {
    if s.gate.Some? {
      GateInRange(s);
    }
  }

  lemma MoveKeepsGoneHoldsGate(s: System, a: Action)
    requires Invariant(s) && GoneHoldsGate(s) && !a.Enter? && a.caller in s.callers
    ensures GoneHoldsGate(Step(s, a))
  {
    InvariantOfCaller(s, a.caller);
    if s.gate.Some? {
      GateLeader(s);
    }
  }

  /** Its leader returned, or it was cancelled. */
  predicate Over(s: System, f: nat) {
    && f < |s.flights| && s.flights[f].leader in s.callers
    && (s.flights[f].cancelled || s.callers[s.flights[f].leader].Returned?)
  }

  /** No leader is at work and no abandoned flight holds the gate. */
  ghost predicate Idle(s: System) {
    (forall c :: c in s.callers ==> !IsLeading(s.callers[c])) && !Stuck(s)
  }

  /** A call opens a flight exactly when every flight before it is over. */
  lemma IdleExactly(s: System)
    requires Invariant(s) && GoneHoldsGate(s)
    ensures Idle(s) <==> forall f: nat :: f < |s.flights| ==> Over(s, f)
  {
    forall f: nat | f < |s.flights| && Idle(s) ensures Over(s, f) {
      LeaderOf(s, f);
      InvariantOfCaller(s, s.flights[f].leader);
    }
    if forall f: nat :: f < |s.flights| ==> Over(s, f) {
      forall c | c in s.callers ensures !IsLeading(s.callers[c]) {
        InvariantOfCaller(s, c);
        assert Over(s, s.callers[c].flight);
      }
      if Stuck(s) {
        assert Over(s, s.gate.value);
      }
    }
  }

  lemma LeaderOf(s: System, f: nat)
    requires Invariant(s) && f < |s.flights|
    ensures s.flights[f].leader in s.callers && s.callers[s.flights[f].leader].flight == f
  {
  }
}
