/**
 When a rejected access token leads to a second refresh, over every run of `Sessions`.
 */
module SecondFlights {
  import opened Common
  import opened Tokens
  import C = Credentials
  import R = Refresh
  import opened Sessions

  // ----- a second flight for one token -----------------------------------------------------

  lemma {:induction false} ReachableGoneHoldsGate(stored: Option<Pair>, actions: seq<Action>)
    ensures R.GoneHoldsGate(Run(Initial(stored), actions).flights)
  {
    hide Step, Invariant, R.Step, R.GoneHoldsGate;
    if |actions| == 0 {
      assert R.GoneHoldsGate(R.INITIAL) by { NoOneIsGone(); }
    } else {
      var n := |actions| - 1;
      var before := Run(Initial(stored), actions[..n]);
      ReachableGoneHoldsGate(stored, actions[..n]);
      ReachableInvariant(stored, actions[..n]);
      InvariantParts(before);
      var inner := FlightMoves(before, actions[n]);
      if inner.Some? {
        R.StepKeepsGoneHoldsGate(before.flights, inner.value);
      }
    }
  }

  lemma NoOneIsGone()
    ensures R.GoneHoldsGate(R.INITIAL)
  {
  }

  /** Every flight so far was cleared by its leader's return, or cancelled. */
  predicate AllOver(s: System) {
    forall f: nat :: f < |s.flights.flights| ==> R.Over(s.flights, f)
  }

  /** A call of a rejected request opens a flight exactly when all flights before it are over. */
  lemma OpensExactly(stored: Option<Pair>, actions: seq<Action>, r: nat)
    requires var s := Run(Initial(stored), actions); r in s.requests && s.requests[r].Calling?
    ensures var s := Run(Initial(stored), actions);
      var more := if AllOver(s) then [Some(s.requests[r].token)] else [];
      Step(s, CallRefresh(r)).openedFor == s.openedFor + more
  {
    hide Run, C.Step, R.Step, C.Invariant, R.Invariant, R.GoneHoldsGate, R.Over, R.Stuck;
    var s := Run(Initial(stored), actions);
    ReachableInvariant(stored, actions);
    ReachableGoneHoldsGate(stored, actions);
    NotInside(s, r);
    R.IdleExactly(s.flights);
    R.StartsRefreshExactly(s.flights, r);
    R.EnterOpensOrJoins(s.flights, r);
  }

  function Count(openedFor: seq<Option<Token>>, token: Token): nat {
    if |openedFor| == 0 then 0
    else
      Count(openedFor[..|openedFor| - 1], token)
      + (if openedFor[|openedFor| - 1] == Some(token) then 1 else 0)
  }

  lemma CountAppend(openedFor: seq<Option<Token>>, o: Option<Token>, token: Token)
    ensures Count(openedFor + [o], token)
         == Count(openedFor, token) + (if o == Some(token) then 1 else 0)
  {
    assert (openedFor + [o])[..|openedFor|] == openedFor;
  }

  /** A call for a token that already had its flight, when all flights are over. */
  predicate CallsAgain(s: System, a: Action, token: Token) {
    && a.CallRefresh? && a.request in s.requests && s.requests[a.request] == Calling(token)
    && Count(s.openedFor, token) >= 1 && AllOver(s)
  }

  predicate CalledAgain(stored: Option<Pair>, actions: seq<Action>, token: Token) {
    |actions| > 0 &&
    var n := |actions| - 1;
    || CalledAgain(stored, actions[..n], token)
    || CallsAgain(Run(Initial(stored), actions[..n]), actions[n], token)
  }

  lemma OpenedStep(s: System, a: Action)
    ensures var s' := Step(s, a);
      || s'.openedFor == s.openedFor
      || (a.BeginRefresh? && s'.openedFor == s.openedFor + [None])
      || (a.CallRefresh? && a.request in s.requests && s.requests[a.request].Calling?
          && s'.openedFor == s.openedFor + [Some(s.requests[a.request].token)])
  {
    hide C.Step, R.Step;
  }

  /**
   "One refresh per access token" is false, and this is exactly when: over every run, two
   flights were opened for one rejected token exactly when some request, having compared
   while that token was active (`SessionTokens.RefreshCalledForActiveToken`), entered after the flight
   opened for it before, and every other, had been cleared or cancelled.
   */
  lemma {:induction false} SecondFlightExactly(stored: Option<Pair>, actions: seq<Action>, token: Token)
    ensures Count(Run(Initial(stored), actions).openedFor, token) >= 2
       <==> CalledAgain(stored, actions, token)
  {
    hide Step, AllOver;
    if |actions| > 0 {
      var n, a := |actions| - 1, actions[|actions| - 1];
      var s := Run(Initial(stored), actions[..n]);
      SecondFlightExactly(stored, actions[..n], token);
      OpenedStep(s, a);
      if a.CallRefresh? && a.request in s.requests && s.requests[a.request].Calling? {
        OpensExactly(stored, actions[..n], a.request);
        CountAppend(s.openedFor, Some(s.requests[a.request].token), token);
      }
      CountAppend(s.openedFor, None, token);
    }
  }

  // ----- such a run ------------------------------------------------------------------------

  lemma {:induction false} RunConcat(s: System, a: seq<Action>, b: seq<Action>)
    ensures Run(s, a + b) == Run(Run(s, a), b)
    decreases |b|
  {
    hide Step;
    if |b| == 0 {
      assert a + b == a;
    } else {
      RunConcat(s, a, b[..|b| - 1]);
      assert (a + b)[..|a + b| - 1] == a + b[..|b| - 1];
    }
  }

  /** The pair is loaded and active, and nobody is in the gate. */
  predicate Settled(s: System, pair: Pair) {
    s.cred.gate == None && s.cred.loaded && s.cred.active == Some(pair)
  }

  /** The host loads the stored credentials. */
  function HostLoads(): seq<Action> {
    var t := C.Alone(0);
    [] + [Credential(C.Action.Begin(t, C.LoadQueued(C.ForCaller)))] + [Credential(C.TakeGate(t))]
    + [Credential(C.StoreAnswers(t, true, true))] + [Credential(C.WriteActive(t))]
  }

  lemma HostLoadsRuns(pair: Pair)
    ensures var s := Run(Initial(Some(pair)), HostLoads());
            && Settled(s, pair) && s.requests == map[] && s.flights == R.INITIAL && s.openedFor == []
            && s.cred.tasks.Keys == {C.Alone(0)}
  {
    hide Run;
    var t, start := C.Alone(0), Initial(Some(pair));
    var r0: seq<Action> := [];
    assert Run(start, r0) == start by { NothingRuns(start); }
    var a1 := Credential(C.Action.Begin(t, C.LoadQueued(C.ForCaller)));
    var a2, a3, a4 := Credential(C.TakeGate(t)), Credential(C.StoreAnswers(t, true, true)), Credential(C.WriteActive(t));
    RunAppend(start, r0, a1);
    var s1 := Step(start, a1);
    assert s1.cred.tasks == map[t := C.LoadQueued(C.ForCaller)];
    RunAppend(start, r0 + [a1], a2);
    var s2 := Step(s1, a2);
    assert s2.cred.tasks == map[t := C.Loading(C.ForCaller)] && s2.cred.gate == Some(t);
    RunAppend(start, r0 + [a1] + [a2], a3);
    var s3 := Step(s2, a3);
    assert s3.cred.tasks == map[t := C.LoadStoring(C.ForCaller, Some(pair))] && s3.cred.gate == Some(t);
    RunAppend(start, r0 + [a1] + [a2] + [a3], a4);
  }

  lemma NothingRuns(s: System)
    ensures Run(s, []) == s
  {
  }

  /** A request loads the active pair and is sent with it. */
  function IsSent(r: nat): seq<Action> {
    [] + [Begin(r, true)] + [Credential(C.TakeGate(C.LoadOf(r, 0)))] + [LoadEnds(r)] + [Send(r)]
  }

  /** It is rejected, and finds its token still active. */
  function IsRejected(r: nat): seq<Action> {
    [] + [Answer(r, true)] + [Credential(C.TakeGate(C.LoadOf(r, 1)))] + [LoadEnds(r)]
  }

  /** Only the request and its own loads have moved. */
  ghost predicate OnlyRequestMoved(s: System, s': System, r: nat) {
    && s'.flights == s.flights && s'.openedFor == s.openedFor
    && s'.cred == s.cred.(tasks := s'.cred.tasks)
    && (forall t: C.TaskId :: !(t.LoadOf? && t.request == r) ==>
          (t in s'.cred.tasks <==> t in s.cred.tasks)
          && (t in s.cred.tasks ==> s'.cred.tasks[t] == s.cred.tasks[t]))
    && (forall q :: q != r ==> (q in s'.requests <==> q in s.requests)
                               && (q in s.requests ==> s'.requests[q] == s.requests[q]))
  }

  lemma LoadsAtOnce(s: System, pair: Pair, t: C.TaskId)
    requires Settled(s, pair) && t in s.cred.tasks && s.cred.tasks[t] == C.LoadQueued(C.ForCaller)
    ensures Step(s, Credential(C.TakeGate(t)))
         == s.(cred := s.cred.(tasks := s.cred.tasks[t := C.Ended(C.Active(pair))]))
  {
  }

  lemma Begins(s: System, r: nat)
    requires r !in s.requests && C.LoadOf(r, 0) !in s.cred.tasks
    ensures Step(s, Begin(r, true))
         == Move(s, r, Loading(true)).(cred := C.Move(s.cred, C.LoadOf(r, 0), C.LoadQueued(C.ForCaller)))
  {
  }

  lemma FirstLoadEnds(s: System, r: nat, pair: Pair)
    requires r in s.requests && s.requests[r] == Loading(true)
    requires LoadOutcome(s, r, 0) == Some(C.Active(pair))
    ensures Step(s, LoadEnds(r)) == Move(s, r, Loaded(pair.access, true))
  {
  }

  lemma FirstIsSent(s: System, r: nat, token: Token)
    requires r in s.requests && s.requests[r] == Loaded(token, true)
    ensures Step(s, Send(r))
         == Move(s, r, Sending(token, true)).(sends := s.sends + [Sent(r, token, 0)])
  {
  }

  lemma IsUnauthorized(s: System, r: nat, token: Token)
    requires r in s.requests && s.requests[r] == Sending(token, true)
    requires C.LoadOf(r, 1) !in s.cred.tasks
    ensures Step(s, Answer(r, true))
         == Move(s, r, Comparing(token)).(cred := C.Move(s.cred, C.LoadOf(r, 1), C.LoadQueued(C.ForCaller)))
  {
  }

  lemma ComparesEqual(s: System, r: nat, pair: Pair)
    requires r in s.requests && s.requests[r] == Comparing(pair.access)
    requires LoadOutcome(s, r, 1) == Some(C.Active(pair))
    ensures Step(s, LoadEnds(r)) == Move(s, r, Calling(pair.access))
  {
  }

  lemma IsSentRuns(s: System, r: nat, pair: Pair)
    requires Settled(s, pair) && r !in s.requests && C.LoadOf(r, 0) !in s.cred.tasks
    ensures var s' := Run(s, IsSent(r));
            && OnlyRequestMoved(s, s', r) && Settled(s', pair)
            && s'.cred.tasks.Keys == s.cred.tasks.Keys + {C.LoadOf(r, 0)}
            && r in s'.requests && s'.requests[r] == Sending(pair.access, true)
  {
    hide Run, Step;
    var t := C.LoadOf(r, 0);
    var r0: seq<Action> := [];
    NothingRuns(s);
    RunAppend(s, r0, Begin(r, true));
    Begins(s, r);
    var r1, s1 := r0 + [Begin(r, true)], Step(s, Begin(r, true));
    RunAppend(s, r1, Credential(C.TakeGate(t)));
    LoadsAtOnce(s1, pair, t);
    var r2, s2 := r1 + [Credential(C.TakeGate(t))], Step(s1, Credential(C.TakeGate(t)));
    RunAppend(s, r2, LoadEnds(r));
    FirstLoadEnds(s2, r, pair);
    var r3, s3 := r2 + [LoadEnds(r)], Step(s2, LoadEnds(r));
    RunAppend(s, r3, Send(r));
    FirstIsSent(s3, r, pair.access);
  }

  lemma IsRejectedRuns(s: System, r: nat, pair: Pair)
    requires Settled(s, pair) && C.LoadOf(r, 1) !in s.cred.tasks
    requires r in s.requests && s.requests[r] == Sending(pair.access, true)
    ensures var s' := Run(s, IsRejected(r));
            && OnlyRequestMoved(s, s', r) && Settled(s', pair)
            && r in s'.requests && s'.requests[r] == Calling(pair.access)
  {
    hide Run, Step;
    var t := C.LoadOf(r, 1);
    var r0: seq<Action> := [];
    NothingRuns(s);
    RunAppend(s, r0, Answer(r, true));
    IsUnauthorized(s, r, pair.access);
    var r1, s1 := r0 + [Answer(r, true)], Step(s, Answer(r, true));
    RunAppend(s, r1, Credential(C.TakeGate(t)));
    LoadsAtOnce(s1, pair, t);
    var r2, s2 := r1 + [Credential(C.TakeGate(t))], Step(s1, Credential(C.TakeGate(t)));
    RunAppend(s, r2, LoadEnds(r));
    ComparesEqual(s2, r, pair);
  }

  /** Both together. */
  lemma RejectionRuns(s: System, r: nat, pair: Pair)
    requires Settled(s, pair) && r !in s.requests
    requires forall t :: t in s.cred.tasks && t.LoadOf? ==> t.request != r
    ensures var s' := Run(s, IsSent(r) + IsRejected(r));
            && OnlyRequestMoved(s, s', r) && Settled(s', pair)
            && r in s'.requests && s'.requests[r] == Calling(pair.access)
  {
    hide Run, Step, IsSent, IsRejected;
    IsSentRuns(s, r, pair);
    RunConcat(s, IsSent(r), IsRejected(r));
    IsRejectedRuns(Run(s, IsSent(r)), r, pair);
  }

  /** A leader's refresh replaces the pair: its credential task. */
  function Rotates(f: nat, next: Pair): seq<Action> {
    var t := C.OfFlight(f);
    [] + [Credential(C.TakeGate(t))] + [Credential(C.ServerAnswers(t, C.Rotated(next)))]
    + [Credential(C.TakeGate(t))] + [Credential(C.StoreAnswers(t, true, true))]
    + [Credential(C.WriteActive(t))]
  }

  /** A credential step that neither asks nor writes. */
  lemma CredentialIs(s: System, a: C.Action)
    requires IsOwn(a)
    ensures var s' := Step(s, Credential(a));
      && s'.cred == C.Step(s.cred, a) && s'.requests == s.requests && s'.flights == s.flights
      && s'.openedFor == s.openedFor
  {
    hide C.Step;
  }

  lemma RotatesRuns(s: System, f: nat, pair: Pair, next: Pair)
    requires Settled(s, pair) && C.OfFlight(f) in s.cred.tasks
    requires s.cred.tasks[C.OfFlight(f)] == C.LoadQueued(C.ForRefresh)
    ensures var s' := Run(s, Rotates(f, next));
            && Settled(s', next) && s'.requests == s.requests && s'.flights == s.flights
            && s'.openedFor == s.openedFor
            && s'.cred.tasks == s.cred.tasks[C.OfFlight(f) := C.Ended(C.Active(next))]
  {
    hide Run, Step, C.Step;
    var t := C.OfFlight(f);
    var r0: seq<Action> := [];
    NothingRuns(s);
    var take, reply := C.TakeGate(t), C.ServerAnswers(t, C.Rotated(next));
    var save, write := C.StoreAnswers(t, true, true), C.WriteActive(t);
    TaskAsks(s.cred, t, pair, next);
    RunAppend(s, r0, Credential(take));
    CredentialIs(s, take);
    var r1, s1 := r0 + [Credential(take)], Step(s, Credential(take));
    RunAppend(s, r1, Credential(reply));
    CredentialIs(s1, reply);
    var r2, s2 := r1 + [Credential(reply)], Step(s1, Credential(reply));
    TaskCommits(s2.cred, t, pair, next);
    RunAppend(s, r2, Credential(take));
    CredentialIs(s2, take);
    var r3, s3 := r2 + [Credential(take)], Step(s2, Credential(take));
    RunAppend(s, r3, Credential(save));
    CredentialIs(s3, save);
    var r4, s4 := r3 + [Credential(save)], Step(s3, Credential(save));
    RunAppend(s, r4, Credential(write));
    CredentialIs(s4, write);
  }

  lemma TaskAsks(cred: C.System, t: C.TaskId, pair: Pair, next: Pair)
    requires cred.gate == None && cred.loaded && cred.active == Some(pair)
    requires t in cred.tasks && cred.tasks[t] == C.LoadQueued(C.ForRefresh)
    ensures C.Step(C.Step(cred, C.TakeGate(t)), C.ServerAnswers(t, C.Rotated(next)))
         == C.Move(cred, t, C.ReplaceQueued(pair, next))
  {
    assert C.Step(cred, C.TakeGate(t)) == C.Move(cred, t, C.Sent(pair));
  }

  lemma TaskCommits(cred: C.System, t: C.TaskId, pair: Pair, next: Pair)
    requires cred.gate == None && cred.loaded && cred.active == Some(pair)
    requires t in cred.tasks && cred.tasks[t] == C.ReplaceQueued(pair, next)
    ensures var after := C.Step(C.Step(C.Step(cred, C.TakeGate(t)), C.StoreAnswers(t, true, true)),
                                C.WriteActive(t));
      && after.gate == None && after.loaded && after.active == Some(next)
      && after.tasks == cred.tasks[t := C.Ended(C.Active(next))]
  {
    var held := C.Step(cred, C.TakeGate(t));
    assert held == C.Hold(cred, t, C.ReplaceSaving(pair, next));
    var saved := C.Step(held, C.StoreAnswers(t, true, true));
    assert saved.tasks == cred.tasks[t := C.ReplaceStoring(pair, next)] && saved.gate == Some(t);
  }

  /** The leader stores, notifies, marks itself finished and clears the gate. */
  function Finishes(): seq<Action> {
    [] + [LeaderEnds(0)] + [Flight(R.StoreResult(0))] + [Flight(R.NotifyWaiters(0))]
    + [Flight(R.MarkFinished(0))] + [Flight(R.ClearGate(0))]
  }

  lemma FlightIs(s: System, move: R.Action)
    requires IsInside(move)
    ensures Step(s, Flight(move)) == s.(flights := R.Step(s.flights, move))
  {
  }

  lemma LeaderEndsWith(s: System, next: Pair)
    requires s.flights == R.Alone(R.Leading(0), None, 0)
    requires C.OfFlight(0) in s.cred.tasks && s.cred.tasks[C.OfFlight(0)] == C.Ended(C.Active(next))
    ensures Step(s, LeaderEnds(0)) == s.(flights := R.Alone(R.Storing(0, R.Refreshed(next)), None, 0))
  {
    hide R.Step;
    R.AloneEnds(R.Refreshed(next));
  }

  lemma FinishesRuns(s: System, next: Pair)
    requires s.flights == R.Alone(R.Leading(0), None, 0)
    requires C.OfFlight(0) in s.cred.tasks && s.cred.tasks[C.OfFlight(0)] == C.Ended(C.Active(next))
    ensures Run(s, Finishes())
         == s.(flights := R.Alone(R.Returned(0, R.Refreshed(next)), Some(R.Refreshed(next)), 1)
                          .(gate := None))
  {
    hide Run, Step, R.Step, R.Alone;
    var o := R.Refreshed(next);
    var r0: seq<Action> := [];
    NothingRuns(s);
    RunAppend(s, r0, LeaderEnds(0));
    LeaderEndsWith(s, next);
    var r1, s1 := r0 + [LeaderEnds(0)], s.(flights := R.Alone(R.Storing(0, o), None, 0));
    RunAppend(s, r1, Flight(R.StoreResult(0)));
    FlightIs(s1, R.StoreResult(0));
    R.AloneStores(o);
    var r2, s2 := r1 + [Flight(R.StoreResult(0))], s.(flights := R.Alone(R.Notifying(0, o), Some(o), 0));
    RunAppend(s, r2, Flight(R.NotifyWaiters(0)));
    FlightIs(s2, R.NotifyWaiters(0));
    R.AloneNotifies(o);
    var r3, s3 := r2 + [Flight(R.NotifyWaiters(0))], s.(flights := R.Alone(R.Finishing(0, o), Some(o), 1));
    RunAppend(s, r3, Flight(R.MarkFinished(0)));
    FlightIs(s3, R.MarkFinished(0));
    R.AloneFinishes(o);
    var r4, s4 := r3 + [Flight(R.MarkFinished(0))], s.(flights := R.Alone(R.Clearing(0, o), Some(o), 1));
    RunAppend(s, r4, Flight(R.ClearGate(0)));
    FlightIs(s4, R.ClearGate(0));
    R.AloneClears(o);
  }

  lemma FirstCallOpens(s: System, r: nat)
    requires s.flights == R.INITIAL && r in s.requests && s.requests[r].Calling?
    requires C.OfFlight(0) !in s.cred.tasks
    ensures var s' := Step(s, CallRefresh(r));
      && (r == 0 ==> s'.flights == R.Alone(R.Leading(0), None, 0))
      && s'.openedFor == s.openedFor + [Some(s.requests[r].token)]
      && s'.requests == s.requests[r := Refreshing(s.requests[r].token)]
      && s'.cred == C.Move(s.cred, C.OfFlight(0), C.LoadQueued(C.ForRefresh))
  {
  }

  lemma SecondCallOpens(s: System, r: nat)
    requires s.flights.gate == None && r !in s.flights.callers && |s.flights.flights| == 1
    requires r in s.requests && s.requests[r].Calling? && C.OfFlight(1) !in s.cred.tasks
    ensures var s' := Step(s, CallRefresh(r));
      && s'.openedFor == s.openedFor + [Some(s.requests[r].token)]
      && s'.cred == C.Move(s.cred, C.OfFlight(1), C.LoadQueued(C.ForRefresh))
  {
  }

  lemma AsksAtOnce(s: System, f: nat, pair: Pair)
    requires Settled(s, pair) && C.OfFlight(f) in s.cred.tasks
    requires s.cred.tasks[C.OfFlight(f)] == C.LoadQueued(C.ForRefresh)
    ensures Step(s, Credential(C.TakeGate(C.OfFlight(f)))).openedFor == s.openedFor
    ensures Step(s, Credential(C.TakeGate(C.OfFlight(f)))).asks == s.asks + [Asked(f, pair)]
  {
  }

  /** Two requests rejected with one token, the second calling after the first's flight. */
  function TwoFlights(next: Pair): seq<Action> {
    HostLoads() + (IsSent(0) + IsRejected(0)) + (IsSent(1) + IsRejected(1)) + [CallRefresh(0)] + Rotates(0, next) + Finishes()
    + [CallRefresh(1)] + [Credential(C.TakeGate(C.OfFlight(1)))]
  }

  /**
   The run: both requests compare while their token is active, the first one's refresh
   rotates the pair and its flight is cleared, and then the second opens another flight,
   which sends the new pair to the server.
   */
  lemma SameTokenRefreshedTwice(pair: Pair, next: Pair)
    ensures var s := Run(Initial(Some(pair)), TwoFlights(next));
            && s.openedFor == [Some(pair.access), Some(pair.access)]
            && |s.asks| > 0 && s.asks[|s.asks| - 1] == Asked(1, next)
  {
    hide Run, Step, HostLoads, IsSent, IsRejected, Rotates, Finishes;
    var start := Initial(Some(pair));
    HostLoadsRuns(pair);
    var s1 := Run(start, HostLoads());
    RunConcat(start, HostLoads(), IsSent(0) + IsRejected(0));
    RejectionRuns(s1, 0, pair);
    var p2 := HostLoads() + (IsSent(0) + IsRejected(0));
    var s2 := Run(start, p2);
    RunConcat(start, p2, IsSent(1) + IsRejected(1));
    RejectionRuns(s2, 1, pair);
    var p3 := p2 + (IsSent(1) + IsRejected(1));
    var s3 := Run(start, p3);
    RunAppend(start, p3, CallRefresh(0));
    FirstCallOpens(s3, 0);
    var p4 := p3 + [CallRefresh(0)];
    var s4 := Run(start, p4);
    RunConcat(start, p4, Rotates(0, next));
    RotatesRuns(s4, 0, pair, next);
    var p5 := p4 + Rotates(0, next);
    var s5 := Run(start, p5);
    RunConcat(start, p5, Finishes());
    FinishesRuns(s5, next);
    var p6 := p5 + Finishes();
    var s6 := Run(start, p6);
    RunAppend(start, p6, CallRefresh(1));
    SecondCallOpens(s6, 1);
    var p7 := p6 + [CallRefresh(1)];
    var s7 := Run(start, p7);
    RunAppend(start, p7, Credential(C.TakeGate(C.OfFlight(1))));
    AsksAtOnce(s7, 1, next);
  }
}
