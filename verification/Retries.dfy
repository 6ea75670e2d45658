/**
 What becomes of a rejected request (`send_request` and `with_access_token`,
 crates/zephyrvox-http/src/client.rs): the steps of `Sessions` that one request makes
 between its answer and its retry, put together.
 */
module Retries {
  import opened Common
  import opened Tokens
  import C = Credentials
  import R = Refresh
  import opened Sessions

  /** The request's load can run through at once, and finds `pair`. */
  predicate LoadReady(s: System, r: nat, turn: nat, pair: Pair) {
    && C.LoadOf(r, turn) in s.cred.tasks
    && s.cred.tasks[C.LoadOf(r, turn)] == C.LoadQueued(C.ForCaller)
    && s.cred.gate == None && s.cred.loaded && s.cred.active == Some(pair)
  }

  /** Nothing but the request's position, its own loads and what it sent has changed. */
  predicate OnlyOwn(s: System, s': System, r: nat) {
    && s'.flights == s.flights && s'.openedFor == s.openedFor && s'.asks == s.asks
    && s'.cred == s.cred.(tasks := s'.cred.tasks)
    && r in s'.requests && s'.requests == s.requests[r := s'.requests[r]]
    && (forall t :: t in s.cred.tasks && (!t.LoadOf? || t.request != r) ==>
          t in s'.cred.tasks && s'.cred.tasks[t] == s.cred.tasks[t])
  }

  /** A request that moves on to its next load finds it queued. */
  lemma NextLoadIsReady(s: System, r: nat, p: Position, turn: nat, pair: Pair)
    requires Invariant(s) && r in s.requests && Rank(s.requests[r]) < turn
    requires s.cred.gate == None && s.cred.loaded && s.cred.active == Some(pair)
    ensures var next := BeginLoad(Move(s, r, p), r, turn);
      && LoadReady(next, r, turn, pair) && OnlyOwn(s, next, r)
      && r in next.requests && next.requests[r] == p && next.sends == s.sends
  {
    hide C.Invariant, R.Invariant;
    LoadNotBegun(s, r, turn);
  }

  lemma LoadRuns(s: System, r: nat, turn: nat, pair: Pair)
    requires LoadReady(s, r, turn, pair) && r in s.requests
    ensures var next := Step(s, Credential(C.TakeGate(C.LoadOf(r, turn))));
      && LoadOutcome(next, r, turn) == Some(C.Active(pair)) && OnlyOwn(s, next, r)
      && next.requests == s.requests && next.sends == s.sends
  {
  }

  lemma RejectionCompares(s: System, r: nat, token: Token)
    requires r in s.requests && s.requests[r] == Sending(token, true)
    ensures Step(s, Answer(r, true)) == BeginLoad(Move(s, r, Comparing(token)), r, 1)
  {
  }

  /** What the comparison comes to, the load having found `pair`. */
  lemma ComparisonDecides(s: System, r: nat, token: Token, pair: Pair)
    requires r in s.requests && s.requests[r] == Comparing(token)
    requires LoadOutcome(s, r, 1) == Some(C.Active(pair))
    ensures Step(s, LoadEnds(r))
         == if pair.access == token then Move(s, r, Calling(token))
            else BeginLoad(Move(s, r, Reloading), r, 2)
  {
    hide BeginLoad, LoadOutcome;
  }

  lemma ReloadHolds(s: System, r: nat, pair: Pair)
    requires r in s.requests && s.requests[r] == Reloading
    requires LoadOutcome(s, r, 2) == Some(C.Active(pair))
    ensures Step(s, LoadEnds(r)) == Move(s, r, Reloaded(pair.access))
  {
    hide LoadOutcome;
  }

  lemma RetryIsSent(s: System, r: nat, token: Token)
    requires r in s.requests && s.requests[r] == Reloaded(token)
    ensures Step(s, Send(r)) == Move(s, r, Resending(token)).(sends := s.sends + [Sent(r, token, 2)])
  {
  }

  /** Taking the token from the load that has ended, then sending the request with it. */
  lemma ReloadThenSend(s: System, r: nat, pair: Pair)
    requires r in s.requests && s.requests[r] == Reloading
    requires LoadReady(s, r, 2, pair)
    ensures var next := Run(s, [Credential(C.TakeGate(C.LoadOf(r, 2))), LoadEnds(r), Send(r)]);
      && OnlyOwn(s, next, r)
      && next.requests[r] == Resending(pair.access)
      && next.sends == s.sends + [Sent(r, pair.access, 2)]
  {
    hide Step, Run, LoadOutcome, LoadReady;
    var take := Credential(C.TakeGate(C.LoadOf(r, 2)));
    LoadRuns(s, r, 2, pair);
    var loaded := Step(s, take);
    RunThree(s, take, LoadEnds(r), Send(r));
    ReloadHolds(loaded, r, pair);
    RetryIsSent(Move(loaded, r, Reloaded(pair.access)), r, pair.access);
  }

  lemma RunThree(s: System, a: Action, b: Action, c: Action)
    ensures Run(s, [a, b, c]) == Step(Step(Step(s, a), b), c)
  {
    hide Step;
    RunAppend(s, [], a);
    RunAppend(s, [a], b);
    RunAppend(s, [a, b], c);
    assert [] + [a] == [a] && [a] + [b] == [a, b] && [a, b] + [c] == [a, b, c];
  }

  lemma OnlyOwnTwice(s: System, s': System, s'': System, r: nat)
    requires OnlyOwn(s, s', r) && OnlyOwn(s', s'', r)
    ensures OnlyOwn(s, s'', r)
  {
  }

  /**
   A 401 to a request that may be retried: with the rejected token still active the
   request goes on to refresh it; with another one active it is sent again with that.
   */
  lemma RejectedRequestGoesOn(s: System, r: nat, token: Token, pair: Pair)
    requires Invariant(s) && r in s.requests && s.requests[r] == Sending(token, true)
    requires s.cred.gate == None && s.cred.loaded && s.cred.active == Some(pair)
    ensures var next := Run(s, [Answer(r, true), Credential(C.TakeGate(C.LoadOf(r, 1))), LoadEnds(r)]);
      && Invariant(next) && OnlyOwn(s, next, r) && next.sends == s.sends
      && (if pair.access == token then next.requests[r] == Calling(token)
          else next.requests[r] == Reloading && LoadReady(next, r, 2, pair))
  {
    hide Step, Run, Invariant, BeginLoad, OnlyOwn, LoadReady, LoadOutcome;
    var take := Credential(C.TakeGate(C.LoadOf(r, 1)));
    RunThree(s, Answer(r, true), take, LoadEnds(r));
    NextLoadIsReady(s, r, Comparing(token), 1, pair);
    StepKeepsInvariant(s, Answer(r, true));
    var compared := Step(s, Answer(r, true));
    RejectionCompares(s, r, token);
    LoadRuns(compared, r, 1, pair);
    StepKeepsInvariant(compared, take);
    var loaded := Step(compared, take);
    OnlyOwnTwice(s, compared, loaded, r);
    StepKeepsInvariant(loaded, LoadEnds(r));
    var next := Step(loaded, LoadEnds(r));
    ComparisonDecides(loaded, r, token, pair);
    if pair.access == token {
      MovedIsOwn(loaded, r, Calling(token));
    } else {
      assert loaded.cred.gate == None && loaded.cred.loaded && loaded.cred.active == Some(pair) by {
        CredKept(s, loaded, r);
      }
      NextLoadIsReady(loaded, r, Reloading, 2, pair);
    }
    OnlyOwnTwice(s, loaded, next, r);
  }

  lemma CredKept(s: System, s': System, r: nat)
    requires OnlyOwn(s, s', r)
    ensures s'.cred.gate == s.cred.gate && s'.cred.loaded == s.cred.loaded
    ensures s'.cred.active == s.cred.active
  {
  }

  lemma MovedIsOwn(s: System, r: nat, p: Position)
    ensures OnlyOwn(s, Move(s, r, p), r)
  {
  }

  /** A request whose refresh succeeded is sent again, with the token active when it reloads. */
  lemma RefreshedRequestIsResent(s: System, r: nat, token: Token, pair: Pair)
    requires Invariant(s) && r in s.requests && s.requests[r] == Refreshing(token)
    requires r in s.flights.callers && s.flights.callers[r].Returned?
    requires s.flights.callers[r].outcome.Refreshed?
    requires s.cred.gate == None && s.cred.loaded && s.cred.active == Some(pair)
    ensures var reloading := Step(s, RefreshReturns(r));
      && reloading.requests[r] == Reloading && LoadReady(reloading, r, 2, pair)
      && var next := Run(reloading, [Credential(C.TakeGate(C.LoadOf(r, 2))), LoadEnds(r), Send(r)]);
      && OnlyOwn(s, next, r)
      && next.requests[r] == Resending(pair.access)
      && next.sends == s.sends + [Sent(r, pair.access, 2)]
  {
    hide C.Step, R.Step, Invariant, BeginLoad, OnlyOwn;
    NextLoadIsReady(s, r, Reloading, 2, pair);
    var reloading := Step(s, RefreshReturns(r));
    assert reloading == BeginLoad(Move(s, r, Reloading), r, 2);
    ReloadThenSend(reloading, r, pair);
    var take := Credential(C.TakeGate(C.LoadOf(r, 2)));
    OnlyOwnTwice(s, reloading, Run(reloading, [take, LoadEnds(r), Send(r)]), r);
  }

  /** A request whose refresh failed ends with that error; nothing more is loaded or sent. */
  lemma FailedRefreshEndsRequest(s: System, r: nat)
    requires r in s.requests && s.requests[r].Refreshing?
    requires r in s.flights.callers && s.flights.callers[r].Returned?
    ensures Step(s, RefreshReturns(r)) == s.(requests := s.requests[r := Done])
       <==> !s.flights.callers[r].outcome.Refreshed?
  {
    hide C.Step;
    if s.flights.callers[r].outcome.Refreshed? {
      assert Step(s, RefreshReturns(r)).requests[r] == Reloading;
    }
  }

  /**
   Any answer ends a request, except the 401 to a first sending that may be retried: a
   retry is not retried.
   */
  lemma AnswerEndsRequestExactly(s: System, r: nat, unauthorized: bool)
    requires r in s.requests && (s.requests[r].Sending? || s.requests[r].Resending?)
    ensures Step(s, Answer(r, unauthorized)) == s.(requests := s.requests[r := Done])
       <==> !(unauthorized && s.requests[r].Sending? && s.requests[r].retryOnce)
  {
    hide C.Step;
    if s.requests[r].Sending? && unauthorized && s.requests[r].retryOnce {
      assert Step(s, Answer(r, unauthorized)).requests[r].Comparing?;
    }
  }

  /** A request's first sending carries the token active when its load ran. */
  lemma RequestIsSent(s: System, r: nat, retryOnce: bool, pair: Pair)
    requires Invariant(s) && r !in s.requests
    requires s.cred.gate == None && s.cred.loaded && s.cred.active == Some(pair)
    ensures var begun := Step(s, Begin(r, retryOnce));
      && LoadReady(begun, r, 0, pair)
      && var next := Run(begun, [Credential(C.TakeGate(C.LoadOf(r, 0))), LoadEnds(r), Send(r)]);
      && OnlyOwn(s, next, r)
      && next.requests[r] == Sending(pair.access, retryOnce)
      && next.sends == s.sends + [Sent(r, pair.access, 0)]
  {
    hide Step, Run, LoadReady, LoadOutcome, Invariant;
    FirstLoadIsReady(s, r, retryOnce, pair);
    var begun := Step(s, Begin(r, retryOnce));
    var take := Credential(C.TakeGate(C.LoadOf(r, 0)));
    LoadRuns(begun, r, 0, pair);
    RunThree(begun, take, LoadEnds(r), Send(r));
    FirstTokenIsSent(Step(begun, take), r, retryOnce, pair);
  }

  lemma FirstLoadIsReady(s: System, r: nat, retryOnce: bool, pair: Pair)
    requires Invariant(s) && r !in s.requests
    requires s.cred.gate == None && s.cred.loaded && s.cred.active == Some(pair)
    ensures var begun := Step(s, Begin(r, retryOnce));
      && LoadReady(begun, r, 0, pair) && OnlyOwn(s, begun, r)
      && begun.requests[r] == Loading(retryOnce) && begun.sends == s.sends
  {
    hide C.Invariant, R.Invariant;
    LoadNotBegun(s, r, 0);
  }

  lemma FirstTokenIsSent(s: System, r: nat, retryOnce: bool, pair: Pair)
    requires r in s.requests && s.requests[r] == Loading(retryOnce)
    requires LoadOutcome(s, r, 0) == Some(C.Active(pair))
    ensures Step(Step(s, LoadEnds(r)), Send(r))
         == Move(s, r, Sending(pair.access, retryOnce)).(sends := s.sends + [Sent(r, pair.access, 0)])
  {
    hide LoadOutcome;
    assert Step(s, LoadEnds(r)) == Move(s, r, Loaded(pair.access, retryOnce));
  }

  /**
   A load that has come to anything but a pair ends the request, except that a comparison
   that finds no pair goes on to the retry's own load.
   */
  lemma LoadEndsRequestExactly(s: System, r: nat, turn: nat, outcome: C.Outcome)
    requires r in s.requests && LoadOutcome(s, r, turn) == Some(outcome)
    requires (s.requests[r].Loading? && turn == 0) || (s.requests[r].Comparing? && turn == 1)
          || (s.requests[r] == Reloading && turn == 2)
    ensures Step(s, LoadEnds(r)) == s.(requests := s.requests[r := Done])
       <==> !outcome.Active? && !(turn == 1 && outcome.Anonymous?)
  {
    hide C.Step, LoadOutcome;
    var next := Step(s, LoadEnds(r));
    if outcome.Active? || (turn == 1 && outcome.Anonymous?) {
      assert next.requests[r] != Done;
    }
  }

  /** A refresh the host asked for ends when its flight is over. */
  lemma HostRefreshEnds(s: System, r: nat)
    requires r in s.requests && s.requests[r] == Asking
    requires r in s.flights.callers && s.flights.callers[r].Returned?
    ensures Step(s, RefreshReturns(r)) == s.(requests := s.requests[r := Done])
  {
  }

  /** What a leader's task came to is what its flight is told: the pair, the expiry, or a failure. */
  lemma LeaderPassesItsOutcome(s: System, r: nat, f: nat, outcome: C.Outcome)
    requires r in s.flights.callers && s.flights.callers[r] == R.Leading(f)
    requires C.OfFlight(f) in s.cred.tasks && s.cred.tasks[C.OfFlight(f)] == C.Ended(outcome)
    ensures exists told ::
      && Step(s, LeaderEnds(r)) == s.(flights := R.Step(s.flights, R.RefreshOnceEnds(r, told)))
      && (told.Refreshed? <==> outcome.Active?)
      && (told.Refreshed? ==> told.pair == outcome.pair)
      && (told.AuthExpired? <==> outcome.AuthExpired?)
  {
    hide C.Step, R.Step;
    var told := Told(outcome);
    assert Step(s, LeaderEnds(r)) == s.(flights := R.Step(s.flights, R.RefreshOnceEnds(r, told)));
  }
}
