/**
 Which token a request may hold and send, over every run of `Sessions`: only one that was
 active while the request was loading it.
 */
module SessionTokens {
  import opened Common
  import opened Tokens
  import C = Credentials
  import R = Refresh
  import opened Sessions

  // ----- which token was active when -------------------------------------------------------

  /** The load under way. */
  function LoadTurn(p: Position): Option<nat> {
    if p.Loading? then Some(0) else if p.Comparing? then Some(1) else if p.Reloading? then Some(2)
    else None
  }

  predicate ActiveNow(s: System, r: nat, turn: nat, token: Token) {
    && r in s.requests && LoadTurn(s.requests[r]) == Some(turn)
    && s.cred.active.Some? && s.cred.active.value.access == token
  }

  /** At some point of the run, during that load of the request, the token was the active one. */
  predicate ActiveDuring(stored: Option<Pair>, actions: seq<Action>, r: nat, turn: nat, token: Token) {
    || ActiveNow(Run(Initial(stored), actions), r, turn, token)
    || (|actions| > 0 && ActiveDuring(stored, actions[..|actions| - 1], r, turn, token))
  }

  /** What a request holds, it was given by a load during which that was active. */
  predicate Justified(stored: Option<Pair>, actions: seq<Action>, r: nat, s: System)
    requires r in s.requests
  {
    var p := s.requests[r];
    && (LoadTurn(p).Some? ==>
          var outcome := LoadOutcome(s, r, LoadTurn(p).value);
          outcome.Some? && outcome.value.Active? ==>
            ActiveDuring(stored, actions, r, LoadTurn(p).value, outcome.value.pair.access))
    && (p.Loaded? || p.Sending? || p.Comparing? || p.Calling? || p.Refreshing? ==>
          ActiveDuring(stored, actions, r, 0, p.token))
    && (p.Calling? || p.Refreshing? ==> ActiveDuring(stored, actions, r, 1, p.token))
    && (p.Reloaded? || p.Resending? ==> ActiveDuring(stored, actions, r, 2, p.token))
  }

  ghost predicate AllJustified(stored: Option<Pair>, actions: seq<Action>, s: System) {
    && (forall r :: r in s.requests ==> Justified(stored, actions, r, s))
    && (forall e :: e in s.sends ==> ActiveDuring(stored, actions, e.request, e.turn, e.token))
  }

  lemma ActiveLater(stored: Option<Pair>, actions: seq<Action>, a: Action, r: nat, turn: nat,
                    token: Token)
    requires ActiveDuring(stored, actions, r, turn, token)
    ensures ActiveDuring(stored, actions + [a], r, turn, token)
  {
    assert (actions + [a])[..|actions|] == actions;
  }

  lemma ActiveAtEnd(stored: Option<Pair>, actions: seq<Action>, r: nat, turn: nat, token: Token)
    requires ActiveNow(Run(Initial(stored), actions), r, turn, token)
    ensures ActiveDuring(stored, actions, r, turn, token)
  {
  }

  /** A load that has just ended with a pair, ended while that pair was active. */
  lemma OutcomeIsFresh(s: System, a: Action, r: nat, turn: nat)
    requires Invariant(s)
    requires LoadOutcome(Step(s, a), r, turn).Some? && LoadOutcome(Step(s, a), r, turn).value.Active?
    ensures LoadOutcome(s, r, turn) == LoadOutcome(Step(s, a), r, turn)
         || Step(s, a).cred.active == Some(LoadOutcome(Step(s, a), r, turn).value.pair)
  {
    hide Step, C.Step, C.Invariant, R.Invariant, LoadsKnown, CallersKnown, FlightsKnown, AsksOk;
    var t := C.LoadOf(r, turn);
    var inner := CredMoves(s, a);
    if inner.Some? {
      C.StepAddsTasks(s.cred, inner.value);
      if t in s.cred.tasks {
        if s.cred.tasks[t].Ended? {
          if inner.value.Drop? && inner.value.task == t {
            C.DroppedFails(s.cred, t, inner.value.effect);
          } else {
            C.EndedStays(s.cred, inner.value, t);
          }
        } else {
          C.EndsWithActive(s.cred, inner.value, t);
        }
      } else {
        C.BegunIsNotEnded(s.cred, inner.value, t);
      }
    }
  }

  /** How a request may move in one step, with what it holds. */
  predicate MovesTo(s: System, s': System, r: nat) {
    && r in s'.requests
    && var q := s'.requests[r];
       if r !in s.requests then q.Loading? || q.Asking?
       else
         var p := s.requests[r];
         || q == p
         || q == Done || (q == Reloading && Rank(p) < 2)
         || (p.Loading? && q.Loaded? && LoadOutcome(s, r, 0).Some? && LoadOutcome(s, r, 0).value.Active?
             && LoadOutcome(s, r, 0).value.pair.access == q.token)
         || (p.Comparing? && q == Calling(p.token)
             && LoadOutcome(s, r, 1).Some? && LoadOutcome(s, r, 1).value.Active?
             && LoadOutcome(s, r, 1).value.pair.access == q.token)
         || (p.Reloading? && q.Reloaded? && LoadOutcome(s, r, 2).Some?
             && LoadOutcome(s, r, 2).value.Active? && LoadOutcome(s, r, 2).value.pair.access == q.token)
         || (p.Loaded? && q == Sending(p.token, p.retryOnce))
         || (p.Sending? && q == Comparing(p.token))
         || (p.Calling? && q == Refreshing(p.token))
         || (p.Reloaded? && q == Resending(p.token))
  }

  lemma StepMoves(s: System, a: Action, r: nat)
    requires r in Step(s, a).requests
    ensures MovesTo(s, Step(s, a), r)
  {
    hide C.Step, R.Step;
  }

  lemma StepSends(s: System, a: Action)
    ensures var s' := Step(s, a);
      || s'.sends == s.sends
      || exists e: Sent ::
           && s'.sends == s.sends + [e] && e.request in s.requests
           && (|| (e.turn == 0 && s.requests[e.request].Loaded?)
               || (e.turn == 2 && s.requests[e.request].Reloaded?))
           && s.requests[e.request].token == e.token
  {
    hide C.Step, R.Step;
    if a.Send? && a.request in s.requests {
      match s.requests[a.request] {
        case Loaded(token, _) => assert Step(s, a).sends == s.sends + [Sent(a.request, token, 0)];
        case Reloaded(token) => assert Step(s, a).sends == s.sends + [Sent(a.request, token, 2)];
        case _ =>
      }
    }
  }

  /** A load under way that has ended with a pair, ended while it was active. */
  lemma OutcomeIsJustified(stored: Option<Pair>, actions: seq<Action>, a: Action, r: nat)
    requires Invariant(Run(Initial(stored), actions))
    requires AllJustified(stored, actions, Run(Initial(stored), actions))
    requires r in Run(Initial(stored), actions + [a]).requests
    ensures var s' := Run(Initial(stored), actions + [a]); var p := s'.requests[r];
      LoadTurn(p).Some? ==>
        var outcome := LoadOutcome(s', r, LoadTurn(p).value);
        outcome.Some? && outcome.value.Active? ==>
          ActiveDuring(stored, actions + [a], r, LoadTurn(p).value, outcome.value.pair.access)
  {
    hide Run, Step, ActiveDuring, C.Invariant, R.Invariant, CallersKnown, FlightsKnown, AsksOk, Initial;
    var s, s' := Run(Initial(stored), actions), Run(Initial(stored), actions + [a]);
    RunAppend(Initial(stored), actions, a);
    StepMoves(s, a, r);
    var q := s'.requests[r];
    if LoadTurn(q).Some? {
      var turn := LoadTurn(q).value;
      var outcome := LoadOutcome(s', r, turn);
      if outcome.Some? && outcome.value.Active? {
        OutcomeIsFresh(s, a, r, turn);
        var token := outcome.value.pair.access;
        if s'.cred.active == Some(outcome.value.pair) {
          ActiveAtEnd(stored, actions + [a], r, turn, token);
        } else {
          if !(r in s.requests && s.requests[r] == q) {
            LoadNotBegun(s, r, turn);
            assert false;
          }
          assert Justified(stored, actions, r, s);
          ActiveLater(stored, actions, a, r, turn, token);
        }
      }
    }
  }

  lemma TokensAreJustified(stored: Option<Pair>, actions: seq<Action>, a: Action, r: nat)
    requires AllJustified(stored, actions, Run(Initial(stored), actions))
    requires r in Run(Initial(stored), actions + [a]).requests
    ensures var p := Run(Initial(stored), actions + [a]).requests[r];
      && (p.Loaded? || p.Sending? || p.Comparing? || p.Calling? || p.Refreshing? ==>
            ActiveDuring(stored, actions + [a], r, 0, p.token))
      && (p.Calling? || p.Refreshing? ==> ActiveDuring(stored, actions + [a], r, 1, p.token))
      && (p.Reloaded? || p.Resending? ==> ActiveDuring(stored, actions + [a], r, 2, p.token))
  {
    hide Run, Step, ActiveDuring, Initial;
    var s, s' := Run(Initial(stored), actions), Run(Initial(stored), actions + [a]);
    RunAppend(Initial(stored), actions, a);
    StepMoves(s, a, r);
    var q := s'.requests[r];
    if r in s.requests && (q.Loaded? || q.Sending? || q.Comparing? || q.Calling? || q.Refreshing?
                           || q.Reloaded? || q.Resending?) {
      assert Justified(stored, actions, r, s);
      forall turn: nat | ActiveDuring(stored, actions, r, turn, q.token)
        ensures ActiveDuring(stored, actions + [a], r, turn, q.token)
      {
        ActiveLater(stored, actions, a, r, turn, q.token);
      }
    }
  }

  lemma SendsAreJustified(stored: Option<Pair>, actions: seq<Action>, a: Action)
    requires AllJustified(stored, actions, Run(Initial(stored), actions))
    ensures forall e :: e in Run(Initial(stored), actions + [a]).sends ==>
              ActiveDuring(stored, actions + [a], e.request, e.turn, e.token)
  {
    hide Run, Step, ActiveDuring, Initial;
    var s, s' := Run(Initial(stored), actions), Run(Initial(stored), actions + [a]);
    RunAppend(Initial(stored), actions, a);
    StepSends(s, a);
    forall e | e in s'.sends ensures ActiveDuring(stored, actions + [a], e.request, e.turn, e.token) {
      if e !in s.sends {
        assert Justified(stored, actions, e.request, s);
      }
      ActiveLater(stored, actions, a, e.request, e.turn, e.token);
    }
  }

  lemma {:induction false} ReachableIsJustified(stored: Option<Pair>, actions: seq<Action>)
    ensures AllJustified(stored, actions, Run(Initial(stored), actions))
  {
    hide Justified, Run, Step, Invariant, ActiveDuring;
    if |actions| == 0 {
      NothingToJustify(stored);
      assert actions == [];
    } else {
      var n, a := |actions| - 1, actions[|actions| - 1];
      var s' := Run(Initial(stored), actions);
      assert actions == actions[..n] + [a];
      ReachableInvariant(stored, actions[..n]);
      ReachableIsJustified(stored, actions[..n]);
      SendsAreJustified(stored, actions[..n], a);
      forall r | r in s'.requests ensures Justified(stored, actions, r, s') {
        OutcomeIsJustified(stored, actions[..n], a, r);
        TokensAreJustified(stored, actions[..n], a, r);
        JustifiedParts(stored, actions, r, s');
      }
    }
  }

  lemma NothingToJustify(stored: Option<Pair>)
    ensures AllJustified(stored, [], Run(Initial(stored), []))
  {
  }

  lemma JustifiedParts(stored: Option<Pair>, actions: seq<Action>, r: nat, s: System)
    requires r in s.requests
    requires var p := s.requests[r];
      && (LoadTurn(p).Some? ==>
            var outcome := LoadOutcome(s, r, LoadTurn(p).value);
            outcome.Some? && outcome.value.Active? ==>
              ActiveDuring(stored, actions, r, LoadTurn(p).value, outcome.value.pair.access))
      && (p.Loaded? || p.Sending? || p.Comparing? || p.Calling? || p.Refreshing? ==>
            ActiveDuring(stored, actions, r, 0, p.token))
      && (p.Calling? || p.Refreshing? ==> ActiveDuring(stored, actions, r, 1, p.token))
      && (p.Reloaded? || p.Resending? ==> ActiveDuring(stored, actions, r, 2, p.token))
    ensures Justified(stored, actions, r, s)
  {
    hide ActiveDuring;
  }

  /**
   Every token sent was the active one at some point of the load that the request made
   for it, before the first send or after the 401. (It need not be when it is sent: a
   login may commit between the load and the send.)
   */
  lemma SentTokensWereActive(stored: Option<Pair>, actions: seq<Action>, e: Sent)
    requires e in Run(Initial(stored), actions).sends
    ensures ActiveDuring(stored, actions, e.request, e.turn, e.token)
  {
    hide ActiveDuring, Run;
    ReachableIsJustified(stored, actions);
  }

  /**
   A rejected request calls for a refresh only if the token it was sent with, and that
   was rejected, was the active one while it compared.
   */
  lemma RefreshCalledForActiveToken(stored: Option<Pair>, actions: seq<Action>, r: nat)
    requires var s := Run(Initial(stored), actions);
             r in s.requests && (s.requests[r].Calling? || s.requests[r].Refreshing?)
    ensures var token := Run(Initial(stored), actions).requests[r].token;
            ActiveDuring(stored, actions, r, 0, token) && ActiveDuring(stored, actions, r, 1, token)
  {
    hide ActiveDuring, Run;
    ReachableIsJustified(stored, actions);
    assert Justified(stored, actions, r, Run(Initial(stored), actions));
  }

  // ----- how often a request is sent -------------------------------------------------------

  /** The loads from which a request has been sent, in order. */
  function TurnsSent(sends: seq<Sent>, r: nat): seq<nat> {
    if |sends| == 0 then []
    else
      var earlier, last := TurnsSent(sends[..|sends| - 1], r), sends[|sends| - 1];
      if last.request == r then earlier + [last.turn] else earlier
  }

  /** What a request at `p` has sent: once first, and once more only after its 401. */
  predicate SentInOrder(turns: seq<nat>, p: Option<Position>) {
    match p
    case None => turns == []
    case Some(Loading(_)) => turns == []
    case Some(Loaded(_, _)) => turns == []
    case Some(Asking) => turns == []
    case Some(Resending(_)) => turns == [0, 2]
    case Some(Done) => turns in {[], [0], [0, 2]}
    case Some(_) => turns == [0]
  }

  function PositionOf(s: System, r: nat): Option<Position> {
    if r in s.requests then Some(s.requests[r]) else None
  }

  lemma TurnsAppend(sends: seq<Sent>, e: Sent, r: nat)
    ensures TurnsSent(sends + [e], r)
         == if e.request == r then TurnsSent(sends, r) + [e.turn] else TurnsSent(sends, r)
  {
    assert (sends + [e])[..|sends|] == sends;
  }

  lemma TurnsStep(s: System, a: Action, r: nat)
    requires SentInOrder(TurnsSent(s.sends, r), PositionOf(s, r))
    ensures SentInOrder(TurnsSent(Step(s, a).sends, r), PositionOf(Step(s, a), r))
  {
    hide Step, TurnsSent;
    if a.Send? {
      SendStep(s, a.request);
      if Step(s, a).sends != s.sends {
        TurnsAppend(s.sends, Step(s, a).sends[|s.sends|], r);
      }
    } else {
      QuietStep(s, a, r);
    }
  }

  /** The only step that sends. */
  lemma SendStep(s: System, r: nat)
    ensures var s' := Step(s, Send(r)); var p := PositionOf(s, r);
      if p.Some? && p.value.Loaded? then
        && s'.sends == s.sends + [Sent(r, p.value.token, 0)]
        && s'.requests == s.requests[r := Sending(p.value.token, p.value.retryOnce)]
      else if p.Some? && p.value.Reloaded? then
        && s'.sends == s.sends + [Sent(r, p.value.token, 2)]
        && s'.requests == s.requests[r := Resending(p.value.token)]
      else s' == s
  {
  }

  /** The others leave what a request has sent in accordance with where it stands. */
  lemma QuietStep(s: System, a: Action, r: nat)
    requires !a.Send?
    ensures Step(s, a).sends == s.sends
    ensures forall turns :: SentInOrder(turns, PositionOf(s, r)) ==>
              SentInOrder(turns, PositionOf(Step(s, a), r))
  {
    hide Step;
    QuietSends(s, a);
    forall turns | SentInOrder(turns, PositionOf(s, r))
      ensures SentInOrder(turns, PositionOf(Step(s, a), r))
    {
      QuietPosition(s, a, r, turns);
    }
  }

  lemma QuietSends(s: System, a: Action)
    requires !a.Send?
    ensures Step(s, a).sends == s.sends
  {
    hide C.Step, R.Step;
  }

  lemma QuietPosition(s: System, a: Action, r: nat, turns: seq<nat>)
    requires !a.Send? && SentInOrder(turns, PositionOf(s, r))
    ensures SentInOrder(turns, PositionOf(Step(s, a), r))
  {
    hide C.Step, R.Step;
  }

  /** A request is sent at most twice: with the token it first loaded, and once more after a 401. */
  lemma {:induction false} SentAtMostTwice(stored: Option<Pair>, actions: seq<Action>, r: nat)
    ensures var s := Run(Initial(stored), actions);
            && SentInOrder(TurnsSent(s.sends, r), PositionOf(s, r))
            && TurnsSent(s.sends, r) in {[], [0], [0, 2]}
  {
    hide Step;
    if |actions| > 0 {
      SentAtMostTwice(stored, actions[..|actions| - 1], r);
      TurnsStep(Run(Initial(stored), actions[..|actions| - 1]), actions[|actions| - 1], r);
    }
  }
}
