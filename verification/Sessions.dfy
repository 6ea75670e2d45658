/**
 Authorized requests over the refresh singleflight and the credential gate (`send_request`
 and `with_access_token`, crates/zephyrvox-http/src/client.rs; `refresh_access`,
 crates/zephyrvox-http/src/client/refresh.rs).

 The two systems are `Credentials` and `Refresh` themselves. A leader's `refresh_once` is a
 credential task of its own, begun when the flight is opened; a request loads credentials
 in up to three further tasks: for its first header, to compare after a 401, and for the
 retry. Loading, sending, comparing and calling `refresh_access` are separate steps, so
 logins, logouts and other refreshes may commit between any two of them.
 */
module Sessions {
  import opened Common
  import opened Tokens
  import C = Credentials
  import R = Refresh

  type Token = nat

  datatype Position =
    | Loading(retryOnce: bool)
    /** The header is set and the transport has not been called. */
    | Loaded(token: Token, retryOnce: bool)
    | Sending(token: Token, retryOnce: bool)
    /** Rejected with a 401; loading to compare. */
    | Comparing(token: Token)
    /** The rejected token was found active; `refresh_access` has not been entered. */
    | Calling(token: Token)
    | Refreshing(token: Token)
    | Reloading
    | Reloaded(token: Token)
    | Resending(token: Token)
    /** A refresh called for by the host, not by a rejected request. */
    | Asking
    | Done

  /** A request handed to the transport, with the load (0 or 2) its token came from. */
  datatype Sent = Sent(request: nat, token: Token, turn: nat)

  /** A refresh request on its way to the server. */
  datatype Asked = Asked(flight: nat, pair: Pair)

  datatype System = System(
    cred: C.System,
    flights: R.System,
    requests: map<nat, Position>,
    sends: seq<Sent>,
    /** For each flight, the rejected token it was opened for; none if the host asked. */
    openedFor: seq<Option<Token>>,
    /** The refreshes asked for since the active pair was last written. */
    asks: seq<Asked>)

  function Initial(stored: Option<Pair>): System {
    System(C.Initial(stored), R.INITIAL, map[], [], [], [])
  }

  datatype Action =
    | Begin(request: nat, retryOnce: bool)
    | BeginRefresh(request: nat)
    /** A step of a credential task, or something outside the client writing the store. */
    | Credential(step: C.Action)
    /** A step of a caller inside `refresh_access`, past entering and past `refresh_once`. */
    | Flight(move: R.Action)
    | LoadEnds(request: nat)
    | Send(request: nat)
    | Answer(request: nat, unauthorized: bool)
    | CallRefresh(request: nat)
    | LeaderEnds(request: nat)
    | RefreshReturns(request: nat)
    | Abandon(request: nat, effect: bool)

  /** Tasks of requests and leaders begin and are dropped with their owners. */
  predicate IsOwn(a: C.Action) {
    match a
    case Begin(t, _) => t.Alone?
    case Drop(t, _) => t.Alone?
    case _ => true
  }

  predicate IsInside(a: R.Action) {
    !a.Enter? && !a.RefreshOnceEnds? && !a.Drop?
  }

  function Move(s: System, r: nat, p: Position): System {
    s.(requests := s.requests[r := p])
  }

  function BeginLoad(s: System, r: nat, turn: nat): System {
    s.(cred := C.Step(s.cred, C.Action.Begin(C.LoadOf(r, turn), C.LoadQueued(C.ForCaller))))
  }

  /** How a load ended, if it has. */
  function LoadOutcome(s: System, r: nat, turn: nat): Option<C.Outcome> {
    var t := C.LoadOf(r, turn);
    if t in s.cred.tasks && s.cred.tasks[t].Ended? then Some(s.cred.tasks[t].outcome) else None
  }

  function Told(outcome: C.Outcome): R.Outcome {
    match outcome
    case Active(pair) => R.Refreshed(pair)
    case AuthExpired => R.AuthExpired
    case AuthRequired => R.OtherError(1)
    case _ => R.OtherError(2)
  }

  /** Enter `refresh_access`; opening a flight begins the leader's task. */
  function Enter(s: System, r: nat, token: Option<Token>): System {
    var flights := R.Step(s.flights, R.Enter(r));
    var f := |s.flights.flights|;
    if |flights.flights| == f then s.(flights := flights)
    else
      s.(flights := flights, openedFor := s.openedFor + [token],
         cred := C.Step(s.cred, C.Action.Begin(C.OfFlight(f), C.LoadQueued(C.ForRefresh))))
  }

  /** The task has just put its refresh request on the way. */
  predicate Asks(before: C.System, a: C.Action, after: C.System) {
    && !a.Outside? && a.task.OfFlight? && a.task in before.tasks && a.task in after.tasks
    && !before.tasks[a.task].Sent? && after.tasks[a.task].Sent?
  }

  function CredentialStep(s: System, a: C.Action): System {
    var after := C.Step(s.cred, a);
    var kept := if C.Writes(s.cred, a) then [] else s.asks;
    s.(cred := after,
       asks := if Asks(s.cred, a, after)
               then kept + [Asked(a.task.flight, after.tasks[a.task].expected)] else kept)
  }

  function AfterLoad(s: System, r: nat, p: Position): System {
    match p
    case Loading(retryOnce) =>
      (match LoadOutcome(s, r, 0)
       case None => s
       case Some(Active(pair)) => Move(s, r, Loaded(pair.access, retryOnce))
       case Some(_) => Move(s, r, Done))
    case Comparing(token) =>
      (match LoadOutcome(s, r, 1)
       case None => s
       case Some(Active(pair)) =>
         if pair.access == token then Move(s, r, Calling(token))
         else BeginLoad(Move(s, r, Reloading), r, 2)
       case Some(Anonymous) => BeginLoad(Move(s, r, Reloading), r, 2)
       case Some(_) => Move(s, r, Done))
    case Reloading =>
      (match LoadOutcome(s, r, 2)
       case None => s
       case Some(Active(pair)) => Move(s, r, Reloaded(pair.access))
       case Some(_) => Move(s, r, Done))
    case _ => s
  }

  function AfterSend(s: System, r: nat, p: Position): System {
    match p
    case Loaded(token, retryOnce) =>
      Move(s, r, Sending(token, retryOnce)).(sends := s.sends + [Sent(r, token, 0)])
    case Reloaded(token) => Move(s, r, Resending(token)).(sends := s.sends + [Sent(r, token, 2)])
    case _ => s
  }

  function AfterAnswer(s: System, r: nat, p: Position, unauthorized: bool): System {
    match p
    case Sending(token, retryOnce) =>
      if unauthorized && retryOnce then BeginLoad(Move(s, r, Comparing(token)), r, 1)
      else Move(s, r, Done)
    case Resending(_) => Move(s, r, Done)
    case _ => s
  }

  /** The leader's task has ended, and `refresh_once` returns what it came to. */
  function AfterLeader(s: System, r: nat): System {
    if r !in s.flights.callers || !s.flights.callers[r].Leading? then s
    else
      var t := C.OfFlight(s.flights.callers[r].flight);
      if t !in s.cred.tasks || !s.cred.tasks[t].Ended? then s
      else
        s.(flights := R.Step(s.flights, R.RefreshOnceEnds(r, Told(s.cred.tasks[t].outcome))))
  }

  function AfterRefresh(s: System, r: nat, p: Position): System {
    if r !in s.flights.callers || !s.flights.callers[r].Returned? then s
    else if p.Asking? then Move(s, r, Done)
    else if !p.Refreshing? then s
    else if s.flights.callers[r].outcome.Refreshed? then BeginLoad(Move(s, r, Reloading), r, 2)
    else Move(s, r, Done)
  }

  function DropLoad(s: System, r: nat, turn: nat, effect: bool): System {
    Move(s, r, Done).(cred := C.Step(s.cred, C.Drop(C.LoadOf(r, turn), effect)))
  }

  /** Dropped at an await; a leader takes its task along. */
  function AfterDrop(s: System, r: nat, p: Position, effect: bool): System {
    match p
    case Loading(_) => DropLoad(s, r, 0, effect)
    case Comparing(_) => DropLoad(s, r, 1, effect)
    case Reloading => DropLoad(s, r, 2, effect)
    case Sending(_, _) => Move(s, r, Done)
    case Resending(_) => Move(s, r, Done)
    case Refreshing(_) => DropCaller(s, r, effect)
    case Asking => DropCaller(s, r, effect)
    case _ => s
  }

  function DropCaller(s: System, r: nat, effect: bool): System {
    var flights := R.Step(s.flights, R.Drop(r));
    if r !in s.flights.callers || flights == s.flights then s
    else
      var dropped := Move(s, r, Done).(flights := flights);
      if s.flights.callers[r].Leading?
      then dropped.(cred := C.Step(s.cred, C.Drop(C.OfFlight(s.flights.callers[r].flight), effect)))
      else dropped
  }

  /** One step; an action that is not enabled changes nothing. */
  function Step(s: System, a: Action): System {
    match a
    case Begin(r, retryOnce) =>
      if r in s.requests then s else BeginLoad(Move(s, r, Loading(retryOnce)), r, 0)
    case BeginRefresh(r) =>
      if r in s.requests then s else Enter(Move(s, r, Asking), r, None)
    case Credential(step) => if IsOwn(step) then CredentialStep(s, step) else s
    case Flight(move) =>
      if IsInside(move) then s.(flights := R.Step(s.flights, move)) else s
    case LoadEnds(r) => if r in s.requests then AfterLoad(s, r, s.requests[r]) else s
    case Send(r) => if r in s.requests then AfterSend(s, r, s.requests[r]) else s
    case Answer(r, unauthorized) =>
      if r in s.requests then AfterAnswer(s, r, s.requests[r], unauthorized) else s
    case CallRefresh(r) =>
      if r in s.requests && s.requests[r].Calling?
      then Enter(Move(s, r, Refreshing(s.requests[r].token)), r, Some(s.requests[r].token))
      else s
    case LeaderEnds(r) => AfterLeader(s, r)
    case RefreshReturns(r) => if r in s.requests then AfterRefresh(s, r, s.requests[r]) else s
    case Abandon(r, effect) =>
      if r in s.requests then AfterDrop(s, r, s.requests[r], effect) else s
  }

  function Run(s: System, actions: seq<Action>): System {
    if |actions| == 0 then s
    else Step(Run(s, actions[..|actions| - 1]), actions[|actions| - 1])
  }

  // ----- what every run keeps --------------------------------------------------------------

  /** How far a request has come: the last load it may have begun. */
  function Rank(p: Position): nat {
    match p
    case Loading(_) => 0
    case Loaded(_, _) => 0
    case Sending(_, _) => 0
    case Comparing(_) => 1
    case Calling(_) => 1
    case Refreshing(_) => 1
    case _ => 2
  }

  predicate BeforeRefresh(p: Position) {
    p.Loading? || p.Loaded? || p.Sending? || p.Comparing? || p.Calling?
  }

  ghost predicate LoadsKnown(s: System) {
    forall r: nat, turn: nat {:trigger C.LoadOf(r, turn)} :: C.LoadOf(r, turn) in s.cred.tasks ==>
      r in s.requests && turn <= Rank(s.requests[r])
  }

  ghost predicate CallersKnown(s: System) {
    forall c :: c in s.flights.callers ==> c in s.requests && !BeforeRefresh(s.requests[c])
  }

  /** A leader's task is still at work only while its leader is inside `refresh_once`. */
  predicate FlightOk(s: System, f: nat)
    requires f < |s.flights.flights|
  {
    && C.OfFlight(f) in s.cred.tasks
    && (!s.cred.tasks[C.OfFlight(f)].Ended? ==>
          && s.flights.flights[f].leader in s.flights.callers
          && s.flights.callers[s.flights.flights[f].leader] == R.Leading(f))
  }

  ghost predicate FlightsKnown(s: System) {
    && |s.openedFor| == |s.flights.flights|
    && (forall f :: 0 <= f < |s.flights.flights| ==> FlightOk(s, f))
    && (forall f: nat {:trigger C.OfFlight(f)} ::
          C.OfFlight(f) in s.cred.tasks ==> f < |s.flights.flights|)
  }

  /** Where the asked-for refresh stands: failed or dropped, or still on its way with the pair. */
  predicate AskOk(s: System, i: nat)
    requires i < |s.asks|
  {
    var t := C.OfFlight(s.asks[i].flight);
    && s.cred.active == Some(s.asks[i].pair)
    && t in s.cred.tasks
    && (|| s.cred.tasks[t] == C.Ended(C.Failed)
        || (i == |s.asks| - 1 && C.RefreshOf(s.cred.tasks[t]) == Some(s.asks[i].pair)))
  }

  ghost predicate AsksOk(s: System) {
    forall i :: 0 <= i < |s.asks| ==> AskOk(s, i)
  }

  ghost predicate Invariant(s: System) {
    && C.Invariant(s.cred) && R.Invariant(s.flights)
    && LoadsKnown(s) && CallersKnown(s) && FlightsKnown(s) && AsksOk(s)
  }

  lemma InitialInvariant(stored: Option<Pair>)
    ensures Invariant(Initial(stored))
  {
  }

  /** A request only moves on, so the loads it has begun are those it has reached. */
  lemma LoadsKept(s: System, s': System)
    requires LoadsKnown(s)
    requires forall q :: q in s.requests ==>
               q in s'.requests && Rank(s.requests[q]) <= Rank(s'.requests[q])
    requires forall t :: t in s'.cred.tasks && t.LoadOf? ==>
               t in s.cred.tasks || (t.request in s'.requests && t.turn <= Rank(s'.requests[t.request]))
    ensures LoadsKnown(s')
  {
  }

  lemma CallersKept(s: System, s': System)
    requires CallersKnown(s)
    requires forall c :: c in s'.flights.callers ==>
               c in s.flights.callers || (c in s'.requests && !BeforeRefresh(s'.requests[c]))
    requires forall q :: q in s.requests && !BeforeRefresh(s.requests[q]) ==>
               q in s'.requests && !BeforeRefresh(s'.requests[q])
    ensures CallersKnown(s')
  {
  }

  /** The flights are the same, and a task at work is one that was, with its leader in place. */
  lemma FlightsKept(s: System, s': System)
    requires FlightsKnown(s)
    requires s'.openedFor == s.openedFor && |s'.flights.flights| == |s.flights.flights|
    requires forall f :: 0 <= f < |s.flights.flights| ==>
               s'.flights.flights[f].leader == s.flights.flights[f].leader
    requires forall t :: t in s'.cred.tasks && t.OfFlight? ==> t in s.cred.tasks
    requires forall t :: t in s.cred.tasks ==> t in s'.cred.tasks
    requires forall f: nat {:trigger C.OfFlight(f)} ::
               f < |s.flights.flights| && C.OfFlight(f) in s.cred.tasks
               && C.OfFlight(f) in s'.cred.tasks && !s'.cred.tasks[C.OfFlight(f)].Ended? ==>
                 && !s.cred.tasks[C.OfFlight(f)].Ended?
                 && (s.flights.flights[f].leader in s.flights.callers
                     && s.flights.callers[s.flights.flights[f].leader] == R.Leading(f) ==>
                       s.flights.flights[f].leader in s'.flights.callers
                       && s'.flights.callers[s.flights.flights[f].leader] == R.Leading(f))
    ensures FlightsKnown(s')
  {
    forall f | 0 <= f < |s'.flights.flights| ensures FlightOk(s', f) {
      assert FlightOk(s, f);
    }
  }

  /** Nothing was asked or written, and a task moved only by failing. */
  lemma AsksKept(s: System, s': System)
    requires AsksOk(s) && s'.asks == s.asks && s'.cred.active == s.cred.active
    requires forall t :: t in s.cred.tasks ==>
               t in s'.cred.tasks
               && (s'.cred.tasks[t] == s.cred.tasks[t] || s'.cred.tasks[t] == C.Ended(C.Failed))
    ensures AsksOk(s')
  {
    forall i | 0 <= i < |s'.asks| ensures AskOk(s', i) {
      assert AskOk(s, i);
    }
  }

  /** A step of requests alone, which moves one of them on. */
  lemma MoveKeeps(s: System, r: nat, p: Position)
    requires Invariant(s)
    requires r in s.requests ==> Rank(s.requests[r]) <= Rank(p)
    requires r in s.requests && !BeforeRefresh(s.requests[r]) ==> !BeforeRefresh(p)
    ensures Invariant(Move(s, r, p))
  {
    hide C.Invariant, R.Invariant, LoadsKnown, CallersKnown, FlightsKnown, AsksOk;
    var s' := Move(s, r, p);
    LoadsKept(s, s');
    CallersKept(s, s');
    FlightsKept(s, s');
    AsksKept(s, s');
  }

  lemma SendKeeps(s: System, sends: seq<Sent>)
    requires Invariant(s)
    ensures Invariant(s.(sends := sends))
  {
    hide C.Invariant, R.Invariant, LoadsKnown, CallersKnown, FlightsKnown, AsksOk;
    var s' := s.(sends := sends);
    LoadsKept(s, s');
    CallersKept(s, s');
    FlightsKept(s, s');
    AsksKept(s, s');
  }

  /** A load the request had not begun. */
  lemma BeginLoadKeeps(s: System, r: nat, turn: nat)
    requires Invariant(s) && r in s.requests && turn <= Rank(s.requests[r])
    requires C.LoadOf(r, turn) !in s.cred.tasks
    ensures Invariant(BeginLoad(s, r, turn))
  {
    hide C.Invariant, R.Invariant, LoadsKnown, CallersKnown, FlightsKnown, AsksOk, C.Step;
    var s' := BeginLoad(s, r, turn);
    C.BeginFrame(s.cred, C.LoadOf(r, turn), C.LoadQueued(C.ForCaller));
    C.StepKeepsInvariant(s.cred, C.Action.Begin(C.LoadOf(r, turn), C.LoadQueued(C.ForCaller)));
    LoadsKept(s, s');
    CallersKept(s, s');
    FlightsKept(s, s');
    AsksKept(s, s');
  }

  /** Dropping a task that is not a leader's, or whose leader goes with it. */
  lemma DropTaskKeeps(s: System, t: C.TaskId, effect: bool)
    requires Invariant(s) && t in s.cred.tasks
    ensures Invariant(s.(cred := C.Step(s.cred, C.Drop(t, effect))))
  {
    hide C.Invariant, R.Invariant, LoadsKnown, CallersKnown, FlightsKnown, AsksOk, C.Step;
    var s' := s.(cred := C.Step(s.cred, C.Drop(t, effect)));
    C.DroppedFails(s.cred, t, effect);
    C.StepKeepsInvariant(s.cred, C.Drop(t, effect));
    LoadsKept(s, s');
    CallersKept(s, s');
    FlightsKept(s, s');
    AsksKept(s, s');
  }

  /** A step inside `refresh_access` by a caller whose task, if it leads, has ended. */
  lemma FlightStepKeeps(s: System, a: R.Action)
    requires Invariant(s) && !a.Enter?
    requires (a.RefreshOnceEnds? || a.Drop?) && a.caller in s.flights.callers
             && s.flights.callers[a.caller].Leading? ==>
               var t := C.OfFlight(s.flights.callers[a.caller].flight);
               t in s.cred.tasks && s.cred.tasks[t].Ended?
    ensures Invariant(s.(flights := R.Step(s.flights, a)))
  {
    var s' := s.(flights := R.Step(s.flights, a));
    FlightTasksStay(s, a);
    hide C.Invariant, R.Invariant, LoadsKnown, CallersKnown, FlightsKnown, AsksOk, R.Step;
    R.StepKeepsInvariant(s.flights, a);
    R.StepFrame(s.flights, a);
    LoadsKept(s, s');
    CallersKept(s, s');
    FlightsKept(s, s');
    AsksKept(s, s');
  }

  lemma FlightTasksStay(s: System, a: R.Action)
    requires Invariant(s) && !a.Enter?
    requires (a.RefreshOnceEnds? || a.Drop?) && a.caller in s.flights.callers
             && s.flights.callers[a.caller].Leading? ==>
               var t := C.OfFlight(s.flights.callers[a.caller].flight);
               t in s.cred.tasks && s.cred.tasks[t].Ended?
    ensures |R.Step(s.flights, a).flights| == |s.flights.flights|
    ensures forall f :: 0 <= f < |s.flights.flights| ==>
              R.Step(s.flights, a).flights[f].leader == s.flights.flights[f].leader
    ensures forall f: nat {:trigger C.OfFlight(f)} ::
              f < |s.flights.flights| && C.OfFlight(f) in s.cred.tasks
              && !s.cred.tasks[C.OfFlight(f)].Ended?
              && s.flights.flights[f].leader in s.flights.callers
              && s.flights.callers[s.flights.flights[f].leader] == R.Leading(f) ==>
                s.flights.flights[f].leader in R.Step(s.flights, a).callers
                && R.Step(s.flights, a).callers[s.flights.flights[f].leader] == R.Leading(f)
  {
    hide C.Invariant, R.Invariant, LoadsKnown, CallersKnown, FlightsKnown, AsksOk, R.Step;
    R.StepFrame(s.flights, a);
    forall f | 0 <= f < |s.flights.flights|
      ensures R.Step(s.flights, a).flights[f].leader == s.flights.flights[f].leader
    {
      R.LeaderFixed(s.flights, a, f);
    }
    forall f: nat | f < |s.flights.flights| && C.OfFlight(f) in s.cred.tasks
                    && !s.cred.tasks[C.OfFlight(f)].Ended?
                    && s.flights.flights[f].leader in s.flights.callers
                    && s.flights.callers[s.flights.flights[f].leader] == R.Leading(f)
      ensures s.flights.flights[f].leader in R.Step(s.flights, a).callers
      ensures R.Step(s.flights, a).callers[s.flights.flights[f].leader] == R.Leading(f)
    {
      R.LeadingStays(s.flights, a, s.flights.flights[f].leader);
    }
  }

  lemma EnterKeeps(s: System, r: nat, token: Option<Token>)
    requires Invariant(s) && r in s.requests && !BeforeRefresh(s.requests[r])
    requires r !in s.flights.callers
    ensures Invariant(Enter(s, r, token))
  {
    var s' := Enter(s, r, token);
    var f := |s.flights.flights|;
    EnterKeepsFlights(s, r, token);
    EnterTask(s);
    hide C.Invariant, R.Invariant, LoadsKnown, CallersKnown, FlightsKnown, AsksOk, R.Step, C.Step;
    R.StepKeepsInvariant(s.flights, R.Enter(r));
    R.StepFrame(s.flights, R.Enter(r));
    var begin := C.Action.Begin(C.OfFlight(f), C.LoadQueued(C.ForRefresh));
    C.BeginFrame(s.cred, C.OfFlight(f), C.LoadQueued(C.ForRefresh));
    C.StepKeepsInvariant(s.cred, begin);
    LoadsKept(s, s');
    CallersKept(s, s');
    AsksKept(s, s');
  }

  lemma EnterTask(s: System)
    requires Invariant(s)
    ensures C.OfFlight(|s.flights.flights|) !in s.cred.tasks
  {
  }

  lemma EnterKeepsFlights(s: System, r: nat, token: Option<Token>)
    requires Invariant(s) && r !in s.flights.callers
    ensures FlightsKnown(Enter(s, r, token))
  {
    hide C.Invariant, R.Invariant, LoadsKnown, CallersKnown, AsksOk, R.Step, C.Step;
    var s' := Enter(s, r, token);
    var n := |s.flights.flights|;
    R.EnterOpensOrJoins(s.flights, r);
    R.StepFrame(s.flights, R.Enter(r));
    C.BeginFrame(s.cred, C.OfFlight(n), C.LoadQueued(C.ForRefresh));
    forall f | 0 <= f < |s'.flights.flights| ensures FlightOk(s', f) {
      if f < n {
        assert FlightOk(s, f);
        R.LeaderFixed(s.flights, R.Enter(r), f);
      }
    }
  }

  // ----- a credential task's step ----------------------------------------------------------

  lemma CredentialKeeps(s: System, a: C.Action)
    requires Invariant(s) && IsOwn(a)
    ensures Invariant(CredentialStep(s, a))
  {
    var s' := CredentialStep(s, a);
    CredentialKeepsAsks(s, a);
    CredentialKeepsFlights(s, a);
    hide C.Invariant, R.Invariant, LoadsKnown, CallersKnown, FlightsKnown, AsksOk, C.Step;
    C.StepKeepsInvariant(s.cred, a);
    C.StepAddsTasks(s.cred, a);
    LoadsKept(s, s');
    CallersKept(s, s');
  }

  lemma CredentialKeepsFlights(s: System, a: C.Action)
    requires Invariant(s) && IsOwn(a)
    ensures FlightsKnown(CredentialStep(s, a))
  {
    hide C.Invariant, R.Invariant, LoadsKnown, CallersKnown, AsksOk, FlightsKnown, C.Step;
    var s' := CredentialStep(s, a);
    C.StepKeepsTasks(s.cred, a);
    C.StepAddsTasks(s.cred, a);
    forall f: nat | C.OfFlight(f) in s.cred.tasks && s.cred.tasks[C.OfFlight(f)].Ended?
      ensures s'.cred.tasks[C.OfFlight(f)].Ended?
    {
      C.EndedStays(s.cred, a, C.OfFlight(f));
    }
    FlightsKept(s, s');
  }

  /** The earlier refreshes asked for with this pair have failed when another one is. */
  lemma OthersHaveFailed(s: System, g: nat, i: nat)
    requires Invariant(s) && i < |s.asks|
    requires C.OfFlight(g) in s.cred.tasks && !s.cred.tasks[C.OfFlight(g)].Ended?
    requires C.RefreshOf(s.cred.tasks[C.OfFlight(g)]) == None
    ensures C.OfFlight(s.asks[i].flight) in s.cred.tasks
    ensures s.cred.tasks[C.OfFlight(s.asks[i].flight)] == C.Ended(C.Failed)
  {
    var f := s.asks[i].flight;
    assert AskOk(s, i);
    if s.cred.tasks[C.OfFlight(f)] != C.Ended(C.Failed) {
      AtWorkIsLed(s, f);
      AtWorkIsLed(s, g);
      R.OneLeader(s.flights, s.flights.flights[f].leader, s.flights.flights[g].leader);
      assert false;
    }
  }

  lemma AtWorkIsLed(s: System, f: nat)
    requires Invariant(s) && C.OfFlight(f) in s.cred.tasks && !s.cred.tasks[C.OfFlight(f)].Ended?
    ensures f < |s.flights.flights|
    ensures s.flights.flights[f].leader in s.flights.callers
    ensures s.flights.callers[s.flights.flights[f].leader] == R.Leading(f)
  {
    assert FlightOk(s, f);
  }

  /** One entry, while the active pair is not written. */
  lemma AskProgresses(s: System, a: C.Action, i: nat)
    requires Invariant(s) && IsOwn(a) && !C.Writes(s.cred, a) && i < |s.asks|
    ensures var after, t := C.Step(s.cred, a), C.OfFlight(s.asks[i].flight);
            && after.active == Some(s.asks[i].pair) && t in after.tasks
            && (|| after.tasks[t] == C.Ended(C.Failed)
                || (i == |s.asks| - 1 && C.RefreshOf(after.tasks[t]) == Some(s.asks[i].pair)))
  {
    hide C.Step, R.Invariant, LoadsKnown, CallersKnown, FlightsKnown, C.Invariant;
    assert AskOk(s, i);
    var t := C.OfFlight(s.asks[i].flight);
    C.StepKeepsActive(s.cred, a);
    if s.cred.tasks[t] == C.Ended(C.Failed) {
      C.EndedStays(s.cred, a, t);
    } else {
      C.RefreshProgress(s.cred, a, t, s.asks[i].pair);
    }
  }

  lemma CredentialKeepsAsks(s: System, a: C.Action)
    requires Invariant(s) && IsOwn(a)
    ensures AsksOk(CredentialStep(s, a))
  {
    var s' := CredentialStep(s, a);
    hide C.Step, C.Invariant, R.Invariant, LoadsKnown, CallersKnown, FlightsKnown;
    if Asks(s.cred, a, s'.cred) {
      C.AsksWithActive(s.cred, a, a.task);
    }
    forall i | 0 <= i < |s'.asks| ensures AskOk(s', i) {
      if !C.Writes(s.cred, a) && i < |s.asks| {
        AskProgresses(s, a, i);
        if Asks(s.cred, a, s'.cred) {
          OthersHaveFailed(s, a.task.flight, i);
          assert C.OfFlight(a.task.flight) == a.task;
          C.EndedStays(s.cred, a, C.OfFlight(s.asks[i].flight));
        }
      }
    }
  }

  // ----- every step ------------------------------------------------------------------------

  lemma LoadNotBegun(s: System, r: nat, turn: nat)
    requires LoadsKnown(s) && (r in s.requests ==> Rank(s.requests[r]) < turn)
    ensures C.LoadOf(r, turn) !in s.cred.tasks
  {
  }

  lemma NotInside(s: System, r: nat)
    requires CallersKnown(s) && (r in s.requests ==> BeforeRefresh(s.requests[r]))
    ensures r !in s.flights.callers
  {
  }

  /** A request moves on and begins its next load. */
  lemma NextLoadKeeps(s: System, r: nat, p: Position, turn: nat)
    requires Invariant(s) && Rank(p) == turn
    requires r in s.requests ==> Rank(s.requests[r]) < turn
    requires r in s.requests && !BeforeRefresh(s.requests[r]) ==> !BeforeRefresh(p)
    ensures Invariant(BeginLoad(Move(s, r, p), r, turn))
  {
    hide Invariant, BeginLoad;
    assert C.LoadOf(r, turn) !in s.cred.tasks by { InvariantParts(s); LoadNotBegun(s, r, turn); }
    MoveKeeps(s, r, p);
    BeginLoadKeeps(Move(s, r, p), r, turn);
  }

  lemma InvariantParts(s: System)
    requires Invariant(s)
    ensures LoadsKnown(s) && CallersKnown(s) && FlightsKnown(s) && AsksOk(s)
    ensures C.Invariant(s.cred) && R.Invariant(s.flights)
  {
  }

  lemma LoadEndsKeeps(s: System, r: nat)
    requires Invariant(s) && r in s.requests
    ensures Invariant(AfterLoad(s, r, s.requests[r]))
  {
    hide Invariant, BeginLoad, Move, LoadOutcome;
    match s.requests[r] {
      case Loading(retryOnce) =>
        if LoadOutcome(s, r, 0).Some? {
          match LoadOutcome(s, r, 0).value {
            case Active(pair) => MoveKeeps(s, r, Loaded(pair.access, retryOnce));
            case _ => MoveKeeps(s, r, Done);
          }
        }
      case Comparing(token) =>
        if LoadOutcome(s, r, 1).Some? {
          MoveKeeps(s, r, Calling(token));
          MoveKeeps(s, r, Done);
          NextLoadKeeps(s, r, Reloading, 2);
        }
      case Reloading =>
        if LoadOutcome(s, r, 2).Some? {
          match LoadOutcome(s, r, 2).value {
            case Active(pair) => MoveKeeps(s, r, Reloaded(pair.access));
            case _ => MoveKeeps(s, r, Done);
          }
        }
      case _ =>
    }
  }

  lemma SendsKeeps(s: System, r: nat)
    requires Invariant(s) && r in s.requests
    ensures Invariant(AfterSend(s, r, s.requests[r]))
  {
    hide Invariant;
    match s.requests[r] {
      case Loaded(token, retryOnce) =>
        MoveKeeps(s, r, Sending(token, retryOnce));
        SendKeeps(Move(s, r, Sending(token, retryOnce)), s.sends + [Sent(r, token, 0)]);
      case Reloaded(token) =>
        MoveKeeps(s, r, Resending(token));
        SendKeeps(Move(s, r, Resending(token)), s.sends + [Sent(r, token, 2)]);
      case _ =>
    }
  }

  lemma AnswerKeeps(s: System, r: nat, unauthorized: bool)
    requires Invariant(s) && r in s.requests
    ensures Invariant(AfterAnswer(s, r, s.requests[r], unauthorized))
  {
    hide Invariant, Move, BeginLoad;
    match s.requests[r] {
      case Sending(token, _) =>
        NextLoadKeeps(s, r, Comparing(token), 1);
        MoveKeeps(s, r, Done);
      case Resending(_) => MoveKeeps(s, r, Done);
      case _ =>
    }
  }

  /** A caller enters for the first time. */
  lemma FirstEnterKeeps(s: System, r: nat, p: Position, token: Option<Token>)
    requires Invariant(s) && !BeforeRefresh(p)
    requires r in s.requests ==> BeforeRefresh(s.requests[r]) && Rank(s.requests[r]) <= Rank(p)
    ensures Invariant(Enter(Move(s, r, p), r, token))
  {
    hide Invariant, Enter, C.Step, R.Step;
    assert r !in s.flights.callers by { InvariantParts(s); NotInside(s, r); }
    MoveKeeps(s, r, p);
    EnterKeeps(Move(s, r, p), r, token);
  }

  lemma LeaderEndsKeeps(s: System, r: nat)
    requires Invariant(s)
    ensures Invariant(AfterLeader(s, r))
  {
    hide Invariant, R.Step, C.Step;
    if AfterLeader(s, r) != s {
      var t := C.OfFlight(s.flights.callers[r].flight);
      FlightStepKeeps(s, R.RefreshOnceEnds(r, Told(s.cred.tasks[t].outcome)));
    }
  }

  lemma RefreshReturnsKeeps(s: System, r: nat)
    requires Invariant(s) && r in s.requests
    ensures Invariant(AfterRefresh(s, r, s.requests[r]))
  {
    hide Invariant, Move, BeginLoad;
    if s.requests[r].Asking? {
      MoveKeeps(s, r, Done);
    } else if s.requests[r].Refreshing? {
      MoveKeeps(s, r, Done);
      NextLoadKeeps(s, r, Reloading, 2);
    }
  }

  lemma DropLoadKeeps(s: System, r: nat, turn: nat, effect: bool)
    requires Invariant(s) && r in s.requests && Rank(s.requests[r]) <= 2
    ensures Invariant(DropLoad(s, r, turn, effect))
  {
    hide Invariant, C.Step;
    MoveKeeps(s, r, Done);
    if C.LoadOf(r, turn) in s.cred.tasks {
      DropTaskKeeps(Move(s, r, Done), C.LoadOf(r, turn), effect);
    } else {
      DropOfNothing(s.cred, C.LoadOf(r, turn), effect);
    }
  }

  lemma DropOfNothing(cred: C.System, t: C.TaskId, effect: bool)
    requires t !in cred.tasks
    ensures C.Step(cred, C.Drop(t, effect)) == cred
  {
  }

  /** A leader that is dropped takes its task along; anyone else leaves nothing behind. */
  lemma DropCallerKeeps(s: System, r: nat, effect: bool)
    requires Invariant(s) && r in s.requests && !BeforeRefresh(s.requests[r])
    ensures Invariant(DropCaller(s, r, effect))
  {
    hide Invariant, R.Step, C.Step;
    if r in s.flights.callers && R.Step(s.flights, R.Drop(r)) != s.flights {
      var moved := Move(s, r, Done);
      MoveKeeps(s, r, Done);
      if s.flights.callers[r].Leading? {
        var t := C.OfFlight(s.flights.callers[r].flight);
        LeaderHasTask(s, r);
        DropTaskKeeps(moved, t, effect);
        C.DroppedFails(s.cred, t, effect);
        FlightStepKeeps(moved.(cred := C.Step(s.cred, C.Drop(t, effect))), R.Drop(r));
      } else {
        FlightStepKeeps(moved, R.Drop(r));
      }
    }
  }

  lemma LeaderHasTask(s: System, r: nat)
    requires Invariant(s) && r in s.flights.callers
    ensures s.flights.callers[r].flight < |s.flights.flights|
    ensures C.OfFlight(s.flights.callers[r].flight) in s.cred.tasks
  {
    R.InvariantOfCaller(s.flights, r);
    assert FlightOk(s, s.flights.callers[r].flight);
  }

  lemma AbandonKeeps(s: System, r: nat, effect: bool)
    requires Invariant(s) && r in s.requests
    ensures Invariant(AfterDrop(s, r, s.requests[r], effect))
  {
    hide Invariant, Move, DropLoad, DropCaller;
    match s.requests[r] {
      case Loading(_) => DropLoadKeeps(s, r, 0, effect);
      case Comparing(_) => DropLoadKeeps(s, r, 1, effect);
      case Reloading => DropLoadKeeps(s, r, 2, effect);
      case Sending(_, _) => MoveKeeps(s, r, Done);
      case Resending(_) => MoveKeeps(s, r, Done);
      case Refreshing(_) => DropCallerKeeps(s, r, effect);
      case Asking => DropCallerKeeps(s, r, effect);
      case _ =>
    }
  }

  /** Every step of every request, leader and credential task keeps the two systems in step. */
  lemma StepKeepsInvariant(s: System, a: Action)
    requires Invariant(s)
    ensures Invariant(Step(s, a))
  {
    hide Invariant, Move, BeginLoad, Enter, CredentialStep, AfterLoad, AfterSend, AfterAnswer,
         AfterLeader, AfterRefresh, AfterDrop, R.Step, C.Step;
    match a {
      case Begin(r, retryOnce) =>
        if r !in s.requests { NextLoadKeeps(s, r, Loading(retryOnce), 0); }
      case BeginRefresh(r) =>
        if r !in s.requests { FirstEnterKeeps(s, r, Asking, None); }
      case Credential(step) => if IsOwn(step) { CredentialKeeps(s, step); }
      case Flight(move) => if IsInside(move) { FlightStepKeeps(s, move); }
      case LoadEnds(r) => if r in s.requests { LoadEndsKeeps(s, r); }
      case Send(r) => if r in s.requests { SendsKeeps(s, r); }
      case Answer(r, unauthorized) => if r in s.requests { AnswerKeeps(s, r, unauthorized); }
      case CallRefresh(r) =>
        if r in s.requests && s.requests[r].Calling? {
          FirstEnterKeeps(s, r, Refreshing(s.requests[r].token), Some(s.requests[r].token));
        }
      case LeaderEnds(r) => LeaderEndsKeeps(s, r);
      case RefreshReturns(r) => if r in s.requests { RefreshReturnsKeeps(s, r); }
      case Abandon(r, effect) => if r in s.requests { AbandonKeeps(s, r, effect); }
    }
  }

  lemma {:induction false} ReachableInvariant(stored: Option<Pair>, actions: seq<Action>)
    ensures Invariant(Run(Initial(stored), actions))
  {
    hide Invariant, Step;
    if |actions| == 0 {
      InitialInvariant(stored);
    } else {
      ReachableInvariant(stored, actions[..|actions| - 1]);
      StepKeepsInvariant(Run(Initial(stored), actions[..|actions| - 1]), actions[|actions| - 1]);
    }
  }

  // ----- one refresh token, one refresh ----------------------------------------------------

  /** At most one refresh is under way, however many flights there have been. */
  lemma OneRefreshUnderWay(stored: Option<Pair>, actions: seq<Action>, f: nat, g: nat)
    requires var s := Run(Initial(stored), actions);
             && C.OfFlight(f) in s.cred.tasks && !s.cred.tasks[C.OfFlight(f)].Ended?
             && C.OfFlight(g) in s.cred.tasks && !s.cred.tasks[C.OfFlight(g)].Ended?
    ensures f == g
  {
    hide Run, C.Invariant, R.Invariant;
    ReachableInvariant(stored, actions);
    var s := Run(Initial(stored), actions);
    AtWorkIsLed(s, f);
    AtWorkIsLed(s, g);
    R.OneLeader(s.flights, s.flights.flights[f].leader, s.flights.flights[g].leader);
  }

  /**
   A pair goes to the server a second time only after every earlier refresh from it was
   dropped, or failed without replacing it: of the refreshes asked for since the active
   pair was last written, all went out with that pair, and all but the last have failed.
   */
  lemma AskedAgainOnlyAfterFailure(stored: Option<Pair>, actions: seq<Action>, i: nat)
    requires i < |Run(Initial(stored), actions).asks|
    ensures var s := Run(Initial(stored), actions);
            && s.cred.active == Some(s.asks[i].pair)
            && C.OfFlight(s.asks[i].flight) in s.cred.tasks
            && (i < |s.asks| - 1 ==>
                  s.cred.tasks[C.OfFlight(s.asks[i].flight)] == C.Ended(C.Failed))
  {
    hide Run, C.Invariant, R.Invariant;
    ReachableInvariant(stored, actions);
    assert AskOk(Run(Initial(stored), actions), i);
  }

  // ----- what each part of the system does in a step ---------------------------------------

  /** The credential step inside a step, if there is one. */
  lemma CredMoves(s: System, a: Action) returns (inner: Option<C.Action>)
    ensures Step(s, a).cred == if inner.None? then s.cred else C.Step(s.cred, inner.value)
  {
    hide C.Step, R.Step;
    inner := None;
    match a {
      case Begin(r, _) =>
        inner := Some(C.Action.Begin(C.LoadOf(r, 0), C.LoadQueued(C.ForCaller)));
      case Credential(step) => inner := Some(step);
      case LoadEnds(r) =>
        inner := Some(C.Action.Begin(C.LoadOf(r, 2), C.LoadQueued(C.ForCaller)));
      case Answer(r, _) =>
        inner := Some(C.Action.Begin(C.LoadOf(r, 1), C.LoadQueued(C.ForCaller)));
      case RefreshReturns(r) =>
        inner := Some(C.Action.Begin(C.LoadOf(r, 2), C.LoadQueued(C.ForCaller)));
      case BeginRefresh(_) =>
        inner := Some(C.Action.Begin(C.OfFlight(|s.flights.flights|), C.LoadQueued(C.ForRefresh)));
      case CallRefresh(_) =>
        inner := Some(C.Action.Begin(C.OfFlight(|s.flights.flights|), C.LoadQueued(C.ForRefresh)));
      case Abandon(r, effect) =>
        if r in s.requests {
          match s.requests[r] {
            case Loading(_) => inner := Some(C.Drop(C.LoadOf(r, 0), effect));
            case Comparing(_) => inner := Some(C.Drop(C.LoadOf(r, 1), effect));
            case Reloading => inner := Some(C.Drop(C.LoadOf(r, 2), effect));
            case _ =>
              if r in s.flights.callers {
                inner := Some(C.Drop(C.OfFlight(s.flights.callers[r].flight), effect));
              }
          }
        }
      case _ =>
    }
    if Step(s, a).cred == s.cred {
      inner := None;
    }
  }

  /** The step of the singleflight inside a step, if there is one. */
  lemma FlightMoves(s: System, a: Action) returns (inner: Option<R.Action>)
    ensures Step(s, a).flights
         == if inner.None? then s.flights else R.Step(s.flights, inner.value)
  {
    hide C.Step, R.Step;
    inner := None;
    match a {
      case BeginRefresh(r) => inner := Some(R.Enter(r));
      case CallRefresh(r) => inner := Some(R.Enter(r));
      case Flight(move) => inner := Some(move);
      case LeaderEnds(r) =>
        if AfterLeader(s, r) != s {
          var t := C.OfFlight(s.flights.callers[r].flight);
          inner := Some(R.RefreshOnceEnds(r, Told(s.cred.tasks[t].outcome)));
        }
      case Abandon(r, _) => inner := Some(R.Drop(r));
      case _ =>
    }
    if Step(s, a).flights == s.flights {
      inner := None;
    }
  }

  lemma RunAppend(s: System, actions: seq<Action>, a: Action)
    ensures Run(s, actions + [a]) == Step(Run(s, actions), a)
  {
    assert (actions + [a])[..|actions|] == actions;
  }
}
