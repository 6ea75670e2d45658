/**
 Credentials under the credential gate (`load_credentials`, `set_tokens`,
 `clear_tokens` of crates/zephyrvox-http/src/client.rs; `refresh_once`,
 `replace_if_current`, `expire_if_current`, `superseded_or_error` of
 crates/zephyrvox-http/src/client/refresh.rs).

 Loads, logins, logouts and refreshes run concurrently, each a task that stops at
 every await: for the gate, for the store, for the token lock, for the server. A task
 may be dropped at any of them. The gate is held across the awaits of one section and
 given up when the section ends or its task is dropped.
 */
module Credentials {
  import opened Common
  import opened Tokens

  /** A task is a refresh leader's work, a request loading credentials, or anything else. */
  datatype TaskId = OfFlight(flight: nat) | LoadOf(request: nat, turn: nat) | Alone(n: nat)

  datatype Outcome = Active(pair: Pair) | Anonymous | Done | AuthRequired | AuthExpired | Failed

  /** What the refresh endpoint answered. */
  datatype Answer = Rotated(pair: Pair) | Unauthorized | Broken

  /** Who asked for the load: a caller of `load_credentials`, or a refresh starting. */
  datatype Purpose = ForCaller | ForRefresh

  datatype Position =
    | LoadQueued(purpose: Purpose)
    | Loading(purpose: Purpose)
    | LoadStoring(purpose: Purpose, loaded: Option<Pair>)
    | LoginQueued(pair: Pair) | LoginSaving(pair: Pair) | LoginStoring(pair: Pair)
    | LogoutQueued | LogoutClearing | LogoutStoring
    /** The refresh request for `expected` is with the server. */
    | Sent(expected: Pair)
    | ReplaceQueued(expected: Pair, pair: Pair)
    | ReplaceSaving(expected: Pair, pair: Pair)
    | ReplaceStoring(expected: Pair, pair: Pair)
    | ExpireQueued(expected: Pair) | ExpireClearing(expected: Pair) | ExpireStoring(expected: Pair)
    | SupersedeQueued(expected: Pair)
    | Ended(outcome: Outcome)

  datatype System = System(
    gate: Option<TaskId>,
    active: Option<Pair>,
    loaded: bool,
    /** What the credential store persists. */
    stored: Option<Pair>,
    /** Every pair ever loaded from the store or accepted by it. */
    known: set<Pair>,
    tasks: map<TaskId, Position>)

  /** The store may already hold a pair when the client starts. */
  function Initial(stored: Option<Pair>): System {
    System(None, None, false, stored, {}, map[])
  }

  datatype Action =
    | Begin(task: TaskId, operation: Position)
    /** The gate is free: take it and run to the next await. */
    | TakeGate(task: TaskId)
    /** The store finished its operation; one that fails may still have taken effect. */
    | StoreAnswers(task: TaskId, ok: bool, effect: bool)
    /** The token lock is free: write the active pair and leave the section. */
    | WriteActive(task: TaskId)
    | ServerAnswers(task: TaskId, answer: Answer)
    /** Drop the task; a store operation under way may have taken effect. */
    | Drop(task: TaskId, effect: bool)
    /** Something outside this client changes what the store persists. */
    | Outside(replaced: Option<Pair>)

  predicate IsStart(p: Position) {
    p.LoadQueued? || p.LoginQueued? || p.LogoutQueued?
  }

  /** Waiting for the store, with the gate held. */
  predicate AtStore(p: Position) {
    p.Loading? || p.LoginSaving? || p.LogoutClearing? || p.ReplaceSaving? || p.ExpireClearing?
  }

  /** Waiting for the token lock, with the gate held and the store done. */
  predicate AtLock(p: Position) {
    p.LoadStoring? || p.LoginStoring? || p.LogoutStoring? || p.ReplaceStoring? || p.ExpireStoring?
  }

  function Move(s: System, task: TaskId, p: Position): System {
    s.(tasks := s.tasks[task := p])
  }

  /** Stop at an await inside the section. */
  function Hold(s: System, task: TaskId, p: Position): System {
    Move(s, task, p).(gate := Some(task))
  }

  function Leave(s: System, task: TaskId, p: Position): System {
    Move(s, task, p).(gate := None)
  }

  /** What a finished load hands on: a refresh without credentials ends at once. */
  function AfterLoad(purpose: Purpose, active: Option<Pair>): Position {
    match (purpose, active)
    case (ForCaller, Some(pair)) => Ended(Active(pair))
    case (ForCaller, None) => Ended(Anonymous)
    case (ForRefresh, Some(pair)) => Sent(pair)
    case (ForRefresh, None) => Ended(AuthRequired)
  }

  /** What a refresh that lost to another pair returns. */
  function Superseded(active: Option<Pair>, otherwise: Outcome): Position {
    if active.Some? then Ended(Active(active.value)) else Ended(otherwise)
  }

  function Enter(s: System, t: TaskId, p: Position): System {
    match p
    case LoadQueued(purpose) =>
      if s.loaded then Move(s, t, AfterLoad(purpose, s.active)) else Hold(s, t, Loading(purpose))
    case LoginQueued(pair) => Hold(s, t, LoginSaving(pair))
    case LogoutQueued => Hold(s, t, LogoutClearing)
    case ReplaceQueued(expected, pair) =>
      if s.active != Some(expected) then Move(s, t, Superseded(s.active, AuthRequired))
      else Hold(s, t, ReplaceSaving(expected, pair))
    case ExpireQueued(expected) =>
      if s.active != Some(expected) then Move(s, t, Superseded(s.active, AuthExpired))
      else Hold(s, t, ExpireClearing(expected))
    case SupersedeQueued(expected) =>
      if s.active.Some? && s.active != Some(expected) then Move(s, t, Ended(Active(s.active.value)))
      else Move(s, t, Ended(Failed))
    case _ => s
  }

  /** What the store persists once the operation has taken effect. */
  function Persisted(s: System, p: Position): Option<Pair> {
    match p
    case LoginSaving(pair) => Some(pair)
    case ReplaceSaving(_, pair) => Some(pair)
    case LogoutClearing => None
    case ExpireClearing(_) => None
    case _ => s.stored
  }

  /** The pair a successful store operation vouches for. */
  function Vouched(s: System, p: Position): set<Pair> {
    var persisted := Persisted(s, p);
    if persisted.Some? then {persisted.value} else {}
  }

  function Answered(s: System, t: TaskId, p: Position): System {
    var s' := s.(stored := Persisted(s, p), known := s.known + Vouched(s, p));
    match p
    case Loading(purpose) => Hold(s', t, LoadStoring(purpose, s.stored))
    case LoginSaving(pair) => Hold(s', t, LoginStoring(pair))
    case LogoutClearing => Hold(s', t, LogoutStoring)
    case ReplaceSaving(expected, pair) => Hold(s', t, ReplaceStoring(expected, pair))
    case ExpireClearing(expected) => Hold(s', t, ExpireStoring(expected))
    case _ => s
  }

  function Write(s: System, t: TaskId, p: Position): System {
    match p
    case LoadStoring(purpose, loaded) =>
      Leave(s, t, AfterLoad(purpose, loaded)).(active := loaded, loaded := true)
    case LoginStoring(pair) => Leave(s, t, Ended(Done)).(active := Some(pair), loaded := true)
    case LogoutStoring => Leave(s, t, Ended(Done)).(active := None, loaded := true)
    case ReplaceStoring(_, pair) =>
      Leave(s, t, Ended(Active(pair))).(active := Some(pair), loaded := true)
    case ExpireStoring(_) => Leave(s, t, Ended(AuthExpired)).(active := None, loaded := true)
    case _ => s
  }

  function Abandon(s: System, t: TaskId, p: Position, effect: bool): System {
    var s' := if effect && s.gate == Some(t) then s.(stored := Persisted(s, p)) else s;
    if s.gate == Some(t) then Leave(s', t, Ended(Failed)) else Move(s', t, Ended(Failed))
  }

  function Reply(s: System, t: TaskId, p: Position, answer: Answer): System {
    if !p.Sent? then s
    else match answer
      case Rotated(pair) => Move(s, t, ReplaceQueued(p.expected, pair))
      case Unauthorized => Move(s, t, ExpireQueued(p.expected))
      case Broken => Move(s, t, SupersedeQueued(p.expected))
  }

  /** One step; an action that is not enabled changes nothing. */
  function Step(s: System, a: Action): System {
    match a
    case Begin(t, operation) =>
      if t in s.tasks || !IsStart(operation) then s else Move(s, t, operation)
    case TakeGate(t) =>
      if t in s.tasks && s.gate == None then Enter(s, t, s.tasks[t]) else s
    case StoreAnswers(t, ok, effect) =>
      if t !in s.tasks || s.gate != Some(t) || !AtStore(s.tasks[t]) then s
      else if ok then Answered(s, t, s.tasks[t])
      else Abandon(s, t, s.tasks[t], effect)
    case WriteActive(t) =>
      if t in s.tasks && s.gate == Some(t) then Write(s, t, s.tasks[t]) else s
    case ServerAnswers(t, answer) =>
      if t in s.tasks then Reply(s, t, s.tasks[t], answer) else s
    case Drop(t, effect) =>
      if t in s.tasks then Abandon(s, t, s.tasks[t], effect) else s
    case Outside(replaced) => s.(stored := replaced)
  }

  /** The step writes the active pair. */
  predicate Writes(s: System, a: Action) {
    a.WriteActive? && a.task in s.tasks && s.gate == Some(a.task) && AtLock(s.tasks[a.task])
  }

  function Run(s: System, actions: seq<Action>): System {
    if |actions| == 0 then s
    else Step(Run(s, actions[..|actions| - 1]), actions[|actions| - 1])
  }

  // ----- what every run keeps --------------------------------------------------------------

  /** Replacing or expiring the pair the refresh was begun from. */
  predicate Committing(p: Position) {
    p.ReplaceSaving? || p.ReplaceStoring? || p.ExpireClearing? || p.ExpireStoring?
  }

  /** The pair about to become active has been loaded or accepted by the store. */
  predicate VouchedFor(known: set<Pair>, p: Position) {
    match p
    case LoadStoring(_, loaded) => loaded.Some? ==> loaded.value in known
    case LoginStoring(pair) => pair in known
    case ReplaceStoring(_, pair) => pair in known
    case _ => true
  }

  /** What holds of one task, whatever the others do. */
  predicate TaskOk(s: System, t: TaskId, p: Position) {
    && (AtStore(p) || AtLock(p) ==> s.gate == Some(t))
    && (Committing(p) ==> s.active == Some(p.expected))
    && (p.Loading? || p.LoadStoring? ==> !s.loaded)
    && VouchedFor(s.known, p)
  }

  ghost predicate Invariant(s: System) {
    && (s.active.Some? ==> s.active.value in s.known)
    && (!s.loaded ==> s.active == None)
    && (s.gate.Some? ==>
          s.gate.value in s.tasks && (AtStore(s.tasks[s.gate.value]) || AtLock(s.tasks[s.gate.value])))
    && (forall t :: t in s.tasks ==> TaskOk(s, t, s.tasks[t]))
  }

  lemma InitialInvariant(stored: Option<Pair>)
    ensures Invariant(Initial(stored))
  {
  }

  /** A task outside the gate does not notice what the one inside does. */
  lemma OthersKeep(s: System, s': System, t: TaskId)
    requires Invariant(s) && t in s'.tasks
    requires forall u :: u in s'.tasks && u != t ==> u in s.tasks && s'.tasks[u] == s.tasks[u]
    requires s.known <= s'.known
    requires s.gate in {None, Some(t)} || s'.gate == s.gate
    requires (s'.active == s.active && s'.loaded == s.loaded) || s.gate == Some(t)
    requires TaskOk(s', t, s'.tasks[t])
    ensures forall u :: u in s'.tasks ==> TaskOk(s', u, s'.tasks[u])
  {
    forall u | u in s'.tasks && u != t ensures TaskOk(s', u, s'.tasks[u]) {
      assert TaskOk(s, u, s.tasks[u]);
    }
  }

  lemma EnterKeeps(s: System, t: TaskId)
    requires Invariant(s) && t in s.tasks && s.gate == None
    ensures Invariant(Enter(s, t, s.tasks[t]))
  {
    assert TaskOk(s, t, s.tasks[t]);
    OthersKeep(s, Enter(s, t, s.tasks[t]), t);
  }

  lemma AnsweredKeeps(s: System, t: TaskId)
    requires Invariant(s) && t in s.tasks && s.gate == Some(t) && AtStore(s.tasks[t])
    ensures Invariant(Answered(s, t, s.tasks[t]))
  {
    assert TaskOk(s, t, s.tasks[t]);
    OthersKeep(s, Answered(s, t, s.tasks[t]), t);
  }

  lemma WriteKeeps(s: System, t: TaskId)
    requires Invariant(s) && t in s.tasks && s.gate == Some(t)
    ensures Invariant(Write(s, t, s.tasks[t]))
  {
    assert TaskOk(s, t, s.tasks[t]);
    OthersKeep(s, Write(s, t, s.tasks[t]), t);
  }

  lemma AbandonKeeps(s: System, t: TaskId, effect: bool)
    requires Invariant(s) && t in s.tasks
    ensures Invariant(Abandon(s, t, s.tasks[t], effect))
  {
    assert TaskOk(s, t, s.tasks[t]);
    OthersKeep(s, Abandon(s, t, s.tasks[t], effect), t);
  }

  lemma MoveKeeps(s: System, t: TaskId, p: Position)
    requires Invariant(s) && s.gate != Some(t) && !AtStore(p) && !AtLock(p)
    ensures Invariant(Move(s, t, p))
  {
    OthersKeep(s, Move(s, t, p), t);
  }

  /** Every step of every task, including being dropped, keeps the invariant. */
  lemma StepKeepsInvariant(s: System, a: Action)
    requires Invariant(s)
    ensures Invariant(Step(s, a))
  {
    hide Enter, Answered, Write, Abandon;
    match a
    case Begin(t, operation) => if Step(s, a) != s { MoveKeeps(s, t, operation); }
    case TakeGate(t) => if t in s.tasks && s.gate == None { EnterKeeps(s, t); }
    case StoreAnswers(t, ok, effect) =>
      if t in s.tasks && s.gate == Some(t) && AtStore(s.tasks[t]) {
        if ok { AnsweredKeeps(s, t); } else { AbandonKeeps(s, t, effect); }
      }
    case WriteActive(t) => if t in s.tasks && s.gate == Some(t) { WriteKeeps(s, t); }
    case ServerAnswers(t, answer) =>
      if t in s.tasks && s.tasks[t].Sent? { MoveKeeps(s, t, Reply(s, t, s.tasks[t], answer).tasks[t]); }
    case Drop(t, effect) => if t in s.tasks { AbandonKeeps(s, t, effect); }
    case Outside(replaced) =>
      forall t | t in s.tasks ensures TaskOk(Step(s, a), t, s.tasks[t]) {
        assert TaskOk(s, t, s.tasks[t]);
      }
  }

  lemma {:induction false} ReachableInvariant(stored: Option<Pair>, actions: seq<Action>)
    ensures Invariant(Run(Initial(stored), actions))
  {
    if |actions| == 0 {
      InitialInvariant(stored);
    } else {
      ReachableInvariant(stored, actions[..|actions| - 1]);
      StepKeepsInvariant(Run(Initial(stored), actions[..|actions| - 1]), actions[|actions| - 1]);
    }
  }

  /** Over every run, the active pair was loaded from the store or accepted by it. */
  lemma ActiveIsVouchedFor(stored: Option<Pair>, actions: seq<Action>)
    ensures var s := Run(Initial(stored), actions);
            s.active.Some? ==> s.active.value in s.known
  {
    ReachableInvariant(stored, actions);
  }

  // ----- a refresh and a login racing ------------------------------------------------------

  /** The pair a refresh was begun from. */
  function RefreshOf(p: Position): Option<Pair> {
    if p.Sent? || p.ReplaceQueued? || p.ExpireQueued? || p.SupersedeQueued? || Committing(p)
    then Some(p.expected)
    else None
  }

  /** The position from which the action's task acts. */
  function Acting(s: System, a: Action): Option<Position> {
    if !a.Outside? && a.task in s.tasks then Some(s.tasks[a.task]) else None
  }

  /**
   Compare and swap: a refresh begun from `expected` changes the active pair, or makes
   the store change, only while `expected` is still the active pair.
   */
  lemma RefreshTouchesOnlyItsOwn(s: System, a: Action, expected: Pair)
    requires Invariant(s)
    requires Acting(s, a).Some? && RefreshOf(Acting(s, a).value) == Some(expected)
    requires s.active != Some(expected)
    ensures Step(s, a).active == s.active
    ensures Step(s, a).stored == s.stored
  {
    assert TaskOk(s, a.task, s.tasks[a.task]);
  }

  /**
   A refresh that returns a pair returns the one active at that moment: its own rotated
   pair, or the one it lost to.
   */
  lemma RefreshReturnsTheActivePair(s: System, a: Action)
    requires Invariant(s)
    requires Acting(s, a).Some? && RefreshOf(Acting(s, a).value).Some?
    requires Step(s, a).tasks[a.task].Ended? && Step(s, a).tasks[a.task].outcome.Active?
    ensures Step(s, a).active == Some(Step(s, a).tasks[a.task].outcome.pair)
  {
    assert TaskOk(s, a.task, s.tasks[a.task]);
  }

  /** Who may unseat `pair`: a refresh begun from it, a login or a logout. */
  predicate MayUnseat(p: Position, pair: Pair) {
    RefreshOf(p) == Some(pair) || p.LoginStoring? || p.LogoutStoring?
  }

  /** Whether no step of the run is a login, a logout or a refresh begun from `pair`. */
  predicate Undisputed(s: System, actions: seq<Action>, pair: Pair) {
    |actions| == 0 ||
    var n := |actions| - 1;
    var acting := Acting(Run(s, actions[..n]), actions[n]);
    && Undisputed(s, actions[..n], pair)
    && (acting.Some? ==> !MayUnseat(acting.value, pair))
  }

  /**
   A login is neither overwritten by the success of an older refresh nor cleared by its
   rejection: however the run goes on, the pair stays active until a login, a logout or
   a refresh begun from that very pair.
   */
  lemma {:induction false} LoginSurvivesOlderRefresh(s: System, actions: seq<Action>, pair: Pair)
    requires Invariant(s) && s.active == Some(pair)
    requires Undisputed(s, actions, pair)
    ensures Run(s, actions).active == Some(pair)
    ensures Invariant(Run(s, actions))
  {
    if |actions| > 0 {
      var n := |actions| - 1;
      LoginSurvivesOlderRefresh(s, actions[..n], pair);
      var m, a := Run(s, actions[..n]), actions[n];
      StepKeepsInvariant(m, a);
      if Acting(m, a).Some? {
        assert TaskOk(m, a.task, m.tasks[a.task]);
      }
    }
  }

  /** The server has answered, and the refresh waits for the gate to act on the answer. */
  predicate AnswerIn(p: Position) {
    p.ReplaceQueued? || p.ExpireQueued? || p.SupersedeQueued?
  }

  /**
   A refresh that finds another pair active returns that pair, whatever the server
   answered, and touches nothing.
   */
  lemma LoserReturnsTheWinner(s: System, t: TaskId, expected: Pair, winner: Pair)
    requires t in s.tasks && s.gate == None && AnswerIn(s.tasks[t])
    requires RefreshOf(s.tasks[t]) == Some(expected)
    requires s.active == Some(winner) && winner != expected
    ensures Step(s, TakeGate(t)) == s.(tasks := s.tasks[t := Ended(Active(winner))])
  {
  }

  /** A refresh that finds no pair active reports what its own answer makes of that. */
  lemma NothingActiveIsReported(s: System, t: TaskId)
    requires t in s.tasks && s.gate == None && AnswerIn(s.tasks[t]) && s.active == None
    ensures Step(s, TakeGate(t))
         == s.(tasks := s.tasks[t := Ended(if s.tasks[t].ReplaceQueued? then AuthRequired
                                           else if s.tasks[t].ExpireQueued? then AuthExpired
                                           else Failed)])
  {
  }

  /** After a broken answer the refresh fails exactly when no other pair is active. */
  lemma BrokenAnswerFailsExactly(s: System, t: TaskId, expected: Pair)
    requires t in s.tasks && s.gate == None && s.tasks[t] == SupersedeQueued(expected)
    ensures var next := Step(s, TakeGate(t));
      && next == s.(tasks := next.tasks) && next.tasks.Keys == s.tasks.Keys
      && next.tasks[t].Ended?
      && (next.tasks[t].outcome == Failed <==> s.active == None || s.active == Some(expected))
  {
  }

  /** A refresh whose load has nothing to wait for asks the server with the active pair, or has none. */
  lemma RefreshAsksExactly(s: System, t: TaskId)
    requires t in s.tasks && s.gate == None && s.loaded && s.tasks[t] == LoadQueued(ForRefresh)
    ensures Step(s, TakeGate(t))
         == s.(tasks := s.tasks[t := match s.active
                                     case Some(pair) => Sent(pair)
                                     case None => Ended(AuthRequired)])
  {
  }

  /** So does one that had to load first, with what the store held. */
  lemma FirstRefreshAsksExactly(s: System, t: TaskId)
    requires t in s.tasks && s.gate == None && !s.loaded && s.tasks[t] == LoadQueued(ForRefresh)
    ensures var next := Step(Step(Step(s, TakeGate(t)), StoreAnswers(t, true, true)), WriteActive(t));
      && next.active == s.stored && next.loaded && next.gate == None && next.stored == s.stored
      && next.tasks[t] == match s.stored
                          case Some(pair) => Sent(pair)
                          case None => Ended(AuthRequired)
  {
  }

  /**
   A refresh overtaken by a login: however the run goes on, while the login's pair is
   undisputed the refresh is either still on its way or has returned that pair.
   */
  lemma {:induction false} OvertakenRefreshReturnsLogin(s: System, actions: seq<Action>, t: TaskId,
                                                        expected: Pair, login: Pair)
    requires Invariant(s) && s.active == Some(login) && login != expected
    requires t in s.tasks && RefreshOf(s.tasks[t]) == Some(expected)
    requires Undisputed(s, actions, login)
    requires forall a :: a in actions && a.Drop? ==> a.task != t
    ensures var next := Run(s, actions);
      && t in next.tasks
      && (next.tasks[t] == Ended(Active(login)) || RefreshOf(next.tasks[t]) == Some(expected))
  {
    hide Undisputed, Step, Invariant;
    if |actions| > 0 {
      var n := |actions| - 1;
      assert actions[n] in actions && forall a :: a in actions[..n] ==> a in actions;
      UndisputedPrefix(s, actions, login);
      OvertakenRefreshReturnsLogin(s, actions[..n], t, expected, login);
      LoginSurvivesOlderRefresh(s, actions[..n], login);
      OvertakenStep(Run(s, actions[..n]), actions[n], t, expected, login);
    }
  }

  lemma UndisputedPrefix(s: System, actions: seq<Action>, pair: Pair)
    requires |actions| > 0 && Undisputed(s, actions, pair)
    ensures Undisputed(s, actions[..|actions| - 1], pair)
  {
  }

  lemma OvertakenStep(s: System, a: Action, t: TaskId, expected: Pair, login: Pair)
    requires Invariant(s) && s.active == Some(login) && login != expected
    requires t in s.tasks && !(a.Drop? && a.task == t)
    requires s.tasks[t] == Ended(Active(login)) || RefreshOf(s.tasks[t]) == Some(expected)
    ensures t in Step(s, a).tasks
    ensures Step(s, a).tasks[t] == Ended(Active(login)) || RefreshOf(Step(s, a).tasks[t]) == Some(expected)
  {
    assert TaskOk(s, t, s.tasks[t]);
  }

  // ----- what one step does to the other tasks ---------------------------------------------

  lemma TaskStays(s: System, a: Action, t: TaskId)
    requires t in s.tasks && (a.Outside? || a.task != t)
    ensures t in Step(s, a).tasks && Step(s, a).tasks[t] == s.tasks[t]
  {
  }

  lemma TaskRemains(s: System, a: Action)
    requires !a.Outside? && a.task in s.tasks
    ensures a.task in Step(s, a).tasks
  {
  }

  /** Tasks are never forgotten, and a step moves only the task it is of. */
  lemma StepKeepsTasks(s: System, a: Action)
    ensures forall t :: t in s.tasks ==>
              t in Step(s, a).tasks
              && (Step(s, a).tasks[t] == s.tasks[t] || (!a.Outside? && a.task == t))
  {
    hide Step;
    forall t | t in s.tasks
      ensures t in Step(s, a).tasks
      ensures Step(s, a).tasks[t] == s.tasks[t] || (!a.Outside? && a.task == t)
    {
      if a.Outside? || a.task != t { TaskStays(s, a, t); } else { TaskRemains(s, a); }
    }
  }

  lemma StepAddsTasks(s: System, a: Action)
    ensures forall t :: t in Step(s, a).tasks ==>
              t in s.tasks || (a.Begin? && a.task == t && Step(s, a).tasks[t] == a.operation)
  {
  }

  lemma StepKeepsActive(s: System, a: Action)
    ensures !Writes(s, a) ==> Step(s, a).active == s.active
  {
  }

  lemma BeginFrame(s: System, t: TaskId, operation: Position)
    requires t !in s.tasks && IsStart(operation)
    ensures Step(s, Begin(t, operation)) == Move(s, t, operation)
  {
  }

  /** A task that was not there before has only begun. */
  lemma BegunIsNotEnded(s: System, a: Action, t: TaskId)
    requires t !in s.tasks && t in Step(s, a).tasks
    ensures !Step(s, a).tasks[t].Ended?
  {
  }

  lemma EndedStays(s: System, a: Action, t: TaskId)
    requires t in s.tasks && s.tasks[t].Ended? && !(a.Drop? && a.task == t)
    ensures t in Step(s, a).tasks && Step(s, a).tasks[t] == s.tasks[t]
  {
  }

  lemma DroppedFails(s: System, t: TaskId, effect: bool)
    requires t in s.tasks
    ensures var next := Step(s, Drop(t, effect));
            && next.tasks == s.tasks[t := Ended(Failed)] && next.active == s.active
  {
  }

  /** Any task that ends with a pair, ends while that pair is active. */
  lemma EndsWithActive(s: System, a: Action, t: TaskId)
    requires Invariant(s) && t in s.tasks && !s.tasks[t].Ended?
    requires t in Step(s, a).tasks && Step(s, a).tasks[t].Ended?
    requires Step(s, a).tasks[t].outcome.Active?
    ensures Step(s, a).active == Some(Step(s, a).tasks[t].outcome.pair)
  {
    assert TaskOk(s, t, s.tasks[t]);
  }

  /** A refresh goes to the server with the pair then active, straight from its load. */
  lemma AsksWithActive(s: System, a: Action, t: TaskId)
    requires Invariant(s) && t in s.tasks && !s.tasks[t].Sent?
    requires t in Step(s, a).tasks && Step(s, a).tasks[t].Sent?
    ensures Step(s, a).active == Some(Step(s, a).tasks[t].expected)
    ensures RefreshOf(s.tasks[t]) == None && !s.tasks[t].Ended?
  {
    assert TaskOk(s, t, s.tasks[t]);
  }

  /** While its pair stays active, a refresh is on its way until it has failed. */
  lemma RefreshProgress(s: System, a: Action, t: TaskId, expected: Pair)
    requires Invariant(s) && t in s.tasks && RefreshOf(s.tasks[t]) == Some(expected)
    requires s.active == Some(expected) && !Writes(s, a)
    ensures t in Step(s, a).tasks
    ensures Step(s, a).tasks[t] == Ended(Failed) || RefreshOf(Step(s, a).tasks[t]) == Some(expected)
  {
    assert TaskOk(s, t, s.tasks[t]);
  }

  // ----- agreement with the store ----------------------------------------------------------

  /** What the store will hold once the task has left its section. */
  function SettledValue(s: System, p: Position): Option<Option<Pair>> {
    match p
    case LoadStoring(_, loaded) => Some(loaded)
    case LoginStoring(pair) => Some(Some(pair))
    case ReplaceStoring(_, pair) => Some(Some(pair))
    case LogoutStoring => Some(None)
    case ExpireStoring(_) => Some(None)
    case _ => if s.loaded then Some(s.active) else None
  }

  /** The value the store ought to hold now; none before anything was loaded. */
  function Expected(s: System): Option<Option<Pair>> {
    if s.gate.Some? && s.gate.value in s.tasks then SettledValue(s, s.tasks[s.gate.value])
    else if s.loaded then Some(s.active)
    else None
  }

  /** Between sections the loaded pair is the stored one; inside, the one about to be active. */
  predicate Synced(s: System) {
    Expected(s).Some? ==> s.stored == Expected(s).value
  }

  /** Leaving the section now, with the store operation in effect or not, strands the active pair. */
  predicate Strands(s: System, t: TaskId, effect: bool) {
    && t in s.tasks && s.gate == Some(t) && s.loaded
    && (if effect then Persisted(s, s.tasks[t]) else s.stored) != s.active
  }

  /**
   What sets memory and store apart: a task dropped, or failed by the store, inside its
   section when the store already holds something other than the loaded pair; or a write
   from outside of something the client does not expect.
   */
  predicate Diverges(s: System, a: Action) {
    match a
    case Drop(t, effect) => Strands(s, t, effect)
    case StoreAnswers(t, ok, effect) =>
      !ok && Strands(s, t, effect) && AtStore(s.tasks[t])
    case Outside(replaced) => Expected(s).Some? && replaced != Expected(s).value
    case _ => false
  }

  /** Those steps and no others lose the agreement. */
  lemma StepLosesSyncExactly(s: System, a: Action)
    requires Invariant(s) && Synced(s)
    ensures Synced(Step(s, a)) <==> !Diverges(s, a)
  {
    hide Step, Synced, Diverges;
    assert Acting(s, a).Some? ==> TaskOk(s, a.task, s.tasks[a.task]);
    TaskLosesSyncExactly(s, a);
  }

  /** One task's step needs to know of that task and of who holds the gate. */
  lemma TaskLosesSyncExactly(s: System, a: Action)
    requires s.gate.Some? ==> s.gate.value in s.tasks
    requires Acting(s, a).Some? ==> TaskOk(s, a.task, s.tasks[a.task])
    requires Synced(s)
    ensures Synced(Step(s, a)) <==> !Diverges(s, a)
  {
    hide Enter, Answered, Write, Abandon, Reply, Synced, Expected, TaskOk, Strands, Persisted;
    match a {
      case Begin(t, operation) => if Step(s, a) != s { OutsideKeepsSync(s, t, operation); }
      case TakeGate(t) => if t in s.tasks && s.gate == None { EnterKeepsSync(s, t); }
      case StoreAnswers(t, ok, effect) =>
        if t in s.tasks && s.gate == Some(t) && AtStore(s.tasks[t]) {
          AnsweredSyncs(s, t);
          AbandonLosesSyncExactly(s, t, effect);
        } else {
          StrandsInside(s, t, effect);
        }
      case WriteActive(t) => if t in s.tasks && s.gate == Some(t) { WriteSyncs(s, t); }
      case ServerAnswers(t, answer) => if t in s.tasks { ReplyKeepsSync(s, t, answer); }
      case Drop(t, effect) =>
        if t in s.tasks { AbandonLosesSyncExactly(s, t, effect); } else { StrandsInside(s, t, effect); }
      case Outside(replaced) => OutsideWriteLosesExactly(s, replaced);
    }
  }

  lemma StrandsInside(s: System, t: TaskId, effect: bool)
    ensures Strands(s, t, effect) ==> t in s.tasks && s.gate == Some(t)
  {
  }

  lemma OutsideKeepsSync(s: System, t: TaskId, p: Position)
    requires Synced(s) && s.gate != Some(t)
    ensures Synced(Move(s, t, p))
  {
  }

  lemma EnterKeepsSync(s: System, t: TaskId)
    requires Synced(s) && t in s.tasks && s.gate == None && TaskOk(s, t, s.tasks[t])
    ensures Synced(Enter(s, t, s.tasks[t]))
  {
  }

  lemma AnsweredSyncs(s: System, t: TaskId)
    requires t in s.tasks && s.gate == Some(t) && AtStore(s.tasks[t])
    ensures Synced(Answered(s, t, s.tasks[t]))
  {
  }

  lemma WriteSyncs(s: System, t: TaskId)
    requires Synced(s) && t in s.tasks && s.gate == Some(t)
    ensures Synced(Write(s, t, s.tasks[t]))
  {
  }

  lemma ReplyKeepsSync(s: System, t: TaskId, answer: Answer)
    requires Synced(s) && t in s.tasks && TaskOk(s, t, s.tasks[t])
    ensures Synced(Reply(s, t, s.tasks[t], answer))
  {
  }

  lemma AbandonLosesSyncExactly(s: System, t: TaskId, effect: bool)
    requires Synced(s) && t in s.tasks && TaskOk(s, t, s.tasks[t])
    requires s.gate.Some? ==> s.gate.value in s.tasks
    ensures Synced(Abandon(s, t, s.tasks[t], effect)) <==> !Strands(s, t, effect)
  {
  }

  lemma OutsideWriteLosesExactly(s: System, replaced: Option<Pair>)
    ensures Synced(s.(stored := replaced))
       <==> !(Expected(s).Some? && replaced != Expected(s).value)
  {
  }

  /** Memory and store agree after every step of the run. */
  predicate AlwaysSynced(s: System, actions: seq<Action>) {
    Synced(Run(s, actions)) && (|actions| > 0 ==> AlwaysSynced(s, actions[..|actions| - 1]))
  }

  predicate NeverDiverges(s: System, actions: seq<Action>) {
    |actions| == 0 ||
    var n := |actions| - 1;
    NeverDiverges(s, actions[..n]) && !Diverges(Run(s, actions[..n]), actions[n])
  }

  /** Over every run: memory and store always agree exactly when no step sets them apart. */
  lemma {:induction false} AgreementExactly(stored: Option<Pair>, actions: seq<Action>)
    ensures AlwaysSynced(Initial(stored), actions) <==> NeverDiverges(Initial(stored), actions)
  {
    hide Synced, Diverges, Step;
    var s := Initial(stored);
    if |actions| == 0 {
      assert Synced(s) by { InitialIsSynced(stored); }
    } else {
      var n := |actions| - 1;
      AgreementExactly(stored, actions[..n]);
      ReachableInvariant(stored, actions[..n]);
      AlwaysAtEnd(s, actions[..n]);
      if AlwaysSynced(s, actions[..n]) {
        StepLosesSyncExactly(Run(s, actions[..n]), actions[n]);
      }
    }
  }

  lemma InitialIsSynced(stored: Option<Pair>)
    ensures Synced(Initial(stored))
  {
  }

  lemma AlwaysAtEnd(s: System, actions: seq<Action>)
    ensures AlwaysSynced(s, actions) ==> Synced(Run(s, actions))
  {
  }

  /** A section that runs to its end repairs whatever came before it. */
  lemma FinishedSectionAgrees(s: System, t: TaskId)
    requires t in s.tasks && s.gate == Some(t) && AtStore(s.tasks[t])
    ensures Synced(Step(Step(s, StoreAnswers(t, true, true)), WriteActive(t)))
  {
    var answered := Step(s, StoreAnswers(t, true, true));
    assert AtLock(answered.tasks[t]) && Synced(answered);
  }

  lemma RunAppend(s: System, actions: seq<Action>, a: Action)
    ensures Run(s, actions + [a]) == Step(Run(s, actions), a)
  {
    assert (actions + [a])[..|actions|] == actions;
  }

  function EmptyLoad(): seq<Action> {
    [] + [Begin(Alone(0), LoadQueued(ForCaller))] + [TakeGate(Alone(0))] + [StoreAnswers(Alone(0), true, true)]
    + [WriteActive(Alone(0))]
  }

  function DroppedLogin(pair: Pair): seq<Action> {
    EmptyLoad() + [Begin(Alone(1), LoginQueued(pair))] + [TakeGate(Alone(1))] + [Drop(Alone(1), true)]
  }

  const EMPTY_LOADED := System(None, None, true, None, {}, map[Alone(0) := Ended(Anonymous)])

  lemma EmptyLoadRuns()
    ensures Run(Initial(None), EmptyLoad()) == EMPTY_LOADED
  {
    var start := Initial(None);
    var r0: seq<Action> := [];
    RunAppend(start, r0, Begin(Alone(0), LoadQueued(ForCaller)));
    var r1 := r0 + [Begin(Alone(0), LoadQueued(ForCaller))];
    assert Run(start, r1) == System(None, None, false, None, {}, map[Alone(0) := LoadQueued(ForCaller)]);
    RunAppend(start, r1, TakeGate(Alone(0)));
    var r2 := r1 + [TakeGate(Alone(0))];
    assert Run(start, r2) == System(Some(Alone(0)), None, false, None, {}, map[Alone(0) := Loading(ForCaller)]);
    RunAppend(start, r2, StoreAnswers(Alone(0), true, true));
    var r3 := r2 + [StoreAnswers(Alone(0), true, true)];
    assert Run(start, r3)
        == System(Some(Alone(0)), None, false, None, {}, map[Alone(0) := LoadStoring(ForCaller, None)]);
    RunAppend(start, r3, WriteActive(Alone(0)));
  }

  /**
   Such a run: a login dropped after its save took effect leaves its pair stored and the
   old state active.
   */
  lemma DroppedLoginDiverges(pair: Pair)
    ensures var s := Run(Initial(None), DroppedLogin(pair));
            s.gate == None && s.loaded && s.active == None && s.stored == Some(pair)
  {
    hide Run;
    EmptyLoadRuns();
    var start := Initial(None);
    var r4 := EmptyLoad();
    RunAppend(start, r4, Begin(Alone(1), LoginQueued(pair)));
    var r5 := r4 + [Begin(Alone(1), LoginQueued(pair))];
    RunAppend(start, r5, TakeGate(Alone(1)));
    var r6 := r5 + [TakeGate(Alone(1))];
    assert Run(start, r6) == Hold(Move(EMPTY_LOADED, Alone(1), LoginQueued(pair)), Alone(1), LoginSaving(pair));
    RunAppend(start, r6, Drop(Alone(1), true));
  }
}
