/**
 The credential sections as the code they are: fields updated under the gate
 (crates/zephyrvox-http/src/client.rs, crates/zephyrvox-http/src/client/refresh.rs). Run
 without interruption, each method comes to what its task's steps in `Credentials` come
 to; `Credentials` says what interruption does.
 */
module CredentialStates {
  import opened Common
  import opened Credentials
  import opened Tokens

  /** The task enters its section and runs to the end of it. */
  function Section(s: System, ok: bool): System {
    Step(Step(Step(s, TakeGate(Alone(0))), StoreAnswers(Alone(0), ok, false)), WriteActive(Alone(0)))
  }

  /** A whole refresh by one task. */
  function RefreshAlone(s: System, loadOk: bool, answer: Answer, storeOk: bool): System {
    Section(Step(Section(Move(s, Alone(0), LoadQueued(ForRefresh)), loadOk), ServerAnswers(Alone(0), answer)), storeOk)
  }

  /** A section that ends as soon as it is entered leaves the rest without effect. */
  lemma SectionEndsAtOnce(s: System, p: Position, ok: bool)
    requires s.gate == None && s.tasks == map[Alone(0) := p]
    requires Enter(s, Alone(0), p).gate == None && Alone(0) in Enter(s, Alone(0), p).tasks
    ensures Section(s, ok) == Enter(s, Alone(0), p)
  {
    hide Enter;
  }

  /** What `replace_if_current` comes to. */
  lemma ReplaceSection(s: System, expected: Pair, pair: Pair, ok: bool)
    requires s.gate == None && s.tasks == map[Alone(0) := ReplaceQueued(expected, pair)]
    ensures Section(s, ok)
         == if s.active != Some(expected)
            then s.(tasks := map[Alone(0) := Superseded(s.active, AuthRequired)])
            else if !ok then s.(tasks := map[Alone(0) := Ended(Credentials.Failed)])
            else System(None, Some(pair), true, Some(pair), s.known + {pair},
                        map[Alone(0) := Ended(Active(pair))])
  {
    if s.active != Some(expected) {
      hide Section;
      SectionEndsAtOnce(s, ReplaceQueued(expected, pair), ok);
    } else {
      ReplaceCurrent(s, expected, pair, ok);
    }
  }

  lemma ReplaceCurrent(s: System, expected: Pair, pair: Pair, ok: bool)
    requires s.gate == None && s.tasks == map[Alone(0) := ReplaceQueued(expected, pair)]
    requires s.active == Some(expected)
    ensures Section(s, ok)
         == if !ok then s.(tasks := map[Alone(0) := Ended(Credentials.Failed)])
            else System(None, Some(pair), true, Some(pair), s.known + {pair},
                        map[Alone(0) := Ended(Active(pair))])
  {
    var entered := Step(s, TakeGate(Alone(0)));
    assert entered.tasks == map[Alone(0) := ReplaceSaving(expected, pair)];
    if ok {
      var saved := Step(entered, StoreAnswers(Alone(0), true, false));
      assert saved.tasks == map[Alone(0) := ReplaceStoring(expected, pair)];
    }
  }

  /** What `expire_if_current` comes to. */
  lemma ExpireSection(s: System, expected: Pair, ok: bool)
    requires s.gate == None && s.tasks == map[Alone(0) := ExpireQueued(expected)]
    ensures Section(s, ok)
         == if s.active != Some(expected)
            then s.(tasks := map[Alone(0) := Superseded(s.active, AuthExpired)])
            else if !ok then s.(tasks := map[Alone(0) := Ended(Credentials.Failed)])
            else System(None, None, true, None, s.known, map[Alone(0) := Ended(AuthExpired)])
  {
    if s.active != Some(expected) {
      hide Section;
      SectionEndsAtOnce(s, ExpireQueued(expected), ok);
    } else {
      ExpireCurrent(s, expected, ok);
    }
  }

  lemma ExpireCurrent(s: System, expected: Pair, ok: bool)
    requires s.gate == None && s.tasks == map[Alone(0) := ExpireQueued(expected)]
    requires s.active == Some(expected)
    ensures Section(s, ok)
         == if !ok then s.(tasks := map[Alone(0) := Ended(Credentials.Failed)])
            else System(None, None, true, None, s.known, map[Alone(0) := Ended(AuthExpired)])
  {
    var entered := Step(s, TakeGate(Alone(0)));
    assert entered.tasks == map[Alone(0) := ExpireClearing(expected)];
    if ok {
      var cleared := Step(entered, StoreAnswers(Alone(0), true, false));
      assert cleared.tasks == map[Alone(0) := ExpireStoring(expected)];
    }
  }

  /** What `superseded_or_error` comes to; the store is not asked, whatever it would answer. */
  lemma SupersedeSection(s: System, expected: Pair, ok: bool)
    requires s.gate == None && s.tasks == map[Alone(0) := SupersedeQueued(expected)]
    ensures Section(s, ok)
         == s.(tasks := map[Alone(0) :=
              Ended(match s.active
                    case None => Credentials.Failed
                    case Some(pair) => if pair == expected then Credentials.Failed else Active(pair))])
  {
    hide Section;
    SectionEndsAtOnce(s, SupersedeQueued(expected), ok);
  }

  /** What `set_tokens` comes to. */
  lemma LoginSection(s: System, pair: Pair, ok: bool)
    requires s.gate == None && s.tasks == map[Alone(0) := LoginQueued(pair)]
    ensures Section(s, ok)
         == if !ok then s.(tasks := map[Alone(0) := Ended(Credentials.Failed)])
            else System(None, Some(pair), true, Some(pair), s.known + {pair},
                        map[Alone(0) := Ended(Done)])
  {
    var entered := Step(s, TakeGate(Alone(0)));
    assert entered.tasks == map[Alone(0) := LoginSaving(pair)];
    if ok {
      var saved := Step(entered, StoreAnswers(Alone(0), true, false));
      assert saved.tasks == map[Alone(0) := LoginStoring(pair)];
    }
  }

  /** What `clear_tokens` comes to. */
  lemma ClearSection(s: System, ok: bool)
    requires s.gate == None && s.tasks == map[Alone(0) := LogoutQueued]
    ensures Section(s, ok)
         == if !ok then s.(tasks := map[Alone(0) := Ended(Credentials.Failed)])
            else System(None, None, true, None, s.known, map[Alone(0) := Ended(Done)])
  {
    var entered := Step(s, TakeGate(Alone(0)));
    assert entered.tasks == map[Alone(0) := LogoutClearing];
    if ok {
      var cleared := Step(entered, StoreAnswers(Alone(0), true, false));
      assert cleared.tasks == map[Alone(0) := LogoutStoring];
    }
  }

  /** What `load_credentials` comes to. */
  lemma LoadSection(s: System, purpose: Purpose, ok: bool)
    requires s.gate == None && s.tasks == map[Alone(0) := LoadQueued(purpose)]
    ensures Section(s, ok)
         == if s.loaded then s.(tasks := map[Alone(0) := AfterLoad(purpose, s.active)])
            else if !ok then s.(tasks := map[Alone(0) := Ended(Credentials.Failed)])
            else System(None, s.stored, true, s.stored,
                        s.known + (if s.stored.Some? then {s.stored.value} else {}),
                        map[Alone(0) := AfterLoad(purpose, s.stored)])
  {
    var entered := Step(s, TakeGate(Alone(0)));
    if !s.loaded {
      assert entered.tasks == map[Alone(0) := Loading(purpose)];
      if ok {
        var answered := Step(entered, StoreAnswers(Alone(0), true, false));
        assert answered.tasks == map[Alone(0) := LoadStoring(purpose, s.stored)];
      }
    }
  }

  class CredentialState {
    var active: Option<Pair>
    var loaded: bool
    /** What the credential store persists. */
    var stored: Option<Pair>
    ghost var known: set<Pair>

    ghost function View(tasks: map<TaskId, Position>): System
      reads this
    {
      System(None, active, loaded, stored, known, tasks)
    }

    constructor (stored: Option<Pair>)
      ensures View(map[]) == Initial(stored)
    {
      active, loaded, this.stored, known := None, false, stored, {};
    }

    method Save(pair: Pair, ok: bool) returns (saved: bool)
      modifies this`stored, this`known
      ensures saved == ok
      ensures stored == if ok then Some(pair) else old(stored)
      ensures known == if ok then old(known) + {pair} else old(known)
    {
      if ok {
        stored := Some(pair);
        known := known + {pair};
      }
      return ok;
    }

    method LoadCredentials(ok: bool) returns (r: Result<Option<Pair>, Outcome>)
      modifies this
      ensures View(map[Alone(0) := Ended(match r
                                  case Ok(Some(pair)) => Active(pair)
                                  case Ok(None) => Anonymous
                                  case Err(outcome) => outcome)])
           == Section(old(View(map[Alone(0) := LoadQueued(ForCaller)])), ok)
      ensures View(map[Alone(0) := match r
                            case Ok(Some(pair)) => Sent(pair)
                            case Ok(None) => Ended(AuthRequired)
                            case Err(outcome) => Ended(outcome)])
           == Section(old(View(map[Alone(0) := LoadQueued(ForRefresh)])), ok)
    {
      hide Section;
      LoadSection(View(map[Alone(0) := LoadQueued(ForCaller)]), ForCaller, ok);
      LoadSection(View(map[Alone(0) := LoadQueued(ForRefresh)]), ForRefresh, ok);
      if !loaded {
        if !ok {
          return Err(Credentials.Failed);
        }
        if stored.Some? {
          known := known + {stored.value};
        }
        active := stored;
        loaded := true;
      }
      return Ok(active);
    }

    method SetTokens(pair: Pair, ok: bool) returns (outcome: Outcome)
      modifies this
      ensures View(map[Alone(0) := Ended(outcome)]) == Section(old(View(map[Alone(0) := LoginQueued(pair)])), ok)
    {
      hide Section;
      LoginSection(View(map[Alone(0) := LoginQueued(pair)]), pair, ok);
      var saved := Save(pair, ok);
      if !saved {
        return Credentials.Failed;
      }
      active := Some(pair);
      loaded := true;
      return Done;
    }

    method ClearTokens(ok: bool) returns (outcome: Outcome)
      modifies this
      ensures View(map[Alone(0) := Ended(outcome)]) == Section(old(View(map[Alone(0) := LogoutQueued])), ok)
    {
      hide Section;
      ClearSection(View(map[Alone(0) := LogoutQueued]), ok);
      if !ok {
        return Credentials.Failed;
      }
      stored := None;
      active := None;
      loaded := true;
      return Done;
    }

    method ReplaceIfCurrent(expected: Pair, replacement: Pair, ok: bool) returns (outcome: Outcome)
      modifies this
      ensures View(map[Alone(0) := Ended(outcome)])
           == Section(old(View(map[Alone(0) := ReplaceQueued(expected, replacement)])), ok)
    {
      hide Section;
      ReplaceSection(View(map[Alone(0) := ReplaceQueued(expected, replacement)]), expected, replacement, ok);
      if active != Some(expected) {
        return if active.Some? then Active(active.value) else AuthRequired;
      }
      var saved := Save(replacement, ok);
      if !saved {
        return Credentials.Failed;
      }
      active := Some(replacement);
      loaded := true;
      return Active(replacement);
    }

    method ExpireIfCurrent(expected: Pair, ok: bool) returns (outcome: Outcome)
      modifies this
      ensures View(map[Alone(0) := Ended(outcome)])
           == Section(old(View(map[Alone(0) := ExpireQueued(expected)])), ok)
    {
      hide Section;
      ExpireSection(View(map[Alone(0) := ExpireQueued(expected)]), expected, ok);
      if active != Some(expected) {
        return if active.Some? then Active(active.value) else AuthExpired;
      }
      if !ok {
        return Credentials.Failed;
      }
      stored := None;
      active := None;
      loaded := true;
      return AuthExpired;
    }

    /** `superseded_or_error`; the store is not asked, whatever it would answer. */
    method SupersededOrError(expected: Pair, ghost ok: bool) returns (outcome: Outcome)
      ensures View(map[Alone(0) := Ended(outcome)])
           == Section(old(View(map[Alone(0) := SupersedeQueued(expected)])), ok)
    {
      hide Section;
      SupersedeSection(View(map[Alone(0) := SupersedeQueued(expected)]), expected, ok);
      if active.Some? && active != Some(expected) {
        return Active(active.value);
      }
      return Credentials.Failed;
    }

    /** `refresh_once` */
    method RefreshOnce(loadOk: bool, answer: Answer, storeOk: bool) returns (outcome: Outcome)
      modifies this
      ensures View(map[Alone(0) := Ended(outcome)]) == RefreshAlone(old(View(map[])), loadOk, answer, storeOk)
    {
      hide Section, Step;
      assert Move(View(map[]), Alone(0), LoadQueued(ForRefresh)) == View(map[Alone(0) := LoadQueued(ForRefresh)]);
      ghost var start := Move(View(map[]), Alone(0), LoadQueued(ForRefresh));
      var r := LoadCredentials(loadOk);
      if r.Err? {
        EndedReplyIsIgnored(View(map[Alone(0) := Ended(r.error)]), answer, storeOk);
        return r.error;
      }
      if r.value.None? {
        EndedReplyIsIgnored(View(map[Alone(0) := Ended(AuthRequired)]), answer, storeOk);
        return AuthRequired;
      }
      var current := r.value.value;
      assert View(map[Alone(0) := Sent(current)]) == Section(start, loadOk);
      AnswerQueues(View(map[Alone(0) := Sent(current)]), current, answer);
      ghost var queued := Step(View(map[Alone(0) := Sent(current)]), ServerAnswers(Alone(0), answer));
      match answer {
        case Rotated(pair) =>
          assert queued == View(map[Alone(0) := ReplaceQueued(current, pair)]);
          outcome := ReplaceIfCurrent(current, pair, storeOk);
        case Unauthorized =>
          assert queued == View(map[Alone(0) := ExpireQueued(current)]);
          outcome := ExpireIfCurrent(current, storeOk);
        case Broken =>
          assert queued == View(map[Alone(0) := SupersedeQueued(current)]);
          outcome := SupersededOrError(current, storeOk);
      }
    }
  }

  /** What the server answered decides which section the refresh queues for. */
  lemma AnswerQueues(s: System, expected: Pair, answer: Answer)
    requires s.tasks == map[Alone(0) := Sent(expected)]
    ensures Step(s, ServerAnswers(Alone(0), answer))
         == s.(tasks := map[Alone(0) := match answer
                                 case Rotated(pair) => ReplaceQueued(expected, pair)
                                 case Unauthorized => ExpireQueued(expected)
                                 case Broken => SupersedeQueued(expected)])
  {
  }

  lemma EndedReplyIsIgnored(s: System, answer: Answer, ok: bool)
    requires Alone(0) in s.tasks && s.tasks[Alone(0)].Ended? && s.gate == None
    ensures Section(Step(s, ServerAnswers(Alone(0), answer)), ok) == s
  {
  }
}
