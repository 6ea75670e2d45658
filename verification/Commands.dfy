/**
 The pending-command table (`send_command` and `PendingCommandGuard`,
 crates/zephyrvox-realtime/src/connection.rs; `resolve_pending` and `clear_socket_state`,
 crates/zephyrvox-realtime/src/engine.rs).

 Any number of callers send commands while the socket task answers them, loses the socket
 or stops. A step is the work between two points at which another thread may run. A
 caller may be dropped at any of its awaits; its guard then removes its entry.
 */
module Commands {
  import opened Common
  import opened RequestIds

  /** What a waiter is told: the server's answer, or that the socket is gone. */
  datatype Reply = Acknowledged(body: nat) | Failed(code: nat) | SocketLost

  datatype Outcome = Answered(reply: Reply) | NotLive | BadPayload | CapacityFull | Closed | TimedOut | Dropped

  /** The clock reading and the number drawn for one request. */
  datatype Name = Name(millis: nat, number: nat)

  datatype Position =
    | Numbered(name: Name)
    /** In the table, with the guard alive: waiting for the outbound lock. */
    | Registered(name: Name)
    | Enqueuing(name: Name)
    | Awaiting(name: Name)
    /** The result is known and the guard has not been dropped yet. */
    | Leaving(name: Name, outcome: Outcome)
    | Ended(outcome: Outcome)

  datatype System = System(
    limit: nat,
    /** How many numbers the counter has handed out. */
    issued: nat,
    pending: map<string, nat>,
    /** What has been sent into each waiter's channel. */
    inbox: map<nat, Reply>,
    calls: map<nat, Position>)

  function Initial(limit: nat): System {
    System(limit, 0, map[], map[], map[])
  }

  /** The identifier on the wire: the 64-bit counter wraps. */
  function Text(name: Name): string {
    RequestId(name.millis, name.number % U64_SIZE)
  }

  datatype Action =
    | Call(call: nat, live: bool, millis: nat, encodes: bool)
    | Register(call: nat)
    | TakeOutbound(call: nat, open: bool)
    | Enqueue(call: nat, accepted: bool)
    | Receive(call: nat)
    /** The waiter's sender was dropped without a reply. */
    | SenderGone(call: nat)
    | TimeOut(call: nat)
    | DropGuard(call: nat)
    | Abandon(call: nat)
    | Resolve(id: string, reply: Reply)
    | LoseSocket

  predicate Guarded(p: Position) {
    p.Registered? || p.Enqueuing? || p.Awaiting? || p.Leaving?
  }

  function Move(s: System, c: nat, p: Position): System {
    s.(calls := s.calls[c := p])
  }

  function Begin(s: System, c: nat, live: bool, millis: nat, encodes: bool): System {
    if c in s.calls then s
    else if !live then Move(s, c, Ended(NotLive))
    else
      var s' := s.(issued := s.issued + 1);
      Move(s', c, if encodes then Numbered(Name(millis, s.issued + 1)) else Ended(BadPayload))
  }

  function Insert(s: System, c: nat, name: Name): System {
    if |s.pending| >= s.limit then Move(s, c, Ended(CapacityFull))
    else Move(s, c, Registered(name)).(pending := s.pending[Text(name) := c])
  }

  /** The guard's drop: remove whatever stands under the identifier. */
  function Unguard(s: System, c: nat, name: Name, outcome: Outcome): System {
    Move(s, c, Ended(outcome)).(pending := s.pending - {Text(name)})
  }

  /** `resolve_pending`: take the entry out and send into its channel. */
  function Answer(s: System, id: string, reply: Reply): System {
    if id !in s.pending then s
    else s.(pending := s.pending - {id}, inbox := s.inbox[s.pending[id] := reply])
  }

  /** Tells the callers that the socket is gone. */
  function Tell(inbox: map<nat, Reply>, callers: set<nat>): map<nat, Reply> {
    inbox + (map c | c in callers :: SocketLost)
  }

  /** Empties the table, telling everyone in it. */
  function Drain(s: System): System {
    s.(pending := map[], inbox := Tell(s.inbox, s.pending.Values))
  }

  /** What a caller's own action does from its position. */
  function Proceed(s: System, a: Action, c: nat, p: Position): System {
    match (a, p)
    case (Register(_), Numbered(name)) => Insert(s, c, name)
    case (TakeOutbound(_, open), Registered(name)) =>
      Move(s, c, if open then Enqueuing(name) else Leaving(name, NotLive))
    case (Enqueue(_, accepted), Enqueuing(name)) =>
      Move(s, c, if accepted then Awaiting(name) else Leaving(name, Closed))
    case (Receive(_), Awaiting(name)) =>
      if c in s.inbox then Move(s, c, Leaving(name, Answered(s.inbox[c]))) else s
    case (SenderGone(_), Awaiting(name)) =>
      if c !in s.inbox && c !in s.pending.Values then Move(s, c, Leaving(name, Closed)) else s
    case (TimeOut(_), Awaiting(name)) =>
      if c !in s.inbox then Move(s, c, Leaving(name, TimedOut)) else s
    case (DropGuard(_), Leaving(name, outcome)) => Unguard(s, c, name, outcome)
    case (Abandon(_), Registered(name)) => Unguard(s, c, name, Dropped)
    case (Abandon(_), Enqueuing(name)) => Unguard(s, c, name, Dropped)
    case (Abandon(_), Awaiting(name)) => Unguard(s, c, name, Dropped)
    case _ => s
  }

  /** One step; an action that is not enabled changes nothing. */
  function Step(s: System, a: Action): System {
    match a
    case Call(c, live, millis, encodes) => Begin(s, c, live, millis, encodes)
    case Resolve(id, reply) => Answer(s, id, reply)
    case LoseSocket => Drain(s)
    case _ => if a.call in s.calls then Proceed(s, a, a.call, s.calls[a.call]) else s
  }

  function Run(s: System, actions: seq<Action>): System {
    if |actions| == 0 then s
    else Step(Run(s, actions[..|actions| - 1]), actions[|actions| - 1])
  }

  // ----- what every run keeps --------------------------------------------------------------

  /** The caller's entry is in the table. */
  predicate Waits(s: System, c: nat, p: Position) {
    Guarded(p) && Text(p.name) in s.pending && s.pending[Text(p.name)] == c
  }

  predicate CallOk(s: System, c: nat, p: Position) {
    && (!p.Ended? ==> 1 <= p.name.number <= s.issued)
    && (p.Numbered? ==> c !in s.inbox)
    && (p.Leaving? && p.outcome.Answered? ==> c in s.inbox && s.inbox[c] == p.outcome.reply)
    && (Guarded(p) && s.issued < U64_SIZE ==> Waits(s, c, p) || c in s.inbox)
  }

  ghost predicate NumbersDiffer(s: System) {
    forall c, d :: c in s.calls && d in s.calls && c != d
                   && !s.calls[c].Ended? && !s.calls[d].Ended? ==>
        s.calls[c].name.number != s.calls[d].name.number
  }

  /** An entry belongs to a running caller that has been told nothing yet. */
  predicate EntryOk(s: System, id: string)
    requires id in s.pending
  {
    var c := s.pending[id];
    c in s.calls && Guarded(s.calls[c]) && Text(s.calls[c].name) == id && c !in s.inbox
  }

  ghost predicate Invariant(s: System) {
    && |s.pending| <= s.limit
    && EntriesOk(s)
    && NumbersDiffer(s)
    && (forall c :: c in s.inbox ==> c in s.calls)
    && CallsOk(s)
  }

  ghost predicate EntriesOk(s: System) {
    forall id :: id in s.pending ==> EntryOk(s, id)
  }

  ghost predicate CallsOk(s: System) {
    forall c :: c in s.calls ==> CallOk(s, c, s.calls[c])
  }

  lemma InitialInvariant(limit: nat)
    ensures Invariant(Initial(limit))
  {
  }

  /** While the counter has not wrapped, different numbers are different identifiers. */
  lemma TextsDiffer(a: Name, b: Name)
    requires a.number < U64_SIZE && b.number < U64_SIZE && Text(a) == Text(b)
    ensures a == b
  {
    hide RequestId;
    RequestIdInjective(a.millis, a.number % U64_SIZE, b.millis, b.number % U64_SIZE);
  }

  lemma RemovingShrinks(m: map<string, nat>, id: string)
    ensures |m - {id}| <= |m|
  {
    assert (m - {id}).Keys == m.Keys - {id};
  }

  lemma InsertingGrowsByOne(m: map<string, nat>, id: string, c: nat)
    ensures |m[id := c]| <= |m| + 1
  {
    assert m[id := c].Keys == m.Keys + {id};
  }

  /** Callers that keep their numbers, or end, keep them apart. */
  lemma NumbersStayApart(s: System, s': System)
    requires NumbersDiffer(s)
    requires forall c :: c in s'.calls && !s'.calls[c].Ended? ==>
               c in s.calls && !s.calls[c].Ended? && s'.calls[c].name == s.calls[c].name
    ensures NumbersDiffer(s')
  {
  }

  lemma BeginKeeps(s: System, c: nat, live: bool, millis: nat, encodes: bool)
    requires Invariant(s)
    ensures Invariant(Begin(s, c, live, millis, encodes))
  {
    hide Text, NumbersDiffer;
    var s' := Begin(s, c, live, millis, encodes);
    if s' != s {
      forall id | id in s'.pending ensures EntryOk(s', id) {
        assert EntryOk(s, id);
      }
      forall d | d in s'.calls ensures CallOk(s', d, s'.calls[d]) {
        assert d != c ==> CallOk(s, d, s.calls[d]);
      }
      BeginKeepsNumbers(s, c, live, millis, encodes);
    }
  }

  lemma BeginKeepsNumbers(s: System, c: nat, live: bool, millis: nat, encodes: bool)
    requires Invariant(s) && c !in s.calls
    ensures NumbersDiffer(Begin(s, c, live, millis, encodes))
  {
    hide Text;
    forall d | d in s.calls && !s.calls[d].Ended? ensures s.calls[d].name.number <= s.issued {
      assert CallOk(s, d, s.calls[d]);
    }
  }

  lemma InsertKeeps(s: System, c: nat)
    requires Invariant(s) && c in s.calls && s.calls[c].Numbered?
    ensures Invariant(Insert(s, c, s.calls[c].name))
  {
    hide Text, NumbersDiffer, EntryOk, CallOk;
    var name := s.calls[c].name;
    var s' := Insert(s, c, name);
    NumbersStayApart(s, s');
    InsertingGrowsByOne(s.pending, Text(name), c);
    forall id | id in s'.pending ensures EntryOk(s', id) {
      InsertKeepsEntry(s, c, id);
    }
    forall d | d in s'.calls ensures CallOk(s', d, s'.calls[d]) {
      OthersTextDiffers(s, c, d);
      InsertKeepsCall(s, c, d);
    }
  }

  lemma InsertKeepsEntry(s: System, c: nat, id: string)
    requires c in s.calls && s.calls[c].Numbered? && CallOk(s, c, s.calls[c])
    requires id in s.pending ==> EntryOk(s, id)
    requires id in Insert(s, c, s.calls[c].name).pending
    ensures EntryOk(Insert(s, c, s.calls[c].name), id)
  {
    hide Text;
  }

  lemma InsertKeepsCall(s: System, c: nat, d: nat)
    requires c in s.calls && s.calls[c].Numbered? && d in s.calls && CallOk(s, d, s.calls[d])
    requires TextsApart(s, c, d)
    ensures CallOk(Insert(s, c, s.calls[c].name), d, Insert(s, c, s.calls[c].name).calls[d])
  {
    hide Text;
  }

  /** While the counter has not wrapped, two running callers have different identifiers. */
  predicate TextsApart(s: System, c: nat, d: nat)
    requires c in s.calls && d in s.calls
  {
    (s.issued < U64_SIZE && c != d && !s.calls[c].Ended? && !s.calls[d].Ended?) ==>
      Text(s.calls[c].name) != Text(s.calls[d].name)
  }

  lemma OthersTextDiffers(s: System, c: nat, d: nat)
    requires Invariant(s) && c in s.calls && d in s.calls
    ensures TextsApart(s, c, d)
  {
    hide Text;
    if !TextsApart(s, c, d) {
      assert CallOk(s, c, s.calls[c]) && CallOk(s, d, s.calls[d]);
      TextsDiffer(s.calls[c].name, s.calls[d].name);
      assert false;
    }
  }

  /** Moving on within the guarded positions. */
  lemma MoveKeeps(s: System, c: nat, p: Position)
    requires Invariant(s) && c in s.calls && Guarded(s.calls[c]) && Guarded(p)
    requires p.name == s.calls[c].name
    requires p.Leaving? && p.outcome.Answered? ==> c in s.inbox && s.inbox[c] == p.outcome.reply
    ensures Invariant(Move(s, c, p))
  {
    hide Text, NumbersDiffer;
    var s' := Move(s, c, p);
    NumbersStayApart(s, s');
    forall id | id in s'.pending ensures EntryOk(s', id) {
      assert EntryOk(s, id);
    }
    forall d | d in s'.calls ensures CallOk(s', d, s'.calls[d]) {
      assert CallOk(s, d, s.calls[d]);
    }
  }

  lemma UnguardKeeps(s: System, c: nat, outcome: Outcome)
    requires Invariant(s) && c in s.calls && Guarded(s.calls[c])
    ensures Invariant(Unguard(s, c, s.calls[c].name, outcome))
  {
    hide Text, NumbersDiffer, EntriesOk, CallsOk;
    RemovingShrinks(s.pending, Text(s.calls[c].name));
    EndingKeepsNumbers(s, c, outcome, s.pending - {Text(s.calls[c].name)});
    UnguardKeepsEntries(s, c, outcome);
    UnguardKeepsCalls(s, c, outcome);
  }

  lemma EndingKeepsNumbers(s: System, c: nat, outcome: Outcome, pending: map<string, nat>)
    requires NumbersDiffer(s)
    ensures NumbersDiffer(Move(s, c, Ended(outcome)).(pending := pending))
  {
  }

  lemma UnguardKeepsEntries(s: System, c: nat, outcome: Outcome)
    requires EntriesOk(s) && c in s.calls && Guarded(s.calls[c])
    ensures EntriesOk(Unguard(s, c, s.calls[c].name, outcome))
  {
    hide Text, EntryOk;
    var s' := Unguard(s, c, s.calls[c].name, outcome);
    forall id | id in s'.pending ensures EntryOk(s', id) {
      UnguardKeepsEntry(s, c, outcome, id);
    }
  }

  lemma UnguardKeepsCalls(s: System, c: nat, outcome: Outcome)
    requires Invariant(s) && c in s.calls && Guarded(s.calls[c])
    ensures CallsOk(Unguard(s, c, s.calls[c].name, outcome))
  {
    hide Text, NumbersDiffer, EntriesOk, CallOk, TextsApart;
    var s' := Unguard(s, c, s.calls[c].name, outcome);
    forall d | d in s'.calls ensures CallOk(s', d, s'.calls[d]) {
      OthersTextDiffers(s, c, d);
      UnguardKeepsCall(s, c, outcome, d);
    }
  }

  lemma UnguardKeepsEntry(s: System, c: nat, outcome: Outcome, id: string)
    requires c in s.calls && Guarded(s.calls[c])
    requires id in s.pending && id != Text(s.calls[c].name) && EntryOk(s, id)
    ensures EntryOk(Unguard(s, c, s.calls[c].name, outcome), id)
  {
    hide Text;
  }

  lemma UnguardKeepsCall(s: System, c: nat, outcome: Outcome, d: nat)
    requires c in s.calls && Guarded(s.calls[c]) && d in s.calls && CallOk(s, d, s.calls[d])
    requires TextsApart(s, c, d)
    ensures CallOk(Unguard(s, c, s.calls[c].name, outcome), d,
                   Unguard(s, c, s.calls[c].name, outcome).calls[d])
  {
    hide Text;
  }

  lemma AnswerKeeps(s: System, id: string, reply: Reply)
    requires Invariant(s)
    ensures Invariant(Answer(s, id, reply))
  {
    hide Text, NumbersDiffer, EntryOk, CallOk;
    var s' := Answer(s, id, reply);
    NumbersStayApart(s, s');
    RemovingShrinks(s.pending, id);
    if id in s.pending {
      EntryCaller(s, id);
      forall other | other in s'.pending ensures EntryOk(s', other) {
        AnswerKeepsEntry(s, id, reply, other);
      }
      forall d | d in s'.calls ensures CallOk(s', d, s'.calls[d]) {
        AnswerKeepsCall(s, id, reply, d);
      }
    }
  }

  lemma EntryCaller(s: System, id: string)
    requires id in s.pending && EntryOk(s, id)
    ensures s.pending[id] in s.calls
  {
  }

  /** Entries of one caller are one entry: both stand under its identifier. */
  lemma AnswerKeepsEntry(s: System, id: string, reply: Reply, other: string)
    requires id in s.pending && EntryOk(s, id)
    requires other in s.pending && other != id && EntryOk(s, other)
    ensures EntryOk(Answer(s, id, reply), other)
  {
    hide Text;
  }

  lemma AnswerKeepsCall(s: System, id: string, reply: Reply, d: nat)
    requires id in s.pending && EntryOk(s, id) && d in s.calls && CallOk(s, d, s.calls[d])
    ensures CallOk(Answer(s, id, reply), d, s.calls[d])
  {
    hide Text;
  }

  lemma DrainKeeps(s: System)
    requires Invariant(s)
    ensures Invariant(Drain(s))
  {
    hide Text, EntriesOk, CallsOk, NumbersDiffer;
    NumbersDoNotMove(s, Drain(s));
    DrainKeepsInbox(s);
    DrainKeepsCalls(s);
    assert EntriesOk(Drain(s)) by { NoEntries(Drain(s)); }
  }

  lemma NoEntries(s: System)
    requires s.pending == map[]
    ensures EntriesOk(s)
  {
  }

  lemma NumbersDoNotMove(s: System, s': System)
    requires NumbersDiffer(s) && s'.calls == s.calls
    ensures NumbersDiffer(s')
  {
  }

  lemma DrainKeepsInbox(s: System)
    requires EntriesOk(s) && forall c :: c in s.inbox ==> c in s.calls
    ensures forall c :: c in Drain(s).inbox ==> c in s.calls
  {
    hide EntryOk;
    forall c | c in s.pending.Values ensures c in s.calls {
      var id :| id in s.pending && s.pending[id] == c;
      EntryCaller(s, id);
    }
  }

  lemma DrainKeepsCalls(s: System)
    requires EntriesOk(s) && CallsOk(s)
    ensures CallsOk(Drain(s))
  {
    hide EntryOk, CallOk;
    forall d | d in s.calls ensures CallOk(Drain(s), d, s.calls[d]) {
      DrainKeepsCall(s, d);
    }
  }

  lemma DrainKeepsCall(s: System, d: nat)
    requires EntriesOk(s) && d in s.calls && CallOk(s, d, s.calls[d])
    ensures CallOk(Drain(s), d, s.calls[d])
  {
    hide Text;
    if d in s.pending.Values {
      var id :| id in s.pending && s.pending[id] == d;
      assert EntryOk(s, id);
    }
  }

  lemma ProceedKeeps(s: System, a: Action, c: nat)
    requires Invariant(s) && c in s.calls
    ensures Invariant(Proceed(s, a, c, s.calls[c]))
  {
    hide Invariant, Insert, Unguard, Move;
    var p := s.calls[c];
    if a.Register? && p.Numbered? {
      InsertKeeps(s, c);
    } else if a.DropGuard? && p.Leaving? {
      UnguardKeeps(s, c, p.outcome);
    } else if a.Abandon? && Guarded(p) && !p.Leaving? {
      UnguardKeeps(s, c, Dropped);
    } else if Guarded(p) && !p.Leaving? {
      MoveKeeps(s, c, Enqueuing(p.name));
      MoveKeeps(s, c, Awaiting(p.name));
      MoveKeeps(s, c, Leaving(p.name, NotLive));
      MoveKeeps(s, c, Leaving(p.name, Closed));
      MoveKeeps(s, c, Leaving(p.name, TimedOut));
      if c in s.inbox {
        MoveKeeps(s, c, Leaving(p.name, Answered(s.inbox[c])));
      }
    }
  }

  lemma StepKeepsInvariant(s: System, a: Action)
    requires Invariant(s)
    ensures Invariant(Step(s, a))
  {
    hide Invariant, Begin, Answer, Drain, Proceed;
    match a
    case Call(c, live, millis, encodes) => BeginKeeps(s, c, live, millis, encodes);
    case Resolve(id, reply) => AnswerKeeps(s, id, reply);
    case LoseSocket => DrainKeeps(s);
    case _ => if a.call in s.calls { ProceedKeeps(s, a, a.call); }
  }

  lemma {:induction false} ReachableInvariant(limit: nat, actions: seq<Action>)
    ensures Invariant(Run(Initial(limit), actions))
  {
    hide Invariant, Step;
    if |actions| == 0 {
      InitialInvariant(limit);
    } else {
      ReachableInvariant(limit, actions[..|actions| - 1]);
      StepKeepsInvariant(Run(Initial(limit), actions[..|actions| - 1]), actions[|actions| - 1]);
    }
  }

  lemma StepKeepsLimit(s: System, a: Action)
    ensures Step(s, a).limit == s.limit
  {
    hide Text;
  }

  lemma {:induction false} LimitIsFixed(s: System, actions: seq<Action>)
    ensures Run(s, actions).limit == s.limit
  {
    if |actions| > 0 {
      hide Step;
      LimitIsFixed(s, actions[..|actions| - 1]);
      StepKeepsLimit(Run(s, actions[..|actions| - 1]), actions[|actions| - 1]);
    }
  }

  /**
   Over every interleaving: the table never exceeds its limit, each entry belongs to a
   caller still running under that identifier, and so it is empty once all have ended.
   */
  lemma TableIsBoundedAndLeakFree(limit: nat, actions: seq<Action>)
    ensures var s := Run(Initial(limit), actions);
            && |s.pending| <= limit
            && (forall id :: id in s.pending ==>
                  && s.pending[id] in s.calls && Guarded(s.calls[s.pending[id]])
                  && Text(s.calls[s.pending[id]].name) == id)
            && ((forall c :: c in s.calls ==> s.calls[c].Ended?) ==> s.pending == map[])
  {
    hide Text;
    ReachableInvariant(limit, actions);
    LimitIsFixed(Initial(limit), actions);
    var s := Run(Initial(limit), actions);
    forall id | id in s.pending ensures EntryOk(s, id) {
    }
    if s.pending != map[] {
      var id :| id in s.pending;
      assert EntryOk(s, id);
    }
  }

  /** Identifiers of running callers are distinct until 2^64 numbers have been drawn. */
  lemma IdentifiersAreDistinct(limit: nat, actions: seq<Action>, c: nat, d: nat)
    requires var s := Run(Initial(limit), actions);
             && s.issued < U64_SIZE && c in s.calls && d in s.calls && c != d
             && !s.calls[c].Ended? && !s.calls[d].Ended?
    ensures var s := Run(Initial(limit), actions);
            Text(s.calls[c].name) != Text(s.calls[d].name)
  {
    hide Text, Invariant;
    ReachableInvariant(limit, actions);
    OthersTextDiffers(Run(Initial(limit), actions), c, d);
  }

  /** Two requests have one identifier exactly when clock readings and wrapped numbers agree. */
  lemma IdentifiersCollideExactly(a: Name, b: Name)
    ensures Text(a) == Text(b)
       <==> a.millis == b.millis && a.number % U64_SIZE == b.number % U64_SIZE
  {
    hide RequestId;
    if Text(a) == Text(b) {
      RequestIdInjective(a.millis, a.number % U64_SIZE, b.millis, b.number % U64_SIZE);
    }
  }

  /** Until then no waiter is forgotten: it is in the table, or it has been told. */
  lemma NoWaiterIsForgotten(limit: nat, actions: seq<Action>, c: nat)
    requires var s := Run(Initial(limit), actions);
             s.issued < U64_SIZE && c in s.calls && Guarded(s.calls[c])
    ensures var s := Run(Initial(limit), actions);
            && (Waits(s, c, s.calls[c]) <==> c !in s.inbox)
            && Step(s, SenderGone(c)) == s
  {
    hide Text, Run;
    ReachableInvariant(limit, actions);
    var s := Run(Initial(limit), actions);
    assert CallOk(s, c, s.calls[c]);
    if Waits(s, c, s.calls[c]) {
      assert EntryOk(s, Text(s.calls[c].name));
    }
  }

  /**
   A waiter is told at most once, and only by a reply to its own identifier or by the
   loss of the socket.
   */
  lemma ToldOnceAndByItsOwn(s: System, a: Action, c: nat)
    requires Invariant(s)
    ensures c in s.inbox ==> c in Step(s, a).inbox && Step(s, a).inbox[c] == s.inbox[c]
    ensures c !in s.inbox && c in Step(s, a).inbox ==>
        && c in s.calls && Waits(s, c, s.calls[c])
        && (if a.LoseSocket? then Step(s, a).inbox[c] == SocketLost
            else a == Resolve(Text(s.calls[c].name), Step(s, a).inbox[c]))
  {
    hide Text, NumbersDiffer, CallOk;
    if c !in s.inbox && c in Step(s, a).inbox {
      var id :| id in s.pending && s.pending[id] == c && (a.LoseSocket? || a.id == id);
      assert EntryOk(s, id);
    }
  }

  /** After a loss of the socket, every caller that was waiting has been told so. */
  lemma LossTellsEveryone(s: System, c: nat)
    requires Invariant(s) && s.issued < U64_SIZE && c in s.calls && Guarded(s.calls[c])
    ensures c in Step(s, LoseSocket).inbox
    ensures c !in s.inbox ==> Step(s, LoseSocket).inbox[c] == SocketLost
    ensures Step(s, LoseSocket).pending == map[]
  {
    hide Text;
    assert CallOk(s, c, s.calls[c]);
  }

  // ----- the wrap of the counter -----------------------------------------------------------

  /** `n` calls that draw a number and never reach the table. */
  function DrawTimes(s: System, n: nat): System {
    if n == 0 then s else Step(DrawTimes(s, n - 1), Call(n, true, 0, false))
  }

  /** The draws leave everyone else where they were. */
  ghost predicate OnlyDrew(s: System, t: System, n: nat) {
    && t.limit == s.limit && t.issued == s.issued + n
    && t.pending == s.pending && t.inbox == s.inbox
    && (forall c :: c in t.calls ==> c in s.calls || 1 <= c <= n)
    && (forall c :: c in s.calls ==> c in t.calls && t.calls[c] == s.calls[c])
  }

  lemma {:induction false} DrawTimesEffect(s: System, n: nat)
    requires forall c :: c in s.calls ==> c == 0
    ensures OnlyDrew(s, DrawTimes(s, n), n)
  {
    if n > 0 {
      DrawTimesEffect(s, n - 1);
    }
  }

  /** Caller 0 stands in the table under the first number. */
  function OneWaiting(limit: nat, millis: nat): System {
    Step(Step(Initial(limit), Call(0, true, millis, true)), Register(0))
  }

  /** A second caller draws a number, registers, and the first one gets as far as awaiting. */
  function ThenCollide(s: System, last: nat, millis: nat): System {
    Step(Step(Step(Step(s, Call(last, true, millis, true)), Register(last)),
              TakeOutbound(0, true)), Enqueue(0, true))
  }

  lemma CollisionEffect(s: System, last: nat, millis: nat, first: Name)
    requires |s.pending| < s.limit && last !in s.calls
    requires 0 in s.calls && s.calls[0] == Registered(first) && last != 0
    requires Text(first) == Text(Name(millis, s.issued + 1))
    ensures var t := ThenCollide(s, last, millis);
            && 0 in t.calls && t.calls[0] == Awaiting(first) && t.inbox == s.inbox
            && t.pending == s.pending[Text(first) := last]
  {
    hide Text;
    var s1 := Step(s, Call(last, true, millis, true));
    assert s1.calls[last] == Numbered(Name(millis, s.issued + 1));
    var s2 := Step(s1, Register(last));
    assert s2.calls[0] == Registered(first) && s2.pending == s.pending[Text(first) := last];
    var s3 := Step(s2, TakeOutbound(0, true));
    assert s3.calls[0] == Enqueuing(first);
  }

  lemma OneWaitingState(limit: nat, millis: nat)
    requires limit > 0
    ensures var s := OneWaiting(limit, millis); var first := Name(millis, 1);
            && s.limit == limit && s.issued == 1 && s.inbox == map[]
            && s.calls == map[0 := Registered(first)] && s.pending == map[Text(first) := 0]
  {
    hide Text;
    var s1 := Step(Initial(limit), Call(0, true, millis, true));
    assert s1.calls == map[0 := Numbered(Name(millis, 1))];
  }

  /**
   The bound in `NoWaiterIsForgotten` is needed: while one command waits, 2^64 - 1 others
   draw numbers, and the next at the same clock reading takes over its entry. The first
   waiter has been told nothing, and its sender is gone.
   */
  lemma WrappedCounterForgetsWaiter(limit: nat, millis: nat)
    requires limit >= 2
    ensures var t := ThenCollide(DrawTimes(OneWaiting(limit, millis), U64_SIZE - 1), U64_SIZE, millis);
            && 0 in t.calls && t.calls[0].Awaiting? && 0 !in t.inbox && !Waits(t, 0, t.calls[0])
            && 0 in Step(t, SenderGone(0)).calls
            && Step(t, SenderGone(0)).calls[0] == Leaving(t.calls[0].name, Closed)
  {
    hide Text, DrawTimes, ThenCollide, OneWaiting;
    var first, later := Name(millis, 1), Name(millis, U64_SIZE + 1);
    var s := OneWaiting(limit, millis);
    OneWaitingState(limit, millis);
    DrawTimesEffect(s, U64_SIZE - 1);
    var drawn := DrawTimes(s, U64_SIZE - 1);
    IdentifiersCollideExactly(first, later);
    CollisionEffect(drawn, U64_SIZE, millis, first);
    var t := ThenCollide(drawn, U64_SIZE, millis);
    assert t.pending == map[Text(first) := U64_SIZE];
  }
}
