/**
 The table itself, as the map behind a mutex and the atomic counter beside it
 (crates/zephyrvox-realtime/src/connection.rs, crates/zephyrvox-realtime/src/engine.rs).
 Each method is one critical section and does what the step of `Commands` says, whatever
 positions the callers are at.
 */
module PendingTables {
  import opened Common
  import opened Commands

  lemma ValuesWithout(m: map<string, nat>, id: string)
    requires id in m
    ensures m.Values == (m - {id}).Values + {m[id]}
  {
    var rest := m - {id};
    forall v | v in m.Values ensures v in rest.Values + {m[id]} {
      var k :| k in m && m[k] == v;
      assert k == id || (k in rest && rest[k] == v);
    }
  }

  lemma TellNone(inbox: map<nat, Reply>)
    ensures Tell(inbox, {}) == inbox
  {
  }

  lemma TellOneMore(inbox: map<nat, Reply>, told: set<nat>, c: nat)
    ensures Tell(inbox, told)[c := SocketLost] == Tell(inbox, told + {c})
  {
  }

  class PendingTable {
    const limit: nat
    var issued: nat
    var pending: map<string, nat>
    /** What has been sent into each caller's channel. */
    var inbox: map<nat, Reply>

    /** The table among callers at `calls`. */
    ghost function View(calls: map<nat, Position>): System
      reads this
    {
      System(limit, issued, pending, inbox, calls)
    }

    constructor (limit: nat)
      ensures View(map[]) == Initial(limit)
    {
      this.limit := limit;
      issued, pending, inbox := 0, map[], map[];
    }

    /** Draws the next number of the counter. */
    method DrawName(millis: nat) returns (name: Name)
      modifies this`issued
      ensures name == Name(millis, old(issued) + 1)
      ensures forall calls, c :: c !in calls ==>
                View(calls[c := Numbered(name)]) == Begin(old(View(calls)), c, true, millis, true)
    {
      issued := issued + 1;
      name := Name(millis, issued);
    }

    method Register(c: nat, name: Name) returns (registered: bool)
      modifies this`pending
      ensures registered <==> |old(pending)| < limit
      ensures var p := if registered then Registered(name) else Ended(CapacityFull);
        forall calls :: View(calls[c := p]) == Insert(old(View(calls)), c, name)
    {
      if |pending| >= limit {
        return false;
      }
      pending := pending[Text(name) := c];
      return true;
    }

    /** `PendingCommandGuard::drop` */
    method Remove(name: Name)
      modifies this`pending
      ensures forall calls, c, outcome ::
                View(calls[c := Ended(outcome)]) == Unguard(old(View(calls)), c, name, outcome)
    {
      pending := pending - {Text(name)};
    }

    /** `resolve_pending`: at most one waiter hears, and at most once. */
    method ResolvePending(id: string, reply: Reply)
      modifies this`pending, this`inbox
      ensures forall calls :: View(calls) == Answer(old(View(calls)), id, reply)
    {
      if id in pending {
        inbox := inbox[pending[id] := reply];
        pending := pending - {id};
      }
    }

    /** The drain of `clear_socket_state`: every waiter is told that the socket is gone. */
    method DrainPending()
      modifies this`pending, this`inbox
      ensures forall calls :: View(calls) == Drain(old(View(calls)))
    {
      hide Tell;
      ghost var told: set<nat> := {};
      TellNone(inbox);
      while pending != map[]
        invariant told + pending.Values == old(pending).Values
        invariant inbox == Tell(old(inbox), told)
        decreases |pending.Keys|
      {
        var id :| id in pending;
        ValuesWithout(pending, id);
        TellOneMore(old(inbox), told, pending[id]);
        assert (pending - {id}).Keys == pending.Keys - {id};
        inbox := inbox[pending[id] := SocketLost];
        told := told + {pending[id]};
        pending := pending - {id};
      }
    }
  }
}
