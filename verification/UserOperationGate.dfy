/** The gate in the form of the source: an object whose critical sections change the map of users and the entries in place.
    Each method is one stretch of code under the lock and is proved to be one step of the state machine. */
module UserOperationGates {
  import opened OperationGate
  import opened GateRefinement

  datatype WithdrawalVerdict = Holding | Waiting | InProgress | Inactive

  class UserOperationGate {
    var users: map<User, nat>
    var entries: map<nat, Entry>
    var ops: map<nat, Op>
    var withdrawals: map<nat, Withdrawal>
    var closed: set<nat>
    var nextEntry: nat
    var nextChannel: nat

    function View(): Gate
      reads this
    {
      Gate(users, entries, ops, withdrawals, closed, nextEntry, nextChannel)
    }

    ghost predicate Valid()
      reads this
    {
      Inv(View())
    }

    constructor ()
      ensures Valid() && View() == EmptyGate()
    {
      users, entries, ops, withdrawals, closed, nextEntry, nextChannel := map[], map[], map[], map[], {}, 0, 0;
    }

    /** Finds the user's entry, creating it when there is none. */
    method EntryLocked(u: User) returns (e: nat)
      requires Valid() && u != NIL
      modifies this`users, this`entries, this`nextEntry, this`nextChannel
      ensures Valid() && View() == WithEntry(old(View()), u)
      ensures u in users && e == users[u] && e in entries && entries[e].user == u
    {
      hide Inv;
      ghost var g := View();
      WithEntryKeeps(g, u);
      if u in users {
        e := users[u];
      } else {
        e := nextEntry;
        entries := entries[e := Entry(u, false, false, 0, nextChannel, {})];
        users := users[u := e];
        nextEntry, nextChannel := nextEntry + 1, nextChannel + 1;
      }
      UserEntry(View(), u);
    }

    method Begin(u: User, id: nat, cancellable: bool) returns (admitted: bool)
      requires Valid() && id !in ops
      modifies this
      ensures Valid() && View() == Step(old(View()), BeginOperation(u, id, cancellable))
      ensures admitted == (u == NIL || Open(Plain(old(View())), u))
    {
      hide Inv, Plain, Open;
      ghost var g := View();
      OpenExactly(g, u);
      OpBegunKeeps(g, u, id, cancellable);
      if u == NIL {
        return true;
      }
      WithEntryKeeps(g, u);
      if u in users { UserEntry(g, u); }
      var e := EntryLocked(u);
      if entries[e].withdrawing || entries[e].deleted {
        return false;
      }
      var entry := entries[e].(operations := entries[e].operations + 1);
      if cancellable {
        entry := entry.(cancels := entry.cancels + {id});
      }
      entries := entries[e := entry];
      ops := ops[id := Op(u, e, cancellable, false, false)];
      admitted := true;
    }

    /** The first section of a cancellable operation's release. */
    method LeaveCancels(id: nat)
      requires Valid() && Enabled(View(), LeaveCancelList(id))
      modifies this`entries, this`ops
      ensures Valid() && View() == Step(old(View()), LeaveCancelList(id))
    {
      hide Inv;
      OpLeftKeeps(View(), id);
      var e := ops[id].entry;
      entries := entries[e := entries[e].(cancels := entries[e].cancels - {id})];
      ops := ops[id := ops[id].(leaving := true)];
    }

    method End(id: nat)
      requires Valid() && Enabled(View(), EndOperation(id))
      modifies this
      ensures Valid() && View() == Step(old(View()), EndOperation(id))
    {
      hide Inv;
      OpEndedKeeps(View(), id);
      OpEntry(View(), id);
      var e, u := ops[id].entry, ops[id].user;
      var entry := entries[e];
      ops := ops - {id};
      if entry.operations > 0 {
        entry := entry.(operations := entry.operations - 1);
      }
      if entry.operations == 0 {
        closed := closed + {entry.changed};
        entry := entry.(changed := nextChannel);
        nextChannel := nextChannel + 1;
        if !entry.withdrawing && !entry.deleted && u in users && users[u] == e {
          users := users - {u};
        }
      }
      entries := entries[e := entry];
    }

    /** Calls every cancel function on the list, in any order. */
    method CancelAll(cancels: set<nat>)
      requires cancels <= ops.Keys
      modifies this`ops
      ensures ops == AllCancelled(old(ops), cancels)
    {
      var todo := cancels;
      while todo != {}
        invariant todo <= cancels && ops.Keys == old(ops).Keys
        invariant forall o :: o in ops ==> ops[o] == if o in cancels - todo then old(ops)[o].(cancelled := true) else old(ops)[o]
        decreases |todo|
      {
        var o :| o in todo;
        ops := ops[o := ops[o].(cancelled := true)];
        todo := todo - {o};
      }
    }

    /** Shuts the gate, or says why not; then looks once whether anybody is left to wait for. */
    method StartWithdrawal(u: User, id: nat) returns (verdict: WithdrawalVerdict)
      requires Valid() && id !in withdrawals
      modifies this
      ensures Valid() && View() == Step(old(View()), BeginWithdrawal(u, id))
      ensures verdict.InProgress? <==> u != NIL && Withdraws(Plain(old(View())), u)
      ensures verdict.Inactive? <==> u != NIL && !Withdraws(Plain(old(View())), u) && u in Plain(old(View())).deleted
      ensures verdict.Waiting? <==> Open(Plain(old(View())), u) && AtWork(Plain(old(View())), u)
    {
      hide Inv, Withdraws, AtWork;
      ghost var g := View();
      OpenExactly(g, u);
      CountersMean(g, u);
      WithdrawalBegunKeeps(g, u, id);
      if u == NIL {
        return Holding;
      }
      WithEntryKeeps(g, u);
      if u in users { UserEntry(g, u); }
      var e := EntryLocked(u);
      ghost var g1 := View();
      if entries[e].withdrawing {
        return InProgress;
      }
      if entries[e].deleted {
        return Inactive;
      }
      CancelKeys(g1, e);
      entries := entries[e := entries[e].(withdrawing := true)];
      CancelAll(entries[e].cancels);
      withdrawals := withdrawals[id := Withdrawal(u, e, entries[e].operations == 0, entries[e].changed)];
      Present(g1, e);
      verdict := if entries[e].operations > 0 then Waiting else Holding;
    }

    /** One turn of the wait loop, after the channel was closed. */
    method Recheck(id: nat) returns (holding: bool)
      requires Valid() && Enabled(View(), Wake(id))
      modifies this`withdrawals
      ensures Valid() && View() == Step(old(View()), Wake(id))
      ensures holding == withdrawals[id].granted
    {
      hide Inv;
      WithdrawalWokenKeeps(View(), id);
      Present(View(), withdrawals[id].entry);
      var w := withdrawals[id];
      if entries[w.entry].operations > 0 {
        withdrawals := withdrawals[id := w.(granted := false, channel := entries[w.entry].changed)];
        holding := false;
      } else {
        withdrawals := withdrawals[id := w.(granted := true, channel := entries[w.entry].changed)];
        holding := true;
      }
    }

    /** The section shared by giving up and by the release of a granted withdrawal. */
    method Reopen(id: nat)
      requires Valid() && id in withdrawals
      modifies this`users, this`entries, this`withdrawals
      ensures Valid() && id in old(withdrawals) && old(withdrawals[id].entry in entries)
      ensures View() == WithdrawalOver(old(View()), id)
    {
      hide Inv;
      WithdrawalOverKeeps(View(), id);
      WithdrawalEntry(View(), id);
      var e, u := withdrawals[id].entry, withdrawals[id].user;
      entries := entries[e := entries[e].(withdrawing := false)];
      withdrawals := withdrawals - {id};
      if entries[e].operations == 0 && !entries[e].deleted && u in users && users[u] == e {
        users := users - {u};
      }
    }

    method Delete(u: User)
      requires Valid()
      modifies this`users, this`entries, this`nextEntry, this`nextChannel
      ensures Valid() && View() == Step(old(View()), MarkDeleted(u))
      ensures u != NIL ==> IsDeleted(View(), u)
    {
      hide Inv;
      DeletionKeeps(View(), u);
      if u != NIL {
        var e := EntryLocked(u);
        entries := entries[e := entries[e].(deleted := true)];
      }
    }

    /** Answers whether a new operation would be refused. */
    method IsWithdrawing(u: User) returns (r: bool)
      requires Valid()
      ensures r == (u != NIL && !Open(Plain(View()), u))
    {
      hide Inv, Plain, Open;
      OpenExactly(View(), u);
      if u == NIL {
        return false;
      }
      if u in users {
        UserEntry(View(), u);
        r := entries[users[u]].withdrawing || entries[users[u]].deleted;
      } else {
        r := false;
      }
    }
  }

  lemma CancelKeys(g: Gate, e: nat)
    requires Inv(g) && e in g.entries
    ensures g.entries[e].cancels <= g.ops.Keys
  {
    CancelFacts(g.ops, g.entries, e);
  }
}
