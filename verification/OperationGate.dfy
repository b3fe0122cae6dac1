/** The user operation gate of internal/auth/withdrawal_gate.go: operations of a user run side by side, a withdrawal runs
    alone, and entries nobody needs are collected.  Steps are the gate's critical sections; operations and withdrawals hold
    on to the entry they entered through, as the closures of the source do. */
module OperationGate {
  import opened Totals

  type User = nat
  const NIL: User := 0

  datatype Entry = Entry(user: User, withdrawing: bool, deleted: bool, operations: int, changed: nat, cancels: set<nat>)

  /** A running operation.  The release of a cancellable one first takes it off the cancel list (`leaving`), then ends it. */
  datatype Op = Op(user: User, entry: nat, cancellable: bool, cancelled: bool, leaving: bool)

  /** A withdrawal that holds the gate, or waits on the channel it read when operations were still running. */
  datatype Withdrawal = Withdrawal(user: User, entry: nat, granted: bool, channel: nat)

  datatype Gate = Gate(
    users: map<User, nat>, entries: map<nat, Entry>,
    ops: map<nat, Op>, withdrawals: map<nat, Withdrawal>,
    closed: set<nat>, nextEntry: nat, nextChannel: nat)

  function EmptyGate(): Gate { Gate(map[], map[], map[], map[], {}, 0, 0) }

  // ---------- Steps ----------

  /** The user's entry, created when there is none. */
  function WithEntry(g: Gate, u: User): Gate {
    if u in g.users then g
    else g.(users := g.users[u := g.nextEntry],
            entries := g.entries[g.nextEntry := Entry(u, false, false, 0, g.nextChannel, {})],
            nextEntry := g.nextEntry + 1, nextChannel := g.nextChannel + 1)
  }

  /** An entry with nothing left to remember leaves the map, if it is the one the map points to. */
  function Collected(g: Gate, e: nat): Gate {
    if e in g.entries && g.entries[e].operations == 0 && !g.entries[e].withdrawing && !g.entries[e].deleted &&
       g.entries[e].user in g.users && g.users[g.entries[e].user] == e
    then g.(users := g.users - {g.entries[e].user}) else g
  }

  function Admits(g: Gate, u: User): bool {
    u in g.users && g.users[u] in g.entries ==> !g.entries[g.users[u]].withdrawing && !g.entries[g.users[u]].deleted
  }

  function OpBegun(g: Gate, u: User, id: nat, cancellable: bool): Gate {
    if u == NIL || !Admits(g, u) then g
    else
      var g1 := WithEntry(g, u);
      var e := g1.users[u];
      if e !in g1.entries then g
      else
        var entry := g1.entries[e];
        g1.(entries := g1.entries[e := entry.(operations := entry.operations + 1,
                                               cancels := if cancellable then entry.cancels + {id} else entry.cancels)],
            ops := g1.ops[id := Op(u, e, cancellable, false, false)])
  }

  function OpLeft(g: Gate, id: nat): Gate
    requires id in g.ops && g.ops[id].entry in g.entries
  {
    var e := g.ops[id].entry;
    g.(entries := g.entries[e := g.entries[e].(cancels := g.entries[e].cancels - {id})],
       ops := g.ops[id := g.ops[id].(leaving := true)])
  }

  /** The last operation to end closes the entry's channel, waking a waiting withdrawal, and may collect the entry. */
  function OpEnded(g: Gate, id: nat): Gate
    requires id in g.ops && g.ops[id].entry in g.entries
  {
    var e := g.ops[id].entry;
    var entry := g.entries[e];
    var n := if entry.operations > 0 then entry.operations - 1 else entry.operations;
    var g1 := g.(ops := g.ops - {id});
    if n == 0 then
      Collected(g1.(entries := g.entries[e := entry.(operations := 0, changed := g.nextChannel)],
                    closed := g.closed + {entry.changed}, nextChannel := g.nextChannel + 1), e)
    else g1.(entries := g.entries[e := entry.(operations := n)])
  }

  function WithdrawalBegun(g: Gate, u: User, id: nat): Gate {
    if u == NIL || !Admits(g, u) then g
    else
      var g1 := WithEntry(g, u);
      var e := g1.users[u];
      if e !in g1.entries then g
      else
        var entry := g1.entries[e];
        g1.(entries := g1.entries[e := entry.(withdrawing := true)],
            ops := map o | o in g1.ops :: if o in entry.cancels then g1.ops[o].(cancelled := true) else g1.ops[o],
            withdrawals := g1.withdrawals[id := Withdrawal(u, e, entry.operations == 0, entry.changed)])
  }

  /** A waiting withdrawal wakes, looks again, and either holds the gate or waits on the current channel. */
  function WithdrawalWoken(g: Gate, id: nat): Gate
    requires id in g.withdrawals && g.withdrawals[id].entry in g.entries
  {
    var w := g.withdrawals[id];
    var entry := g.entries[w.entry];
    g.(withdrawals := g.withdrawals[id := w.(granted := entry.operations == 0, channel := entry.changed)])
  }

  /** A withdrawal gives up waiting, or is released: either way the entry is open again and may be collected. */
  function WithdrawalOver(g: Gate, id: nat): Gate
    requires id in g.withdrawals && g.withdrawals[id].entry in g.entries
  {
    var e := g.withdrawals[id].entry;
    Collected(g.(entries := g.entries[e := g.entries[e].(withdrawing := false)],
                 withdrawals := g.withdrawals - {id}), e)
  }

  function DeletionMarked(g: Gate, u: User): Gate {
    if u == NIL then g
    else
      var g1 := WithEntry(g, u);
      if g1.users[u] !in g1.entries then g
      else g1.(entries := g1.entries[g1.users[u] := g1.entries[g1.users[u]].(deleted := true)])
  }

  datatype Event =
    | BeginOperation(user: User, id: nat, cancellable: bool)
    | LeaveCancelList(id: nat)
    | EndOperation(id: nat)
    | BeginWithdrawal(user: User, id: nat)
    | Wake(id: nat)
    | GiveUp(id: nat)
    | ReleaseWithdrawal(id: nat)
    | MarkDeleted(user: User)

  ghost predicate Enabled(g: Gate, e: Event) {
    match e
    case BeginOperation(_, id, _) => id !in g.ops
    case LeaveCancelList(id) => id in g.ops && g.ops[id].cancellable && !g.ops[id].leaving
    case EndOperation(id) => id in g.ops && (g.ops[id].cancellable ==> g.ops[id].leaving)
    case BeginWithdrawal(_, id) => id !in g.withdrawals
    case Wake(id) => id in g.withdrawals && !g.withdrawals[id].granted && g.withdrawals[id].channel in g.closed
    case GiveUp(id) => id in g.withdrawals && !g.withdrawals[id].granted
    case ReleaseWithdrawal(id) => id in g.withdrawals && g.withdrawals[id].granted
    case MarkDeleted(_) => true
  }

  ghost function Step(g: Gate, e: Event): Gate
    requires Inv(g) && Enabled(g, e)
  {
    match e
    case BeginOperation(u, id, cancellable) => OpBegun(g, u, id, cancellable)
    case LeaveCancelList(id) => OpLeft(g, id)
    case EndOperation(id) => OpEnded(g, id)
    case BeginWithdrawal(u, id) => WithdrawalBegun(g, u, id)
    case Wake(id) => WithdrawalWoken(g, id)
    case GiveUp(id) => WithdrawalOver(g, id)
    case ReleaseWithdrawal(id) => WithdrawalOver(g, id)
    case MarkDeleted(u) => DeletionMarked(g, u)
  }

  // ---------- Invariant ----------

  ghost function OpsOn(e: nat): Op -> int { (o: Op) => if o.entry == e then 1 else 0 }
  ghost function WithdrawalsOn(e: nat): Withdrawal -> int { (w: Withdrawal) => if w.entry == e then 1 else 0 }

  predicate Busy(entry: Entry) { entry.operations > 0 || entry.withdrawing || entry.deleted }

  /** The map and the entries point at each other, and whatever matters is the entry in the map. */
  ghost predicate Pointers(users: map<User, nat>, entries: map<nat, Entry>, nextEntry: nat, nextChannel: nat) {
    && NIL !in users
    && (forall u :: u in users ==> users[u] in entries && entries[users[u]].user == u)
    && (forall e :: e in entries ==> e < nextEntry && entries[e].changed < nextChannel)
    && (forall e :: e in entries && Busy(entries[e]) ==> entries[e].user in users && users[entries[e].user] == e)
  }

  /** An entry counts exactly the operations that entered through it. */
  ghost predicate Counted(ops: map<nat, Op>, entries: map<nat, Entry>) {
    && (forall o :: o in ops ==> ops[o].entry in entries && entries[ops[o].entry].user == ops[o].user)
    && (forall e :: e in entries ==> entries[e].operations == Total(ops, OpsOn(e)))
  }

  /** A granted withdrawal has no operation left; a waiting one has one, or its channel is closed. */
  ghost predicate WithdrawalOk(w: Withdrawal, entries: map<nat, Entry>, closed: set<nat>) {
    && w.entry in entries && entries[w.entry].user == w.user
    && if w.granted then entries[w.entry].operations == 0
       else w.channel in closed || (w.channel == entries[w.entry].changed && entries[w.entry].operations > 0)
  }

  ghost predicate Exclusive(withdrawals: map<nat, Withdrawal>, entries: map<nat, Entry>, closed: set<nat>) {
    && (forall w :: w in withdrawals ==> WithdrawalOk(withdrawals[w], entries, closed))
    && (forall e :: e in entries ==> Total(withdrawals, WithdrawalsOn(e)) == if entries[e].withdrawing then 1 else 0)
  }

  /** The cancel list of an entry is exactly its cancellable operations not yet leaving; a withdrawal has cancelled all. */
  ghost predicate OpOk(o: nat, op: Op, entry: Entry) {
    && (o in entry.cancels <==> op.cancellable && !op.leaving)
    && (entry.withdrawing && op.cancellable && !op.leaving ==> op.cancelled)
  }

  ghost predicate Cancelling(ops: map<nat, Op>, entries: map<nat, Entry>) {
    && (forall e, o :: e in entries && o in entries[e].cancels ==> o in ops && ops[o].entry == e)
    && (forall o :: o in ops && ops[o].entry in entries ==> OpOk(o, ops[o], entries[ops[o].entry]))
  }

  ghost predicate Inv(g: Gate) {
    && Pointers(g.users, g.entries, g.nextEntry, g.nextChannel)
    && Counted(g.ops, g.entries)
    && Exclusive(g.withdrawals, g.entries, g.closed)
    && Cancelling(g.ops, g.entries)
  }

  // ---------- Preservation ----------

  lemma OpsAfter(ops: map<nat, Op>, id: nat, op: Op)
    ensures id !in ops ==> forall e :: Total(ops[id := op], OpsOn(e)) == Total(ops, OpsOn(e)) + OpsOn(e)(op)
    ensures id in ops && op.entry == ops[id].entry ==> forall e :: Total(ops[id := op], OpsOn(e)) == Total(ops, OpsOn(e))
    ensures id in ops ==> forall e :: Total(ops - {id}, OpsOn(e)) == Total(ops, OpsOn(e)) - OpsOn(e)(ops[id])
  {
    forall e: nat
      ensures Total(ops[id := op], OpsOn(e)) == Total(ops, OpsOn(e)) - WeightAt(ops, id, OpsOn(e)) + OpsOn(e)(op)
      ensures Total(ops - {id}, OpsOn(e)) == Total(ops, OpsOn(e)) - WeightAt(ops, id, OpsOn(e))
    {
      TotalUpdate(ops, id, op, OpsOn(e));
      TotalRemove(ops, id, OpsOn(e));
    }
  }

  lemma WithdrawalsAfter(ws: map<nat, Withdrawal>, id: nat, w: Withdrawal)
    ensures id !in ws ==> forall e :: Total(ws[id := w], WithdrawalsOn(e)) == Total(ws, WithdrawalsOn(e)) + WithdrawalsOn(e)(w)
    ensures id in ws && w.entry == ws[id].entry ==>
              forall e :: Total(ws[id := w], WithdrawalsOn(e)) == Total(ws, WithdrawalsOn(e))
    ensures id in ws ==> forall e :: Total(ws - {id}, WithdrawalsOn(e)) == Total(ws, WithdrawalsOn(e)) - WithdrawalsOn(e)(ws[id])
  {
    forall e: nat
      ensures Total(ws[id := w], WithdrawalsOn(e)) == Total(ws, WithdrawalsOn(e)) - WeightAt(ws, id, WithdrawalsOn(e)) + WithdrawalsOn(e)(w)
      ensures Total(ws - {id}, WithdrawalsOn(e)) == Total(ws, WithdrawalsOn(e)) - WeightAt(ws, id, WithdrawalsOn(e))
    {
      TotalUpdate(ws, id, w, WithdrawalsOn(e));
      TotalRemove(ws, id, WithdrawalsOn(e));
    }
  }

  lemma NoneOn(g: Gate, e: nat)
    requires Inv(g) && e !in g.entries
    ensures Total(g.ops, OpsOn(e)) == 0 && Total(g.withdrawals, WithdrawalsOn(e)) == 0
  {
    TotalNonNegative(g.ops, OpsOn(e));
    TotalNonNegative(g.withdrawals, WithdrawalsOn(e));
    if Total(g.ops, OpsOn(e)) > 0 {
      var o := TotalPositive(g.ops, OpsOn(e));
    }
    if Total(g.withdrawals, WithdrawalsOn(e)) > 0 {
      var w := TotalPositive(g.withdrawals, WithdrawalsOn(e));
    }
  }

  /** What counts say about a single operation or withdrawal. */
  lemma Present(g: Gate, e: nat)
    requires Inv(g) && e in g.entries
    ensures forall o :: o in g.ops && g.ops[o].entry == e ==> g.entries[e].operations > 0
    ensures forall w :: w in g.withdrawals && g.withdrawals[w].entry == e ==> g.entries[e].withdrawing
    ensures g.entries[e].operations >= 0
  {
    hide Pointers, Cancelling;
    TotalNonNegative(g.ops, OpsOn(e));
    forall o | o in g.ops && g.ops[o].entry == e
      ensures g.entries[e].operations > 0
    {
      TotalAtLeast(g.ops, o, OpsOn(e));
    }
    forall w | w in g.withdrawals && g.withdrawals[w].entry == e
      ensures g.entries[e].withdrawing
    {
      TotalAtLeast(g.withdrawals, w, WithdrawalsOn(e));
    }
  }

  lemma UserEntry(g: Gate, u: User)
    requires Inv(g) && u in g.users
    ensures u != NIL && g.users[u] in g.entries && g.entries[g.users[u]].user == u
    ensures g.entries[g.users[u]].changed < g.nextChannel
  {
    hide Counted, Exclusive, Cancelling;
  }

  /** The entry an operation entered through is alive, busy, and hence the one in the map. */
  lemma OpEntry(g: Gate, id: nat)
    requires Inv(g) && id in g.ops
    ensures var e := g.ops[id].entry;
            && e in g.entries && g.entries[e].user == g.ops[id].user && g.entries[e].operations > 0
            && g.entries[e].user in g.users && g.users[g.entries[e].user] == e && g.entries[e].changed < g.nextChannel
  {
    hide Total, Exclusive, Cancelling;
    Present(g, g.ops[id].entry);
    assert Busy(g.entries[g.ops[id].entry]);
  }

  /** Likewise for the entry of a withdrawal, whether it waits or holds the gate. */
  lemma WithdrawalEntry(g: Gate, id: nat)
    requires Inv(g) && id in g.withdrawals
    ensures var e := g.withdrawals[id].entry;
            && e in g.entries && g.entries[e].user == g.withdrawals[id].user && g.entries[e].withdrawing
            && g.entries[e].user in g.users && g.users[g.entries[e].user] == e && g.entries[e].changed < g.nextChannel
            && WithdrawalOk(g.withdrawals[id], g.entries, g.closed)
  {
    hide Total, Counted, Cancelling;
    assert WithdrawalOk(g.withdrawals[id], g.entries, g.closed);
    Present(g, g.withdrawals[id].entry);
    assert Busy(g.entries[g.withdrawals[id].entry]);
  }

  // One lemma per part of the invariant and kind of change.

  lemma PointersKept(g: Gate, e: nat, entry: Entry, nextChannel: nat)
    requires Pointers(g.users, g.entries, g.nextEntry, g.nextChannel) && e in g.entries && g.nextChannel <= nextChannel
    requires entry.user == g.entries[e].user && entry.changed < nextChannel
    requires Busy(entry) ==> entry.user in g.users && g.users[entry.user] == e
    ensures Pointers(g.users, g.entries[e := entry], g.nextEntry, nextChannel)
  {
  }

  lemma ExclusiveKept(g: Gate, e: nat, entry: Entry, closed: set<nat>)
    requires Exclusive(g.withdrawals, g.entries, g.closed) && e in g.entries && g.closed <= closed
    requires entry.user == g.entries[e].user && entry.withdrawing == g.entries[e].withdrawing
    requires forall w :: w in g.withdrawals && g.withdrawals[w].entry == e ==>
               WithdrawalOk(g.withdrawals[w], g.entries[e := entry], closed)
    ensures Exclusive(g.withdrawals, g.entries[e := entry], closed)
  {
    hide Total;
    forall w | w in g.withdrawals
      ensures WithdrawalOk(g.withdrawals[w], g.entries[e := entry], closed)
    {
      assert WithdrawalOk(g.withdrawals[w], g.entries, g.closed);
    }
  }

  lemma CountedChange(ops: map<nat, Op>, entries: map<nat, Entry>, ops': map<nat, Op>, e: nat, entry: Entry)
    requires Counted(ops, entries) && e in entries && entry.user == entries[e].user
    requires forall o :: o in ops' ==>
               if o in ops then ops'[o].entry == ops[o].entry && ops'[o].user == ops[o].user
               else ops'[o].entry == e && ops'[o].user == entry.user
    requires forall k :: Total(ops', OpsOn(k)) == Total(ops, OpsOn(k)) + if k == e then entry.operations - entries[e].operations else 0
    ensures Counted(ops', entries[e := entry])
  {
    hide Total;
  }

  lemma CancellingChange(ops: map<nat, Op>, entries: map<nat, Entry>, ops': map<nat, Op>, e: nat, entry: Entry)
    requires Cancelling(ops, entries) && e in entries
    requires forall o :: o in ops' ==> ops'[o].entry == if o in ops then ops[o].entry else e
    requires forall o :: o in ops' && o in ops && ops[o].entry != e ==> ops'[o] == ops[o]
    requires forall o :: o in ops && ops[o].entry != e ==> o in ops'
    requires forall o :: o in entry.cancels ==> o in ops' && ops'[o].entry == e
    requires forall o :: o in ops' && ops'[o].entry == e ==> OpOk(o, ops'[o], entry)
    ensures Cancelling(ops', entries[e := entry])
  {
    forall o | o in ops' && ops'[o].entry in entries[e := entry]
      ensures OpOk(o, ops'[o], entries[e := entry][ops'[o].entry])
    {
      if ops'[o].entry != e {
        assert OpOk(o, ops[o], entries[ops[o].entry]);
      }
    }
  }

  lemma CancelFacts(ops: map<nat, Op>, entries: map<nat, Entry>, e: nat)
    requires Cancelling(ops, entries) && e in entries
    ensures forall o :: o in entries[e].cancels ==> o in ops && ops[o].entry == e
    ensures forall o :: o in ops && ops[o].entry == e ==> OpOk(o, ops[o], entries[e])
  {
  }

  lemma WithdrawalFacts(g: Gate, e: nat)
    requires Exclusive(g.withdrawals, g.entries, g.closed)
    ensures forall w :: w in g.withdrawals && g.withdrawals[w].entry == e ==> WithdrawalOk(g.withdrawals[w], g.entries, g.closed)
  {
  }

  lemma NewEntryCounted(ops: map<nat, Op>, entries: map<nat, Entry>, e: nat, entry: Entry)
    requires Counted(ops, entries) && e !in entries && entry.operations == 0 && Total(ops, OpsOn(e)) == 0
    ensures Counted(ops, entries[e := entry])
  {
    hide Total;
  }

  lemma NewEntryExclusive(ws: map<nat, Withdrawal>, entries: map<nat, Entry>, closed: set<nat>, e: nat, entry: Entry)
    requires Exclusive(ws, entries, closed) && e !in entries && !entry.withdrawing && Total(ws, WithdrawalsOn(e)) == 0
    ensures Exclusive(ws, entries[e := entry], closed)
  {
    hide Total;
    forall w | w in ws
      ensures WithdrawalOk(ws[w], entries[e := entry], closed)
    {
      assert WithdrawalOk(ws[w], entries, closed);
    }
  }

  lemma NewEntryPointers(g: Gate, u: User)
    requires Pointers(g.users, g.entries, g.nextEntry, g.nextChannel) && u !in g.users && u != NIL
    ensures g.nextEntry !in g.entries
    ensures Pointers(g.users[u := g.nextEntry], g.entries[g.nextEntry := Entry(u, false, false, 0, g.nextChannel, {})],
                     g.nextEntry + 1, g.nextChannel + 1)
  {
  }

  lemma NewEntryCancelling(ops: map<nat, Op>, entries: map<nat, Entry>, e: nat, entry: Entry)
    requires Counted(ops, entries) && Cancelling(ops, entries) && e !in entries && entry.cancels == {}
    ensures Cancelling(ops, entries[e := entry])
  {
    hide Total;
    forall o | o in ops && ops[o].entry in entries[e := entry]
      ensures OpOk(o, ops[o], entries[e := entry][ops[o].entry])
    {
      assert OpOk(o, ops[o], entries[ops[o].entry]);
    }
  }

  lemma WithEntryKeeps(g: Gate, u: User)
    requires Inv(g) && u != NIL
    ensures var g1 := WithEntry(g, u);
            && Inv(g1) && u in g1.users && g1.ops == g.ops && g1.withdrawals == g.withdrawals
            && (Admits(g, u) <==> Admits(g1, u))
  {
    hide Total, Pointers, Counted, Exclusive, Cancelling;
    if u !in g.users {
      NewEntryPointers(g, u);
      NoneOn(g, g.nextEntry);
      var entry := Entry(u, false, false, 0, g.nextChannel, {});
      NewEntryCounted(g.ops, g.entries, g.nextEntry, entry);
      NewEntryExclusive(g.withdrawals, g.entries, g.closed, g.nextEntry, entry);
      NewEntryCancelling(g.ops, g.entries, g.nextEntry, entry);
    }
  }

  lemma CollectedKeeps(g: Gate, e: nat)
    requires Inv(g)
    ensures Inv(Collected(g, e))
  {
    hide Counted, Exclusive, Cancelling;
  }

  lemma AddOp(g: Gate, u: User, id: nat, cancellable: bool)
    requires Inv(g) && id !in g.ops && u in g.users && Admits(g, u)
    ensures var e := g.users[u];
            && e in g.entries
            && var entry := g.entries[e];
               var entry' := entry.(operations := entry.operations + 1,
                                    cancels := if cancellable then entry.cancels + {id} else entry.cancels);
               Inv(g.(entries := g.entries[e := entry'], ops := g.ops[id := Op(u, e, cancellable, false, false)]))
  {
    hide Total, Pointers, Counted, Exclusive, Cancelling;
    UserEntry(g, u);
    var e := g.users[u];
    var entry := g.entries[e];
    var entry' := entry.(operations := entry.operations + 1,
                         cancels := if cancellable then entry.cancels + {id} else entry.cancels);
    var op := Op(u, e, cancellable, false, false);
    Present(g, e);
    OpsAfter(g.ops, id, op);
    PointersKept(g, e, entry', g.nextChannel);
    CountedChange(g.ops, g.entries, g.ops[id := op], e, entry');
    ExclusiveKept(g, e, entry', g.closed);
    CancelFacts(g.ops, g.entries, e);
    CancellingChange(g.ops, g.entries, g.ops[id := op], e, entry');
  }

  lemma OpBegunKeeps(g: Gate, u: User, id: nat, cancellable: bool)
    requires Inv(g) && id !in g.ops
    ensures Inv(OpBegun(g, u, id, cancellable))
  {
    hide Inv;
    if u != NIL && Admits(g, u) {
      WithEntryKeeps(g, u);
      AddOp(WithEntry(g, u), u, id, cancellable);
    }
  }

  lemma OpLeftKeeps(g: Gate, id: nat)
    requires Inv(g) && id in g.ops
    ensures g.ops[id].entry in g.entries && Inv(OpLeft(g, id))
  {
    hide Total, Pointers, Counted, Exclusive, Cancelling;
    OpEntry(g, id);
    var e := g.ops[id].entry;
    var entry' := g.entries[e].(cancels := g.entries[e].cancels - {id});
    var ops' := g.ops[id := g.ops[id].(leaving := true)];
    OpsAfter(g.ops, id, ops'[id]);
    PointersKept(g, e, entry', g.nextChannel);
    CountedChange(g.ops, g.entries, ops', e, entry');
    WithdrawalFacts(g, e);
    ExclusiveKept(g, e, entry', g.closed);
    CancelFacts(g.ops, g.entries, e);
    CancellingChange(g.ops, g.entries, ops', e, entry');
  }

  lemma OpEndedKeeps(g: Gate, id: nat)
    requires Inv(g) && Enabled(g, EndOperation(id))
    ensures g.ops[id].entry in g.entries && Inv(OpEnded(g, id))
  {
    hide Total, Pointers, Counted, Exclusive, Cancelling;
    OpEntry(g, id);
    var e := g.ops[id].entry;
    var entry := g.entries[e];
    var last := entry.operations == 1;
    var entry' := if last then entry.(operations := 0, changed := g.nextChannel)
                  else entry.(operations := entry.operations - 1);
    var g1 := g.(ops := g.ops - {id}, entries := g.entries[e := entry'],
                 closed := if last then g.closed + {entry.changed} else g.closed,
                 nextChannel := if last then g.nextChannel + 1 else g.nextChannel);
    OpsAfter(g.ops, id, g.ops[id]);
    PointersKept(g, e, entry', g1.nextChannel);
    CountedChange(g.ops, g.entries, g1.ops, e, entry');
    WithdrawalFacts(g, e);
    ExclusiveKept(g, e, entry', g1.closed);
    CancelFacts(g.ops, g.entries, e);
    CancellingChange(g.ops, g.entries, g1.ops, e, entry');
    CollectedKeeps(g1, e);
  }

  ghost function AllCancelled(ops: map<nat, Op>, cancels: set<nat>): map<nat, Op> {
    map o | o in ops :: if o in cancels then ops[o].(cancelled := true) else ops[o]
  }

  lemma {:induction false} SameTotal(a: map<nat, Op>, b: map<nat, Op>, w: Op -> int)
    requires a.Keys == b.Keys && forall k :: k in a ==> w(a[k]) == w(b[k])
    ensures Total(a, w) == Total(b, w)
    decreases |a|
  {
    if a != map[] {
      var k :| k in a && Total(a, w) == w(a[k]) + Total(a - {k}, w);
      TotalSplit(b, k, w);
      SameTotal(a - {k}, b - {k}, w);
    } else {
      assert b == map[];
    }
  }

  lemma StartWithdrawal(g: Gate, u: User, id: nat)
    requires Inv(g) && id !in g.withdrawals && u in g.users && Admits(g, u)
    ensures var e := g.users[u];
            && e in g.entries
            && var entry := g.entries[e];
               Inv(g.(entries := g.entries[e := entry.(withdrawing := true)], ops := AllCancelled(g.ops, entry.cancels),
                      withdrawals := g.withdrawals[id := Withdrawal(u, e, entry.operations == 0, entry.changed)]))
  {
    hide Total, Pointers, Counted, Exclusive, Cancelling;
    UserEntry(g, u);
    var e := g.users[u];
    var entry := g.entries[e];
    var entry' := entry.(withdrawing := true);
    var ops' := AllCancelled(g.ops, entry.cancels);
    forall k: nat
      ensures Total(ops', OpsOn(k)) == Total(g.ops, OpsOn(k))
    {
      SameTotal(g.ops, ops', OpsOn(k));
    }
    PointersKept(g, e, entry', g.nextChannel);
    CountedChange(g.ops, g.entries, ops', e, entry');
    AddWithdrawal(g, e, id);
    CancelFacts(g.ops, g.entries, e);
    CancellingChange(g.ops, g.entries, ops', e, entry');
  }

  lemma AddWithdrawal(g: Gate, e: nat, id: nat)
    requires Inv(g) && id !in g.withdrawals && e in g.entries && !g.entries[e].withdrawing
    ensures var entry := g.entries[e];
            Exclusive(g.withdrawals[id := Withdrawal(entry.user, e, entry.operations == 0, entry.changed)],
                      g.entries[e := entry.(withdrawing := true)], g.closed)
  {
    hide Total, Pointers, Counted, Cancelling;
    var entry := g.entries[e];
    var w := Withdrawal(entry.user, e, entry.operations == 0, entry.changed);
    Present(g, e);
    WithdrawalsAfter(g.withdrawals, id, w);
    var ws := g.withdrawals[id := w];
    forall v | v in ws
      ensures WithdrawalOk(ws[v], g.entries[e := entry.(withdrawing := true)], g.closed)
    {
      if v != id {
        assert WithdrawalOk(g.withdrawals[v], g.entries, g.closed);
      }
    }
  }

  lemma WithdrawalBegunKeeps(g: Gate, u: User, id: nat)
    requires Inv(g) && id !in g.withdrawals
    ensures Inv(WithdrawalBegun(g, u, id))
  {
    hide Inv;
    if u != NIL && Admits(g, u) {
      WithEntryKeeps(g, u);
      StartWithdrawal(WithEntry(g, u), u, id);
    }
  }

  lemma WithdrawalWokenKeeps(g: Gate, id: nat)
    requires Inv(g) && Enabled(g, Wake(id))
    ensures g.withdrawals[id].entry in g.entries && Inv(WithdrawalWoken(g, id))
  {
    hide Total, Counted, Cancelling, Pointers;
    WithdrawalEntry(g, id);
    Present(g, g.withdrawals[id].entry);
    var w := g.withdrawals[id];
    var w' := w.(granted := g.entries[w.entry].operations == 0, channel := g.entries[w.entry].changed);
    WithdrawalsAfter(g.withdrawals, id, w');
    var ws := g.withdrawals[id := w'];
    forall v | v in ws
      ensures WithdrawalOk(ws[v], g.entries, g.closed)
    {
      assert WithdrawalOk(g.withdrawals[v], g.entries, g.closed);
    }
  }

  lemma EndExclusive(g: Gate, id: nat)
    requires Inv(g) && id in g.withdrawals && g.withdrawals[id].entry in g.entries && g.entries[g.withdrawals[id].entry].withdrawing
    ensures var e := g.withdrawals[id].entry;
            Exclusive(g.withdrawals - {id}, g.entries[e := g.entries[e].(withdrawing := false)], g.closed)
  {
    hide Total, Counted, Cancelling, Pointers;
    var e := g.withdrawals[id].entry;
    WithdrawalsAfter(g.withdrawals, id, g.withdrawals[id]);
    forall v | v in g.withdrawals - {id}
      ensures WithdrawalOk(g.withdrawals[v], g.entries[e := g.entries[e].(withdrawing := false)], g.closed)
    {
      assert WithdrawalOk(g.withdrawals[v], g.entries, g.closed);
    }
  }

  lemma WithdrawalOverKeeps(g: Gate, id: nat)
    requires Inv(g) && id in g.withdrawals
    ensures g.withdrawals[id].entry in g.entries && Inv(WithdrawalOver(g, id))
  {
    hide Total, Pointers, Counted, Exclusive, Cancelling;
    WithdrawalEntry(g, id);
    var e := g.withdrawals[id].entry;
    var entry' := g.entries[e].(withdrawing := false);
    var g1 := g.(entries := g.entries[e := entry'], withdrawals := g.withdrawals - {id});
    PointersKept(g, e, entry', g.nextChannel);
    CountedChange(g.ops, g.entries, g.ops, e, entry') by { OpUsers(g); }
    EndExclusive(g, id);
    CancelFacts(g.ops, g.entries, e);
    CancellingChange(g.ops, g.entries, g.ops, e, entry');
    CollectedKeeps(g1, e);
  }

  lemma OpUsers(g: Gate)
    requires Counted(g.ops, g.entries)
    ensures forall o :: o in g.ops ==> g.ops[o].entry in g.entries
  {
  }

  lemma DeletionKeeps(g: Gate, u: User)
    requires Inv(g)
    ensures Inv(DeletionMarked(g, u))
  {
    hide Total, Pointers, Counted, Exclusive, Cancelling;
    if u != NIL {
      WithEntryKeeps(g, u);
      var g1 := WithEntry(g, u);
      UserEntry(g1, u);
      var e := g1.users[u];
      var entry' := g1.entries[e].(deleted := true);
      PointersKept(g1, e, entry', g1.nextChannel);
      CountedChange(g1.ops, g1.entries, g1.ops, e, entry');
      WithdrawalFacts(g1, e);
      ExclusiveKept(g1, e, entry', g1.closed);
      CancelFacts(g1.ops, g1.entries, e);
      CancellingChange(g1.ops, g1.entries, g1.ops, e, entry');
    }
  }

  lemma StepKeepsInv(g: Gate, e: Event)
    requires Inv(g) && Enabled(g, e)
    ensures Inv(Step(g, e))
  {
    match e
    case BeginOperation(u, id, cancellable) => OpBegunKeeps(g, u, id, cancellable);
    case LeaveCancelList(id) => OpLeftKeeps(g, id);
    case EndOperation(id) => OpEndedKeeps(g, id);
    case BeginWithdrawal(u, id) => WithdrawalBegunKeeps(g, u, id);
    case Wake(id) => WithdrawalWokenKeeps(g, id);
    case GiveUp(id) => WithdrawalOverKeeps(g, id);
    case ReleaseWithdrawal(id) => WithdrawalOverKeeps(g, id);
    case MarkDeleted(u) => DeletionKeeps(g, u);
  }

  // ---------- What it means ----------

  ghost predicate Runs(g: Gate, run: seq<Event>)
    requires Inv(g)
    decreases |run|
  {
    run == [] || (Enabled(g, run[0]) && (StepKeepsInv(g, run[0]); Runs(Step(g, run[0]), run[1..])))
  }

  ghost function After(g: Gate, run: seq<Event>): Gate
    requires Inv(g) && Runs(g, run)
    decreases |run|
  {
    if run == [] then g else (StepKeepsInv(g, run[0]); After(Step(g, run[0]), run[1..]))
  }

  ghost predicate IsDeleted(g: Gate, u: User) {
    u in g.users && g.users[u] in g.entries && g.entries[g.users[u]].deleted
  }

  /** A granted withdrawal coexists with no operation of its user, cancelled or not, and with no other withdrawal. */
  lemma GrantedStandsAlone(g: Gate, w: nat)
    requires Inv(g) && w in g.withdrawals && g.withdrawals[w].granted
    ensures forall o :: o in g.ops ==> g.ops[o].user != g.withdrawals[w].user
    ensures forall v :: v in g.withdrawals && g.withdrawals[v].user == g.withdrawals[w].user ==> v == w
  {
    hide Total;
    var u := g.withdrawals[w].user;
    var e := g.withdrawals[w].entry;
    Present(g, e);
    forall o | o in g.ops && g.ops[o].user == u
      ensures false
    {
      Present(g, g.ops[o].entry);
    }
    forall v | v in g.withdrawals && g.withdrawals[v].user == u
      ensures v == w
    {
      Present(g, g.withdrawals[v].entry);
      assert g.withdrawals[v].entry == e;
      if v != w {
        TotalRemove(g.withdrawals, w, WithdrawalsOn(e));
        TotalAtLeast(g.withdrawals - {w}, v, WithdrawalsOn(e));
        assert false;
      }
    }
  }

  /** While a withdrawal of the user waits or holds the gate, no further operation or withdrawal gets in. */
  lemma WithdrawalShutsOut(g: Gate, w: nat)
    requires Inv(g) && w in g.withdrawals
    ensures !Admits(g, g.withdrawals[w].user)
  {
    Present(g, g.withdrawals[w].entry);
  }

  /** A withdrawal that is still blocked has an operation to wait for, so its wake-up was not lost. */
  lemma BlockedMeansBusy(g: Gate, w: nat)
    requires Inv(g) && w in g.withdrawals && !g.withdrawals[w].granted && !Enabled(g, Wake(w))
    ensures exists o :: o in g.ops && g.ops[o].user == g.withdrawals[w].user
  {
    var e := g.withdrawals[w].entry;
    var o := TotalPositive(g.ops, OpsOn(e));
    assert g.ops[o].user == g.withdrawals[w].user;
  }

  /** Every cancellable operation still at work during its user's withdrawal has been told to stop. */
  lemma RunningWasCancelled(g: Gate, w: nat, o: nat)
    requires Inv(g) && w in g.withdrawals && o in g.ops && g.ops[o].user == g.withdrawals[w].user
    requires g.ops[o].cancellable && !g.ops[o].leaving
    ensures g.ops[o].cancelled
  {
    Present(g, g.withdrawals[w].entry);
    Present(g, g.ops[o].entry);
  }

  /** Only an admitted BeginOperation adds an operation; every other step keeps or removes operations. */
  lemma OpsOnlyFromBegin(g: Gate, e: Event, u: User)
    requires Inv(g) && Enabled(g, e) && !Admits(g, u)
    ensures forall o :: o in Step(g, e).ops && Step(g, e).ops[o].user == u ==> o in g.ops && g.ops[o].user == u
  {
    hide Total, Pointers, Exclusive, Cancelling;
    assert Counted(g.ops, g.entries);
  }

  /** A step keeps a deleted user's entry in the map, and keeps its deletion mark. */
  lemma StepKeepsDeleted(g: Gate, e: Event, u: User)
    requires Inv(g) && Enabled(g, e) && IsDeleted(g, u)
    ensures IsDeleted(Step(g, e), u)
  {
    hide Total, Exclusive, Cancelling;
    var k := g.users[u];
    assert k in g.entries && g.entries[k].user == u;
  }

  lemma EmptyInv()
    ensures Inv(EmptyGate())
  {
  }

  /** Main theorem over every run: the invariant holds, and once deleted a user never gets another operation. */
  lemma {:induction false} RunKeepsGate(g: Gate, run: seq<Event>, u: User)
    requires Inv(g) && Runs(g, run)
    ensures Inv(After(g, run))
    ensures IsDeleted(g, u) ==> IsDeleted(After(g, run), u)
    ensures IsDeleted(g, u) ==>
              forall o :: o in After(g, run).ops && After(g, run).ops[o].user == u ==> o in g.ops && g.ops[o].user == u
    decreases |run|
  {
    hide Total, Pointers, Counted, Exclusive, Cancelling;
    if run != [] {
      StepKeepsInv(g, run[0]);
      if IsDeleted(g, u) {
        StepKeepsDeleted(g, run[0], u);
        OpsOnlyFromBegin(g, run[0], u);
      }
      hide Step, Inv;
      RunKeepsGate(Step(g, run[0]), run[1..], u);
    }
  }
}
