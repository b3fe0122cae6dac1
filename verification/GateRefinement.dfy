/** The operation gate refines a gate without entries, counters, channels and collection: a list of operations, a list of
    withdrawals and a set of deleted users. */
module GateRefinement {
  import opened Totals
  import opened OperationGate

  datatype PlainOp = PlainOp(user: User, cancellable: bool, cancelled: bool, leaving: bool)
  datatype PlainWithdrawal = PlainWithdrawal(user: User, granted: bool)
  datatype PlainGate = PlainGate(ops: map<nat, PlainOp>, withdrawals: map<nat, PlainWithdrawal>, deleted: set<User>)

  predicate AtWork(p: PlainGate, u: User) { exists o :: o in p.ops && p.ops[o].user == u }
  predicate Withdraws(p: PlainGate, u: User) { exists w :: w in p.withdrawals && p.withdrawals[w].user == u }

  /** Nobody new gets in beside a withdrawal, or for a deleted user. */
  predicate Open(p: PlainGate, u: User) { u != 0 && !Withdraws(p, u) && u !in p.deleted }

  function PlainStep(p: PlainGate, e: Event): PlainGate {
    match e
    case BeginOperation(u, id, cancellable) =>
      if Open(p, u) then p.(ops := p.ops[id := PlainOp(u, cancellable, false, false)]) else p
    case LeaveCancelList(id) => if id in p.ops then p.(ops := p.ops[id := p.ops[id].(leaving := true)]) else p
    case EndOperation(id) => p.(ops := p.ops - {id})
    case BeginWithdrawal(u, id) =>
      if !Open(p, u) then p
      else p.(withdrawals := p.withdrawals[id := PlainWithdrawal(u, !AtWork(p, u))],
              ops := map o | o in p.ops ::
                       if p.ops[o].user == u && p.ops[o].cancellable && !p.ops[o].leaving then p.ops[o].(cancelled := true) else p.ops[o])
    case Wake(id) =>
      if id in p.withdrawals
      then p.(withdrawals := p.withdrawals[id := p.withdrawals[id].(granted := !AtWork(p, p.withdrawals[id].user))]) else p
    case GiveUp(id) => p.(withdrawals := p.withdrawals - {id})
    case ReleaseWithdrawal(id) => p.(withdrawals := p.withdrawals - {id})
    case MarkDeleted(u) => if u == 0 then p else p.(deleted := p.deleted + {u})
  }

  function PlainOps(ops: map<nat, Op>): map<nat, PlainOp> {
    map o | o in ops :: PlainOp(ops[o].user, ops[o].cancellable, ops[o].cancelled, ops[o].leaving)
  }

  function PlainWithdrawals(ws: map<nat, Withdrawal>): map<nat, PlainWithdrawal> {
    map w | w in ws :: PlainWithdrawal(ws[w].user, ws[w].granted)
  }

  function Deleted(g: Gate): set<User> { set u | u in g.users && g.users[u] in g.entries && g.entries[g.users[u]].deleted }

  function Plain(g: Gate): PlainGate { PlainGate(PlainOps(g.ops), PlainWithdrawals(g.withdrawals), Deleted(g)) }

  // ---------- What flags and counters stand for ----------

  lemma CountersMean(g: Gate, u: User)
    requires Inv(g)
    ensures AtWork(Plain(g), u) <==> u in g.users && g.entries[g.users[u]].operations > 0
    ensures Withdraws(Plain(g), u) <==> u in g.users && g.entries[g.users[u]].withdrawing
  {
    hide Cancelling;
    var p := Plain(g);
    if AtWork(p, u) {
      var o :| o in p.ops && p.ops[o].user == u;
      OpEntry(g, o);
    }
    if Withdraws(p, u) {
      var w :| w in p.withdrawals && p.withdrawals[w].user == u;
      WithdrawalEntry(g, w);
    }
    if u in g.users {
      var e := g.users[u];
      if g.entries[e].operations > 0 {
        var o := TotalPositive(g.ops, OpsOn(e));
        assert o in p.ops && p.ops[o].user == u;
      }
      if g.entries[e].withdrawing {
        var w := TotalPositive(g.withdrawals, WithdrawalsOn(e));
        assert WithdrawalOk(g.withdrawals[w], g.entries, g.closed);
        assert w in p.withdrawals && p.withdrawals[w].user == u;
      }
    }
  }

  lemma OpenExactly(g: Gate, u: User)
    requires Inv(g)
    ensures Open(Plain(g), u) <==> u != NIL && Admits(g, u)
  {
    CountersMean(g, u);
    hide Total, Counted, Exclusive, Cancelling;
  }

  // ---------- Entries come and go unnoticed ----------

  lemma EntryUnnoticed(g: Gate, u: User)
    requires Inv(g)
    ensures Plain(WithEntry(g, u)) == Plain(g)
  {
    hide Counted, Exclusive, Cancelling;
    assert Deleted(WithEntry(g, u)) == Deleted(g);
  }

  lemma CollectionUnnoticed(g: Gate, e: nat)
    ensures Plain(Collected(g, e)) == Plain(g)
  {
    assert Deleted(Collected(g, e)) == Deleted(g);
  }

  /** An entry that keeps its deletion mark. */
  lemma DeletedKept(g: Gate, g': Gate, e: nat)
    requires g'.users == g.users && e in g.entries && e in g'.entries && g'.entries == g.entries[e := g'.entries[e]]
    requires g'.entries[e].deleted == g.entries[e].deleted
    ensures Deleted(g') == Deleted(g)
  {
  }

  lemma OpsChange(ops: map<nat, Op>, id: nat, op: Op)
    ensures PlainOps(ops[id := op]) == PlainOps(ops)[id := PlainOp(op.user, op.cancellable, op.cancelled, op.leaving)]
    ensures PlainOps(ops - {id}) == PlainOps(ops) - {id}
  {
  }

  lemma WithdrawalsChange(ws: map<nat, Withdrawal>, id: nat, w: Withdrawal)
    ensures PlainWithdrawals(ws[id := w]) == PlainWithdrawals(ws)[id := PlainWithdrawal(w.user, w.granted)]
    ensures PlainWithdrawals(ws - {id}) == PlainWithdrawals(ws) - {id}
  {
  }

  // ---------- Step by step ----------

  lemma BeginRefines(g: Gate, u: User, id: nat, cancellable: bool)
    requires Inv(g) && id !in g.ops
    ensures Plain(OpBegun(g, u, id, cancellable)) == PlainStep(Plain(g), BeginOperation(u, id, cancellable))
  {
    hide Inv, WithEntry, Open, Admits, Deleted, PlainOps, PlainWithdrawals;
    OpenExactly(g, u);
    EntryUnnoticed(g, u);
    if u != NIL && Admits(g, u) {
      WithEntryKeeps(g, u);
      var g1 := WithEntry(g, u);
      UserEntry(g1, u);
      var g' := OpBegun(g, u, id, cancellable);
      DeletedKept(g1, g', g1.users[u]);
      OpsChange(g1.ops, id, Op(u, g1.users[u], cancellable, false, false));
    }
  }

  lemma LeaveRefines(g: Gate, id: nat)
    requires Inv(g) && Enabled(g, LeaveCancelList(id))
    ensures Plain(Step(g, LeaveCancelList(id))) == PlainStep(Plain(g), LeaveCancelList(id))
  {
    hide Inv, Deleted, PlainWithdrawals;
    OpEntry(g, id);
    var g' := Step(g, LeaveCancelList(id));
    DeletedKept(g, g', g.ops[id].entry);
    OpsChange(g.ops, id, g.ops[id].(leaving := true));
    assert id in PlainOps(g.ops);
  }

  /** The gate right after the last operation has ended, before the entry is collected. */
  function Ended(g: Gate, id: nat): Gate
    requires id in g.ops && g.ops[id].entry in g.entries
  {
    var k := g.ops[id].entry;
    g.(ops := g.ops - {id}, entries := g.entries[k := g.entries[k].(operations := 0, changed := g.nextChannel)],
       closed := g.closed + {g.entries[k].changed}, nextChannel := g.nextChannel + 1)
  }

  lemma EndRefines(g: Gate, id: nat)
    requires Inv(g) && Enabled(g, EndOperation(id))
    ensures Plain(Step(g, EndOperation(id))) == PlainStep(Plain(g), EndOperation(id))
  {
    hide Inv, Deleted, PlainOps, PlainWithdrawals, Collected;
    OpEntry(g, id);
    var k := g.ops[id].entry;
    OpsChange(g.ops, id, g.ops[id]);
    DeletedKept(g, Ended(g, id), k);
    CollectionUnnoticed(Ended(g, id), k);
    if g.entries[k].operations > 1 {
      DeletedKept(g, OpEnded(g, id), k);
    } else {
      assert OpEnded(g, id) == Collected(Ended(g, id), k);
    }
  }

  lemma CancelsMean(g: Gate, u: User, o: nat)
    requires Inv(g) && u in g.users && o in g.ops
    ensures g.users[u] in g.entries
    ensures o in g.entries[g.users[u]].cancels <==> g.ops[o].user == u && g.ops[o].cancellable && !g.ops[o].leaving
  {
    UserEntry(g, u);
    OpEntry(g, o);
    hide Total, Counted, Exclusive;
    assert OpOk(o, g.ops[o], g.entries[g.ops[o].entry]);
  }

  function Told(ops: map<nat, Op>, cancels: set<nat>): map<nat, Op> {
    map o | o in ops :: if o in cancels then ops[o].(cancelled := true) else ops[o]
  }

  lemma OpsTold(ops: map<nat, Op>, cancels: set<nat>, u: User)
    requires forall o :: o in ops ==> (o in cancels <==> ops[o].user == u && ops[o].cancellable && !ops[o].leaving)
    ensures PlainOps(Told(ops, cancels)) ==
            map o | o in PlainOps(ops) ::
              if PlainOps(ops)[o].user == u && PlainOps(ops)[o].cancellable && !PlainOps(ops)[o].leaving
              then PlainOps(ops)[o].(cancelled := true) else PlainOps(ops)[o]
  {
  }

  lemma WithdrawalRefines(g: Gate, u: User, id: nat)
    requires Inv(g) && id !in g.withdrawals
    ensures Plain(WithdrawalBegun(g, u, id)) == PlainStep(Plain(g), BeginWithdrawal(u, id))
  {
    hide Inv, WithEntry, Open, Admits, Deleted, PlainOps, PlainWithdrawals, AtWork;
    OpenExactly(g, u);
    EntryUnnoticed(g, u);
    if u != NIL && Admits(g, u) {
      WithEntryKeeps(g, u);
      var g1 := WithEntry(g, u);
      UserEntry(g1, u);
      var e := g1.users[u];
      CountersMean(g1, u);
      Present(g1, e);
      forall o | o in g1.ops
        ensures o in g1.entries[e].cancels <==> g1.ops[o].user == u && g1.ops[o].cancellable && !g1.ops[o].leaving
      {
        CancelsMean(g1, u, o);
      }
      OpsTold(g1.ops, g1.entries[e].cancels, u);
      WithdrawalsChange(g1.withdrawals, id, Withdrawal(u, e, g1.entries[e].operations == 0, g1.entries[e].changed));
      var g' := WithdrawalBegun(g, u, id);
      assert g'.ops == Told(g1.ops, g1.entries[e].cancels);
      DeletedKept(g1, g', e);
    }
  }

  lemma WakeRefines(g: Gate, id: nat)
    requires Inv(g) && Enabled(g, Wake(id))
    ensures Plain(Step(g, Wake(id))) == PlainStep(Plain(g), Wake(id))
  {
    hide Inv, Deleted, PlainOps, AtWork;
    WithdrawalEntry(g, id);
    var u := g.withdrawals[id].user;
    CountersMean(g, u);
    Present(g, g.withdrawals[id].entry);
    var g' := Step(g, Wake(id));
    WithdrawalsChange(g.withdrawals, id, g'.withdrawals[id]);
    DeletedKept(g, g', g.withdrawals[id].entry);
    assert id in PlainWithdrawals(g.withdrawals);
  }

  lemma OverRefines(g: Gate, id: nat)
    requires Inv(g) && id in g.withdrawals
    ensures g.withdrawals[id].entry in g.entries
    ensures Plain(WithdrawalOver(g, id)) == Plain(g).(withdrawals := Plain(g).withdrawals - {id})
  {
    hide Inv, Deleted, PlainOps, PlainWithdrawals, Collected;
    WithdrawalEntry(g, id);
    var e := g.withdrawals[id].entry;
    var g1 := g.(entries := g.entries[e := g.entries[e].(withdrawing := false)], withdrawals := g.withdrawals - {id});
    DeletedKept(g, g1, e);
    CollectionUnnoticed(g1, e);
    WithdrawalsChange(g.withdrawals, id, g.withdrawals[id]);
  }

  lemma DeletionAdds(g: Gate, u: User)
    requires u in g.users && g.users[u] in g.entries && forall v :: v in g.users && v != u ==> g.users[v] != g.users[u]
    ensures Deleted(g.(entries := g.entries[g.users[u] := g.entries[g.users[u]].(deleted := true)])) == Deleted(g) + {u}
  {
  }

  lemma DeletionRefines(g: Gate, u: User)
    requires Inv(g)
    ensures Plain(DeletionMarked(g, u)) == PlainStep(Plain(g), MarkDeleted(u))
  {
    hide Inv, WithEntry, Deleted, PlainOps, PlainWithdrawals;
    EntryUnnoticed(g, u);
    if u != NIL {
      WithEntryKeeps(g, u);
      var g1 := WithEntry(g, u);
      UserEntry(g1, u);
      UsersApart(g1, u);
      DeletionAdds(g1, u);
    }
  }

  lemma UsersApart(g: Gate, u: User)
    requires Inv(g) && u in g.users
    ensures forall v :: v in g.users && v != u ==> g.users[v] != g.users[u]
  {
    hide Counted, Exclusive, Cancelling;
  }

  /** Main theorem: every step of the gate is the same step of the plain gate. */
  lemma StepRefines(g: Gate, e: Event)
    requires Inv(g) && Enabled(g, e)
    ensures Plain(Step(g, e)) == PlainStep(Plain(g), e)
  {
    hide Inv, Plain, PlainStep, WithdrawalOver;
    match e
    case BeginOperation(u, id, cancellable) => BeginRefines(g, u, id, cancellable);
    case LeaveCancelList(id) => LeaveRefines(g, id);
    case EndOperation(id) => EndRefines(g, id);
    case BeginWithdrawal(u, id) => WithdrawalRefines(g, u, id);
    case Wake(id) => WakeRefines(g, id);
    case GiveUp(id) => OverRefines(g, id); PlainOver(Plain(g), e);
    case ReleaseWithdrawal(id) => OverRefines(g, id); PlainOver(Plain(g), e);
    case MarkDeleted(u) => DeletionRefines(g, u);
  }

  lemma PlainOver(p: PlainGate, e: Event)
    requires e.GiveUp? || e.ReleaseWithdrawal?
    ensures PlainStep(p, e) == p.(withdrawals := p.withdrawals - {e.id})
  {
  }

  ghost function PlainAfter(p: PlainGate, run: seq<Event>): PlainGate
    decreases |run|
  {
    if run == [] then p else PlainAfter(PlainStep(p, run[0]), run[1..])
  }

  /** And so is every run. */
  lemma {:induction false} RunRefines(g: Gate, run: seq<Event>)
    requires Inv(g) && Runs(g, run)
    ensures Plain(After(g, run)) == PlainAfter(Plain(g), run)
    decreases |run|
  {
    hide Inv, Step, Enabled, Plain, PlainStep;
    if run != [] {
      StepKeepsInv(g, run[0]);
      StepRefines(g, run[0]);
      RunRefines(Step(g, run[0]), run[1..]);
    }
  }

  /** A blocked withdrawal wakes exactly when nobody is at work any more. */
  lemma WakesExactly(g: Gate, w: nat)
    requires Inv(g) && w in g.withdrawals && !g.withdrawals[w].granted && !AtWork(Plain(g), g.withdrawals[w].user)
    ensures Enabled(g, Wake(w)) && Step(g, Wake(w)).withdrawals[w].granted
  {
    WithdrawalEntry(g, w);
    CountersMean(g, g.withdrawals[w].user);
    Present(g, g.withdrawals[w].entry);
    hide Inv;
  }

  // ---------- Nothing idle is kept ----------

  /** Only entries that are needed are in the map. */
  ghost predicate Tidy(g: Gate) { forall u :: u in g.users ==> g.users[u] in g.entries && Busy(g.entries[g.users[u]]) }

  lemma StepKeepsTidy(g: Gate, e: Event)
    requires Inv(g) && Enabled(g, e) && Tidy(g)
    ensures Tidy(Step(g, e))
  {
    hide Total, Exclusive, Cancelling;
    match e
    case LeaveCancelList(id) => OpEntry(g, id);
    case EndOperation(id) => OpEntry(g, id);
    case GiveUp(id) => WithdrawalEntry(g, id); Present(g, g.withdrawals[id].entry);
    case ReleaseWithdrawal(id) => WithdrawalEntry(g, id); Present(g, g.withdrawals[id].entry);
    case BeginOperation(u, _, _) => if u in g.users { Present(g, g.users[u]); }
    case _ =>
  }

  lemma {:induction false} RunKeepsTidy(g: Gate, run: seq<Event>)
    requires Inv(g) && Runs(g, run) && Tidy(g)
    ensures Inv(After(g, run)) && Tidy(After(g, run))
    decreases |run|
  {
    hide Inv, Step, Enabled, Tidy;
    if run != [] {
      StepKeepsInv(g, run[0]);
      StepKeepsTidy(g, run[0]);
      RunKeepsTidy(Step(g, run[0]), run[1..]);
    }
  }

  /** Over every run: a user has an entry in the map exactly while it has an operation or a withdrawal, or is deleted. */
  lemma MapIsExact(run: seq<Event>, u: User)
    requires Inv(EmptyGate()) && Runs(EmptyGate(), run)
    ensures var g := After(EmptyGate(), run);
            u in g.users <==> AtWork(Plain(g), u) || Withdraws(Plain(g), u) || u in Plain(g).deleted
  {
    RunKeepsTidy(EmptyGate(), run);
    var g := After(EmptyGate(), run);
    CountersMean(g, u);
    hide Runs, After, Counted, Exclusive, Cancelling, AtWork, Withdraws;
  }
}
