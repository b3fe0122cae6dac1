/** Who the worker pool picks, whom each step makes eligible, and which VOD jobs it interrupts. */
module PoolAnswers {
  import opened Basics
  import opened Totals
  import opened WorkerPool

  // ---------- Who is picked ----------

  /** The worker takes sessions of the mode: with nobody set apart for face swap everybody does, else by set. */
  predicate Takes(p: Pool, c: Client, mode: bool) { p.faceSwap == {} || (mode <==> c.address in p.faceSwap) }

  predicate Healthy(p: Pool, c: Client) { c.address !in p.draining && c.address !in p.unready }

  /** As good as the pool has for the mode: healthy if anybody is, else not draining if anybody is not. */
  ghost predicate AsGoodAsAny(p: Pool, c: Client, mode: bool) {
    && Takes(p, c, mode)
    && ((exists d :: d in p.clients && Takes(p, d, mode) && Healthy(p, d)) ==> Healthy(p, c))
    && ((exists d :: d in p.clients && Takes(p, d, mode) && d.address !in p.draining) ==> c.address !in p.draining)
  }

  lemma BestClassMeans(p: Pool, c: Client, mode: bool)
    ensures InBestClass(p, c.address, mode) <==> AsGoodAsAny(p, c, mode)
  {
    assert forall d: Client :: Ready(p, d.address, mode) <==> Takes(p, d, mode) && Healthy(p, d);
    assert forall d: Client :: Assignable(p, d.address, mode) <==> Takes(p, d, mode) && d.address !in p.draining;
  }

  /** How many workers lie between the cursor and position i, going upwards and around. */
  function Ahead(p: Pool, i: int): int
    requires |p.clients| > 0
  {
    (i - p.next) % |p.clients|
  }

  lemma Wrapped(x: int, n: nat)
    requires n > 0 && 0 <= x + n && x < n
    ensures x % n == if x >= 0 then x else x + n
  {
    if x < 0 {
      assert (x + n) % n == x + n;
      assert x == -1 * n + (x + n);
    }
  }

  lemma AheadIsTurn(p: Pool, i: int)
    requires 0 <= p.next < |p.clients| && 0 <= i < |p.clients|
    ensures Ahead(p, i) == Turn(p, i)
  {
    Wrapped(i - p.next, |p.clients|);
  }

  /** Acquire picks the one worker that is as good as any, carries no more than any such worker, and among those that carry the
      same comes first from the cursor. */
  lemma PickMeans(p: Pool, mode: bool, i: int)
    requires PoolInv(p) && 0 <= i < |p.clients|
    ensures IsPick(p, mode, i) <==>
            && AsGoodAsAny(p, p.clients[i], mode)
            && forall j :: 0 <= j < |p.clients| && AsGoodAsAny(p, p.clients[j], mode) ==>
                 || Load(p.claims, p.clients[i]) < Load(p.claims, p.clients[j])
                 || (Load(p.claims, p.clients[i]) == Load(p.claims, p.clients[j]) && Ahead(p, i) <= Ahead(p, j))
  {
    hide Load, InBestClass, AsGoodAsAny, Turn, Ahead;
    forall j | 0 <= j < |p.clients|
      ensures InBestClass(p, p.clients[j].address, mode) <==> AsGoodAsAny(p, p.clients[j], mode)
      ensures Ahead(p, j) == Turn(p, j)
    {
      BestClassMeans(p, p.clients[j], mode);
      AheadIsTurn(p, j);
    }
  }

  lemma PickIsUnique(p: Pool, mode: bool, i: int, j: int)
    requires PoolInv(p) && IsPick(p, mode, i) && IsPick(p, mode, j)
    ensures i == j
  {
    hide Load, InBestClass;
  }

  /** The workers a session of the mode can be moved to. */
  predicate CanTake(p: Pool, mode: bool, except: string, c: Client) {
    Takes(p, c, mode) && Healthy(p, c) && c.address != except
  }

  /** A session moves to a healthy worker of its mode other than the one it leaves: the preferred one if that qualifies, else the
      first of those that carry least. */
  lemma MoveMeans(p: Pool, mode: bool, except: string, prefer: string, i: int)
    requires 0 <= i < |p.clients|
    ensures IsMoveTarget(p, mode, except, prefer, i) <==>
            && CanTake(p, mode, except, p.clients[i])
            && (|| p.clients[i].address == prefer
                || forall j :: 0 <= j < |p.clients| && CanTake(p, mode, except, p.clients[j]) ==>
                     && p.clients[j].address != prefer
                     && (|| Load(p.claims, p.clients[i]) < Load(p.claims, p.clients[j])
                         || (Load(p.claims, p.clients[i]) == Load(p.claims, p.clients[j]) && i <= j)))
  {
    hide Load;
    assert forall j :: 0 <= j < |p.clients| ==> (Movable(p, mode, except, j) <==> CanTake(p, mode, except, p.clients[j]));
  }

  // ---------- Who is eligible ----------

  /** Flags are kept for listed workers alone. */
  predicate FlagsListed(p: Pool) { p.draining <= Addresses(p.clients) && p.unready <= Addresses(p.clients) && p.faceSwap <= Addresses(p.clients) }

  /** What each step does to the flags. */
  ghost predicate FlagsMove(p: Pool, p': Pool, e: Event) {
    var known := Addresses(p.clients);
    match e
    case Add(a, faceSwap) =>
      if a == "" || a in known then p' == p
      else && p'.draining == p.draining + {a} && p'.unready == p.unready
           && p'.faceSwap == (if faceSwap && p.faceSwap != {} then p.faceSwap + {a} else p.faceSwap)
           && |p'.clients| == |p.clients| + 1 && p'.clients[..|p.clients|] == p.clients && p'.clients[|p.clients|].address == a
    case Remove(i) =>
      && 0 <= i < |p.clients| && p'.clients == p.clients[..i] + p.clients[i + 1..]
      && p'.draining == p.draining - {p.clients[i].address} && p'.unready == p.unready - {p.clients[i].address}
      && p'.faceSwap == p.faceSwap - {p.clients[i].address}
    case SetDraining(a, on) =>
      && p'.draining == (if a !in known then p.draining else if on then p.draining + {a} else p.draining - {a})
      && p'.clients == p.clients && p'.unready == p.unready && p'.faceSwap == p.faceSwap
    case SetReady(a, ready) =>
      && p'.unready == (if a !in known then p.unready else if ready then p.unready - {a} else p.unready + {a})
      && p'.clients == p.clients && p'.draining == p.draining && p'.faceSwap == p.faceSwap
    case SetFaceSwap(targets) =>
      && p'.faceSwap == (if targets <= known && (targets == {} || |targets| < |p.clients|) then targets else p.faceSwap)
      && p'.clients == p.clients && p'.draining == p.draining && p'.unready == p.unready
    case _ => p'.clients == p.clients && p'.draining == p.draining && p'.unready == p.unready && p'.faceSwap == p.faceSwap
  }

  lemma AddFlags(p: Pool, a: string, faceSwap: bool)
    ensures FlagsMove(p, Added(p, a, faceSwap), Add(a, faceSwap))
  {
  }

  lemma RemoveFlags(p: Pool, i: int)
    requires 0 <= i < |p.clients|
    ensures FlagsMove(p, Removed(p, i), Remove(i))
  {
    hide Preempted;
    PreemptFrame(p, p.clients[i].address);
  }

  lemma DisturbFlags(p: Pool, a: string, on: bool)
    ensures FlagsMove(p, Drained(p, a, on), SetDraining(a, on)) && FlagsMove(p, Marked(p, a, on), SetReady(a, on))
  {
    hide Preempted, Addresses;
    PreemptFrame(p.(draining := p.draining + {a}), a);
    PreemptFrame(p.(unready := p.unready + {a}), a);
  }

  lemma FaceSwapFlags(p: Pool, targets: set<string>)
    requires PoolInv(p)
    ensures FlagsMove(p, FaceSwapSet(p, targets), SetFaceSwap(targets))
  {
    AddressTotal(p);
    Fewer(targets, Addresses(p.clients));
    hide PoolInv, Addresses;
  }

  lemma StepMovesFlags(p: Pool, mapping: map<string, string>, e: Event)
    requires PoolInv(p) && Enabled(p, mapping, e)
    ensures FlagsMove(p, Step(p, mapping, e), e)
  {
    hide Load, IsPick, IsMoveTarget, Reservable, PoolInv, Added, Removed, Drained, Marked, FaceSwapSet, Claimed, Addresses;
    match e
    case Acquire(mode, i) => ClaimFlags(p, i) by { PickRange(p, mode, i); }
    case Move(_, _, _, i) => ClaimFlags(p, i) by { MoveInRange(p, e); }
    case Add(a, faceSwap) => AddFlags(p, a, faceSwap);
    case Remove(i) => RemoveFlags(p, i);
    case SetDraining(a, on) => DisturbFlags(p, a, on);
    case SetReady(a, ready) => DisturbFlags(p, a, ready);
    case SetFaceSwap(targets) => FaceSwapFlags(p, targets);
    case _ =>
  }

  lemma PickRange(p: Pool, mode: bool, i: int)
    requires IsPick(p, mode, i)
    ensures 0 <= i < |p.clients|
  {
  }

  lemma ClaimFlags(p: Pool, i: int)
    requires 0 <= i < |p.clients|
    ensures var q := Claimed(p, i);
            q.clients == p.clients && q.draining == p.draining && q.unready == p.unready && q.faceSwap == p.faceSwap
  {
    PreemptFrame(p, p.clients[i].address);
  }

  lemma AddressTotal(p: Pool)
    requires PoolInv(p)
    ensures |Addresses(p.clients)| == |p.clients|
  {
    AddressCount(p.clients);
  }

  lemma {:induction false} Fewer(a: set<string>, b: set<string>)
    ensures a <= b ==> |a| <= |b|
    decreases |a|
  {
    if a <= b && a != {} {
      var x :| x in a;
      Fewer(a - {x}, b - {x});
    }
  }

  lemma AddListed(p: Pool, p': Pool, e: Event)
    requires e.Add? && FlagsListed(p) && FlagsMove(p, p', e)
    ensures FlagsListed(p')
  {
    if p' != p {
      assert forall c :: c in p.clients ==> c in p'.clients by {
        assert forall c :: c in p'.clients[..|p.clients|] ==> c in p'.clients;
      }
      assert p'.clients[|p.clients|] in p'.clients;
    }
  }

  lemma RemoveListed(p: Pool, p': Pool, e: Event)
    requires e.Remove? && FlagsListed(p) && FlagsMove(p, p', e)
    ensures FlagsListed(p')
  {
    forall a | a in Addresses(p.clients) && a != p.clients[e.index].address
      ensures a in Addresses(p'.clients)
    {
      var c :| c in p.clients && c.address == a;
      var j :| 0 <= j < |p.clients| && p.clients[j] == c;
      assert p'.clients[if j < e.index then j else j - 1] == c;
    }
  }

  lemma StepKeepsFlagsListed(p: Pool, mapping: map<string, string>, e: Event)
    requires PoolInv(p) && Enabled(p, mapping, e) && FlagsListed(p)
    ensures FlagsListed(Step(p, mapping, e))
  {
    hide Step, Enabled, PoolInv, Addresses;
    StepMovesFlags(p, mapping, e);
    if e.Add? {
      AddListed(p, Step(p, mapping, e), e);
    } else if e.Remove? {
      RemoveListed(p, Step(p, mapping, e), e);
    }
  }

  /** A new worker gets no session until it is opened, and then it is eligible, as it starts healthy. */
  lemma NewcomerWaits(p: Pool, mapping: map<string, string>, a: string, faceSwap: bool)
    requires PoolInv(p) && FlagsListed(p) && a != "" && a !in Addresses(p.clients)
    ensures var p1 := Step(p, mapping, Add(a, faceSwap));
            var p2 := Step(p1, mapping, SetDraining(a, false));
            && a in Addresses(p1.clients) && a in p1.draining && a !in p2.draining && a !in p2.unready
            && (forall i, mode, except, prefer :: 0 <= i < |p1.clients| && p1.clients[i].address == a ==> !IsMoveTarget(p1, mode, except, prefer, i))
            && (forall c :: c in p.clients ==> (c.address in p2.draining <==> c.address in p.draining) && (c.address in p2.unready <==> c.address in p.unready))
  {
    hide Load, PoolInv;
    var c := Client(a, p.nextSerial);
    assert c in Added(p, a, faceSwap).clients;
    assert forall d :: d in p.clients ==> d.address in Addresses(p.clients);
  }

  // ---------- Which jobs are interrupted ----------

  /** The worker whose GPU a step takes away from VOD, if any. */
  ghost function Disturbs(p: Pool, e: Event): Option<string> {
    match e
    case Acquire(_, i) => if 0 <= i < |p.clients| then Some(p.clients[i].address) else None
    case Move(_, _, _, i) => if 0 <= i < |p.clients| then Some(p.clients[i].address) else None
    case Remove(i) => if 0 <= i < |p.clients| then Some(p.clients[i].address) else None
    case SetDraining(a, on) => if on && a in Addresses(p.clients) then Some(a) else None
    case SetReady(a, ready) => if !ready && a in Addresses(p.clients) && a !in p.unready then Some(a) else None
    case _ => None
  }

  /** A job runs on that worker's GPU, or the worker's GPU is not known. */
  predicate Hits(p: Pool, mapping: map<string, string>, a: string, l: nat)
    requires l in p.leases
  {
    !p.leases[l].released && (Gpu(mapping, a) == "" || Gpu(mapping, a) == p.leases[l].gpu)
  }

  lemma PreemptHits(p: Pool, mapping: map<string, string>, a: string, l: nat)
    requires VodBooks(p, mapping) && l in p.leases
    ensures l in Preempted(p, a).leases
    ensures Preempted(p, a).leases[l] == p.leases[l].(interrupted := p.leases[l].interrupted || Hits(p, mapping, a, l))
  {
    if !p.leases[l].released {
      Registered(p, mapping, l);
    }
  }

  lemma DisturbedLeases(p: Pool, mapping: map<string, string>, e: Event)
    requires Enabled(p, mapping, e) && Disturbs(p, e).Some?
    ensures Step(p, mapping, e).leases == Preempted(p, Disturbs(p, e).value).leases
  {
    hide Load, IsPick, IsMoveTarget, Reservable, Preempted, Addresses;
    PreemptIgnoresFlags(p, p.draining + {Disturbs(p, e).value}, p.unready, Disturbs(p, e).value);
    PreemptIgnoresFlags(p, p.draining, p.unready + {Disturbs(p, e).value}, Disturbs(p, e).value);
  }

  lemma PreemptIgnoresFlags(p: Pool, draining: set<string>, unready: set<string>, a: string)
    ensures Preempted(p.(draining := draining), a).leases == Preempted(p, a).leases
    ensures Preempted(p.(unready := unready), a).leases == Preempted(p, a).leases
  {
  }

  lemma UndisturbedLeases(p: Pool, mapping: map<string, string>, e: Event, l: nat)
    requires Enabled(p, mapping, e) && Disturbs(p, e).None? && l in p.leases && l < p.nextLease
    ensures l in Step(p, mapping, e).leases
    ensures Step(p, mapping, e).leases[l] == p.leases[l].(released := p.leases[l].released || e == VodReturn(l))
  {
    hide Load, Reservable, Preempted;
    match e
    case Acquire(mode, i) => PickRange(p, mode, i);
    case Move(_, _, _, i) => MoveInRange(p, e);
    case _ =>
  }

  /** Exactly the jobs on the GPU that a step disturbs are interrupted, and no other lease changes but by its own return. */
  lemma InterruptsExactly(p: Pool, mapping: map<string, string>, e: Event, l: nat)
    requires Inv(p, mapping) && Enabled(p, mapping, e) && l in p.leases
    ensures l in Step(p, mapping, e).leases
    ensures Step(p, mapping, e).leases[l] ==
            p.leases[l].(interrupted := p.leases[l].interrupted || (Disturbs(p, e).Some? && Hits(p, mapping, Disturbs(p, e).value, l)),
                         released := p.leases[l].released || e == VodReturn(l))
  {
    assert l < p.nextLease;
    hide Enabled, Step, PoolInv, VodSafe, VodBooks, Preempted, Hits;
    if Disturbs(p, e).Some? {
      DisturbedLeases(p, mapping, e);
      PreemptHits(p, mapping, Disturbs(p, e).value, l);
    } else {
      UndisturbedLeases(p, mapping, e, l);
    }
  }

  // ---------- Starting a job ----------

  function Running(p: Pool): set<nat> { set l | l in p.leases && !p.leases[l].released }

  /** Unreturned leases and registered GPUs correspond, so the count of GPUs is the count of jobs. */
  lemma RunningAreRegistered(p: Pool, mapping: map<string, string>)
    requires VodBooks(p, mapping)
    ensures Running(p) == p.vod.Values && |Running(p)| == |p.vod|
  {
    forall l | l in Running(p)
      ensures l in p.vod.Values
    {
      Registered(p, mapping, l);
    }
    OneToOne(p.vod);
  }

  lemma {:induction false} OneToOne(m: map<string, nat>)
    requires forall g, h :: g in m && h in m && m[g] == m[h] ==> g == h
    ensures |m.Values| == |m|
    decreases |m|
  {
    if m == map[] {
      assert m.Values == {};
    } else {
      var g :| g in m;
      OneToOne(m - {g});
      assert m == (m - {g})[g := m[g]];
      assert m.Values == (m - {g}).Values + {m[g]};
    }
  }

  /** No live stream on any worker of the GPU. */
  ghost predicate NobodyStreamsOn(p: Pool, mapping: map<string, string>, gpu: string) {
    forall c :: c in p.clients && Gpu(mapping, c.address) == gpu ==> Load(p.claims, c) == 0
  }

  /** A job may start on this worker: it is not excluded, not set apart and healthy; its GPU is known and has room, no job and no
      live stream. */
  ghost predicate MayStartOn(p: Pool, mapping: map<string, string>, roomy: set<string>, excluded: set<string>, c: Client) {
    && c.address !in excluded && c.address !in p.faceSwap && Healthy(p, c)
    && Gpu(mapping, c.address) != "" && Gpu(mapping, c.address) in roomy
    && (forall l :: l in Running(p) ==> p.leases[l].gpu != Gpu(mapping, c.address))
    && NobodyStreamsOn(p, mapping, Gpu(mapping, c.address))
  }

  lemma GpuTaken(p: Pool, mapping: map<string, string>, gpu: string)
    requires VodBooks(p, mapping)
    ensures gpu in p.vod <==> exists l :: l in Running(p) && p.leases[l].gpu == gpu
  {
    if gpu in p.vod {
      assert p.vod[gpu] in Running(p);
    }
  }

  /** When it may start: every worker's GPU is known, fewer jobs than the limit run, and the worker qualifies. */
  lemma ReserveMeans(p: Pool, mapping: map<string, string>, roomy: set<string>, excluded: set<string>, limit: int, i: int)
    requires Inv(p, mapping) && 0 <= i < |p.clients|
    ensures Enabled(p, mapping, Reserve(roomy, excluded, limit, i)) <==>
            && (forall c :: c in p.clients ==> Gpu(mapping, c.address) != "")
            && |Running(p)| < limit && MayStartOn(p, mapping, roomy, excluded, p.clients[i])
  {
    hide Load, PoolInv, VodSafe;
    LoadAfterReturn(p.claims, 0);
    RunningAreRegistered(p, mapping);
    GpuTaken(p, mapping, Gpu(mapping, p.clients[i].address));
    hide VodBooks, Running;
  }

  /** What starting it records. */
  lemma ReserveRecords(p: Pool, mapping: map<string, string>, roomy: set<string>, excluded: set<string>, limit: int, i: int)
    requires Inv(p, mapping) && Enabled(p, mapping, Reserve(roomy, excluded, limit, i))
    ensures var p' := Step(p, mapping, Reserve(roomy, excluded, limit, i));
            var c := p.clients[i];
            && Running(p') == Running(p) + {p.nextLease} && p.nextLease !in p.leases && |Running(p')| <= limit
            && p'.leases[p.nextLease] == VodLease(c.address, Gpu(mapping, c.address), false, false)
            && p' == p.(vod := p'.vod, leases := p'.leases, vodGPUs := mapping, nextLease := p.nextLease + 1)
  {
    hide Load, PoolInv, VodSafe;
    RunningAreRegistered(p, mapping);
    NewLeaseIsFresh(p, mapping);
    hide VodBooks;
    RunningGrows(p, p.nextLease, VodLease(p.clients[i].address, Gpu(mapping, p.clients[i].address), false, false));
    hide Running;
    var p' := Step(p, mapping, Reserve(roomy, excluded, limit, i));
    RunningByLeases(p', p.(leases := p'.leases));
  }

  lemma NewLeaseIsFresh(p: Pool, mapping: map<string, string>)
    requires VodBooks(p, mapping)
    ensures p.nextLease !in p.leases
  {
  }

  lemma RunningGrows(p: Pool, l: nat, lease: VodLease)
    requires l !in p.leases && !lease.released
    ensures Running(p.(leases := p.leases[l := lease])) == Running(p) + {l} && l !in Running(p)
  {
  }

  lemma RunningByLeases(p: Pool, q: Pool)
    requires p.leases == q.leases
    ensures Running(p) == Running(q)
  {
  }

  /** A worker can be removed exactly if no stream is on it and it is not the last one. */
  lemma RemoveMeans(p: Pool, mapping: map<string, string>, i: int)
    ensures Enabled(p, mapping, Remove(i)) <==> 0 <= i < |p.clients| && Load(p.claims, p.clients[i]) == 0 && |p.clients| >= 2
  {
    if 0 <= i < |p.clients| {
      NoClaimsOn(p.claims, p.clients[i]);
    }
    hide Load;
  }

  // ---------- Claims ----------

  /** Claims come from acquiring and moving, one at a time, and go by being returned. */
  lemma ClaimsMove(p: Pool, mapping: map<string, string>, e: Event)
    requires Enabled(p, mapping, e)
    ensures Step(p, mapping, e).claims ==
            match e
            case Acquire(_, i) => if 0 <= i < |p.clients| then p.claims[p.nextClaim := p.clients[i]] else p.claims
            case Move(_, _, _, i) => if 0 <= i < |p.clients| then p.claims[p.nextClaim := p.clients[i]] else p.claims
            case Return(claim) => p.claims - {claim}
            case _ => p.claims
  {
    hide Load, IsPick, IsMoveTarget, Reservable, Preempted;
    match e
    case Acquire(mode, i) => PickRange(p, mode, i); PreemptFrame(p, p.clients[i].address);
    case Move(_, _, _, i) => MoveInRange(p, e); PreemptFrame(p, p.clients[i].address);
    case Remove(i) => PreemptFrame(p, p.clients[i].address);
    case SetDraining(a, _) => PreemptFrame(p.(draining := p.draining + {a}), a);
    case SetReady(a, _) => PreemptFrame(p.(unready := p.unready + {a}), a);
    case _ =>
  }

  lemma CursorAfterPick(p: Pool, mode: bool, i: int)
    requires IsPick(p, mode, i)
    ensures 0 <= i < |p.clients| && Acquired(p, i).next == if i + 1 == |p.clients| then 0 else i + 1
  {
    hide Load, InBestClass, Preempted;
    if i + 1 < |p.clients| {
      assert (i + 1) % |p.clients| == i + 1;
    }
  }

  /** The cursor moves past the worker that was picked, and back to the front when it would point behind the last one. */
  lemma CursorMoves(p: Pool, mapping: map<string, string>, e: Event)
    requires PoolInv(p) && Enabled(p, mapping, e)
    ensures Step(p, mapping, e).next ==
            match e
            case Acquire(_, i) => if i + 1 == |p.clients| then 0 else i + 1
            case AcquireFails(_) => 0
            case Remove(_) => if p.next == |p.clients| - 1 then 0 else p.next
            case _ => p.next
  {
    hide Load, IsPick, IsMoveTarget, Reservable, Preempted, Acquired;
    match e
    case Acquire(mode, i) => CursorAfterPick(p, mode, i);
    case Move(_, _, _, i) => MoveInRange(p, e); PreemptFrame(p, p.clients[i].address);
    case SetDraining(a, _) => PreemptFrame(p.(draining := p.draining + {a}), a);
    case SetReady(a, _) => PreemptFrame(p.(unready := p.unready + {a}), a);
    case _ =>
  }
}
