/** The AI worker pool of internal/ai/pool.go and the VOD leases of internal/ai/vod.go, as a pool without counters.

    The pool lists its workers and the claims nobody has returned yet; how many streams a worker carries is the number
    of such claims.  AIWorkerPool.dfy keeps the server's parallel slice of counters and is proved to agree. */
module WorkerPool {
  import opened Totals

  /** A connection to one worker.  Two connections to the same address, one after the other, are different clients. */
  datatype Client = Client(address: string, serial: nat)

  datatype VodLease = VodLease(target: string, gpu: string, interrupted: bool, released: bool)

  datatype Pool = Pool(
    clients: seq<Client>,
    next: int,
    unready: set<string>,
    draining: set<string>,
    faceSwap: set<string>,
    claims: map<nat, Client>,
    vod: map<string, nat>,
    leases: map<nat, VodLease>,
    vodGPUs: map<string, string>,
    nextClaim: nat,
    nextSerial: nat,
    nextLease: nat)

  ghost function OfClient(c: Client): Client -> int { (d: Client) => if d == c then 1 else 0 }

  /** Streams a worker carries: the claims on it that were not returned. */
  ghost function Load(claims: map<nat, Client>, c: Client): int { Total(claims, OfClient(c)) }

  function Gpu(mapping: map<string, string>, address: string): string {
    if address in mapping then mapping[address] else ""
  }

  function Addresses(clients: seq<Client>): set<string> { set c | c in clients :: c.address }

  // ---------- Who may get a session ----------

  predicate Serves(p: Pool, address: string, mode: bool) {
    p.faceSwap == {} || ((address in p.faceSwap) == mode)
  }

  ghost predicate HasServer(p: Pool, mode: bool) { exists c :: c in p.clients && Serves(p, c.address, mode) }

  predicate Assignable(p: Pool, address: string, mode: bool) {
    Serves(p, address, mode) && address !in p.draining
  }

  predicate Ready(p: Pool, address: string, mode: bool) {
    Assignable(p, address, mode) && address !in p.unready
  }

  /** The best non-empty class: ready workers, else workers not draining, else any that serves the mode. */
  ghost predicate InBestClass(p: Pool, address: string, mode: bool) {
    if exists c :: c in p.clients && Ready(p, c.address, mode) then Ready(p, address, mode)
    else if exists c :: c in p.clients && Assignable(p, c.address, mode) then Assignable(p, address, mode)
    else Serves(p, address, mode)
  }

  /** Distance from the cursor, walking upwards and around. */
  function Turn(p: Pool, i: int): int { if i >= p.next then i - p.next else i - p.next + |p.clients| }

  /** The worker Acquire must choose: least loaded of the best class, the first at or after the cursor on ties. */
  ghost predicate IsPick(p: Pool, mode: bool, i: int) {
    && 0 <= i < |p.clients|
    && InBestClass(p, p.clients[i].address, mode)
    && forall j :: 0 <= j < |p.clients| && InBestClass(p, p.clients[j].address, mode) ==>
         || Load(p.claims, p.clients[i]) < Load(p.claims, p.clients[j])
         || (Load(p.claims, p.clients[i]) == Load(p.claims, p.clients[j]) && Turn(p, i) <= Turn(p, j))
  }

  /** A worker a session may be moved to: there is no falling back to a worse class here. */
  ghost predicate Movable(p: Pool, mode: bool, except: string, i: int) {
    0 <= i < |p.clients| && p.clients[i].address != except && Ready(p, p.clients[i].address, mode)
  }

  ghost predicate IsMoveTarget(p: Pool, mode: bool, except: string, prefer: string, i: int) {
    && Movable(p, mode, except, i)
    && (p.clients[i].address == prefer ||
        forall j :: Movable(p, mode, except, j) ==>
          && p.clients[j].address != prefer
          && (|| Load(p.claims, p.clients[i]) < Load(p.claims, p.clients[j])
              || (Load(p.claims, p.clients[i]) == Load(p.claims, p.clients[j]) && i <= j)))
  }

  // ---------- Steps ----------

  function Interrupted(p: Pool, ids: set<nat>): Pool {
    p.(leases := map l | l in p.leases :: if l in ids then p.leases[l].(interrupted := true) else p.leases[l])
  }

  /** Live traffic, draining or failure of a worker interrupts the VOD job on its GPU, or every job when the GPU of
      the worker is not known. */
  function Preempted(p: Pool, address: string): Pool {
    var gpu := Gpu(p.vodGPUs, address);
    if gpu == "" then Interrupted(p, p.vod.Values)
    else if gpu in p.vod then Interrupted(p, {p.vod[gpu]})
    else p
  }

  function Claimed(p: Pool, i: int): Pool
    requires 0 <= i < |p.clients|
  {
    Preempted(p, p.clients[i].address).(claims := p.claims[p.nextClaim := p.clients[i]], nextClaim := p.nextClaim + 1)
  }

  function Acquired(p: Pool, i: int): Pool
    requires 0 <= i < |p.clients|
  {
    Claimed(p, i).(next := (i + 1) % |p.clients|)
  }

  function Returned(p: Pool, claim: nat): Pool { p.(claims := p.claims - {claim}) }

  function Added(p: Pool, address: string, faceSwap: bool): Pool {
    if address == "" || address in Addresses(p.clients) then p
    else p.(clients := p.clients + [Client(address, p.nextSerial)],
            draining := p.draining + {address},
            faceSwap := if faceSwap && p.faceSwap != {} then p.faceSwap + {address} else p.faceSwap,
            nextSerial := p.nextSerial + 1)
  }

  ghost predicate Removable(p: Pool, i: int) {
    0 <= i < |p.clients| && Load(p.claims, p.clients[i]) <= 0 && |p.clients| > 1
  }

  function Removed(p: Pool, i: int): Pool
    requires 0 <= i < |p.clients|
  {
    var address := p.clients[i].address;
    Preempted(p, address).(clients := p.clients[..i] + p.clients[i + 1..],
                           next := if p.next >= |p.clients| - 1 then 0 else p.next,
                           draining := p.draining - {address},
                           unready := p.unready - {address},
                           faceSwap := p.faceSwap - {address})
  }

  function Drained(p: Pool, address: string, draining: bool): Pool {
    if address !in Addresses(p.clients) then p
    else if !draining then p.(draining := p.draining - {address})
    else Preempted(p.(draining := p.draining + {address}), address)
  }

  function Marked(p: Pool, address: string, ready: bool): Pool {
    if address !in Addresses(p.clients) || (address in p.unready) == !ready then p
    else if ready then p.(unready := p.unready - {address})
    else Preempted(p.(unready := p.unready + {address}), address)
  }

  function FaceSwapSet(p: Pool, targets: set<string>): Pool {
    if targets <= Addresses(p.clients) && !(targets != {} && |targets| == |p.clients|) then p.(faceSwap := targets) else p
  }

  /** A VOD job may start on worker i: its GPU is known, has memory, no other job and no live stream on any worker. */
  ghost predicate Reservable(p: Pool, mapping: map<string, string>, roomy: set<string>, excluded: set<string>, i: int) {
    && 0 <= i < |p.clients|
    && var address := p.clients[i].address;
       var gpu := Gpu(mapping, address);
    && address !in excluded && gpu != "" && gpu in roomy && gpu !in p.vod
    && address !in p.unready && address !in p.draining && address !in p.faceSwap
    && forall c :: c in p.clients && Gpu(mapping, c.address) == gpu ==> Load(p.claims, c) <= 0
  }

  ghost predicate VodOpen(p: Pool, mapping: map<string, string>, limit: int) {
    (forall c :: c in p.clients ==> Gpu(mapping, c.address) != "") && |p.vod| < limit
  }

  function Reserved(p: Pool, mapping: map<string, string>, i: int): Pool
    requires 0 <= i < |p.clients|
  {
    var address := p.clients[i].address;
    var gpu := Gpu(mapping, address);
    p.(vod := p.vod[gpu := p.nextLease],
       leases := p.leases[p.nextLease := VodLease(address, gpu, false, false)],
       vodGPUs := mapping,
       nextLease := p.nextLease + 1)
  }

  function VodReturned(p: Pool, l: nat): Pool {
    if l !in p.leases then p
    else
      var p' := p.(leases := p.leases[l := p.leases[l].(released := true)]);
      if p.leases[l].gpu in p.vod && p.vod[p.leases[l].gpu] == l then p'.(vod := p.vod - {p.leases[l].gpu}) else p'
  }

  datatype Event =
    | Acquire(mode: bool, index: int)
    | AcquireFails(mode: bool)
    | Move(mode: bool, except: string, prefer: string, index: int)
    | Return(claim: nat)
    | Add(address: string, faceSwap: bool)
    | Remove(index: int)
    | SetDraining(address: string, draining: bool)
    | SetReady(address: string, ready: bool)
    | SetFaceSwap(targets: set<string>)
    | Reserve(roomy: set<string>, excluded: set<string>, limit: int, index: int)
    | VodReturn(lease: nat)

  ghost predicate Enabled(p: Pool, mapping: map<string, string>, e: Event) {
    match e
    case Acquire(mode, i) => IsPick(p, mode, i)
    case AcquireFails(mode) => !HasServer(p, mode)
    case Move(mode, except, prefer, i) => IsMoveTarget(p, mode, except, prefer, i)
    case Remove(i) => Removable(p, i)
    case Reserve(roomy, excluded, limit, i) => VodOpen(p, mapping, limit) && Reservable(p, mapping, roomy, excluded, i)
    case _ => true
  }

  ghost function Step(p: Pool, mapping: map<string, string>, e: Event): Pool
    requires Enabled(p, mapping, e)
  {
    match e
    case Acquire(_, i) => Acquired(p, i)
    case AcquireFails(_) => p.(next := 0)
    case Move(_, _, _, i) => Claimed(p, i)
    case Return(claim) => Returned(p, claim)
    case Add(address, faceSwap) => Added(p, address, faceSwap)
    case Remove(i) => Removed(p, i)
    case SetDraining(address, draining) => Drained(p, address, draining)
    case SetReady(address, ready) => Marked(p, address, ready)
    case SetFaceSwap(targets) => FaceSwapSet(p, targets)
    case Reserve(_, _, _, i) => Reserved(p, mapping, i)
    case VodReturn(l) => VodReturned(p, l)
  }

  // ---------- What every step keeps ----------

  /** Addresses are distinct, the cursor is a position, and every unreturned claim is on a worker still in the pool. */
  ghost predicate PoolInv(p: Pool) {
    && 0 <= p.next < |p.clients|
    && (forall i, j :: 0 <= i < j < |p.clients| ==> p.clients[i].address != p.clients[j].address)
    && (forall c :: c in p.clients ==> c.serial < p.nextSerial && c.address != "")
    && (forall k :: k in p.claims ==> k < p.nextClaim && p.claims[k] in p.clients)
  }

  /** The registered VOD jobs: one per GPU, each an unreturned lease of that GPU. */
  ghost predicate VodBooks(p: Pool, mapping: map<string, string>) {
    && (forall g :: g in p.vod ==> p.vod[g] in p.leases && p.leases[p.vod[g]].gpu == g && !p.leases[p.vod[g]].released)
    && (forall l :: l in p.leases ==> l < p.nextLease)
    && (forall l :: l in p.leases && !p.leases[l].released ==> p.leases[l].gpu in p.vod && p.vod[p.leases[l].gpu] == l)
    && (p.vod != map[] ==> p.vodGPUs == mapping)
  }

  /** No stream on a worker of that GPU, nor on one whose GPU is not known. */
  ghost predicate GpuIdle(p: Pool, mapping: map<string, string>, gpu: string) {
    forall c :: c in p.clients && (Gpu(mapping, c.address) == gpu || Gpu(mapping, c.address) == "") ==> Load(p.claims, c) == 0
  }

  ghost predicate JobUndisturbed(p: Pool, mapping: map<string, string>, l: VodLease) {
    && l.target in Addresses(p.clients) && l.target !in p.unready && l.target !in p.draining
    && l.gpu != "" && Gpu(mapping, l.target) == l.gpu && GpuIdle(p, mapping, l.gpu)
  }

  /** VOD never shares a GPU with live traffic: a running job that was not told to stop is undisturbed. */
  ghost predicate VodSafe(p: Pool, mapping: map<string, string>) {
    forall l :: l in p.leases && !p.leases[l].released && !p.leases[l].interrupted ==>
      JobUndisturbed(p, mapping, p.leases[l])
  }

  ghost predicate Inv(p: Pool, mapping: map<string, string>) {
    PoolInv(p) && VodBooks(p, mapping) && VodSafe(p, mapping)
  }

  lemma LoadAfterClaim(claims: map<nat, Client>, id: nat, c: Client)
    requires id !in claims
    ensures forall d :: Load(claims[id := c], d) == Load(claims, d) + OfClient(d)(c)
  {
    forall d: Client
      ensures Load(claims[id := c], d) == Load(claims, d) + OfClient(d)(c)
    {
      TotalUpdate(claims, id, c, OfClient(d));
    }
  }

  lemma LoadAfterReturn(claims: map<nat, Client>, id: nat)
    ensures forall d :: Load(claims - {id}, d) == Load(claims, d) - WeightAt(claims, id, OfClient(d))
    ensures forall d :: Load(claims, d) >= 0
    ensures forall d :: 0 <= Load(claims - {id}, d) <= Load(claims, d)
  {
    forall d: Client
      ensures Load(claims - {id}, d) == Load(claims, d) - WeightAt(claims, id, OfClient(d))
      ensures 0 <= Load(claims - {id}, d) <= Load(claims, d)
    {
      TotalRemove(claims, id, OfClient(d));
      TotalNonNegative(claims - {id}, OfClient(d));
    }
  }

  lemma NoClaimsOn(claims: map<nat, Client>, c: Client)
    ensures Load(claims, c) >= 0
    ensures Load(claims, c) == 0 <==> forall k :: k in claims ==> claims[k] != c
  {
    TotalNonNegative(claims, OfClient(c));
    if Load(claims, c) == 0 {
      TotalZero(claims, OfClient(c));
      assert forall k :: k in claims ==> OfClient(c)(claims[k]) == 0;
    } else {
      var k := TotalPositive(claims, OfClient(c));
    }
  }

  /** The books do not look at interruption flags. */
  lemma InterruptKeepsBooks(p: Pool, mapping: map<string, string>, ids: set<nat>)
    requires VodBooks(p, mapping)
    ensures VodBooks(Interrupted(p, ids), mapping)
  {
  }

  /** An unreturned lease is the one its GPU is registered to. */
  lemma Registered(p: Pool, mapping: map<string, string>, l: nat)
    requires VodBooks(p, mapping) && l in p.leases && !p.leases[l].released
    ensures p.leases[l].gpu in p.vod && p.vod[p.leases[l].gpu] == l && l in p.vod.Values && p.vodGPUs == mapping
  {
  }

  /** Preempting a worker's GPU leaves no undisturbed job there, and changes nothing but interruption flags. */
  lemma PreemptEffect(p: Pool, mapping: map<string, string>, address: string)
    requires VodBooks(p, mapping)
    ensures var p' := Preempted(p, address);
            && VodBooks(p', mapping)
            && p' == p.(leases := p'.leases) && p'.leases.Keys == p.leases.Keys
            && (forall l :: l in p.leases ==> p'.leases[l].(interrupted := p.leases[l].interrupted) == p.leases[l])
            && (forall l :: l in p.leases && !p'.leases[l].interrupted ==> !p.leases[l].interrupted)
            && (forall l :: l in p.leases && !p'.leases[l].released && !p'.leases[l].interrupted ==>
                  Gpu(mapping, address) != "" && p.leases[l].gpu != Gpu(mapping, address))
  {
    hide VodBooks;
    var p' := Preempted(p, address);
    forall ids: set<nat>
      ensures VodBooks(Interrupted(p, ids), mapping)
    {
      InterruptKeepsBooks(p, mapping, ids);
    }
    forall l | l in p.leases && !p'.leases[l].released && !p'.leases[l].interrupted
      ensures Gpu(mapping, address) != "" && p.leases[l].gpu != Gpu(mapping, address)
    {
      Registered(p, mapping, l);
    }
  }

  lemma PoolInvFrame(p: Pool, p': Pool)
    requires PoolInv(p) && p' == p.(draining := p'.draining, unready := p'.unready, leases := p'.leases, vod := p'.vod)
    ensures PoolInv(p')
  {
  }

  lemma VodBooksFrame(p: Pool, p': Pool, mapping: map<string, string>)
    requires VodBooks(p, mapping) && p' == p.(draining := p'.draining, unready := p'.unready)
    ensures VodBooks(p', mapping)
  {
  }

  /** A job stays undisturbed while its worker keeps its flags and nobody new streams. */
  lemma JobFrame(p: Pool, p': Pool, mapping: map<string, string>, l: VodLease, l': VodLease)
    requires JobUndisturbed(p, mapping, l) && l'.target == l.target && l'.gpu == l.gpu
    requires p'.clients == p.clients && p'.claims == p.claims
    requires l.target in p'.unready ==> l.target in p.unready
    requires l.target in p'.draining ==> l.target in p.draining
    ensures JobUndisturbed(p', mapping, l')
  {
    hide Load;
  }

  lemma ClaimKeeps(p: Pool, mapping: map<string, string>, i: int)
    requires Inv(p, mapping) && 0 <= i < |p.clients|
    ensures Inv(Claimed(p, i), mapping)
  {
    hide Load, Preempted;
    var p1 := Preempted(p, p.clients[i].address);
    var p' := Claimed(p, i);
    PreemptEffect(p, mapping, p.clients[i].address);
    LoadAfterClaim(p.claims, p.nextClaim, p.clients[i]);
    forall l | l in p'.leases && !p'.leases[l].released && !p'.leases[l].interrupted
      ensures JobUndisturbed(p', mapping, p'.leases[l])
    {
      assert JobUndisturbed(p, mapping, p.leases[l]);
    }
  }

  lemma ReturnKeeps(p: Pool, mapping: map<string, string>, claim: nat)
    requires Inv(p, mapping)
    ensures Inv(Returned(p, claim), mapping)
  {
    hide Load;
    var p' := Returned(p, claim);
    LoadAfterReturn(p.claims, claim);
    forall l | l in p'.leases && !p'.leases[l].released && !p'.leases[l].interrupted
      ensures JobUndisturbed(p', mapping, p'.leases[l])
    {
      assert JobUndisturbed(p, mapping, p.leases[l]);
    }
  }

  lemma AddKeeps(p: Pool, mapping: map<string, string>, address: string, faceSwap: bool)
    requires Inv(p, mapping)
    ensures Inv(Added(p, address, faceSwap), mapping)
  {
    var p' := Added(p, address, faceSwap);
    if address != "" && address !in Addresses(p.clients) {
      var c := Client(address, p.nextSerial);
      assert c !in p.clients;
      NoClaimsOn(p.claims, c);
      assert forall d :: d in p'.clients <==> d in p.clients || d == c;
      assert forall j :: 0 <= j < |p.clients| ==> p.clients[j].address in Addresses(p.clients);
      forall l | l in p'.leases && !p'.leases[l].released && !p'.leases[l].interrupted
        ensures JobUndisturbed(p', mapping, p'.leases[l])
      {
        assert JobUndisturbed(p, mapping, p.leases[l]);
      }
    }
  }

  /** Cutting position i out of a list of workers with distinct addresses. */
  lemma CutOut(clients: seq<Client>, i: int)
    requires 0 <= i < |clients|
    requires forall a, b :: 0 <= a < b < |clients| ==> clients[a].address != clients[b].address
    ensures var rest := clients[..i] + clients[i + 1..];
            && (forall a, b :: 0 <= a < b < |rest| ==> rest[a].address != rest[b].address)
            && (forall c :: c in rest <==> c in clients && c != clients[i])
            && (forall c :: c in rest ==> c.address != clients[i].address)
  {
    var rest := clients[..i] + clients[i + 1..];
    assert forall j :: 0 <= j < |rest| ==> rest[j] == if j < i then clients[j] else clients[j + 1];
    forall c | c in clients && c != clients[i]
      ensures c in rest
    {
      var j :| 0 <= j < |clients| && clients[j] == c;
      assert rest[if j < i then j else j - 1] == c;
    }
  }

  lemma RemoveKeepsPool(p: Pool, i: int)
    requires PoolInv(p) && Removable(p, i)
    ensures PoolInv(Removed(p, i))
  {
    hide Load;
    CutOut(p.clients, i);
    NoClaimsOn(p.claims, p.clients[i]);
  }

  lemma RemoveKeeps(p: Pool, mapping: map<string, string>, i: int)
    requires Inv(p, mapping) && Removable(p, i)
    ensures Inv(Removed(p, i), mapping)
  {
    hide Load, Preempted;
    var p' := Removed(p, i);
    PreemptEffect(p, mapping, p.clients[i].address);
    RemoveKeepsPool(p, i);
    CutOut(p.clients, i);
    forall l | l in p'.leases && !p'.leases[l].released && !p'.leases[l].interrupted
      ensures JobUndisturbed(p', mapping, p'.leases[l])
    {
      assert JobUndisturbed(p, mapping, p.leases[l]);
    }
  }

  lemma DisturbKeeps(p: Pool, mapping: map<string, string>, e: Event)
    requires Inv(p, mapping) && (e.SetDraining? || e.SetReady?)
    ensures Inv(Step(p, mapping, e), mapping)
  {
    hide Load, Preempted, PoolInv, VodBooks, JobUndisturbed, Addresses;
    var p' := Step(p, mapping, e);
    var p1 := if e.SetDraining? then p.(draining := p.draining + {e.address}) else p.(unready := p.unready + {e.address});
    var worse := p' != p && ((e.SetDraining? && e.draining) || (e.SetReady? && !e.ready));
    VodBooksFrame(p, p1, mapping);
    PreemptEffect(p1, mapping, e.address);
    if worse {
      assert p' == Preempted(p1, e.address);
    } else {
      VodBooksFrame(p, p', mapping);
    }
    PoolInvFrame(p, p');
    forall l | l in p'.leases && !p'.leases[l].released && !p'.leases[l].interrupted
      ensures JobUndisturbed(p', mapping, p'.leases[l])
    {
      assert JobUndisturbed(p, mapping, p.leases[l]);
      JobTarget(p, mapping, p.leases[l]);
      JobFrame(p, p', mapping, p.leases[l], p'.leases[l]);
    }
  }

  lemma JobTarget(p: Pool, mapping: map<string, string>, l: VodLease)
    requires JobUndisturbed(p, mapping, l)
    ensures Gpu(mapping, l.target) == l.gpu
  {
  }

  lemma ReserveKeepsBooks(p: Pool, mapping: map<string, string>, i: int)
    requires VodBooks(p, mapping) && 0 <= i < |p.clients| && Gpu(mapping, p.clients[i].address) !in p.vod
    ensures VodBooks(Reserved(p, mapping, i), mapping)
  {
  }

  /** The job just reserved starts undisturbed. */
  lemma NewJob(p: Pool, mapping: map<string, string>, roomy: set<string>, excluded: set<string>, limit: int, i: int)
    requires VodOpen(p, mapping, limit) && Reservable(p, mapping, roomy, excluded, i)
    ensures JobUndisturbed(Reserved(p, mapping, i), mapping, Reserved(p, mapping, i).leases[p.nextLease])
  {
    hide Load;
    LoadAfterReturn(p.claims, 0);
    assert p.clients[i].address in Addresses(p.clients);
  }

  lemma ReserveKeeps(p: Pool, mapping: map<string, string>, roomy: set<string>, excluded: set<string>, limit: int, i: int)
    requires Inv(p, mapping) && VodOpen(p, mapping, limit) && Reservable(p, mapping, roomy, excluded, i)
    ensures Inv(Reserved(p, mapping, i), mapping)
  {
    var p' := Reserved(p, mapping, i);
    NewJob(p, mapping, roomy, excluded, limit, i);
    ReserveKeepsBooks(p, mapping, i);
    hide Load, VodBooks, JobUndisturbed, Addresses;
    forall l | l in p'.leases && !p'.leases[l].released && !p'.leases[l].interrupted
      ensures JobUndisturbed(p', mapping, p'.leases[l])
    {
      if l != p.nextLease {
        JobFrame(p, p', mapping, p.leases[l], p'.leases[l]);
      }
    }
  }

  lemma ReturnKeepsBooks(p: Pool, mapping: map<string, string>, lease: nat)
    requires VodBooks(p, mapping)
    ensures VodBooks(VodReturned(p, lease), mapping)
  {
  }

  lemma VodReturnKeeps(p: Pool, mapping: map<string, string>, lease: nat)
    requires Inv(p, mapping)
    ensures Inv(VodReturned(p, lease), mapping)
  {
    hide Load, PoolInv, VodBooks, JobUndisturbed;
    var p' := VodReturned(p, lease);
    ReturnKeepsBooks(p, mapping, lease);
    PoolInvFrame(p, p');
    forall l | l in p'.leases && !p'.leases[l].released && !p'.leases[l].interrupted
      ensures JobUndisturbed(p', mapping, p'.leases[l])
    {
      JobFrame(p, p', mapping, p.leases[l], p'.leases[l]);
    }
  }

  lemma StepKeepsInv(p: Pool, mapping: map<string, string>, e: Event)
    requires Inv(p, mapping) && Enabled(p, mapping, e)
    ensures Inv(Step(p, mapping, e), mapping)
  {
    hide Load, IsPick, IsMoveTarget, PoolInv, VodBooks, VodSafe;
    match e
    case Acquire(_, i) => AcquireKeeps(p, mapping, e.mode, i);
    case AcquireFails(_) => MoveCursor(p, mapping, 0) by { SomeClient(p); }
    case Move(_, _, _, i) => ClaimKeeps(p, mapping, i) by { MoveInRange(p, e); }
    case Return(claim) => ReturnKeeps(p, mapping, claim);
    case Add(address, faceSwap) => AddKeeps(p, mapping, address, faceSwap);
    case Remove(i) => RemoveKeeps(p, mapping, i);
    case SetDraining(_, _) => DisturbKeeps(p, mapping, e);
    case SetReady(_, _) => DisturbKeeps(p, mapping, e);
    case SetFaceSwap(targets) => FaceSwapKeeps(p, mapping, targets);
    case Reserve(roomy, excluded, limit, i) => ReserveKeeps(p, mapping, roomy, excluded, limit, i);
    case VodReturn(l) => VodReturnKeeps(p, mapping, l);
  }

  lemma AcquireKeeps(p: Pool, mapping: map<string, string>, mode: bool, i: int)
    requires Inv(p, mapping) && IsPick(p, mode, i)
    ensures Inv(Acquired(p, i), mapping)
  {
    hide Load, InBestClass;
    ClaimKeeps(p, mapping, i);
    MoveCursor(Claimed(p, i), mapping, (i + 1) % |p.clients|);
  }

  lemma MoveCursor(p: Pool, mapping: map<string, string>, next: int)
    requires Inv(p, mapping) && 0 <= next < |p.clients|
    ensures Inv(p.(next := next), mapping)
  {
    hide Load;
    var p' := p.(next := next);
    assert forall l :: l in p.leases ==> (JobUndisturbed(p', mapping, p.leases[l]) <==> JobUndisturbed(p, mapping, p.leases[l]));
  }

  lemma SomeClient(p: Pool)
    requires PoolInv(p)
    ensures |p.clients| > 0
  {
  }

  lemma MoveInRange(p: Pool, e: Event)
    requires e.Move? && IsMoveTarget(p, e.mode, e.except, e.prefer, e.index)
    ensures 0 <= e.index < |p.clients|
  {
  }

  lemma FaceSwapKeeps(p: Pool, mapping: map<string, string>, targets: set<string>)
    requires Inv(p, mapping)
    ensures Inv(FaceSwapSet(p, targets), mapping)
  {
    hide Load;
    var p' := FaceSwapSet(p, targets);
    assert forall l :: l in p.leases ==> (JobUndisturbed(p', mapping, p.leases[l]) <==> JobUndisturbed(p, mapping, p.leases[l]));
  }

  // ---------- Whole runs ----------

  ghost predicate Runs(p: Pool, mapping: map<string, string>, run: seq<Event>)
    decreases |run|
  {
    run == [] || (Enabled(p, mapping, run[0]) && Runs(Step(p, mapping, run[0]), mapping, run[1..]))
  }

  ghost function After(p: Pool, mapping: map<string, string>, run: seq<Event>): Pool
    requires Runs(p, mapping, run)
    decreases |run|
  {
    if run == [] then p else After(Step(p, mapping, run[0]), mapping, run[1..])
  }

  /** Across every claim, move, return, drain, readiness change, addition, removal and reservation. */
  lemma {:induction false} RunKeepsInv(p: Pool, mapping: map<string, string>, run: seq<Event>)
    requires Inv(p, mapping) && Runs(p, mapping, run)
    ensures Inv(After(p, mapping, run), mapping)
    decreases |run|
  {
    hide Inv, Enabled;
    if run != [] {
      StepKeepsInv(p, mapping, run[0]);
      RunKeepsInv(Step(p, mapping, run[0]), mapping, run[1..]);
    }
  }

  /** At most one unreturned VOD lease per GPU. */
  lemma OneJobPerGpu(p: Pool, mapping: map<string, string>, a: nat, b: nat)
    requires Inv(p, mapping)
    requires a in p.leases && b in p.leases && !p.leases[a].released && !p.leases[b].released
    requires p.leases[a].gpu == p.leases[b].gpu
    ensures a == b
  {
    assert p.vod[p.leases[a].gpu] == a;
  }

  /** A returned claim always finds its own client, under its own address, at the position found by address. */
  lemma ReturnFindsClient(p: Pool, mapping: map<string, string>, claim: nat, i: int)
    requires Inv(p, mapping) && claim in p.claims
    requires 0 <= i < |p.clients| && p.clients[i].address == p.claims[claim].address
    ensures p.clients[i] == p.claims[claim]
  {
    var j :| 0 <= j < |p.clients| && p.clients[j] == p.claims[claim];
    if i < j {
    } else if j < i {
    }
  }

  // ---------- Somebody for each mode ----------

  /** There is a worker to pick exactly when somebody serves the mode. */
  lemma PickNeedsServer(p: Pool, mode: bool, i: int)
    requires IsPick(p, mode, i)
    ensures HasServer(p, mode)
  {
    assert p.clients[i] in p.clients && Serves(p, p.clients[i].address, mode);
  }

  /** Removing this worker leaves nobody for the mode: it is the last one of its kind, and workers of one kind are still set
      apart when it is gone. */
  ghost predicate LastServer(p: Pool, i: int, mode: bool)
    requires 0 <= i < |p.clients|
  {
    && p.faceSwap - {p.clients[i].address} != {}
    && forall c :: c in p.clients && c != p.clients[i] ==> (c.address in p.faceSwap) != mode
  }

  lemma RemovalServes(p: Pool, i: int, mode: bool)
    requires PoolInv(p) && 0 <= i < |p.clients| && |p.clients| > 1
    ensures HasServer(Removed(p, i), mode) <==> !LastServer(p, i, mode)
  {
    hide Preempted;
    var p' := Removed(p, i);
    CutOut(p.clients, i);
    assert p'.faceSwap == p.faceSwap - {p.clients[i].address};
    assert forall c :: c in p'.clients ==> (c.address in p'.faceSwap <==> c.address in p.faceSwap);
    if p'.faceSwap == {} {
      assert p'.clients[0] in p'.clients && Serves(p', p'.clients[0].address, mode);
    } else if !LastServer(p, i, mode) {
      var c :| c in p.clients && c != p.clients[i] && (c.address in p.faceSwap) == mode;
      assert c in p'.clients && Serves(p', c.address, mode);
    }
  }

  /** As many addresses as workers. */
  lemma {:induction false} AddressCount(clients: seq<Client>)
    requires forall i, j :: 0 <= i < j < |clients| ==> clients[i].address != clients[j].address
    ensures |Addresses(clients)| == |clients|
  {
    if clients == [] {
      assert Addresses(clients) == {};
    } else {
      var init, last := clients[..|clients| - 1], clients[|clients| - 1];
      AddressCount(init);
      assert last.address !in Addresses(init);
      assert Addresses(clients) == Addresses(init) + {last.address} by {
        assert forall c :: c in clients <==> c in init || c == last;
      }
    }
  }

  /** Setting workers apart, when accepted, leaves somebody for both modes. */
  lemma FaceSwapServes(p: Pool, targets: set<string>, mode: bool)
    requires PoolInv(p) && FaceSwapSet(p, targets) != p
    ensures HasServer(FaceSwapSet(p, targets), mode)
  {
    var p' := FaceSwapSet(p, targets);
    AddressCount(p.clients);
    if targets == {} {
      assert p'.clients[0] in p'.clients && Serves(p', p'.clients[0].address, mode);
    } else if mode {
      var t :| t in targets;
      var c :| c in p.clients && c.address == t;
      assert Serves(p', c.address, mode);
    } else {
      assert targets != Addresses(p.clients);
      var t :| t in Addresses(p.clients) && t !in targets;
      var c :| c in p.clients && c.address == t;
      assert Serves(p', c.address, mode);
    }
  }

  /** Nothing takes the last server of a mode away but a removal, and that one exactly. */
  lemma ServersLostExactly(p: Pool, mapping: map<string, string>, e: Event, mode: bool)
    requires Inv(p, mapping) && Enabled(p, mapping, e) && HasServer(p, mode)
    ensures !HasServer(Step(p, mapping, e), mode) <==> e.Remove? && LastServer(p, e.index, mode)
  {
    hide Load, Preempted, VodBooks, VodSafe, IsPick, IsMoveTarget, Reservable;
    var p' := Step(p, mapping, e);
    var c :| c in p.clients && Serves(p, c.address, mode);
    match e
    case Remove(i) => RemovalServes(p, i, mode);
    case SetFaceSwap(targets) =>
      if p' != p {
        FaceSwapServes(p, targets, mode);
      }
    case Add(address, _) => AddServes(p, e, c, mode);
    case _ =>
      StepFrame(p, mapping, e);
      assert c in p'.clients && Serves(p', c.address, mode);
  }

  lemma AddServes(p: Pool, e: Event, c: Client, mode: bool)
    requires e.Add? && c in p.clients && Serves(p, c.address, mode)
    ensures HasServer(Added(p, e.address, e.faceSwap), mode)
  {
    var p' := Added(p, e.address, e.faceSwap);
    assert c.address in Addresses(p.clients);
    assert c in p'.clients && Serves(p', c.address, mode);
  }

  lemma StepFrame(p: Pool, mapping: map<string, string>, e: Event)
    requires Enabled(p, mapping, e) && !e.Remove? && !e.SetFaceSwap? && !e.Add?
    ensures Step(p, mapping, e).clients == p.clients && Step(p, mapping, e).faceSwap == p.faceSwap
  {
    hide Load, InBestClass;
    match e
    case Acquire(_, i) => PreemptFrame(p, p.clients[i].address);
    case Move(_, _, _, i) => PreemptFrame(p, p.clients[i].address);
    case _ =>
  }

  // ---------- Even spread ----------

  ghost predicate SpreadAtMost(p: Pool, mode: bool, bound: int) {
    forall i, j | 0 <= i < |p.clients| && 0 <= j < |p.clients| ::
      (InBestClass(p, p.clients[i].address, mode) && InBestClass(p, p.clients[j].address, mode) ==>
         Load(p.claims, p.clients[i]) - Load(p.claims, p.clients[j]) <= bound)
  }

  /** The best classes of the two modes are the same set or have no worker in common. */
  lemma ClassesEqualOrApart(p: Pool, mode: bool, mode': bool, address: string)
    requires InBestClass(p, address, mode) && InBestClass(p, address, mode')
    ensures forall a :: InBestClass(p, a, mode) == InBestClass(p, a, mode')
  {
    if mode != mode' {
      assert p.faceSwap == {};
      assert forall a :: Ready(p, a, mode) == Ready(p, a, mode');
      assert forall a :: Assignable(p, a, mode) == Assignable(p, a, mode');
    }
  }

  lemma AcquireKeepsClasses(p: Pool, i: int, mode: bool)
    requires 0 <= i < |p.clients|
    ensures forall a :: InBestClass(Acquired(p, i), a, mode) == InBestClass(p, a, mode)
  {
    var p' := Acquired(p, i);
    assert forall a, m :: Ready(p', a, m) == Ready(p, a, m);
    assert forall a, m :: Assignable(p', a, m) == Assignable(p, a, m);
  }

  /** Distinct addresses make positions and clients correspond one to one. */
  lemma SamePosition(p: Pool, i: int, j: int)
    requires PoolInv(p) && 0 <= i < |p.clients| && 0 <= j < |p.clients|
    ensures p.clients[i] == p.clients[j] ==> i == j
  {
    if i < j {
      assert p.clients[i].address != p.clients[j].address;
    } else if j < i {
      assert p.clients[j].address != p.clients[i].address;
    }
  }

  lemma PickIsLeast(p: Pool, picked: bool, i: int, mode: bool)
    requires IsPick(p, picked, i) && InBestClass(p, p.clients[i].address, mode)
    ensures forall j :: 0 <= j < |p.clients| && InBestClass(p, p.clients[j].address, mode) ==>
              Load(p.claims, p.clients[i]) <= Load(p.claims, p.clients[j])
  {
    hide Load, Turn;
    ClassesEqualOrApart(p, picked, mode, p.clients[i].address);
  }

  lemma AcquireKeepsSpread(p: Pool, i: int, picked: bool, mode: bool, bound: int)
    requires PoolInv(p) && IsPick(p, picked, i) && bound >= 1 && SpreadAtMost(p, mode, bound)
    ensures SpreadAtMost(Acquired(p, i), mode, bound)
  {
    hide Load, InBestClass, Turn, Preempted;
    var p' := Acquired(p, i);
    LoadAfterClaim(p.claims, p.nextClaim, p.clients[i]);
    AcquireKeepsClasses(p, i, mode);
    if InBestClass(p, p.clients[i].address, mode) {
      PickIsLeast(p, picked, i, mode);
    }
    forall j | 0 <= j < |p.clients| && p.clients[j] == p.clients[i]
      ensures j == i
    {
      SamePosition(p, i, j);
    }
    assert p'.clients == p.clients by { PreemptFrame(p, p.clients[i].address); }
    assert forall j :: 0 <= j < |p.clients| ==> Load(p'.claims, p.clients[j]) == Load(p.claims, p.clients[j]) + if j == i then 1 else 0;
  }

  lemma PreemptFrame(p: Pool, address: string)
    ensures Preempted(p, address) == p.(leases := Preempted(p, address).leases)
  {
  }

  /** Over any run of acquisitions, in either mode, the spread of a class never exceeds the larger of one and its
      initial value. */
  lemma {:induction false} AcquiresSpreadEvenly(p: Pool, mapping: map<string, string>, run: seq<Event>, mode: bool, bound: int)
    requires Inv(p, mapping) && Runs(p, mapping, run)
    requires forall k :: 0 <= k < |run| ==> run[k].Acquire?
    requires bound >= 1 && SpreadAtMost(p, mode, bound)
    ensures SpreadAtMost(After(p, mapping, run), mode, bound)
    decreases |run|
  {
    hide IsPick, SpreadAtMost, PoolInv, VodBooks, VodSafe;
    if run != [] {
      assert Enabled(p, mapping, run[0]) && run[0].Acquire?;
      StepKeepsInv(p, mapping, run[0]);
      AcquireKeepsSpread(p, run[0].index, run[0].mode, mode, bound);
      AcquiresSpreadEvenly(Step(p, mapping, run[0]), mapping, run[1..], mode, bound);
    }
  }
}
