/** The pool as the server keeps it: parallel slices of clients and counters, scanned by loops under one mutex. */
module AIWorkerPools {
  import opened Totals
  import opened WorkerPool

  /** Walking `offset` steps upwards from the cursor and around lands on the worker whose turn is `offset`. */
  lemma TurnAround(p: Pool, offset: int)
    requires 0 <= p.next < |p.clients| && 0 <= offset < |p.clients|
    ensures 0 <= (p.next + offset) % |p.clients| < |p.clients|
    ensures Turn(p, (p.next + offset) % |p.clients|) == offset
  {
    if p.next + offset >= |p.clients| {
      assert (p.next + offset) % |p.clients| == p.next + offset - |p.clients|;
    } else {
      assert (p.next + offset) % |p.clients| == p.next + offset;
    }
  }

  lemma TurnIsUnique(p: Pool, i: int, j: int)
    requires 0 <= p.next < |p.clients| && 0 <= i < |p.clients| && 0 <= j < |p.clients|
    ensures 0 <= Turn(p, i) < |p.clients|
    ensures Turn(p, i) == Turn(p, j) ==> i == j
  {
  }

  /** The least loaded of the first `offset` workers in turn order, if any of them is in the best class. */
  ghost predicate BestSoFar(p: Pool, mode: bool, offset: int, best: int) {
    if best < 0 then
      forall j :: 0 <= j < |p.clients| && Turn(p, j) < offset ==> !InBestClass(p, p.clients[j].address, mode)
    else
      && best < |p.clients| && Turn(p, best) < offset && InBestClass(p, p.clients[best].address, mode)
      && forall j :: 0 <= j < |p.clients| && Turn(p, j) < offset && InBestClass(p, p.clients[j].address, mode) ==>
           || Load(p.claims, p.clients[best]) < Load(p.claims, p.clients[j])
           || (Load(p.claims, p.clients[best]) == Load(p.claims, p.clients[j]) && Turn(p, best) <= Turn(p, j))
  }

  /** One more worker in turn order takes over exactly when it is in the class and strictly less loaded. */
  lemma BestGrows(p: Pool, mode: bool, offset: int, best: int, index: int)
    requires 0 <= p.next < |p.clients| && 0 <= index < |p.clients| && Turn(p, index) == offset
    requires BestSoFar(p, mode, offset, best)
    ensures BestSoFar(p, mode, offset + 1,
              if InBestClass(p, p.clients[index].address, mode) &&
                 (best < 0 || Load(p.claims, p.clients[index]) < Load(p.claims, p.clients[best])) then index else best)
  {
    hide Load, InBestClass;
    forall j | 0 <= j < |p.clients|
      ensures Turn(p, j) < offset + 1 <==> Turn(p, j) < offset || j == index
    {
      TurnIsUnique(p, j, index);
    }
  }

  lemma BestOfAll(p: Pool, mode: bool, best: int)
    requires 0 <= p.next < |p.clients| && BestSoFar(p, mode, |p.clients|, best) && best >= 0
    ensures IsPick(p, mode, best)
  {
    hide Load, InBestClass;
    forall j | 0 <= j < |p.clients|
      ensures Turn(p, j) < |p.clients|
    {
      TurnIsUnique(p, j, j);
    }
  }

  /** The best class is empty only when nobody serves the mode. */
  lemma ClassNotEmpty(p: Pool, mode: bool, best: int)
    requires 0 <= p.next < |p.clients| && BestSoFar(p, mode, |p.clients|, best) && HasServer(p, mode)
    ensures best >= 0
  {
    if best < 0 {
      var c :| c in p.clients && InBestClass(p, c.address, mode);
      var j :| 0 <= j < |p.clients| && p.clients[j] == c;
      TurnIsUnique(p, j, j);
      assert false;
    }
  }

  /** The two flags of the scan describe the best class. */
  lemma ClassByFlags(p: Pool, address: string, mode: bool, skipUnready: bool, skipDraining: bool)
    requires skipUnready <==> exists c :: c in p.clients && Ready(p, c.address, mode)
    requires skipDraining <==> exists c :: c in p.clients && Assignable(p, c.address, mode)
    ensures InBestClass(p, address, mode) <==>
            Serves(p, address, mode) && (skipDraining ==> address !in p.draining) && (skipUnready ==> address !in p.unready)
  {
  }

  ghost predicate BestMove(p: Pool, mode: bool, except: string, prefer: string, n: int, best: int) {
    && (forall j :: Movable(p, mode, except, j) && j < n ==> p.clients[j].address != prefer)
    && if best < 0 then forall j :: Movable(p, mode, except, j) ==> j >= n
       else
         && Movable(p, mode, except, best) && best < n
         && forall j :: Movable(p, mode, except, j) && j < n ==>
              || Load(p.claims, p.clients[best]) < Load(p.claims, p.clients[j])
              || (Load(p.claims, p.clients[best]) == Load(p.claims, p.clients[j]) && best <= j)
  }

  lemma MovableByFlags(p: Pool, mode: bool, except: string, i: int)
    requires 0 <= i < |p.clients|
    ensures var address := p.clients[i].address;
            Movable(p, mode, except, i) <==>
            address != except && (p.faceSwap == {} || ((address in p.faceSwap) == mode)) && address !in p.draining && address !in p.unready
  {
  }

  /** One more worker looked at: it takes over when it qualifies and is strictly less loaded. */
  lemma BestMoveGrows(p: Pool, mode: bool, except: string, prefer: string, n: int, best: int)
    requires 0 <= n < |p.clients| && BestMove(p, mode, except, prefer, n, best)
    requires Movable(p, mode, except, n) ==> p.clients[n].address != prefer
    ensures BestMove(p, mode, except, prefer, n + 1,
              if Movable(p, mode, except, n) && (best < 0 || Load(p.claims, p.clients[n]) < Load(p.claims, p.clients[best]))
              then n else best)
  {
    hide Load, Ready;
  }

  lemma BestMoveDone(p: Pool, mode: bool, except: string, prefer: string, best: int)
    requires BestMove(p, mode, except, prefer, |p.clients|, best)
    ensures best >= 0 ==> IsMoveTarget(p, mode, except, prefer, best)
    ensures best < 0 ==> forall i :: !Movable(p, mode, except, i)
  {
    hide Load, Ready;
  }

  /** Counters stay in step when one worker leaves. */
  lemma ActiveAfterRemoval(claims: map<nat, Client>, clients: seq<Client>, active: seq<int>, index: int)
    requires |active| == |clients| && (forall i :: 0 <= i < |clients| ==> active[i] == Load(claims, clients[i]))
    requires 0 <= index < |clients|
    ensures var clients', active' := clients[..index] + clients[index + 1..], active[..index] + active[index + 1..];
            |active'| == |clients'| && forall i :: 0 <= i < |clients'| ==> active'[i] == Load(claims, clients'[i])
  {
    hide Load;
  }

  function Listed(targets: seq<string>): set<string> { set t | t in targets }

  class AIPool {
    ghost const mapping: map<string, string>
    var clients: seq<Client>
    var active: seq<int>
    var next: int
    var unready: set<string>
    var draining: set<string>
    var faceSwap: set<string>
    var vod: map<string, nat>
    var leases: map<nat, VodLease>
    var vodGPUs: map<string, string>
    var nextSerial: nat
    var nextLease: nat
    ghost var claims: map<nat, Client>
    ghost var nextClaim: nat

    ghost function View(): Pool
      reads this
    {
      Pool(clients, next, unready, draining, faceSwap, claims, vod, leases, vodGPUs, nextClaim, nextSerial, nextLease)
    }

    ghost predicate ActiveMatches()
      reads this
    {
      |active| == |clients| && forall i :: 0 <= i < |clients| ==> active[i] == Load(claims, clients[i])
    }

    /** The counters equal the unreturned claims, and everything WorkerPool proves about the pool holds. */
    ghost predicate Valid()
      reads this
    {
      ActiveMatches() && Inv(View(), mapping)
    }

    /** Any non-empty list makes a pool; it keeps its promises if its addresses are distinct and not empty. */
    constructor (targets: seq<string>, ghost mapping: map<string, string>)
      requires targets != []
      ensures ActiveMatches() && this.mapping == mapping && claims == map[] && vod == map[] && next == 0
      ensures |clients| == |targets| && forall i :: 0 <= i < |targets| ==> clients[i].address == targets[i]
      ensures Valid() <==> "" !in targets && forall i, j :: 0 <= i < j < |targets| ==> targets[i] != targets[j]
    {
      this.mapping := mapping;
      clients := seq(|targets|, i requires 0 <= i < |targets| => Client(targets[i], i));
      active := seq(|targets|, _ => 0);
      next, unready, draining, faceSwap := 0, {}, {}, {};
      vod, leases, vodGPUs := map[], map[], map[];
      nextSerial, nextLease := |targets|, 0;
      claims, nextClaim := map[], 0;
      new;
      if "" in targets {
        var i :| 0 <= i < |targets| && targets[i] == "";
        assert clients[i] in clients && clients[i].address == "";
      }
    }

    method IndexLocked(target: string) returns (index: int)
      ensures -1 <= index < |clients|
      ensures index >= 0 ==> clients[index].address == target
      ensures index < 0 <==> target !in Addresses(clients)
    {
      for i := 0 to |clients|
        invariant forall j :: 0 <= j < i ==> clients[j].address != target
      {
        if clients[i].address == target {
          assert clients[i] in clients;
          return i;
        }
      }
      return -1;
    }

    method HasReadyTargetLocked(except: string, mode: bool) returns (found: bool)
      ensures found <==> exists c :: c in clients && c.address != except && Ready(View(), c.address, mode)
    {
      for i := 0 to |clients|
        invariant forall j :: 0 <= j < i ==> clients[j].address == except || !Ready(View(), clients[j].address, mode)
      {
        var address := clients[i].address;
        if address != except && (faceSwap == {} || ((address in faceSwap) == mode)) && address !in draining && address !in unready {
          assert clients[i] in clients && Ready(View(), clients[i].address, mode);
          return true;
        }
      }
      return false;
    }

    method HasAssignableTargetLocked(mode: bool) returns (found: bool)
      ensures found <==> exists c :: c in clients && Assignable(View(), c.address, mode)
    {
      for i := 0 to |clients|
        invariant forall j :: 0 <= j < i ==> !Assignable(View(), clients[j].address, mode)
      {
        var address := clients[i].address;
        if (faceSwap == {} || ((address in faceSwap) == mode)) && address !in draining {
          assert clients[i] in clients && Assignable(View(), clients[i].address, mode);
          return true;
        }
      }
      return false;
    }

    /** Interrupting by GPU, or every job when the worker's GPU is unknown. */
    method PreemptVODLocked(target: string)
      requires forall g :: g in vod ==> vod[g] in leases
      modifies this`leases
      ensures View() == Preempted(old(View()), target)
    {
      if Gpu(vodGPUs, target) == "" {
        InterruptAll();
        return;
      }
      var gpu := Gpu(vodGPUs, target);
      if gpu in vod {
        leases := leases[vod[gpu] := leases[vod[gpu]].(interrupted := true)];
      }
    }

    method InterruptAll()
      requires forall g :: g in vod ==> vod[g] in leases
      modifies this`leases
      ensures View() == Interrupted(old(View()), vod.Values)
    {
      ghost var ids := vod.Values;
      var todo := vod.Keys;
      while todo != {}
        invariant todo <= vod.Keys && leases.Keys == old(leases).Keys
        invariant forall l :: l in leases ==> leases[l] == old(leases)[l].(interrupted := leases[l].interrupted)
        invariant forall l :: l in leases && l !in ids ==> leases[l] == old(leases)[l]
        invariant forall g :: g in vod && g !in todo ==> leases[vod[g]].interrupted
        invariant forall l :: l in leases && old(leases)[l].interrupted ==> leases[l].interrupted
        decreases |todo|
      {
        var g :| g in todo;
        todo := todo - {g};
        leases := leases[vod[g] := leases[vod[g]].(interrupted := true)];
      }
    }

    method ClaimLocked(index: int) returns (client: Client, ghost claim: nat)
      requires Valid() && 0 <= index < |clients|
      modifies this`leases, this`active, this`claims, this`nextClaim
      ensures client == clients[index] && claim == old(nextClaim)
      ensures View() == Claimed(old(View()), index) && Valid()
    {
      hide Load, PoolInv, VodBooks, VodSafe, Preempted;
      ClaimKeeps(View(), mapping, index);
      NextClaimFresh(View());
      LoadAfterClaim(claims, nextClaim, clients[index]);
      forall i | 0 <= i < |clients| && clients[i] == clients[index]
        ensures i == index
      {
        SamePosition(View(), i, index);
      }
      client := clients[index];
      PreemptVODLocked(client.address) by { VodListed(View(), mapping); }
      active := active[index := active[index] + 1];
      claim := nextClaim;
      claims := claims[claim := client];
      nextClaim := nextClaim + 1;
    }

    /** The scan of Acquire returns exactly the worker the specification picks, or -1 when nobody serves the mode. */
    method ScanForSession(mode: bool) returns (best: int)
      requires Valid()
      ensures best >= 0 ==> IsPick(View(), mode, best)
      ensures best < 0 <==> !HasServer(View(), mode)
    {
      hide Load, VodBooks, VodSafe, InBestClass, BestSoFar, PoolInv;
      ghost var p := View();
      CursorInRange(p);
      var skipUnready := HasReadyTargetLocked("", mode);
      NoEmptyAddress(p, mode);
      var skipDraining := HasAssignableTargetLocked(mode);
      best := -1;
      EmptyScan(p, mode);
      for offset := 0 to |clients|
        invariant -1 <= best < |clients| && BestSoFar(p, mode, offset, best)
      {
        TurnAround(p, offset);
        var at := (next + offset) % |clients|;
        var address := clients[at].address;
        BestGrows(p, mode, offset, best, at);
        ClassByFlags(p, address, mode, skipUnready, skipDraining);
        if !(faceSwap == {} || ((address in faceSwap) == mode)) {
          continue;
        }
        if skipDraining && address in draining {
          continue;
        }
        if skipUnready && address in unready {
          continue;
        }
        if best < 0 || active[at] < active[best] {
          best := at;
        }
      }
      if best >= 0 {
        BestOfAll(p, mode, best);
        PickNeedsServer(p, mode, best);
      } else if HasServer(p, mode) {
        ClassNotEmpty(p, mode, best);
      }
    }

    /** With nobody to serve the mode the source moves its cursor and then indexes with -1; here the index says so. */
    method Acquire(mode: bool) returns (client: Client, ghost claim: nat, index: int)
      requires Valid()
      modifies this
      ensures Valid() && (index < 0 <==> !HasServer(old(View()), mode))
      ensures index >= 0 ==> IsPick(old(View()), mode, index)
      ensures View() == Step(old(View()), mapping, if index >= 0 then WorkerPool.Acquire(mode, index) else AcquireFails(mode))
      ensures index >= 0 ==> client == old(clients)[index] && claims == old(claims)[claim := client] && claim !in old(claims)
    {
      hide Load, InBestClass, VodBooks, VodSafe, HasServer;
      index := ScanForSession(mode);
      if index < 0 {
        MoveCursor(View(), mapping, 0);
        next, client, claim := 0, clients[0], 0;
        return;
      }
      AcquireKeeps(View(), mapping, mode, index);
      client, claim := ClaimLocked(index);
      next := (index + 1) % |clients|;
    }

    /** The scan of AcquireMoveTarget: the preferred worker if it qualifies, else the first least loaded one. */
    method ScanForMove(mode: bool, except: string, prefer: string) returns (best: int)
      requires Valid()
      ensures best >= 0 ==> IsMoveTarget(View(), mode, except, prefer, best)
      ensures best < 0 ==> forall i :: !Movable(View(), mode, except, i)
    {
      ghost var p := View();
      best := -1;
      assert BestMove(p, mode, except, prefer, 0, best);
      hide Load, Inv, BestMove, Movable;
      for i := 0 to |clients|
        invariant -1 <= best < i
        invariant BestMove(p, mode, except, prefer, i, best)
      {
        var address := clients[i].address;
        MovableByFlags(p, mode, except, i);
        if address == except || !(faceSwap == {} || ((address in faceSwap) == mode)) || address in draining || address in unready {
          BestMoveGrows(p, mode, except, prefer, i, best);
          continue;
        }
        if address == prefer {
          return i;
        }
        BestMoveGrows(p, mode, except, prefer, i, best);
        if best < 0 || active[i] < active[best] {
          best := i;
        }
      }
      BestMoveDone(p, mode, except, prefer, best);
    }

    /** Move a session: there is no falling back to a worse class. */
    method AcquireMoveTarget(mode: bool, except: string, prefer: string) returns (client: Client, ghost claim: nat, index: int, ok: bool)
      requires Valid()
      modifies this
      ensures Valid()
      ensures ok ==> IsMoveTarget(old(View()), mode, except, prefer, index)
      ensures ok ==> View() == Step(old(View()), mapping, Move(mode, except, prefer, index))
      ensures ok ==> client == old(clients)[index] && claims == old(claims)[claim := client] && claim !in old(claims)
      ensures !ok ==> View() == old(View()) && forall i :: !Movable(View(), mode, except, i)
    {
      hide Load, VodBooks, VodSafe;
      index := ScanForMove(mode, except, prefer);
      claim, ok := 0, index >= 0;
      if !ok {
        client := clients[0];
        return;
      }
      client, claim := ClaimLocked(index);
    }

    /** Returning a claim, once: it always finds its client, so the counter always follows. */
    method ReturnClaim(ghost claim: nat, client: Client)
      requires Valid() && claim in claims && claims[claim] == client
      modifies this`active, this`claims
      ensures Valid() && View() == Step(old(View()), mapping, Return(claim))
      ensures exists i :: 0 <= i < |clients| && clients[i] == client && active == old(active)[i := old(active)[i] - 1]
    {
      hide Load, VodBooks, VodSafe;
      ReturnKeeps(View(), mapping, claim);
      LoadAfterReturn(claims, claim);
      var current := IndexLocked(client.address);
      assert client in clients && client.address in Addresses(clients);
      ReturnFindsClient(View(), mapping, claim, current);
      forall i | 0 <= i < |clients| && clients[i] == clients[current]
        ensures i == current
      {
        SamePosition(View(), i, current);
      }
      if current >= 0 && clients[current] == client {
        active := active[current := active[current] - 1];
      }
      claims := claims - {claim};
    }

    /** A new worker joins at the end, draining. */
    method JoinLocked(address: string, faceSwapOnly: bool)
      requires Valid() && address != "" && address !in Addresses(clients)
      modifies this
      ensures Valid() && View() == Added(old(View()), address, faceSwapOnly)
    {
      hide Load, PoolInv, VodBooks, VodSafe, Addresses;
      AddKeeps(View(), mapping, address, faceSwapOnly);
      NewcomerIdle(View(), address);
      clients := clients + [Client(address, nextSerial)];
      nextSerial := nextSerial + 1;
      active := active + [0];
      draining := draining + {address};
      if faceSwapOnly && faceSwap != {} {
        faceSwap := faceSwap + {address};
      }
    }

    method AddTarget(address: string, faceSwapOnly: bool) returns (added: bool)
      requires Valid()
      modifies this
      ensures Valid() && View() == Step(old(View()), mapping, Add(address, faceSwapOnly))
      ensures added <==> address != "" && address !in Addresses(old(clients))
    {
      hide Inv, Addresses;
      if address == "" {
        return false;
      }
      var at := IndexLocked(address);
      if at >= 0 {
        return false;
      }
      JoinLocked(address, faceSwapOnly);
      return true;
    }

    method LeaveLocked(index: int)
      requires Valid() && Removable(View(), index)
      modifies this
      ensures Valid() && View() == Removed(old(View()), index)
    {
      hide Load, Inv, Preempted;
      var address := clients[index].address;
      RemoveKeeps(View(), mapping, index);
      ActiveAfterRemoval(claims, clients, active, index);
      PreemptVODLocked(address) by { VodLeasesListed(View(), mapping); }
      var others, counts := clients[..index] + clients[index + 1..], active[..index] + active[index + 1..];
      clients, active := others, counts;
      if next >= |clients| {
        next := 0;
      }
      draining, unready, faceSwap := draining - {address}, unready - {address}, faceSwap - {address};
    }

    /** Removal refuses an unknown worker, one with streams, and the last one. */
    method RemoveTarget(address: string) returns (index: int, removed: bool)
      requires Valid()
      modifies this
      ensures Valid() && (removed <==> Removable(old(View()), index))
      ensures removed ==> old(clients)[index].address == address && View() == Step(old(View()), mapping, Remove(index))
      ensures !removed ==> View() == old(View())
      ensures index < 0 <==> address !in Addresses(old(clients))
    {
      hide Load, Inv, Addresses, Removed;
      index := IndexLocked(address);
      if index < 0 || active[index] > 0 || |clients| == 1 {
        return index, false;
      }
      LeaveLocked(index);
      removed := true;
    }

    /** Reserving workers for face-swap sessions: only known ones, and not all of them. */
    method SetFaceSwapTargets(targets: seq<string>) returns (ok: bool)
      requires Valid()
      modifies this`faceSwap
      ensures Valid() && View() == Step(old(View()), mapping, SetFaceSwap(Listed(targets)))
      ensures ok ==> faceSwap == Listed(targets)
    {
      hide Load, PoolInv, VodBooks, VodSafe, Addresses;
      ghost var wanted := Listed(targets);
      FaceSwapKeeps(View(), mapping, wanted);
      var reserved := {};
      for i := 0 to |targets|
        invariant reserved == Listed(targets[..i])
        invariant reserved <= Addresses(clients) && faceSwap == old(faceSwap)
      {
        var index := IndexLocked(targets[i]);
        if index < 0 {
          assert targets[i] in wanted && !(wanted <= Addresses(clients));
          return false;
        }
        assert targets[..i + 1] == targets[..i] + [targets[i]];
        reserved := reserved + {targets[i]};
      }
      assert targets[..|targets|] == targets;
      if |reserved| > 0 && |reserved| == |clients| {
        return false;
      }
      faceSwap := reserved;
      return true;
    }

    method SetDraining(address: string, on: bool) returns (known: bool)
      requires Valid()
      modifies this`draining, this`leases
      ensures Valid() && View() == Step(old(View()), mapping, WorkerPool.SetDraining(address, on))
      ensures known <==> address in Addresses(clients)
    {
      hide Load, VodBooks, VodSafe, PoolInv;
      DisturbKeeps(View(), mapping, WorkerPool.SetDraining(address, on));
      var index := IndexLocked(address);
      if index < 0 {
        return false;
      }
      if !on {
        draining := draining - {address};
        return true;
      }
      draining := draining + {address};
      PreemptVODLocked(address) by { VodListed(old(View()), mapping); }
      return true;
    }

    method SetTargetReady(address: string, ready: bool) returns (changed: bool)
      requires Valid()
      modifies this`unready, this`leases
      ensures Valid() && View() == Step(old(View()), mapping, SetReady(address, ready))
      ensures changed <==> address in Addresses(clients) && (address in old(unready)) == ready
    {
      hide Load, VodBooks, VodSafe, PoolInv;
      DisturbKeeps(View(), mapping, SetReady(address, ready));
      var index := IndexLocked(address);
      if index < 0 || (address in unready) == !ready {
        return false;
      }
      if ready {
        unready := unready - {address};
      } else {
        unready := unready + {address};
        PreemptVODLocked(address) by { VodListed(old(View()), mapping); }
      }
      return true;
    }

    /** The first worker a VOD job may start on, or -1. */
    method ScanForVOD(gpus: map<string, string>, roomy: set<string>, limit: int, excluded: set<string>) returns (index: int)
      requires Valid()
      ensures index >= 0 ==> VodOpen(View(), gpus, limit) && Reservable(View(), gpus, roomy, excluded, index)
      ensures index >= 0 ==> forall i :: 0 <= i < index ==> !Reservable(View(), gpus, roomy, excluded, i)
      ensures index < 0 && VodOpen(View(), gpus, limit) ==> forall i :: !Reservable(View(), gpus, roomy, excluded, i)
    {
      hide Load, VodBooks, VodSafe;
      for i := 0 to |clients|
        invariant forall j :: 0 <= j < i ==> Gpu(gpus, clients[j].address) != ""
      {
        if Gpu(gpus, clients[i].address) == "" {
          assert clients[i] in clients;
          return -1;
        }
      }
      if |vod| >= limit {
        return -1;
      }
      for i := 0 to |clients|
        invariant forall j :: 0 <= j < i ==> !Reservable(View(), gpus, roomy, excluded, j)
      {
        var address := clients[i].address;
        var gpu := Gpu(gpus, address);
        assert clients[i] in clients;
        if address in excluded || gpu == "" || gpu !in roomy || gpu in vod || active[i] > 0 ||
           address in unready || address in draining || address in faceSwap {
          continue;
        }
        var busy := GpuBusy(gpus, gpu);
        if busy {
          continue;
        }
        return i;
      }
      return -1;
    }

    /** Whatever mapping the caller passes is used and remembered; with the one that is in force, all promises are kept. */
    method ReserveVOD(gpus: map<string, string>, roomy: set<string>, limit: int, excluded: set<string>) returns (lease: nat, index: int)
      requires Valid()
      modifies this
      ensures gpus == mapping || index < 0 ==> Valid()
      ensures index >= 0 ==> Enabled(old(View()), gpus, Reserve(roomy, excluded, limit, index)) && lease == old(nextLease)
      ensures index >= 0 ==> View() == Step(old(View()), gpus, Reserve(roomy, excluded, limit, index))
      ensures index < 0 ==> View() == old(View())
      ensures index < 0 && VodOpen(View(), gpus, limit) ==> forall i :: !Reservable(View(), gpus, roomy, excluded, i)
    {
      hide Load, VodBooks, VodSafe, PoolInv;
      lease := nextLease;
      index := ScanForVOD(gpus, roomy, limit, excluded);
      if index < 0 {
        return;
      }
      if gpus == mapping {
        ReserveKeeps(View(), mapping, roomy, excluded, limit, index);
      }
      var gpu := Gpu(gpus, clients[index].address);
      vod := vod[gpu := nextLease];
      leases := leases[nextLease := VodLease(clients[index].address, gpu, false, false)];
      vodGPUs := gpus;
      nextLease := nextLease + 1;
    }

    method GpuBusy(gpus: map<string, string>, gpu: string) returns (busy: bool)
      requires ActiveMatches()
      ensures busy <==> exists c :: c in clients && Gpu(gpus, c.address) == gpu && Load(claims, c) > 0
    {
      hide Load;
      for k := 0 to |clients|
        invariant forall j :: 0 <= j < k ==> !(Gpu(gpus, clients[j].address) == gpu && Load(claims, clients[j]) > 0)
      {
        if Gpu(gpus, clients[k].address) == gpu && active[k] > 0 {
          assert clients[k] in clients;
          return true;
        }
      }
      return false;
    }

    /** A job's own release frees its GPU only while the GPU is still registered to that very job. */
    method ReleaseVOD(lease: nat)
      requires Valid() && lease in leases
      modifies this`vod, this`leases
      ensures Valid() && View() == Step(old(View()), mapping, VodReturn(lease))
    {
      hide Load, VodBooks, VodSafe, PoolInv;
      VodReturnKeeps(View(), mapping, lease);
      var l := leases[lease];
      if l.gpu in vod && vod[l.gpu] == lease {
        vod := vod - {l.gpu};
      }
      leases := leases[lease := l.(released := true)];
    }
  }

  /** A worker just added has no claim on it: its serial number is new. */
  lemma NewcomerIdle(p: Pool, address: string)
    requires PoolInv(p)
    ensures Load(p.claims, Client(address, p.nextSerial)) == 0
  {
    hide Load;
    NoClaimsOn(p.claims, Client(address, p.nextSerial));
  }

  lemma NextClaimFresh(p: Pool)
    requires PoolInv(p)
    ensures p.nextClaim !in p.claims
  {
  }

  lemma CursorInRange(p: Pool)
    requires PoolInv(p)
    ensures 0 <= p.next < |p.clients|
  {
  }

  lemma EmptyScan(p: Pool, mode: bool)
    requires PoolInv(p)
    ensures BestSoFar(p, mode, 0, -1)
  {
    forall j | 0 <= j < |p.clients|
      ensures Turn(p, j) >= 0
    {
      TurnIsUnique(p, j, j);
    }
  }

  /** No worker has an empty address, so excluding the empty address excludes nobody. */
  lemma NoEmptyAddress(p: Pool, mode: bool)
    requires PoolInv(p)
    ensures (exists c :: c in p.clients && c.address != "" && Ready(p, c.address, mode)) <==>
            (exists c :: c in p.clients && Ready(p, c.address, mode))
  {
  }

  lemma VodLeasesListed(p: Pool, mapping: map<string, string>)
    requires Inv(p, mapping)
    ensures forall g :: g in p.vod ==> p.vod[g] in p.leases
  {
    hide PoolInv, VodSafe;
  }

  lemma VodListed(p: Pool, mapping: map<string, string>)
    requires VodBooks(p, mapping)
    ensures forall g :: g in p.vod ==> p.vod[g] in p.leases
  {
  }
}
