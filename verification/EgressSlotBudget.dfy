/** The budget as the server keeps it: counters, maps and an array updated in place under one mutex.  Every method
    is one critical section and is proved to move the ledger of EgressSlots.dfy by exactly one step, with every
    counter equal to its sum before and after. */
module EgressSlotBudgets {
  import opened Totals
  import opened EgressSlots

  function At<K>(m: map<K, int>, k: K): int { if k in m then m[k] else 0 }

  /** The counters agree with the sums over the ledger, for every tier and every group. */
  ghost predicate Tallied(used: int, byTier: map<int, int>, byGroup: map<string, int>, s: Ledger) {
    && used == Used(s)
    && (forall t :: At(byTier, t) == Usage(s, AtTier(t)))
    && (forall g :: At(byGroup, g) == Usage(s, InGroup(g)))
  }

  lemma TalliedFrame(used: int, byTier: map<int, int>, byGroup: map<string, int>, s: Ledger, s': Ledger)
    requires s'.owners == s.owners && s'.holds == s.holds
    ensures Tallied(used, byTier, byGroup, s') == Tallied(used, byTier, byGroup, s)
  {
    hide Usage;
    UsageFrame(s, s');
    UsageFrame(s', s);
  }

  /** A charge of `delta` units on the owner's terms, of which its hold had paid `held`: the counters move by that much. */
  ghost predicate CountersCharged(used: int, byTier: map<int, int>, byGroup: map<string, int>,
                                  used': int, byTier': map<int, int>, byGroup': map<string, int>,
                                  terms: Claim, delta: int, holds: map<string, Hold>, name: string, held: int) {
    && used' == used + delta - Max(0, held)
    && (forall t :: At(byTier', t) ==
          At(byTier, t) + OwnerShare(terms, delta, AtTier(t)) - HoldShare(holds, name, held, AtTier(t)))
    && (forall g :: At(byGroup', g) ==
          At(byGroup, g) + OwnerShare(terms, delta, InGroup(g)) - HoldShare(holds, name, held, InGroup(g)))
  }

  /** And so do the sums over the ledger. */
  ghost predicate UsageCharged(s: Ledger, s': Ledger, terms: Claim, delta: int, name: string, held: int) {
    && Used(s') == Used(s) + delta - Max(0, held)
    && (forall t {:trigger Usage(s', AtTier(t))} :: Usage(s', AtTier(t)) ==
          Usage(s, AtTier(t)) + OwnerShare(terms, delta, AtTier(t)) - HoldShare(s.holds, name, held, AtTier(t)))
    && (forall g {:trigger Usage(s', InGroup(g))} :: Usage(s', InGroup(g)) ==
          Usage(s, InGroup(g)) + OwnerShare(terms, delta, InGroup(g)) - HoldShare(s.holds, name, held, InGroup(g)))
  }

  lemma ChargeTallies(used: int, byTier: map<int, int>, byGroup: map<string, int>,
                      used': int, byTier': map<int, int>, byGroup': map<string, int>,
                      s: Ledger, s': Ledger, terms: Claim, delta: int, name: string, held: int)
    requires Tallied(used, byTier, byGroup, s) && UsageCharged(s, s', terms, delta, name, held)
    requires CountersCharged(used, byTier, byGroup, used', byTier', byGroup', terms, delta, s.holds, name, held)
    ensures Tallied(used', byTier', byGroup', s')
  {
    hide Usage, OwnerShare, HoldShare;
  }

  /** Units added at one tier and group; a group counter never drops below zero. */
  ghost predicate CountersAdded(used: int, byTier: map<int, int>, byGroup: map<string, int>,
                                used': int, byTier': map<int, int>, byGroup': map<string, int>,
                                tier: int, group: string, units: int) {
    && used' == used + units
    && (forall t :: At(byTier', t) == At(byTier, t) + if t == tier then units else 0)
    && (forall g :: At(byGroup', g) == if g == group then Max(0, At(byGroup, g) + units) else At(byGroup, g))
  }

  ghost predicate UsageAdded(s: Ledger, s': Ledger, tier: int, group: string, units: int) {
    && Used(s') == Used(s) + units && Usage(s', InGroup(group)) >= 0
    && (forall t {:trigger Usage(s', AtTier(t))} :: Usage(s', AtTier(t)) == Usage(s, AtTier(t)) + if t == tier then units else 0)
    && (forall g {:trigger Usage(s', InGroup(g))} :: Usage(s', InGroup(g)) == Usage(s, InGroup(g)) + if g == group then units else 0)
  }

  lemma AddTallies(used: int, byTier: map<int, int>, byGroup: map<string, int>,
                   used': int, byTier': map<int, int>, byGroup': map<string, int>,
                   s: Ledger, s': Ledger, tier: int, group: string, units: int)
    requires Tallied(used, byTier, byGroup, s) && UsageAdded(s, s', tier, group, units)
    requires CountersAdded(used, byTier, byGroup, used', byTier', byGroup', tier, group, units)
    ensures Tallied(used', byTier', byGroup', s')
  {
    hide Usage;
  }

  lemma GrantMatches(cfg: Config, s: Ledger, claim: Claim)
    requires Books(cfg, s)
    ensures var o := Charged(s.owners, claim);
            UsageCharged(s, Granted(cfg, s, claim), o.claim, NextUnits(o), claim.owner, HoldCover(s.holds, claim.owner, NextUnits(o)))
  {
    hide Total, Usage;
    forall m: Measure {
      GrantUsage(cfg, s, claim, m);
    }
  }

  /** A hold's group carries at least the hold, so consuming it never clamps the group counter. */
  lemma GroupCarriesHold(cfg: Config, s: Ledger, owner: string)
    requires Books(cfg, s) && owner in s.holds
    ensures Usage(s, InGroup(s.holds[owner].group)) >= s.holds[owner].units
  {
    var m := InGroup(s.holds[owner].group);
    TotalAtLeast(s.holds, owner, HoldWeight(m));
    TotalNonNegative(s.owners, OwnerWeight(m));
  }

  lemma ReleaseMatches(cfg: Config, s: Ledger, lease: nat)
    requires Books(cfg, s) && lease in s.leases
    ensures var o := s.owners[s.leases[lease].key];
            UsageAdded(s, Released(s, lease), o.claim.tier, o.claim.group, EgressUnits(o.claim.highRes, o.count - 1) - o.held)
  {
    hide Total, Usage;
    ReleaseKeepsBooks(cfg, s, lease);
    UsageNonNegative(cfg, Released(s, lease), InGroup(s.owners[s.leases[lease].key].claim.group));
    forall m: Measure {
      ReleaseUsage(cfg, s, lease, m);
    }
  }

  lemma ChangeMatches(cfg: Config, s: Ledger, name: string, highRes: bool)
    requires Books(cfg, s)
    requires name != "" && Named(name) in s.owners && ChangeVerdict(cfg, s, name, highRes) == Admit
    ensures var o := s.owners[Named(name)];
            var delta := ResolutionDelta(o, highRes);
            UsageCharged(s, Changed(cfg, s, name, highRes), o.claim, delta, name, HoldCover(s.holds, name, delta))
  {
    hide Total, Usage, Room;
    forall m: Measure {
      ChangeUsage(cfg, s, name, highRes, m);
    }
  }

  lemma HoldMatches(cfg: Config, s: Ledger, claim: Claim, units: int)
    requires Books(cfg, s) && units > 0 && claim.owner != "" && HoldVerdict(cfg, s, claim, units) == Admit
    ensures Books(cfg, HoldPlaced(cfg, s, claim, units))
    ensures UsageAdded(s, HoldPlaced(cfg, s, claim, units), claim.tier, claim.group, units)
  {
    hide Total, Usage;
    StepKeepsBooks(cfg, s, PlaceHold(claim, units));
    UsageNonNegative(cfg, HoldPlaced(cfg, s, claim, units), InGroup(claim.group));
    forall m: Measure {
      HoldUsage(cfg, s, claim, units, m);
    }
  }

  lemma DropMatches(cfg: Config, s: Ledger, name: string)
    requires Books(cfg, s) && name in s.holds
    ensures Books(cfg, HoldDropped(s, name))
    ensures UsageAdded(s, HoldDropped(s, name), s.holds[name].tier, s.holds[name].group, -s.holds[name].units)
  {
    hide Total, Usage;
    StepKeepsBooks(cfg, s, DropHold(name));
    UsageNonNegative(cfg, HoldDropped(s, name), InGroup(s.holds[name].group));
    forall m: Measure {
      DropUsage(s, name, m);
    }
  }

  lemma {:induction false} WithoutAt(waiters: seq<Waiter>, index: nat, channel: nat)
    requires index < |waiters| && waiters[index].channel == channel
    requires forall i :: 0 <= i < index ==> waiters[i].channel != channel
    ensures Without(waiters, channel) == waiters[..index] + waiters[index + 1..]
    decreases index
  {
    if index > 0 {
      WithoutAt(waiters[1..], index - 1, channel);
      assert waiters[..index] == [waiters[0]] + waiters[1..][..index - 1];
    }
  }

  class EgressSlotBudget {
    const capacity: int
    const devices: int
    var tierReserves: seq<int>
    var used: int
    var usedByTier: map<int, int>
    var usedByGroup: map<string, int>
    const perCard: array<int>
    var owners: map<Key, Owner>
    var holds: map<string, Hold>
    var anonymous: nat
    var waiters: seq<Waiter>
    /** Wake-up channels that hold an unread signal. */
    var signalled: set<nat>
    var nextChannel: nat
    ghost var leases: map<nat, Lease>
    ghost var nextLease: nat

    ghost function Cfg(): Config
      reads this`tierReserves
    {
      Config(capacity, devices, tierReserves)
    }

    ghost function View(): Ledger
      reads this
    {
      Ledger(owners, holds, leases, waiters, signalled, anonymous, nextLease, nextChannel)
    }

    ghost predicate CountersMatch()
      reads this
    {
      Tallied(used, usedByTier, usedByGroup, View())
    }

    ghost predicate CardsMatch()
      reads this, perCard
    {
      && perCard.Length == Max(0, devices)
      && (forall d :: 0 <= d < perCard.Length ==> perCard[d] == CardLoad(leases, d))
    }

    ghost predicate Valid()
      reads this, perCard
    {
      CountersMatch() && CardsMatch() && Books(Cfg(), View())
    }

    constructor (capacity: int, devices: int)
      requires capacity > 0 || devices > 0
      ensures Valid() && View() == EmptyLedger() && Cfg() == Config(capacity, devices, []) && fresh(perCard)
    {
      hide Total, CardLoad, Usage, Books;
      this.capacity, this.devices := capacity, devices;
      tierReserves := [];
      used, usedByTier, usedByGroup := 0, map[], map[];
      owners, holds, anonymous := map[], map[], 0;
      waiters, signalled, nextChannel := [], {}, 0;
      leases, nextLease := map[], 0;
      perCard := new int[if devices > 0 then devices else 0](_ => 0);
      new;
      EmptyBooks(Cfg());
    }

    method SetTierReserves(reserves: seq<int>)
      requires Valid()
      modifies this`tierReserves
      ensures Valid() && tierReserves == reserves
    {
      hide Total, Usage;
      tierReserves := reserves;
      UsageFrame(old(View()), View());
    }

    /** The scan over the reserves above a tier adds up exactly their vacancy. */
    method HigherTierVacancyLocked(tier: int) returns (vacancy: int)
      requires Valid()
      ensures vacancy == HigherTierVacancy(tierReserves, View(), tier)
    {
      hide Total, Usage, Books;
      vacancy := 0;
      var higher := tier + 1;
      while higher >= 0 && higher < |tierReserves|
        invariant vacancy + VacancyFrom(tierReserves, View(), higher) == HigherTierVacancy(tierReserves, View(), tier)
        decreases |tierReserves| - higher
      {
        var unused := tierReserves[higher] - At(usedByTier, higher);
        if unused > 0 {
          vacancy := vacancy + unused;
        }
        higher := higher + 1;
      }
    }

    /** The scan over the cards returns the first least loaded card with a session free, or -1. */
    method LeastLoadedLocked() returns (best: int)
      requires CardsMatch()
      ensures best == BestCard(leases, perCard.Length)
    {
      hide Total;
      best := -1;
      for index := 0 to perCard.Length
        invariant best == BestCard(leases, index)
      {
        var count := perCard[index];
        if count < SESSIONS_PER_CARD && (best < 0 || count < perCard[best]) {
          best := index;
        }
      }
    }

    method AppendWaiterLocked(claim: Claim) returns (channel: nat)
      modifies this`waiters, this`nextChannel
      ensures channel == old(nextChannel) && nextChannel == channel + 1
      ensures waiters == old(waiters) + [Waiter(channel, claim)]
    {
      channel := nextChannel;
      waiters := waiters + [Waiter(channel, claim)];
      nextChannel := nextChannel + 1;
    }

    method WakeOneLocked()
      modifies this`waiters, this`signalled
      ensures View() == WakeOne(old(View()))
    {
      if |waiters| == 0 {
        return;
      }
      var waiter := waiters[0];
      waiters := waiters[1..];
      signalled := signalled + {waiter.channel};
    }

    method WakeAllLocked()
      modifies this`waiters, this`signalled
      ensures View() == WakeAll(old(View()))
    {
      while |waiters| > 0
        invariant signalled + Channels(waiters) == old(signalled + Channels(waiters))
        decreases |waiters|
      {
        ghost var before := waiters;
        WakeOneLocked();
        assert Channels(before) == {before[0].channel} + Channels(before[1..]);
      }
    }

    method AddLocked(tier: int, group: string, units: int)
      modifies this`used, this`usedByTier, this`usedByGroup
      ensures CountersAdded(old(used), old(usedByTier), old(usedByGroup), used, usedByTier, usedByGroup, tier, group, units)
    {
      used := used + units;
      usedByTier := usedByTier[tier := At(usedByTier, tier) + units];
      usedByGroup := usedByGroup[group := At(usedByGroup, group) + units];
      if At(usedByGroup, group) <= 0 {
        usedByGroup := usedByGroup - {group};
      }
    }

    method ConsumeHoldLocked(owner: string, units: int)
      requires HoldsAccounted(holds) && units <= HeldFor(holds, owner)
      requires units > 0 ==> At(usedByGroup, holds[owner].group) >= units
      modifies this`used, this`usedByTier, this`usedByGroup, this`holds
      ensures holds == Consume(old(holds), owner, units)
      ensures used == old(used) - Max(0, units)
      ensures forall t :: At(usedByTier, t) == old(At(usedByTier, t)) - HoldShare(old(holds), owner, units, AtTier(t))
      ensures forall g :: At(usedByGroup, g) == old(At(usedByGroup, g)) - HoldShare(old(holds), owner, units, InGroup(g))
    {
      if units <= 0 {
        return;
      }
      var hold := holds[owner];
      hold := hold.(units := hold.units - units);
      AddLocked(hold.tier, hold.group, -units);
      if hold.units <= 0 {
        holds := holds - {owner};
        return;
      }
      holds := holds[owner := hold];
    }

    /** One attempt to take a slot: the ledger's verdict, and the ledger's next state either way. */
    method TryAcquire(claim: Claim) returns (lease: EgressLease?, channel: nat, verdict: Verdict)
      requires Valid()
      modifies this, perCard
      ensures Valid() && Cfg() == old(Cfg())
      ensures View() == Step(Cfg(), old(View()), Acquire(claim))
      ensures verdict == AcquireVerdict(Cfg(), old(View()), claim)
      ensures lease != null <==> verdict == Admit
      ensures lease != null ==> fresh(lease) && lease.budget == this && lease.id == old(nextLease) && lease.Tracked()
      ensures lease == null ==> channel == old(nextChannel) && Waiter(channel, claim) in waiters
    {
      hide Total, Usage, VacancyFrom, BestCard, Books;
      lease, channel, verdict := null, 0, Admit;
      var owner := Charged(owners, claim);
      var delta := EgressUnits(owner.claim.highRes, owner.count + 1) - owner.held;
      var held := HoldCover(holds, claim.owner, delta);
      if capacity > 0 && used - held + delta > capacity {
        verdict := SlotsExhausted;
      } else {
        var vacancy := HigherTierVacancyLocked(owner.claim.tier);
        if capacity > 0 && used - held + delta > capacity - vacancy {
          verdict := TierUnitsExhausted;
        }
      }
      var device := -1;
      if verdict == Admit && devices > 0 {
        device := LeastLoadedLocked();
        if device < 0 {
          verdict := SlotsExhausted;
        }
      }
      assert verdict == AcquireVerdict(Cfg(), View(), claim);
      StepKeepsBooks(Cfg(), View(), Acquire(claim));
      if verdict != Admit {
        channel := AppendWaiterLocked(claim);
        UsageFrame(old(View()), View());
        return;
      }
      var key := GrantLocked(claim, owner, delta, held, device);
      lease := new EgressLease(this, device, key, nextLease - 1);
    }

    /** An admitted claim consumes its hold and charges every counter with the rest. */
    method GrantLocked(claim: Claim, owner: Owner, delta: int, held: int, device: int) returns (key: Key)
      requires Valid() && AcquireVerdict(Cfg(), View(), claim) == Admit
      requires owner == Charged(owners, claim) && delta == NextUnits(owner) && held == HoldCover(holds, claim.owner, delta)
      requires device == Device(Cfg(), View())
      modifies this, perCard
      ensures CountersMatch() && CardsMatch() && Cfg() == old(Cfg())
      ensures key == LeaseKey(old(View()), claim) && View() == Granted(Cfg(), old(View()), claim)
    {
      hide Usage, Room, Books, Tallied, UsageCharged, CountersCharged, CardLoad, BestCard, AcquireVerdict;
      ghost var s := View();
      PaidByHold(claim.owner, delta);
      GrantMatches(Cfg(), s, claim);
      NextLeaseFree(Cfg(), s, claim);
      ChargeLocked(owner.claim, delta, claim.owner, held);
      key := SeatLocked(claim, Owner(owner.claim, owner.count + 1, owner.held + delta), device);
      assert View() == Granted(Cfg(), s, claim);
      ChargeTallies(old(used), old(usedByTier), old(usedByGroup), used, usedByTier, usedByGroup, s, View(),
                    owner.claim, delta, claim.owner, held);
    }

    /** What a hold pays of a charge is there to be taken, from its group's counter too. */
    lemma PaidByHold(name: string, delta: int)
      requires Valid()
      ensures HoldsAccounted(holds) && HoldCover(holds, name, delta) <= HeldFor(holds, name)
      ensures HoldCover(holds, name, delta) > 0 ==>
                name in holds && At(usedByGroup, holds[name].group) >= HoldCover(holds, name, delta)
    {
      hide Usage;
      if name in holds {
        GroupCarriesHold(Cfg(), View(), name);
      }
    }

    /** The new owner record and the new lease, under the claim's name or a fresh anonymous one. */
    method SeatLocked(claim: Claim, owner: Owner, device: int) returns (key: Key)
      requires CardsMatch() && nextLease !in leases
      requires if devices > 0 then 0 <= device < devices else device == -1
      modifies this`owners, this`anonymous, this`leases, this`nextLease, perCard
      ensures CardsMatch() && key == LeaseKey(old(View()), claim)
      ensures View() == old(View()).(owners := old(owners)[key := owner], leases := old(leases)[old(nextLease) := Lease(device, key)],
                                     anonymous := if claim.owner == "" then old(anonymous) + 1 else old(anonymous),
                                     nextLease := old(nextLease) + 1)
    {
      hide CardLoad;
      key := Named(claim.owner);
      if claim.owner == "" {
        anonymous := anonymous + 1;
        key := Anonymous(anonymous);
      }
      TakeCard(device, key);
      owners := owners[key := owner];
    }

    method TakeCard(device: int, key: Key)
      requires CardsMatch() && nextLease !in leases
      requires if devices > 0 then 0 <= device < devices else device == -1
      modifies this`leases, this`nextLease, perCard
      ensures CardsMatch() && nextLease == old(nextLease) + 1
      ensures leases == old(leases)[old(nextLease) := Lease(device, key)]
    {
      hide Total;
      if devices > 0 {
        perCard[device] := perCard[device] + 1;
      }
      leases := leases[nextLease := Lease(device, key)];
      LeaseAdded(old(leases), nextLease, Lease(device, key));
      nextLease := nextLease + 1;
    }

    /** The hold's units leave the counters of the hold's tier and group; the whole charge enters the owner's. */
    method ChargeLocked(terms: Claim, delta: int, name: string, held: int)
      requires HoldsAccounted(holds) && held <= HeldFor(holds, name)
      requires held > 0 ==> At(usedByGroup, holds[name].group) >= held
      modifies this`used, this`usedByTier, this`usedByGroup, this`holds
      ensures holds == Consume(old(holds), name, held)
      ensures CountersCharged(old(used), old(usedByTier), old(usedByGroup), used, usedByTier, usedByGroup,
                              terms, delta, old(holds), name, held)
    {
      ConsumeHoldLocked(name, held);
      used := used + delta;
      usedByTier := usedByTier[terms.tier := At(usedByTier, terms.tier) + delta];
      usedByGroup := usedByGroup[terms.group := At(usedByGroup, terms.group) + delta];
    }

    /** Returning a lease: the owner's units are recomputed from the streams left, and everybody is woken. */
    method ReleaseLocked(device: int, key: Key, ghost id: nat)
      requires Valid() && id in leases && leases[id] == Lease(device, key)
      modifies this, perCard
      ensures Valid() && Cfg() == old(Cfg())
      ensures View() == Step(Cfg(), old(View()), Release(id))
    {
      hide Usage, Books, Tallied, UsageAdded, CountersAdded, CardLoad;
      ghost var s := View();
      ReleaseKeepsBooks(Cfg(), s, id);
      ReleaseNeverClamps(Cfg(), s, id);
      ReleaseMatches(Cfg(), s, id);
      if key in owners {
        var owner := owners[key];
        var freed := owner.held - EgressUnits(owner.claim.highRes, owner.count - 1);
        AddLocked(owner.claim.tier, owner.claim.group, -freed);
        AddTallies(old(used), old(usedByTier), old(usedByGroup), used, usedByTier, usedByGroup, s, Released(s, id),
                   owner.claim.tier, owner.claim.group, -freed);
        owners := if owner.count - 1 <= 0 then owners - {key}
                  else owners[key := Owner(owner.claim, owner.count - 1, owner.held - freed)];
      }
      ReturnCard(device, id);
      WakeAllLocked();
      assert View() == Released(s, id);
    }

    method ReturnCard(device: int, ghost id: nat)
      requires CardsMatch() && id in leases && leases[id].device == device
      requires devices > 0 ==> 0 <= device < devices
      modifies this`leases, perCard
      ensures CardsMatch() && leases == old(leases) - {id}
    {
      hide Total;
      TotalAtLeast(leases, id, OnCard(device));
      LeaseDropped(leases, id);
      if device >= 0 && device < perCard.Length && perCard[device] > 0 {
        perCard[device] := perCard[device] - 1;
      }
      leases := leases - {id};
    }

    method AbandonWaiter(channel: nat)
      requires Valid()
      modifies this`waiters, this`signalled
      ensures Valid() && View() == Step(Cfg(), old(View()), Abandon(channel))
    {
      hide Usage, Books, Tallied, CardLoad, Without;
      StepKeepsBooks(Cfg(), View(), Abandon(channel));
      for index := 0 to |waiters|
        invariant waiters == old(waiters) && signalled == old(signalled)
        invariant forall i :: 0 <= i < index ==> waiters[i].channel != channel
      {
        if waiters[index].channel == channel {
          assert waiters[index] in waiters;
          WithoutAt(waiters, index, channel);
          waiters := waiters[..index] + waiters[index + 1..];
          TalliedFrame(used, usedByTier, usedByGroup, old(View()), View());
          return;
        }
      }
      if channel in signalled {
        signalled := signalled - {channel};
        WakeOneLocked();
      }
      TalliedFrame(used, usedByTier, usedByGroup, old(View()), View());
    }

    method ChangeResolution(key: string, highRes: bool) returns (verdict: Verdict)
      requires Valid()
      modifies this
      ensures Valid() && Cfg() == old(Cfg())
      ensures View() == Step(Cfg(), old(View()), EgressSlots.ChangeResolution(key, highRes))
      ensures verdict == ChangeVerdict(Cfg(), old(View()), key, highRes)
    {
      hide Usage, Books, VacancyFrom, UsageCharged, CountersCharged;
      ghost var s := View();
      verdict := Admit;
      if key == "" || Named(key) !in owners {
        return;
      }
      var owner := owners[Named(key)];
      var delta := EgressUnits(highRes, owner.count) - owner.held;
      var held := HoldCover(holds, key, delta);
      if delta > 0 && capacity > 0 {
        if used - held + delta > capacity {
          return SlotsExhausted;
        }
        var vacancy := HigherTierVacancyLocked(owner.claim.tier);
        if used - held + delta > capacity - vacancy {
          return TierUnitsExhausted;
        }
      }
      assert ChangeVerdict(Cfg(), s, key, highRes) == Admit;
      RechargeLocked(key, highRes, owner, delta, held);
    }

    /** An admitted change of resolution: the owner's units are recomputed, and others are woken when units came free. */
    method RechargeLocked(key: string, highRes: bool, owner: Owner, delta: int, held: int)
      requires Valid() && key != "" && Named(key) in owners && owner == owners[Named(key)]
      requires ChangeVerdict(Cfg(), View(), key, highRes) == Admit
      requires delta == ResolutionDelta(owner, highRes) && held == HoldCover(holds, key, delta)
      modifies this
      ensures Valid() && Cfg() == old(Cfg()) && View() == Changed(Cfg(), old(View()), key, highRes)
    {
      hide Usage, Books, Room, UsageCharged, CountersCharged, CardLoad;
      ghost var s := View();
      PaidByHold(key, delta);
      ChangeKeepsBooks(Cfg(), s, key, highRes);
      ChangeMatches(Cfg(), s, key, highRes);
      ChargeLocked(owner.claim, delta, key, held);
      ChargeTallies(old(used), old(usedByTier), old(usedByGroup), used, usedByTier, usedByGroup, s,
                    Changed(Cfg(), s, key, highRes), owner.claim, delta, key, held);
      owners := owners[Named(key) := Owner(owner.claim.(highRes := highRes), owner.count, owner.held + delta)];
      if delta < 0 {
        WakeAllLocked();
      }
      assert View() == Changed(Cfg(), s, key, highRes);
    }

    /** The forecast reads only. */
    method CheckClaim(claim: Claim, count: int) returns (verdict: Verdict)
      requires Valid()
      ensures verdict == CheckVerdict(Cfg(), View(), claim, count)
    {
      hide Total, Usage, VacancyFrom, Books;
      if capacity <= 0 {
        return Admit;
      }
      var held := 0;
      if claim.owner != "" && Named(claim.owner) in owners {
        held := owners[Named(claim.owner)].held;
      }
      if claim.owner != "" {
        held := held + HeldFor(holds, claim.owner);
      }
      var total := used - held + EgressUnits(claim.highRes, count);
      if total > capacity {
        return SlotsExhausted;
      }
      var vacancy := HigherTierVacancyLocked(claim.tier);
      if total > capacity - vacancy {
        return TierUnitsExhausted;
      }
      return Admit;
    }

    method PlaceHold(claim: Claim, units: int) returns (verdict: Verdict)
      requires Valid()
      modifies this
      ensures Valid() && Cfg() == old(Cfg())
      ensures View() == Step(Cfg(), old(View()), EgressSlots.PlaceHold(claim, units))
      ensures verdict == HoldVerdict(Cfg(), old(View()), claim, units)
    {
      hide Usage, Books, VacancyFrom, UsageAdded, CountersAdded;
      ghost var s := View();
      verdict := Admit;
      if units <= 0 || claim.owner == "" {
        return;
      }
      if claim.owner in holds {
        return AlreadyHeld;
      }
      if capacity > 0 {
        if used + units > capacity {
          return SlotsExhausted;
        }
        var vacancy := HigherTierVacancyLocked(claim.tier);
        if used + units > capacity - vacancy {
          return TierUnitsExhausted;
        }
      }
      assert HoldVerdict(Cfg(), s, claim, units) == Admit;
      HoldMatches(Cfg(), s, claim, units);
      holds := holds[claim.owner := Hold(units, claim.tier, claim.group)];
      AddLocked(claim.tier, claim.group, units);
      assert View() == HoldPlaced(Cfg(), s, claim, units);
      AddTallies(old(used), old(usedByTier), old(usedByGroup), used, usedByTier, usedByGroup, s, View(),
                 claim.tier, claim.group, units);
    }

    method ReleaseHold(owner: string)
      requires Valid()
      modifies this
      ensures Valid() && Cfg() == old(Cfg())
      ensures View() == Step(Cfg(), old(View()), DropHold(owner))
    {
      hide Usage, Books, UsageAdded, CountersAdded;
      ghost var s := View();
      if owner !in holds {
        return;
      }
      var hold := holds[owner];
      DropMatches(Cfg(), s, owner);
      holds := holds - {owner};
      AddLocked(hold.tier, hold.group, -hold.units);
      AddTallies(old(used), old(usedByTier), old(usedByGroup), used, usedByTier, usedByGroup, s, HoldDropped(s, owner),
                 hold.tier, hold.group, -hold.units);
      WakeAllLocked();
      assert View() == HoldDropped(s, owner);
    }
  }

  lemma NextLeaseFree(cfg: Config, s: Ledger, claim: Claim)
    requires Books(cfg, s) && AcquireVerdict(cfg, s, claim) == Admit
    ensures s.nextLease !in s.leases
    ensures if cfg.devices > 0 then 0 <= Device(cfg, s) < cfg.devices else Device(cfg, s) == -1
  {
    hide Total, Usage, Room, OwnersAccounted, CardsAccounted, WaitersAccounted;
  }

  class EgressLease {
    const budget: EgressSlotBudget
    const device: int
    const key: Key
    ghost const id: nat
    var released: bool

    ghost predicate Tracked()
      reads this, budget
    {
      !released ==> id in budget.leases && budget.leases[id] == Lease(device, key)
    }

    constructor (budget: EgressSlotBudget, device: int, key: Key, ghost id: nat)
      ensures this.budget == budget && this.device == device && this.key == key && this.id == id && !released
    {
      this.budget, this.device, this.key, this.id, released := budget, device, key, id, false;
    }

    /** Returning a lease twice is harmless: the second call changes nothing at all. */
    method Release()
      requires budget.Valid() && Tracked()
      modifies this, budget, budget.perCard
      ensures budget.Valid() && released
      ensures budget.View() == if old(released) then old(budget.View()) else Step(budget.Cfg(), old(budget.View()), EgressSlots.Release(id))
      ensures old(released) ==> budget.used == old(budget.used) && budget.perCard[..] == old(budget.perCard[..])
    {
      if released {
        return;
      }
      released := true;
      budget.ReleaseLocked(device, key, id);
    }
  }
}
