/** What the egress budget charges, in the words of its price list: a session pays one unit a stream, and one more while it streams
    in FHD.  Nothing here is said in terms of the function that computes the units. */
module EgressCosts {
  import opened Totals
  import opened EgressSlots
  import opened EgressGuarantees

  /** A session in an accounted ledger pays one unit for each of its live leases, and one more for FHD. */
  lemma OwnerPays(cfg: Config, s: Ledger, k: Key)
    requires Books(cfg, s) && k in s.owners
    ensures s.owners[k].held == s.owners[k].count + (if s.owners[k].claim.highRes then 1 else 0)
    ensures s.owners[k].count == Total(s.leases, OfKey(k)) >= 1
  {
  }

  // ---------- Conservation ----------

  function InFHD(s: Ledger): set<Key> { set k | k in s.owners && s.owners[k].claim.highRes }

  ghost function Streams(): Owner -> int { (o: Owner) => o.count }
  ghost function Surcharge(): Owner -> int { (o: Owner) => if o.claim.highRes then 1 else 0 }
  ghost function Unspent(): Hold -> int { (h: Hold) => h.units }

  /** Every owner counts its leases, and every lease has an owner. */
  ghost predicate Tallied(owners: map<Key, Owner>, leases: map<nat, Lease>) {
    && (forall l :: l in leases ==> leases[l].key in owners)
    && (forall k :: k in owners ==> owners[k].count == Total(leases, OfKey(k)))
  }

  function OneFewer(owners: map<Key, Owner>, k: Key): map<Key, Owner> {
    if k in owners then owners[k := owners[k].(count := owners[k].count - 1)] else owners
  }

  /** Counting streams owner by owner counts each live lease once. */
  lemma {:induction false} LeasesCounted(owners: map<Key, Owner>, leases: map<nat, Lease>)
    requires Tallied(owners, leases)
    ensures Total(owners, Streams()) == |leases|
    decreases |leases|
  {
    if leases == map[] {
      NoStreams(owners);
    } else {
      hide Tallied, Total, OneFewer;
      var l :| l in leases;
      OneLess(owners, leases, l);
      LeasesCounted(OneFewer(owners, leases[l].key), leases - {l});
    }
  }

  lemma NoStreams(owners: map<Key, Owner>)
    requires Tallied(owners, map[])
    ensures Total(owners, Streams()) == 0
  {
    TotalOfNothing(owners, Streams());
  }

  lemma OneLess(owners: map<Key, Owner>, leases: map<nat, Lease>, l: nat)
    requires Tallied(owners, leases) && l in leases
    ensures Tallied(OneFewer(owners, leases[l].key), leases - {l})
    ensures Total(OneFewer(owners, leases[l].key), Streams()) == Total(owners, Streams()) - 1
    ensures |leases - {l}| == |leases| - 1
  {
    hide Total;
    assert leases == (leases - {l})[l := leases[l]];
    var key := leases[l].key;
    var fewer := OneFewer(owners, key);
    TotalUpdate(owners, key, fewer[key], Streams());
    forall k | k in fewer
      ensures fewer[k].count == Total(leases - {l}, OfKey(k))
    {
      TotalRemove(leases, l, OfKey(k));
    }
  }

  /** Units in use are live streams, plus sessions in FHD, plus what holds have not spent. */
  lemma UnitsInUse(cfg: Config, s: Ledger)
    requires Books(cfg, s)
    ensures Used(s) == |s.leases| + |InFHD(s)| + Total(s.holds, Unspent())
  {
    hide Total, CardsAccounted, WaitersAccounted;
    assert Tallied(s.owners, s.leases);
    LeasesCounted(s.owners, s.leases);
    TotalSum(s.owners, OwnerWeight(Everything), Streams(), Surcharge());
    TotalCounts(s.owners, Surcharge(), InFHD(s));
    SameHolds(s.holds);
  }

  lemma SameHolds(holds: map<string, Hold>)
    ensures Total(holds, HoldWeight(Everything)) == Total(holds, Unspent())
  {
    SameWeights(holds, HoldWeight(Everything), Unspent());
  }

  /** Main theorem: so it is after every run of the budget, and each session pays its own price. */
  lemma PriceList(cfg: Config, run: seq<Event>, k: Key)
    ensures var s := Run(cfg, EmptyLedger(), run);
            && Used(s) == |s.leases| + |InFHD(s)| + Total(s.holds, Unspent())
            && (k in s.owners ==> s.owners[k].held == s.owners[k].count + (if s.owners[k].claim.highRes then 1 else 0))
  {
    hide Books;
    EmptyBooks(cfg);
    RunKeepsBooks(cfg, EmptyLedger(), run);
    UnitsInUse(cfg, Run(cfg, EmptyLedger(), run));
    if k in Run(cfg, EmptyLedger(), run).owners {
      OwnerPays(cfg, Run(cfg, EmptyLedger(), run), k);
    }
  }

  lemma {:induction false} RunKeepsBooks(cfg: Config, s: Ledger, run: seq<Event>)
    requires Books(cfg, s)
    ensures Books(cfg, Run(cfg, s, run))
    decreases |run|
  {
    hide Books, Step;
    if run != [] {
      StepKeepsBooks(cfg, s, run[0]);
      RunKeepsBooks(cfg, Step(cfg, s, run[0]), run[1..]);
    }
  }

  /** What a tier, a group or all of them use: what the sessions and holds of that tier, that group or all of them pay. */
  lemma MeasuresMean(s: Ledger, t: int, g: string)
    ensures Usage(s, AtTier(t)) ==
            Total(s.owners, (o: Owner) => if o.claim.tier == t then o.held else 0) + Total(s.holds, (h: Hold) => if h.tier == t then h.units else 0)
    ensures Usage(s, InGroup(g)) ==
            Total(s.owners, (o: Owner) => if o.claim.group == g then o.held else 0) + Total(s.holds, (h: Hold) => if h.group == g then h.units else 0)
  {
    SameWeights(s.owners, OwnerWeight(AtTier(t)), (o: Owner) => if o.claim.tier == t then o.held else 0);
    SameWeights(s.holds, HoldWeight(AtTier(t)), (h: Hold) => if h.tier == t then h.units else 0);
    SameWeights(s.owners, OwnerWeight(InGroup(g)), (o: Owner) => if o.claim.group == g then o.held else 0);
    SameWeights(s.holds, HoldWeight(InGroup(g)), (h: Hold) => if h.group == g then h.units else 0);
  }

  lemma SameWeights<K, V>(m: map<K, V>, w: V -> int, x: V -> int)
    requires forall k :: k in m ==> w(m[k]) == x(m[k])
    ensures Total(m, w) == Total(m, x)
  {
    TotalMonotone(m, w, x);
    TotalMonotone(m, x, w);
  }

  // ---------- One more stream ----------

  /** The first stream of a session that is not streaming yet. */
  predicate IsFirst(s: Ledger, claim: Claim) { claim.owner == "" || Named(claim.owner) !in s.owners }

  /** One unit, or two for a first stream in FHD. */
  function Price(s: Ledger, claim: Claim): int { if IsFirst(s, claim) && claim.highRes then 2 else 1 }

  /** What is left to pay after the session's own hold. */
  function Owing(s: Ledger, claim: Claim): int { Max(0, Price(s, claim) - HeldFor(s.holds, claim.owner)) }

  /** A session's terms are those of its first stream. */
  function TermsOf(s: Ledger, claim: Claim): Claim {
    if IsFirst(s, claim) then claim else s.owners[Named(claim.owner)].claim
  }

  lemma NextPrice(cfg: Config, s: Ledger, claim: Claim)
    requires Books(cfg, s)
    ensures var o := Charged(s.owners, claim);
            && NextUnits(o) == Price(s, claim) && o.claim == TermsOf(s, claim)
            && NextUnits(o) - HoldCover(s.holds, claim.owner, NextUnits(o)) == Owing(s, claim)
  {
    hide Total, CardsAccounted, WaitersAccounted;
  }

  ghost predicate TotalFits(cfg: Config, s: Ledger, units: int) { cfg.capacity > 0 ==> Used(s) + units <= cfg.capacity }

  ghost predicate TierFits(cfg: Config, s: Ledger, tier: int, units: int) {
    cfg.capacity > 0 ==> Used(s) + units + HigherTierVacancy(cfg.reserves, s, tier) <= cfg.capacity
  }

  ghost predicate SomeCardFree(cfg: Config, s: Ledger) {
    cfg.devices <= 0 || exists d :: 0 <= d < cfg.devices && CardLoad(s.leases, d) < 12
  }

  /** Why a claim is turned away, and when it is not. */
  lemma AcquireAnswers(cfg: Config, s: Ledger, claim: Claim)
    requires Books(cfg, s)
    ensures var tier, units := TermsOf(s, claim).tier, Owing(s, claim);
            var verdict := AcquireVerdict(cfg, s, claim);
            && (verdict == Admit <==> TotalFits(cfg, s, units) && TierFits(cfg, s, tier, units) && SomeCardFree(cfg, s))
            && (verdict == TierUnitsExhausted <==> TotalFits(cfg, s, units) && !TierFits(cfg, s, tier, units))
            && verdict != AlreadyHeld
  {
    NextPrice(cfg, s, claim);
    hide Usage, Books, Charged, NextUnits, HoldCover, Price, TermsOf, VacancyFrom, Owing, CardLoad;
  }

  /** An admitted claim: what it costs, where it runs and what is written down. */
  lemma GrantCosts(cfg: Config, s: Ledger, claim: Claim)
    requires Books(cfg, s) && AcquireVerdict(cfg, s, claim) == Admit
    ensures var s' := Step(cfg, s, Acquire(claim));
            && Used(s') == Used(s) + Owing(s, claim)
            && HeldFor(s'.holds, claim.owner) == Max(0, HeldFor(s.holds, claim.owner) - Price(s, claim))
            && (forall n :: n != claim.owner ==> HeldFor(s'.holds, n) == HeldFor(s.holds, n))
  {
    NextPrice(cfg, s, claim);
    GrantUsage(cfg, s, claim, Everything);
    var cover := HoldCover(s.holds, claim.owner, NextUnits(Charged(s.owners, claim)));
    ConsumeUsage(s, claim.owner, cover, Everything);
    hide Usage, Total, CardsAccounted, WaitersAccounted, LeasesOwned, OwnersAccounted, AcquireVerdict;
    assert Step(cfg, s, Acquire(claim)) == Granted(cfg, s, claim);
  }

  lemma GrantRecords(cfg: Config, s: Ledger, claim: Claim)
    requires Books(cfg, s) && AcquireVerdict(cfg, s, claim) == Admit
    ensures var s' := Step(cfg, s, Acquire(claim));
            && s'.leases.Keys == s.leases.Keys + {s.nextLease} && s.nextLease !in s.leases
            && var lease := s'.leases[s.nextLease];
            && lease.key in s'.owners && s'.owners[lease.key].claim == TermsOf(s, claim)
            && (claim.owner != "" ==> lease.key == Named(claim.owner)) && (claim.owner == "" ==> lease.key !in s.owners)
            && s'.owners[lease.key].count == (if IsFirst(s, claim) then 0 else s.owners[lease.key].count) + 1
            && (forall k :: k != lease.key ==> (k in s'.owners <==> k in s.owners) && (k in s.owners ==> s'.owners[k] == s.owners[k]))
            && (cfg.devices > 0 ==>
                  && 0 <= lease.device < cfg.devices && CardLoad(s.leases, lease.device) < 12
                  && forall d :: 0 <= d < cfg.devices ==> CardLoad(s.leases, lease.device) <= CardLoad(s.leases, d))
            && s'.waiters == s.waiters && s'.signalled == s.signalled
  {
    hide Usage, CardLoad, HoldCover, NextUnits, CardsAccounted, WaitersAccounted, OwnersAccounted, Room;
  }

  /** A claim turned away waits at the end of the line, and nothing else changes. */
  lemma RefusedWaits(cfg: Config, s: Ledger, claim: Claim)
    requires Books(cfg, s) && AcquireVerdict(cfg, s, claim) != Admit
    ensures var s' := Step(cfg, s, Acquire(claim));
            && s' == s.(waiters := s'.waiters, nextChannel := s'.nextChannel)
            && |s'.waiters| == |s.waiters| + 1 && s'.waiters[..|s.waiters|] == s.waiters
            && s'.waiters[|s.waiters|].claim == claim && s'.waiters[|s.waiters|].channel !in Channels(s.waiters) + s.signalled
  {
    hide Usage, AcquireVerdict, OwnersAccounted, CardsAccounted;
  }

  // ---------- One stream less ----------

  /** The last stream of an FHD session gives back two units, any other stream one; everybody waiting is told. */
  lemma ReleaseCosts(cfg: Config, s: Ledger, lease: nat)
    requires Books(cfg, s) && lease in s.leases
    ensures var s', o := Step(cfg, s, Release(lease)), s.owners[s.leases[lease].key];
            && Used(s') == Used(s) - (if o.count == 1 && o.claim.highRes then 2 else 1)
            && s'.leases == s.leases - {lease} && s'.holds == s.holds
            && (s.leases[lease].key in s'.owners <==> o.count > 1)
            && (o.count > 1 ==> s'.owners[s.leases[lease].key].count == o.count - 1 && s'.owners[s.leases[lease].key].claim == o.claim)
            && s'.waiters == [] && s'.signalled == s.signalled + Channels(s.waiters)
  {
    ReleaseUsage(cfg, s, lease, Everything);
    hide Usage, Total, CardsAccounted, WaitersAccounted;
  }

  lemma ReleaseTwice(cfg: Config, s: Ledger, lease: nat)
    requires lease !in s.leases
    ensures Step(cfg, s, Release(lease)) == s
  {
  }

  // ---------- Another resolution ----------

  /** Going to FHD costs one unit and coming back frees one, whatever the number of streams. */
  function Upgrade(o: Owner, highRes: bool): int {
    (if highRes then 1 else 0) - (if o.claim.highRes then 1 else 0)
  }

  lemma ChangeAnswers(cfg: Config, s: Ledger, name: string, highRes: bool)
    requires Books(cfg, s) && name != "" && Named(name) in s.owners
    ensures var o := s.owners[Named(name)];
            var units := Max(0, Upgrade(o, highRes) - HeldFor(s.holds, name));
            var verdict := ChangeVerdict(cfg, s, name, highRes);
            && (verdict == Admit <==>
                  Upgrade(o, highRes) <= 0 || (TotalFits(cfg, s, units) && TierFits(cfg, s, o.claim.tier, units)))
            && (verdict == TierUnitsExhausted <==>
                  Upgrade(o, highRes) > 0 && TotalFits(cfg, s, units) && !TierFits(cfg, s, o.claim.tier, units))
            && verdict != AlreadyHeld
            && (verdict != Admit ==> Step(cfg, s, ChangeResolution(name, highRes)) == s)
  {
    OwnerPays(cfg, s, Named(name));
    hide Usage, VacancyFrom, CardsAccounted, WaitersAccounted;
    VacancyAtLeastZero(cfg.reserves, s, s.owners[Named(name)].claim.tier + 1);
  }

  lemma VacancyAtLeastZero(reserves: seq<int>, s: Ledger, h: int)
    ensures VacancyFrom(reserves, s, h) >= 0
  {
    VacancyNonNegative(reserves, s, h);
  }

  lemma ChangeCosts(cfg: Config, s: Ledger, name: string, highRes: bool)
    requires Books(cfg, s) && name != "" && Named(name) in s.owners && ChangeVerdict(cfg, s, name, highRes) == Admit
    ensures var s', o := Step(cfg, s, ChangeResolution(name, highRes)), s.owners[Named(name)];
            Used(s') == Used(s) + (if Upgrade(o, highRes) > 0 && name in s.holds then 0 else Upgrade(o, highRes))
  {
    OwnerPays(cfg, s, Named(name));
    ChangeUsage(cfg, s, name, highRes, Everything);
    hide Usage, Total, CardsAccounted, WaitersAccounted, ChangeVerdict, Changed, KeysAccounted, LeasesOwned, OwnersAccounted;
  }

  lemma ChangeRecords(cfg: Config, s: Ledger, name: string, highRes: bool)
    requires Books(cfg, s) && name != "" && Named(name) in s.owners && ChangeVerdict(cfg, s, name, highRes) == Admit
    ensures var s', o := Step(cfg, s, ChangeResolution(name, highRes)), s.owners[Named(name)];
            && s'.owners.Keys == s.owners.Keys && s'.leases == s.leases
            && s'.owners[Named(name)].count == o.count && s'.owners[Named(name)].claim == o.claim.(highRes := highRes)
            && (forall k :: k in s.owners && k != Named(name) ==> s'.owners[k] == s.owners[k])
            && s'.waiters == (if Upgrade(o, highRes) < 0 then [] else s.waiters)
            && s'.signalled == (if Upgrade(o, highRes) < 0 then s.signalled + Channels(s.waiters) else s.signalled)
  {
    OwnerPays(cfg, s, Named(name));
    hide Books, Usage, ChangeVerdict, HoldCover, Consume;
  }

  lemma ChangeOfNobody(cfg: Config, s: Ledger, name: string, highRes: bool)
    requires name == "" || Named(name) !in s.owners
    ensures ChangeVerdict(cfg, s, name, highRes) == Admit && Step(cfg, s, ChangeResolution(name, highRes)) == s
  {
  }

  // ---------- Holds ----------

  /** A session has one hold, and it must fit like a stream would. */
  lemma HoldAnswers(cfg: Config, s: Ledger, claim: Claim, units: int)
    requires Books(cfg, s)
    ensures var verdict := HoldVerdict(cfg, s, claim, units);
            var wanted := units > 0 && claim.owner != "";
            && (verdict == AlreadyHeld <==> wanted && claim.owner in s.holds)
            && (verdict == Admit <==>
                  !wanted || (claim.owner !in s.holds && TotalFits(cfg, s, units) && TierFits(cfg, s, claim.tier, units)))
            && (verdict == TierUnitsExhausted <==>
                  wanted && claim.owner !in s.holds && TotalFits(cfg, s, units) && !TierFits(cfg, s, claim.tier, units))
  {
    hide Usage, VacancyFrom, Books;
  }

  lemma HoldRecords(cfg: Config, s: Ledger, claim: Claim, units: int)
    requires Books(cfg, s)
    ensures var s' := Step(cfg, s, PlaceHold(claim, units));
            && s' == s.(holds := s'.holds)
            && (units > 0 && claim.owner != "" && HoldVerdict(cfg, s, claim, units) == Admit ==>
                  s'.holds == s.holds[claim.owner := Hold(units, claim.tier, claim.group)] && Used(s') == Used(s) + units)
            && (units <= 0 || claim.owner == "" || HoldVerdict(cfg, s, claim, units) != Admit ==> s' == s)
  {
    if claim.owner !in s.holds {
      HoldUsage(cfg, s, claim, units, Everything);
    }
    hide Usage, Books, Room;
  }

  lemma DropRecords(cfg: Config, s: Ledger, name: string)
    requires Books(cfg, s)
    ensures var s' := Step(cfg, s, DropHold(name));
            if name in s.holds then
              && Used(s') == Used(s) - s.holds[name].units && s'.holds == s.holds - {name} && s'.owners == s.owners && s'.leases == s.leases
              && s'.waiters == [] && s'.signalled == s.signalled + Channels(s.waiters)
            else s' == s
  {
    if name in s.holds {
      DropUsage(s, name, Everything);
    }
    hide Usage, Books;
  }

  // ---------- Asking beforehand ----------

  /** What the session pays now, streams and hold together. */
  function PaidNow(s: Ledger, name: string): int {
    if name == "" then 0
    else (if Named(name) in s.owners then s.owners[Named(name)].count + (if s.owners[Named(name)].claim.highRes then 1 else 0) else 0)
         + HeldFor(s.holds, name)
  }

  /** CheckClaim looks at the total without what the session pays now and with the price of so many streams on the new terms. */
  lemma CheckAnswers(cfg: Config, s: Ledger, claim: Claim, count: nat)
    requires Books(cfg, s)
    ensures var price := if count == 0 then 0 else count + (if claim.highRes then 1 else 0);
            var units := price - PaidNow(s, claim.owner);
            var verdict := CheckVerdict(cfg, s, claim, count);
            && (verdict == Admit <==> TotalFits(cfg, s, units) && TierFits(cfg, s, claim.tier, units))
            && (verdict == TierUnitsExhausted <==> TotalFits(cfg, s, units) && !TierFits(cfg, s, claim.tier, units))
            && verdict != AlreadyHeld
  {
    if claim.owner != "" && Named(claim.owner) in s.owners {
      OwnerPays(cfg, s, Named(claim.owner));
    }
    VacancyAtLeastZero(cfg.reserves, s, claim.tier + 1);
    hide Usage, Books, VacancyFrom;
  }

  // ---------- The queue ----------

  lemma ReceiveTakes(cfg: Config, s: Ledger, channel: nat)
    ensures Step(cfg, s, Receive(channel)) == s.(signalled := s.signalled - {channel})
  {
  }

  /** Giving up: a claim still in line leaves it, the others keep their order; one that was told passes it on to the head. */
  lemma AbandonPassesOn(cfg: Config, s: Ledger, channel: nat)
    requires Books(cfg, s)
    ensures var s' := Step(cfg, s, Abandon(channel));
            && s' == s.(waiters := s'.waiters, signalled := s'.signalled)
            && (channel in Channels(s.waiters) ==>
                  s'.signalled == s.signalled &&
                  exists i :: 0 <= i < |s.waiters| && s.waiters[i].channel == channel && s'.waiters == s.waiters[..i] + s.waiters[i + 1..])
            && (channel in s.signalled ==>
                  if s.waiters == [] then s'.waiters == [] && s'.signalled == s.signalled - {channel}
                  else s'.waiters == s.waiters[1..] && s'.signalled == s.signalled - {channel} + {s.waiters[0].channel})
            && (channel !in Channels(s.waiters) && channel !in s.signalled ==> s' == s)
  {
    hide OwnersAccounted, CardsAccounted, KeysAccounted;
    if channel in Channels(s.waiters) {
      var i := WithoutOne(s.waiters, channel);
      assert channel !in s.signalled;
    }
  }

  lemma {:induction false} WithoutOne(waiters: seq<Waiter>, channel: nat) returns (i: nat)
    requires channel in Channels(waiters)
    ensures i < |waiters| && waiters[i].channel == channel && Without(waiters, channel) == waiters[..i] + waiters[i + 1..]
  {
    if waiters[0].channel == channel {
      i := 0;
    } else {
      var rest := waiters[1..];
      assert channel in Channels(rest);
      var j := WithoutOne(rest, channel);
      i := j + 1;
      assert waiters[..i] == [waiters[0]] + rest[..j] && waiters[i + 1..] == rest[j + 1..];
    }
  }
}
