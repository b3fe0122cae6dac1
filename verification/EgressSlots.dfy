/** The egress slot budget of internal/media/egress_slots.go as a ledger without counters.

    A ledger lists who holds what: live leases, owners with their number of streams, pre-paid holds and
    the queue of refused claims.  How many units are in use, per tier, per group or per GPU card, is not
    stored but summed up from those lists.  The class in EgressSlotBudget.dfy keeps the server's counters and is
    proved to move exactly like this ledger, so every counter equals its sum in every reachable state. */
module EgressSlots {
  import opened Totals

  datatype Claim = Claim(owner: string, highRes: bool, tier: int, group: string)

  /** Owners are sessions; a claim without an owner is charged to a fresh anonymous one. */
  datatype Key = Named(name: string) | Anonymous(serial: nat)

  datatype Owner = Owner(claim: Claim, count: int, held: int)
  datatype Hold = Hold(units: int, tier: int, group: string)
  datatype Lease = Lease(device: int, key: Key)

  /** A queued wake-up channel; the claim it was refused for is remembered for the specification. */
  datatype Waiter = Waiter(channel: nat, claim: Claim)

  datatype Verdict = Admit | SlotsExhausted | TierUnitsExhausted | AlreadyHeld
  datatype Config = Config(capacity: int, devices: int, reserves: seq<int>)

  datatype Ledger = Ledger(
    owners: map<Key, Owner>,
    holds: map<string, Hold>,
    leases: map<nat, Lease>,
    waiters: seq<Waiter>,
    signalled: set<nat>,
    anonymous: nat,
    nextLease: nat,
    nextChannel: nat)

  const SESSIONS_PER_CARD := 12

  function EmptyLedger(): Ledger {
    Ledger(map[], map[], map[], [], {}, 0, 0, 0)
  }

  /** n streams cost n units at 720p and n + 1 units at FHD: the cost is not additive. */
  function EgressUnits(highRes: bool, count: int): int {
    if count <= 0 then 0 else if highRes then count + 1 else count
  }

  function Min(a: int, b: int): int { if a <= b then a else b }
  function Max(a: int, b: int): int { if a >= b then a else b }

  // ---------- What the ledger adds up to ----------

  /** The sums the budget keeps counters for, and the one its reserve guarantee is about. */
  datatype Measure = Everything | AtTier(tier: int) | InGroup(group: string) | UpToTier(top: int)

  ghost predicate Counts(m: Measure, tier: int, group: string) {
    match m
    case Everything => true
    case AtTier(t) => tier == t
    case InGroup(g) => group == g
    case UpToTier(t) => tier <= t
  }

  ghost function OwnerWeight(m: Measure): Owner -> int {
    (o: Owner) => if Counts(m, o.claim.tier, o.claim.group) then o.held else 0
  }

  ghost function HoldWeight(m: Measure): Hold -> int {
    (h: Hold) => if Counts(m, h.tier, h.group) then h.units else 0
  }

  ghost function Usage(s: Ledger, m: Measure): int {
    Total(s.owners, OwnerWeight(m)) + Total(s.holds, HoldWeight(m))
  }

  ghost function Used(s: Ledger): int { Usage(s, Everything) }

  ghost function OfKey(k: Key): Lease -> int { (l: Lease) => if l.key == k then 1 else 0 }
  ghost function OnCard(d: int): Lease -> int { (l: Lease) => if l.device == d then 1 else 0 }
  ghost function CardLoad(leases: map<nat, Lease>, d: int): int { Total(leases, OnCard(d)) }

  /** Units of the reserves from tier h upwards that their own tiers do not use. */
  ghost function VacancyFrom(reserves: seq<int>, s: Ledger, h: int): int
    decreases |reserves| - h
  {
    if 0 <= h < |reserves|
    then Max(0, reserves[h] - Usage(s, AtTier(h))) + VacancyFrom(reserves, s, h + 1)
    else 0
  }

  ghost function HigherTierVacancy(reserves: seq<int>, s: Ledger, tier: int): int {
    VacancyFrom(reserves, s, tier + 1)
  }

  function ReservedFrom(reserves: seq<int>, h: int): int
    decreases |reserves| - h
  {
    if 0 <= h < |reserves| then reserves[h] + ReservedFrom(reserves, h + 1) else 0
  }

  // ---------- One step of the budget ----------

  /** The least loaded of the first n cards that still has an encoder session free, the earliest on ties. */
  ghost function BestCard(leases: map<nat, Lease>, n: nat): (d: int)
    ensures -1 <= d < n
    ensures d < 0 <==> forall c :: 0 <= c < n ==> CardLoad(leases, c) >= SESSIONS_PER_CARD
    ensures d >= 0 ==> CardLoad(leases, d) < SESSIONS_PER_CARD
    ensures d >= 0 ==> forall c :: 0 <= c < n ==> CardLoad(leases, d) <= CardLoad(leases, c)
    ensures d >= 0 ==> forall c :: 0 <= c < d ==> CardLoad(leases, d) < CardLoad(leases, c)
  {
    if n == 0 then -1
    else
      var best := BestCard(leases, n - 1);
      if CardLoad(leases, n - 1) >= SESSIONS_PER_CARD then best
      else if best < 0 || CardLoad(leases, n - 1) < CardLoad(leases, best) then n - 1
      else best
  }

  ghost function Device(cfg: Config, s: Ledger): int {
    if cfg.devices > 0 then BestCard(s.leases, cfg.devices) else -1
  }

  /** The owner record a claim is charged to: the live one if there is one, else a new one on the claim's terms. */
  function Charged(owners: map<Key, Owner>, claim: Claim): Owner {
    if claim.owner == "" || Named(claim.owner) !in owners then Owner(claim, 0, 0) else owners[Named(claim.owner)]
  }

  function NextUnits(o: Owner): int { EgressUnits(o.claim.highRes, o.count + 1) - o.held }

  function HeldFor(holds: map<string, Hold>, name: string): int {
    if name in holds then holds[name].units else 0
  }

  function HoldCover(holds: map<string, Hold>, name: string, delta: int): int {
    if name == "" || delta <= 0 then 0 else Min(HeldFor(holds, name), delta)
  }

  /** Both capacity rules for a charge of `need` units at a tier: the total, and the vacancy above the tier. */
  ghost function Room(cfg: Config, s: Ledger, tier: int, need: int): Verdict {
    if cfg.capacity > 0 && Used(s) + need > cfg.capacity then SlotsExhausted
    else if cfg.capacity > 0 && Used(s) + need > cfg.capacity - HigherTierVacancy(cfg.reserves, s, tier)
    then TierUnitsExhausted
    else Admit
  }

  ghost function AcquireVerdict(cfg: Config, s: Ledger, claim: Claim): Verdict {
    var o := Charged(s.owners, claim);
    var delta := NextUnits(o);
    var room := Room(cfg, s, o.claim.tier, delta - HoldCover(s.holds, claim.owner, delta));
    if room != Admit then room
    else if cfg.devices > 0 && BestCard(s.leases, cfg.devices) < 0 then SlotsExhausted
    else Admit
  }

  function LeaseKey(s: Ledger, claim: Claim): Key {
    if claim.owner == "" then Anonymous(s.anonymous + 1) else Named(claim.owner)
  }

  /** An owner with `count` streams; its units follow from the count alone. */
  function Recounted(claim: Claim, count: int): Owner {
    Owner(claim, count, EgressUnits(claim.highRes, count))
  }

  /** Units moved out of a hold because the owner's own charge takes them over. */
  function Consume(holds: map<string, Hold>, name: string, units: int): map<string, Hold> {
    if units <= 0 || name !in holds then holds
    else if holds[name].units - units <= 0 then holds - {name}
    else holds[name := holds[name].(units := holds[name].units - units)]
  }

  ghost function Granted(cfg: Config, s: Ledger, claim: Claim): Ledger {
    var o := Charged(s.owners, claim);
    var key := LeaseKey(s, claim);
    s.(owners := s.owners[key := Recounted(o.claim, o.count + 1)],
       holds := Consume(s.holds, claim.owner, HoldCover(s.holds, claim.owner, NextUnits(o))),
       leases := s.leases[s.nextLease := Lease(Device(cfg, s), key)],
       anonymous := if claim.owner == "" then s.anonymous + 1 else s.anonymous,
       nextLease := s.nextLease + 1)
  }

  function Queued(s: Ledger, claim: Claim): Ledger {
    s.(waiters := s.waiters + [Waiter(s.nextChannel, claim)], nextChannel := s.nextChannel + 1)
  }

  function Channels(waiters: seq<Waiter>): set<nat> { set w | w in waiters :: w.channel }

  function WakeAll(s: Ledger): Ledger {
    s.(waiters := [], signalled := s.signalled + Channels(s.waiters))
  }

  function WakeOne(s: Ledger): Ledger {
    if s.waiters == [] then s
    else s.(waiters := s.waiters[1..], signalled := s.signalled + {s.waiters[0].channel})
  }

  function Without(waiters: seq<Waiter>, channel: nat): seq<Waiter> {
    if waiters == [] then []
    else if waiters[0].channel == channel then waiters[1..]
    else [waiters[0]] + Without(waiters[1..], channel)
  }

  /** Giving up a wait: leave the queue, or pass on a wake-up that arrived but was not used. */
  function Abandoned(s: Ledger, channel: nat): Ledger {
    if channel in Channels(s.waiters) then s.(waiters := Without(s.waiters, channel))
    else if channel in s.signalled then WakeOne(s.(signalled := s.signalled - {channel}))
    else s
  }

  /** The ledger after a live lease is returned.  An unknown or already returned lease changes nothing. */
  function Released(s: Ledger, lease: nat): Ledger {
    if lease !in s.leases || s.leases[lease].key !in s.owners then s
    else
      var key := s.leases[lease].key;
      var o := s.owners[key];
      WakeAll(s.(owners := if o.count - 1 <= 0 then s.owners - {key}
                           else s.owners[key := Recounted(o.claim, o.count - 1)],
                 leases := s.leases - {lease}))
  }

  function ResolutionDelta(o: Owner, highRes: bool): int { EgressUnits(highRes, o.count) - o.held }

  ghost function ChangeVerdict(cfg: Config, s: Ledger, name: string, highRes: bool): Verdict {
    if name == "" || Named(name) !in s.owners then Admit
    else
      var o := s.owners[Named(name)];
      var delta := ResolutionDelta(o, highRes);
      if delta > 0 then Room(cfg, s, o.claim.tier, delta - HoldCover(s.holds, name, delta)) else Admit
  }

  ghost function Changed(cfg: Config, s: Ledger, name: string, highRes: bool): Ledger {
    if name == "" || Named(name) !in s.owners || ChangeVerdict(cfg, s, name, highRes) != Admit then s
    else
      var o := s.owners[Named(name)];
      var delta := ResolutionDelta(o, highRes);
      var s' := s.(owners := s.owners[Named(name) := Recounted(o.claim.(highRes := highRes), o.count)],
                   holds := Consume(s.holds, name, HoldCover(s.holds, name, delta)));
      if delta < 0 then WakeAll(s') else s'
  }

  ghost function HoldVerdict(cfg: Config, s: Ledger, claim: Claim, units: int): Verdict {
    if units <= 0 || claim.owner == "" then Admit
    else if claim.owner in s.holds then AlreadyHeld
    else Room(cfg, s, claim.tier, units)
  }

  ghost function HoldPlaced(cfg: Config, s: Ledger, claim: Claim, units: int): Ledger {
    if units <= 0 || claim.owner == "" || HoldVerdict(cfg, s, claim, units) != Admit then s
    else s.(holds := s.holds[claim.owner := Hold(units, claim.tier, claim.group)])
  }

  function HoldDropped(s: Ledger, name: string): Ledger {
    if name !in s.holds then s else WakeAll(s.(holds := s.holds - {name}))
  }

  /** The forecast of CheckClaim: what the total would be with `count` streams on the claim's terms. */
  ghost function Forecast(s: Ledger, claim: Claim, count: int): int {
    Used(s) - (if claim.owner != "" && Named(claim.owner) in s.owners then s.owners[Named(claim.owner)].held else 0)
    - (if claim.owner != "" then HeldFor(s.holds, claim.owner) else 0)
    + EgressUnits(claim.highRes, count)
  }

  ghost function CheckVerdict(cfg: Config, s: Ledger, claim: Claim, count: int): Verdict {
    if cfg.capacity <= 0 then Admit
    else if Forecast(s, claim, count) > cfg.capacity then SlotsExhausted
    else if Forecast(s, claim, count) > cfg.capacity - HigherTierVacancy(cfg.reserves, s, claim.tier)
    then TierUnitsExhausted
    else Admit
  }

  /** Every critical section of the budget, in any order and from any number of goroutines. */
  datatype Event =
    | Acquire(claim: Claim)
    | Receive(channel: nat)
    | Abandon(channel: nat)
    | Release(lease: nat)
    | ChangeResolution(name: string, highRes: bool)
    | PlaceHold(claim: Claim, units: int)
    | DropHold(name: string)

  ghost function Step(cfg: Config, s: Ledger, e: Event): Ledger {
    match e
    case Acquire(claim) => if AcquireVerdict(cfg, s, claim) == Admit then Granted(cfg, s, claim) else Queued(s, claim)
    case Receive(channel) => s.(signalled := s.signalled - {channel})
    case Abandon(channel) => Abandoned(s, channel)
    case Release(lease) => Released(s, lease)
    case ChangeResolution(name, highRes) => Changed(cfg, s, name, highRes)
    case PlaceHold(claim, units) => HoldPlaced(cfg, s, claim, units)
    case DropHold(name) => HoldDropped(s, name)
  }

  ghost function Run(cfg: Config, s: Ledger, run: seq<Event>): Ledger
    decreases |run|
  {
    if run == [] then s else Run(cfg, Step(cfg, s, run[0]), run[1..])
  }

  // ---------- Exact accounting ----------

  /** Every owner record carries exactly its live leases and exactly the units of that many streams. */
  ghost predicate OwnersAccounted(owners: map<Key, Owner>, leases: map<nat, Lease>) {
    forall k :: k in owners ==>
      && owners[k].count > 0
      && owners[k].held == EgressUnits(owners[k].claim.highRes, owners[k].count)
      && owners[k].count == Total(leases, OfKey(k))
  }

  ghost predicate KeysAccounted(owners: map<Key, Owner>, anonymous: nat) {
    && (forall k :: k in owners && k.Anonymous? ==> k.serial <= anonymous)
    && Named("") !in owners
  }

  ghost predicate LeasesOwned(owners: map<Key, Owner>, leases: map<nat, Lease>, next: nat) {
    forall l :: l in leases ==> l < next && leases[l].key in owners
  }

  ghost predicate CardsAccounted(devices: int, leases: map<nat, Lease>) {
    && (forall l :: l in leases ==>
          if devices > 0 then 0 <= leases[l].device < devices else leases[l].device == -1)
    && (forall d :: 0 <= d < devices ==> CardLoad(leases, d) <= SESSIONS_PER_CARD)
  }

  ghost predicate HoldsAccounted(holds: map<string, Hold>) {
    && "" !in holds
    && (forall n :: n in holds ==> holds[n].units > 0)
  }

  ghost predicate WaitersAccounted(waiters: seq<Waiter>, signalled: set<nat>, next: nat) {
    && (forall w :: w in waiters ==> w.channel < next && w.channel !in signalled)
    && (forall c :: c in signalled ==> c < next)
    && (forall i, j :: 0 <= i < j < |waiters| ==> waiters[i].channel != waiters[j].channel)
  }

  ghost predicate Books(cfg: Config, s: Ledger) {
    && OwnersAccounted(s.owners, s.leases)
    && KeysAccounted(s.owners, s.anonymous)
    && LeasesOwned(s.owners, s.leases, s.nextLease)
    && CardsAccounted(cfg.devices, s.leases)
    && HoldsAccounted(s.holds)
    && WaitersAccounted(s.waiters, s.signalled, s.nextChannel)
  }

  ghost predicate WithinCapacity(cfg: Config, s: Ledger) {
    cfg.capacity > 0 ==> Used(s) <= cfg.capacity
  }

  /** How a measure moves when one owner record is replaced or removed. */
  lemma OwnerRecharged(s: Ledger, k: Key, o: Owner, m: Measure)
    ensures Usage(s.(owners := s.owners[k := o]), m) ==
            Usage(s, m) - WeightAt(s.owners, k, OwnerWeight(m)) + OwnerWeight(m)(o)
    ensures Usage(s.(owners := s.owners - {k}), m) == Usage(s, m) - WeightAt(s.owners, k, OwnerWeight(m))
  {
    TotalUpdate(s.owners, k, o, OwnerWeight(m));
    TotalRemove(s.owners, k, OwnerWeight(m));
  }

  lemma HoldRecharged(s: Ledger, n: string, h: Hold, m: Measure)
    ensures Usage(s.(holds := s.holds[n := h]), m) ==
            Usage(s, m) - WeightAt(s.holds, n, HoldWeight(m)) + HoldWeight(m)(h)
    ensures Usage(s.(holds := s.holds - {n}), m) == Usage(s, m) - WeightAt(s.holds, n, HoldWeight(m))
  {
    TotalUpdate(s.holds, n, h, HoldWeight(m));
    TotalRemove(s.holds, n, HoldWeight(m));
  }

  /** Consuming a hold lowers exactly the measures that count the hold, by exactly the units consumed. */
  lemma ConsumeUsage(s: Ledger, n: string, units: int, m: Measure)
    requires HoldsAccounted(s.holds)
    requires units <= HeldFor(s.holds, n)
    ensures Usage(s.(holds := Consume(s.holds, n, units)), m) ==
            Usage(s, m) - (if units > 0 && Counts(m, s.holds[n].tier, s.holds[n].group) then units else 0)
    ensures HeldFor(Consume(s.holds, n, units), n) == HeldFor(s.holds, n) - Max(0, units)
    ensures HoldsAccounted(Consume(s.holds, n, units))
  {
    if units > 0 {
      HoldRecharged(s, n, s.holds[n].(units := s.holds[n].units - units), m);
    }
  }

  /** Replacing an owner record and consuming its hold at once. */
  lemma RechargeAndConsume(s: Ledger, k: Key, o: Owner, n: string, units: int, m: Measure)
    requires HoldsAccounted(s.holds)
    requires units <= HeldFor(s.holds, n)
    ensures Usage(s.(owners := s.owners[k := o], holds := Consume(s.holds, n, units)), m) ==
            Usage(s, m) - WeightAt(s.owners, k, OwnerWeight(m)) + OwnerWeight(m)(o)
            - (if units > 0 && Counts(m, s.holds[n].tier, s.holds[n].group) then units else 0)
  {
    OwnerRecharged(s, k, o, m);
    ConsumeUsage(s, n, units, m);
  }

  ghost function HoldShare(holds: map<string, Hold>, n: string, units: int, m: Measure): int {
    if units > 0 && n in holds && Counts(m, holds[n].tier, holds[n].group) then units else 0
  }

  ghost function OwnerShare(claim: Claim, delta: int, m: Measure): int {
    if Counts(m, claim.tier, claim.group) then delta else 0
  }

  /** A granted claim moves every measure by its own charge less what its hold already paid. */
  lemma GrantUsage(cfg: Config, s: Ledger, claim: Claim, m: Measure)
    requires Books(cfg, s)
    ensures var o := Charged(s.owners, claim);
            var delta := NextUnits(o);
            Usage(Granted(cfg, s, claim), m) ==
            Usage(s, m) + OwnerShare(o.claim, delta, m)
            - HoldShare(s.holds, claim.owner, HoldCover(s.holds, claim.owner, delta), m)
  {
    hide Total, CardsAccounted, WaitersAccounted, BestCard;
    var o := Charged(s.owners, claim);
    var key := LeaseKey(s, claim);
    assert key !in s.owners ==> o == Owner(claim, 0, 0);
    RechargeAndConsume(s, key, Recounted(o.claim, o.count + 1), claim.owner,
                       HoldCover(s.holds, claim.owner, NextUnits(o)), m);
  }

  lemma ChangeUsage(cfg: Config, s: Ledger, name: string, highRes: bool, m: Measure)
    requires Books(cfg, s)
    requires name != "" && Named(name) in s.owners && ChangeVerdict(cfg, s, name, highRes) == Admit
    ensures var o := s.owners[Named(name)];
            var delta := ResolutionDelta(o, highRes);
            Usage(Changed(cfg, s, name, highRes), m) ==
            Usage(s, m) + OwnerShare(o.claim, delta, m)
            - HoldShare(s.holds, name, HoldCover(s.holds, name, delta), m)
  {
    var o := s.owners[Named(name)];
    RechargeAndConsume(s, Named(name), Recounted(o.claim.(highRes := highRes), o.count), name,
                       HoldCover(s.holds, name, ResolutionDelta(o, highRes)), m);
  }

  lemma ReleaseUsage(cfg: Config, s: Ledger, lease: nat, m: Measure)
    requires Books(cfg, s) && lease in s.leases
    ensures var o := s.owners[s.leases[lease].key];
            Usage(Released(s, lease), m) ==
            Usage(s, m) - OwnerShare(o.claim, o.held - EgressUnits(o.claim.highRes, o.count - 1), m)
  {
    var key := s.leases[lease].key;
    var o := s.owners[key];
    OwnerRecharged(s, key, Recounted(o.claim, o.count - 1), m);
  }

  lemma HoldUsage(cfg: Config, s: Ledger, claim: Claim, units: int, m: Measure)
    requires claim.owner !in s.holds
    ensures HoldPlaced(cfg, s, claim, units) != s ==>
              Usage(HoldPlaced(cfg, s, claim, units), m) == Usage(s, m) + OwnerShare(claim, units, m)
  {
    HoldRecharged(s, claim.owner, Hold(units, claim.tier, claim.group), m);
  }

  lemma DropUsage(s: Ledger, name: string, m: Measure)
    requires name in s.holds
    ensures Usage(HoldDropped(s, name), m) ==
            Usage(s, m) - (if Counts(m, s.holds[name].tier, s.holds[name].group) then s.holds[name].units else 0)
  {
    HoldRecharged(s, name, s.holds[name], m);
  }

  /** No measure is ever negative, so a group that drops to zero has nobody left in it. */
  lemma UsageNonNegative(cfg: Config, s: Ledger, m: Measure)
    requires Books(cfg, s)
    ensures 0 <= Usage(s, m) <= Used(s)
  {
    TotalNonNegative(s.owners, OwnerWeight(m));
    TotalNonNegative(s.holds, HoldWeight(m));
    TotalMonotone(s.owners, OwnerWeight(m), OwnerWeight(Everything));
    TotalMonotone(s.holds, HoldWeight(m), HoldWeight(Everything));
  }

  lemma VacancyNonNegative(reserves: seq<int>, s: Ledger, h: int)
    ensures VacancyFrom(reserves, s, h) >= 0
    decreases |reserves| - h
  {
    if 0 <= h < |reserves| {
      VacancyNonNegative(reserves, s, h + 1);
    }
  }

  lemma LeaseAdded(leases: map<nat, Lease>, l: nat, lease: Lease)
    requires l !in leases
    ensures forall k :: Total(leases[l := lease], OfKey(k)) == Total(leases, OfKey(k)) + OfKey(k)(lease)
    ensures forall d :: CardLoad(leases[l := lease], d) == CardLoad(leases, d) + OnCard(d)(lease)
  {
    forall k: Key
      ensures Total(leases[l := lease], OfKey(k)) == Total(leases, OfKey(k)) + OfKey(k)(lease)
    {
      TotalUpdate(leases, l, lease, OfKey(k));
    }
    forall d: int
      ensures CardLoad(leases[l := lease], d) == CardLoad(leases, d) + OnCard(d)(lease)
    {
      TotalUpdate(leases, l, lease, OnCard(d));
    }
  }

  lemma LeaseDropped(leases: map<nat, Lease>, l: nat)
    requires l in leases
    ensures forall k :: Total(leases - {l}, OfKey(k)) == Total(leases, OfKey(k)) - OfKey(k)(leases[l])
    ensures forall d :: CardLoad(leases - {l}, d) == CardLoad(leases, d) - OnCard(d)(leases[l])
  {
    forall k: Key
      ensures Total(leases - {l}, OfKey(k)) == Total(leases, OfKey(k)) - OfKey(k)(leases[l])
    {
      TotalRemove(leases, l, OfKey(k));
    }
    forall d: int
      ensures CardLoad(leases - {l}, d) == CardLoad(leases, d) - OnCard(d)(leases[l])
    {
      TotalRemove(leases, l, OnCard(d));
    }
  }

  /** A key without an owner record has no live lease. */
  lemma NoLeases(owners: map<Key, Owner>, leases: map<nat, Lease>, next: nat, k: Key)
    requires LeasesOwned(owners, leases, next) && k !in owners
    ensures Total(leases, OfKey(k)) == 0
  {
    TotalNonNegative(leases, OfKey(k));
    if Total(leases, OfKey(k)) > 0 {
      var l := TotalPositive(leases, OfKey(k));
    }
  }

  lemma GrantKeepsOwners(owners: map<Key, Owner>, leases: map<nat, Lease>, next: nat, key: Key, o: Owner, lease: Lease)
    requires OwnersAccounted(owners, leases) && LeasesOwned(owners, leases, next) && lease.key == key
    requires if key in owners then o == owners[key] else o.count == 0
    ensures OwnersAccounted(owners[key := Recounted(o.claim, o.count + 1)], leases[next := lease])
    ensures LeasesOwned(owners[key := Recounted(o.claim, o.count + 1)], leases[next := lease], next + 1)
  {
    LeaseAdded(leases, next, lease);
    if key !in owners {
      NoLeases(owners, leases, next, key);
    }
  }

  lemma FreshLease(s: Ledger)
    requires LeasesOwned(s.owners, s.leases, s.nextLease)
    ensures s.nextLease !in s.leases
  {
  }

  lemma GrantKeepsBooks(cfg: Config, s: Ledger, claim: Claim)
    requires Books(cfg, s)
    requires cfg.devices > 0 ==> BestCard(s.leases, cfg.devices) >= 0
    ensures Books(cfg, Granted(cfg, s, claim))
  {
    hide Total, OwnersAccounted, LeasesOwned, WaitersAccounted, Usage;
    var key := LeaseKey(s, claim);
    var lease := Lease(Device(cfg, s), key);
    var o := Charged(s.owners, claim);
    assert s.nextLease !in s.leases by { FreshLease(s); }
    GrantKeepsOwners(s.owners, s.leases, s.nextLease, key, o, lease);
    LeaseAdded(s.leases, s.nextLease, lease);
    ConsumeUsage(s, claim.owner, HoldCover(s.holds, claim.owner, NextUnits(o)), Everything);
  }

  lemma ReleaseKeepsOwners(owners: map<Key, Owner>, leases: map<nat, Lease>, next: nat, lease: nat)
    requires OwnersAccounted(owners, leases) && LeasesOwned(owners, leases, next) && lease in leases
    ensures var key := leases[lease].key;
            var o := owners[key];
            var owners' := if o.count - 1 <= 0 then owners - {key} else owners[key := Recounted(o.claim, o.count - 1)];
            OwnersAccounted(owners', leases - {lease}) && LeasesOwned(owners', leases - {lease}, next)
  {
    hide Total;
    var key := leases[lease].key;
    LeaseDropped(leases, lease);
    if owners[key].count == 1 {
      TotalZero(leases - {lease}, OfKey(key));
      assert forall l :: l in leases - {lease} ==> OfKey(key)((leases - {lease})[l]) == 0;
    }
  }

  lemma WakeAllKeepsWaiters(s: Ledger)
    requires WaitersAccounted(s.waiters, s.signalled, s.nextChannel)
    ensures WaitersAccounted([], s.signalled + Channels(s.waiters), s.nextChannel)
  {
  }

  lemma ReleaseKeepsCards(devices: int, leases: map<nat, Lease>, lease: nat)
    requires CardsAccounted(devices, leases) && lease in leases
    ensures CardsAccounted(devices, leases - {lease})
  {
    LeaseDropped(leases, lease);
  }

  lemma ReleaseKeepsBooks(cfg: Config, s: Ledger, lease: nat)
    requires Books(cfg, s) && lease in s.leases
    ensures Books(cfg, Released(s, lease))
  {
    ReleaseKeepsOwners(s.owners, s.leases, s.nextLease, lease);
    ReleaseKeepsCards(cfg.devices, s.leases, lease);
    WakeAllKeepsWaiters(s);
  }

  /** The guards in release are never needed: the owner record is there and its card counts this lease. */
  lemma ReleaseNeverClamps(cfg: Config, s: Ledger, lease: nat)
    requires Books(cfg, s) && lease in s.leases
    ensures s.leases[lease].key in s.owners && s.owners[s.leases[lease].key].count >= 1
    ensures CardLoad(s.leases, s.leases[lease].device) >= 1
    ensures cfg.devices > 0 ==> 0 <= s.leases[lease].device < cfg.devices
  {
    TotalAtLeast(s.leases, lease, OnCard(s.leases[lease].device));
  }

  lemma {:induction false} WithoutKeeps(waiters: seq<Waiter>, channel: nat)
    ensures forall w :: w in Without(waiters, channel) ==> w in waiters
  {
    if waiters != [] && waiters[0].channel != channel {
      WithoutKeeps(waiters[1..], channel);
    }
  }

  lemma {:induction false} WithoutKeepsDistinct(waiters: seq<Waiter>, channel: nat)
    requires forall i, j :: 0 <= i < j < |waiters| ==> waiters[i].channel != waiters[j].channel
    ensures forall i, j :: 0 <= i < j < |Without(waiters, channel)| ==>
              Without(waiters, channel)[i].channel != Without(waiters, channel)[j].channel
  {
    if waiters != [] && waiters[0].channel != channel {
      var rest := Without(waiters[1..], channel);
      WithoutKeepsDistinct(waiters[1..], channel);
      WithoutKeeps(waiters[1..], channel);
      assert forall j :: 0 <= j < |rest| ==> rest[j] in waiters[1..] && rest[j].channel != waiters[0].channel;
    }
  }

  lemma AbandonKeepsBooks(cfg: Config, s: Ledger, channel: nat)
    requires Books(cfg, s)
    ensures Books(cfg, Abandoned(s, channel))
    ensures forall w :: w in Abandoned(s, channel).waiters ==> w in s.waiters
  {
    hide Total, OwnersAccounted, CardsAccounted;
    WithoutKeeps(s.waiters, channel);
    WithoutKeepsDistinct(s.waiters, channel);
    var s' := Abandoned(s, channel);
    assert forall w :: w in s'.waiters ==> w in s.waiters;
  }

  lemma ChangeKeepsBooks(cfg: Config, s: Ledger, name: string, highRes: bool)
    requires Books(cfg, s)
    ensures Books(cfg, Changed(cfg, s, name, highRes))
  {
    hide Total, CardsAccounted, Room, Usage;
    if name != "" && Named(name) in s.owners {
      var o := s.owners[Named(name)];
      ConsumeUsage(s, name, HoldCover(s.holds, name, ResolutionDelta(o, highRes)), Everything);
    }
  }

  lemma StepKeepsBooks(cfg: Config, s: Ledger, e: Event)
    requires Books(cfg, s)
    ensures Books(cfg, Step(cfg, s, e))
  {
    match e
    case Acquire(claim) =>
      if AcquireVerdict(cfg, s, claim) == Admit {
        GrantKeepsBooks(cfg, s, claim);
      } else {
        assert Channels(Queued(s, claim).waiters) == Channels(s.waiters) + {s.nextChannel};
      }
    case Receive(_) =>
    case Abandon(channel) => AbandonKeepsBooks(cfg, s, channel);
    case Release(lease) => if lease in s.leases { ReleaseKeepsBooks(cfg, s, lease); }
    case ChangeResolution(name, highRes) => ChangeKeepsBooks(cfg, s, name, highRes);
    case PlaceHold(_, _) =>
    case DropHold(_) =>
  }

  lemma EmptyBooks(cfg: Config)
    ensures Books(cfg, EmptyLedger())
    ensures forall m {:trigger Usage(EmptyLedger(), m)} :: Usage(EmptyLedger(), m) == 0
    ensures forall d :: CardLoad(map[], d) == 0
  {
    assert forall d :: CardLoad(map[], d) == 0;
  }

  /** Sums depend on owners and holds alone. */
  lemma UsageFrame(s: Ledger, s': Ledger)
    requires s'.owners == s.owners && s'.holds == s.holds
    ensures forall m {:trigger Usage(s', m)} :: Usage(s', m) == Usage(s, m)
  {
  }
}
