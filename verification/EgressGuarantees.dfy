/** What the egress budget guarantees over every run: exact books, tier reserves, no lost wake-up, and a
    forecast that can be trusted. */
module EgressGuarantees {
  import opened Totals
  import opened EgressSlots

  /** Each session has one plan, hence one tier, for its hold and for all its streams. */
  ghost predicate Obeys(tierOf: string -> int, claim: Claim) {
    claim.tier >= 0 && (claim.owner != "" ==> claim.tier == tierOf(claim.owner))
  }

  ghost predicate EventObeys(tierOf: string -> int, e: Event) {
    match e
    case Acquire(claim) => Obeys(tierOf, claim)
    case PlaceHold(claim, _) => Obeys(tierOf, claim)
    case _ => true
  }

  ghost predicate OneTier(tierOf: string -> int, s: Ledger) {
    && (forall k :: k in s.owners ==> s.owners[k].claim.tier >= 0)
    && (forall k :: k in s.owners && k.Named? ==> s.owners[k].claim.tier == tierOf(k.name))
    && (forall n :: n in s.holds ==> s.holds[n].tier == tierOf(n) >= 0)
    && (forall w :: w in s.waiters ==> Obeys(tierOf, w.claim))
  }

  /** From s to s' exactly `x` units were charged at `tier`, and nothing else moved. */
  ghost predicate Moves(s: Ledger, s': Ledger, tier: int, x: int) {
    && Used(s') == Used(s) + x
    && (forall t {:trigger Usage(s', AtTier(t))} ::
          Usage(s', AtTier(t)) == Usage(s, AtTier(t)) + if tier == t then x else 0)
    && (forall t {:trigger Usage(s', UpToTier(t))} ::
          Usage(s', UpToTier(t)) == Usage(s, UpToTier(t)) + if tier <= t then x else 0)
  }

  // ---------- Every step is one charge, and a positive one passed both capacity rules ----------

  lemma GrantMoves(cfg: Config, tierOf: string -> int, s: Ledger, claim: Claim)
    requires Books(cfg, s) && OneTier(tierOf, s) && Obeys(tierOf, claim)
    ensures var o := Charged(s.owners, claim);
            var delta := NextUnits(o);
            Moves(s, Granted(cfg, s, claim), o.claim.tier, delta - HoldCover(s.holds, claim.owner, delta))
  {
    forall m: Measure {
      GrantUsage(cfg, s, claim, m);
    }
  }

  lemma ChangeMoves(cfg: Config, tierOf: string -> int, s: Ledger, name: string, highRes: bool)
    requires Books(cfg, s) && OneTier(tierOf, s)
    requires name != "" && Named(name) in s.owners && ChangeVerdict(cfg, s, name, highRes) == Admit
    ensures var o := s.owners[Named(name)];
            var delta := ResolutionDelta(o, highRes);
            Moves(s, Changed(cfg, s, name, highRes), o.claim.tier, delta - HoldCover(s.holds, name, delta))
  {
    forall m: Measure {
      ChangeUsage(cfg, s, name, highRes, m);
    }
  }

  lemma ReleaseMoves(cfg: Config, s: Ledger, lease: nat)
    requires Books(cfg, s) && lease in s.leases
    ensures var o := s.owners[s.leases[lease].key];
            Moves(s, Released(s, lease), o.claim.tier, EgressUnits(o.claim.highRes, o.count - 1) - o.held)
  {
    forall m: Measure {
      ReleaseUsage(cfg, s, lease, m);
    }
  }

  lemma HoldMoves(cfg: Config, s: Ledger, claim: Claim, units: int)
    requires HoldPlaced(cfg, s, claim, units) != s
    ensures Moves(s, HoldPlaced(cfg, s, claim, units), claim.tier, units)
  {
    forall m: Measure {
      HoldUsage(cfg, s, claim, units, m);
    }
  }

  lemma DropMoves(s: Ledger, name: string)
    requires name in s.holds
    ensures Moves(s, HoldDropped(s, name), s.holds[name].tier, -s.holds[name].units)
  {
    forall m: Measure {
      DropUsage(s, name, m);
    }
  }

  /** A step that touches neither owners nor holds charges nothing. */
  lemma NothingMoves(s: Ledger, s': Ledger, tier: int)
    requires s'.owners == s.owners && s'.holds == s.holds
    ensures Moves(s, s', tier, 0)
  {
  }

  /** `x` units at `tier` describe the step e: they are what moved, and a positive charge had room. */
  ghost predicate Charge(cfg: Config, s: Ledger, s': Ledger, tier: int, x: int) {
    && Moves(s, s', tier, x)
    && tier >= 0
    && (x > 0 ==> Room(cfg, s, tier, x) == Admit)
  }

  ghost predicate TierKnown(s: Ledger, e: Event, tier: int) {
    forall top :: top > 0 && TiersBelow(s, top) && EventBelow(e, top) ==> tier < top
  }

  lemma AcquireCharges(cfg: Config, tierOf: string -> int, s: Ledger, claim: Claim) returns (tier: int, x: int)
    requires Books(cfg, s) && OneTier(tierOf, s) && Obeys(tierOf, claim)
    ensures Charge(cfg, s, Step(cfg, s, Acquire(claim)), tier, x) && TierKnown(s, Acquire(claim), tier)
  {
    if AcquireVerdict(cfg, s, claim) == Admit {
      var o := Charged(s.owners, claim);
      GrantMoves(cfg, tierOf, s, claim);
      tier, x := o.claim.tier, NextUnits(o) - HoldCover(s.holds, claim.owner, NextUnits(o));
    } else {
      NothingMoves(s, Step(cfg, s, Acquire(claim)), 0);
      tier, x := 0, 0;
    }
  }

  lemma ReleaseCharges(cfg: Config, tierOf: string -> int, s: Ledger, lease: nat) returns (tier: int, x: int)
    requires Books(cfg, s) && OneTier(tierOf, s)
    ensures Charge(cfg, s, Released(s, lease), tier, x) && TierKnown(s, Release(lease), tier)
  {
    if lease in s.leases {
      var o := s.owners[s.leases[lease].key];
      ReleaseMoves(cfg, s, lease);
      tier, x := o.claim.tier, EgressUnits(o.claim.highRes, o.count - 1) - o.held;
    } else {
      NothingMoves(s, Released(s, lease), 0);
      tier, x := 0, 0;
    }
  }

  lemma ChangeCharges(cfg: Config, tierOf: string -> int, s: Ledger, name: string, highRes: bool) returns (tier: int, x: int)
    requires Books(cfg, s) && OneTier(tierOf, s)
    ensures Charge(cfg, s, Changed(cfg, s, name, highRes), tier, x) && TierKnown(s, ChangeResolution(name, highRes), tier)
  {
    if name != "" && Named(name) in s.owners && ChangeVerdict(cfg, s, name, highRes) == Admit {
      var o := s.owners[Named(name)];
      var delta := ResolutionDelta(o, highRes);
      ChangeMoves(cfg, tierOf, s, name, highRes);
      tier, x := o.claim.tier, delta - HoldCover(s.holds, name, delta);
    } else {
      NothingMoves(s, Changed(cfg, s, name, highRes), 0);
      tier, x := 0, 0;
    }
  }

  lemma HoldCharges(cfg: Config, tierOf: string -> int, s: Ledger, claim: Claim, units: int) returns (tier: int, x: int)
    requires Obeys(tierOf, claim)
    ensures Charge(cfg, s, HoldPlaced(cfg, s, claim, units), tier, x) && TierKnown(s, PlaceHold(claim, units), tier)
  {
    if HoldPlaced(cfg, s, claim, units) != s {
      HoldMoves(cfg, s, claim, units);
      tier, x := claim.tier, units;
    } else {
      NothingMoves(s, s, 0);
      tier, x := 0, 0;
    }
  }

  lemma DropCharges(cfg: Config, tierOf: string -> int, s: Ledger, name: string) returns (tier: int, x: int)
    requires Books(cfg, s) && OneTier(tierOf, s)
    ensures Charge(cfg, s, HoldDropped(s, name), tier, x) && TierKnown(s, DropHold(name), tier)
  {
    if name in s.holds {
      DropMoves(s, name);
      tier, x := s.holds[name].tier, -s.holds[name].units;
    } else {
      NothingMoves(s, s, 0);
      tier, x := 0, 0;
    }
  }

  /** Every step is one charge at one tier, and a positive one passed both capacity rules. */
  lemma StepCharges(cfg: Config, tierOf: string -> int, s: Ledger, e: Event) returns (tier: int, x: int)
    requires Books(cfg, s) && OneTier(tierOf, s) && EventObeys(tierOf, e)
    ensures Charge(cfg, s, Step(cfg, s, e), tier, x) && TierKnown(s, e, tier)
  {
    hide Moves, Charge, Books, OneTier;
    match e
    case Acquire(claim) => tier, x := AcquireCharges(cfg, tierOf, s, claim);
    case Receive(_) => tier, x := Idle(cfg, s, e);
    case Abandon(_) => tier, x := Idle(cfg, s, e);
    case Release(lease) => tier, x := ReleaseCharges(cfg, tierOf, s, lease);
    case ChangeResolution(name, highRes) => tier, x := ChangeCharges(cfg, tierOf, s, name, highRes);
    case PlaceHold(claim, units) => tier, x := HoldCharges(cfg, tierOf, s, claim, units);
    case DropHold(name) => tier, x := DropCharges(cfg, tierOf, s, name);
  }

  lemma Idle(cfg: Config, s: Ledger, e: Event) returns (tier: int, x: int)
    requires e.Receive? || e.Abandon?
    ensures Charge(cfg, s, Step(cfg, s, e), tier, x) && TierKnown(s, e, tier)
  {
    tier, x := 0, 0;
    NothingMoves(s, Step(cfg, s, e), 0);
  }

  lemma StepKeepsOneTier(cfg: Config, tierOf: string -> int, s: Ledger, e: Event)
    requires Books(cfg, s) && OneTier(tierOf, s) && EventObeys(tierOf, e)
    ensures OneTier(tierOf, Step(cfg, s, e))
  {
    hide Total, VacancyFrom, BestCard, Room, Books;
    if e.Abandon? {
      AbandonKeepsBooks(cfg, s, e.channel);
    }
  }

  // ---------- Tier reserves ----------

  /** Units used by tiers up to t leave the reserves above t untouched. */
  ghost predicate ReservesRespected(cfg: Config, s: Ledger) {
    cfg.capacity > 0 ==>
      forall t :: -1 <= t < |cfg.reserves| ==>
        Usage(s, UpToTier(t)) <= cfg.capacity - ReservedFrom(cfg.reserves, t + 1)
  }

  /** No tier at or above `top`: with top = |reserves| this rules out unrestricted claims. */
  ghost predicate TiersBelow(s: Ledger, top: int) {
    && (forall k :: k in s.owners ==> s.owners[k].claim.tier < top)
    && (forall n :: n in s.holds ==> s.holds[n].tier < top)
  }

  ghost predicate EventBelow(e: Event, top: int) {
    match e
    case Acquire(claim) => claim.tier < top
    case PlaceHold(claim, _) => claim.tier < top
    case _ => true
  }

  ghost function TopVacancy(cfg: Config, s: Ledger): int {
    VacancyFrom(cfg.reserves, s, |cfg.reserves| - 1)
  }

  /** What is used plus what the top tier has not used yet always fits. */
  ghost predicate TopSeatKept(cfg: Config, s: Ledger) {
    cfg.capacity > 0 ==> Used(s) + TopVacancy(cfg, s) <= cfg.capacity
  }

  lemma UpToSplits(cfg: Config, s: Ledger, t: int)
    ensures Usage(s, UpToTier(t)) == Usage(s, UpToTier(t - 1)) + Usage(s, AtTier(t))
  {
    TotalSum(s.owners, OwnerWeight(UpToTier(t)), OwnerWeight(UpToTier(t - 1)), OwnerWeight(AtTier(t)));
    TotalSum(s.holds, HoldWeight(UpToTier(t)), HoldWeight(UpToTier(t - 1)), HoldWeight(AtTier(t)));
  }

  /** Every reserve above t is either used by its own tier or counted as vacant. */
  lemma VacancyCovers(cfg: Config, s: Ledger, t: int)
    requires Books(cfg, s) && -1 <= t < |cfg.reserves|
    ensures Usage(s, UpToTier(t)) + ReservedFrom(cfg.reserves, t + 1) <= Used(s) + VacancyFrom(cfg.reserves, s, t + 1)
    decreases |cfg.reserves| - t
  {
    if t + 1 < |cfg.reserves| {
      VacancyCovers(cfg, s, t + 1);
      UpToSplits(cfg, s, t + 1);
    } else {
      UsageNonNegative(cfg, s, UpToTier(t));
    }
  }

  lemma VacancyAbove(reserves: seq<int>, s: Ledger, s': Ledger, tier: int, x: int, h: int)
    requires Moves(s, s', tier, x) && h > tier
    ensures VacancyFrom(reserves, s', h) == VacancyFrom(reserves, s, h)
    decreases |reserves| - h
  {
    if 0 <= h < |reserves| {
      VacancyAbove(reserves, s, s', tier, x, h + 1);
    }
  }

  lemma VacancyShrinksUpwards(reserves: seq<int>, s: Ledger, h: int, h': int)
    requires 0 <= h <= h'
    ensures VacancyFrom(reserves, s, h') <= VacancyFrom(reserves, s, h)
    decreases h' - h
  {
    if h < h' {
      VacancyShrinksUpwards(reserves, s, h + 1, h');
      if h < |reserves| {
      } else {
        assert VacancyFrom(reserves, s, h') == 0;
      }
    }
  }

  lemma ReservesKept(cfg: Config, s: Ledger, s': Ledger, tier: int, x: int)
    requires Books(cfg, s) && Books(cfg, s') && Moves(s, s', tier, x) && tier >= 0
    requires x > 0 ==> Room(cfg, s, tier, x) == Admit
    requires ReservesRespected(cfg, s)
    ensures ReservesRespected(cfg, s')
  {
    if cfg.capacity > 0 && x > 0 {
      forall t | -1 <= t < |cfg.reserves|
        ensures Usage(s', UpToTier(t)) <= cfg.capacity - ReservedFrom(cfg.reserves, t + 1)
      {
        if tier <= t {
          VacancyCovers(cfg, s', t);
          VacancyAbove(cfg.reserves, s, s', tier, x, t + 1);
          VacancyShrinksUpwards(cfg.reserves, s, tier + 1, t + 1);
        }
      }
    }
  }

  lemma TopSeatStays(cfg: Config, s: Ledger, s': Ledger, tier: int, x: int)
    requires Moves(s, s', tier, x) && 0 <= tier < |cfg.reserves|
    requires x > 0 ==> Room(cfg, s, tier, x) == Admit
    requires TopSeatKept(cfg, s)
    ensures TopSeatKept(cfg, s')
  {
    var top := |cfg.reserves| - 1;
    assert VacancyFrom(cfg.reserves, s, top + 1) == 0 == VacancyFrom(cfg.reserves, s', top + 1);
    if tier < top {
      VacancyAbove(cfg.reserves, s, s', tier, x, top);
      VacancyShrinksUpwards(cfg.reserves, s, tier + 1, top);
    }
  }

  // ---------- No lost wake-up ----------

  ghost function Need(s: Ledger, claim: Claim): int {
    var delta := NextUnits(Charged(s.owners, claim));
    delta - HoldCover(s.holds, claim.owner, delta)
  }

  ghost predicate Refused(cfg: Config, s: Ledger, claim: Claim) { AcquireVerdict(cfg, s, claim) != Admit }

  /** Whenever the lock is free, everybody still queued would be refused again. */
  ghost predicate NobodyWaitsInVain(cfg: Config, s: Ledger) {
    forall w :: w in s.waiters ==> Refused(cfg, s, w.claim)
  }

  ghost predicate CardsFull(cfg: Config, s: Ledger) {
    cfg.devices > 0 && BestCard(s.leases, cfg.devices) < 0
  }

  /** The tier rule subsumes the total rule, because a vacancy is never negative. */
  lemma RefusedExactly(cfg: Config, s: Ledger, claim: Claim)
    ensures Refused(cfg, s, claim) <==>
            || CardsFull(cfg, s)
            || (cfg.capacity > 0 &&
                Used(s) + HigherTierVacancy(cfg.reserves, s, Charged(s.owners, claim).claim.tier) + Need(s, claim) > cfg.capacity)
  {
    VacancyNonNegative(cfg.reserves, s, Charged(s.owners, claim).claim.tier + 1);
  }

  /** A charge can close a vacancy by at most what it adds to the total. */
  lemma SlackShrinks(reserves: seq<int>, s: Ledger, s': Ledger, tier: int, x: int, h: int)
    requires Moves(s, s', tier, x) && x >= 0
    ensures VacancyFrom(reserves, s, h) <= VacancyFrom(reserves, s', h) + x
    decreases |reserves| - h
  {
    if 0 <= h < |reserves| {
      if h == tier {
        VacancyAbove(reserves, s, s', tier, x, h + 1);
      } else {
        SlackShrinks(reserves, s, s', tier, x, h + 1);
      }
    }
  }

  /** A refused claim of another owner stays refused after any charge. */
  lemma OthersStayRefused(cfg: Config, s: Ledger, s': Ledger, tier: int, x: int, claim: Claim)
    requires Moves(s, s', tier, x) && x >= 0
    requires Charged(s'.owners, claim) == Charged(s.owners, claim) && Need(s', claim) == Need(s, claim)
    requires CardsFull(cfg, s) ==> CardsFull(cfg, s')
    requires Refused(cfg, s, claim)
    ensures Refused(cfg, s', claim)
  {
    RefusedExactly(cfg, s, claim);
    RefusedExactly(cfg, s', claim);
    SlackShrinks(cfg.reserves, s, s', tier, x, Charged(s.owners, claim).claim.tier + 1);
  }

  /** A refused claim of the same owner stays refused, provided its need drops by no more than was charged. */
  lemma OwnStaysRefused(cfg: Config, s: Ledger, s': Ledger, tier: int, x: int, claim: Claim)
    requires Moves(s, s', tier, x)
    requires Charged(s.owners, claim).claim.tier == tier == Charged(s'.owners, claim).claim.tier
    requires Need(s', claim) + x >= Need(s, claim)
    requires CardsFull(cfg, s) ==> CardsFull(cfg, s')
    requires Refused(cfg, s, claim)
    ensures Refused(cfg, s', claim)
  {
    RefusedExactly(cfg, s, claim);
    RefusedExactly(cfg, s', claim);
    VacancyAbove(cfg.reserves, s, s', tier, x, tier + 1);
  }

  lemma GrantWakesNobody(cfg: Config, tierOf: string -> int, s: Ledger, claim: Claim, waiting: Claim)
    requires Books(cfg, s) && OneTier(tierOf, s) && Obeys(tierOf, claim) && Obeys(tierOf, waiting)
    requires !Refused(cfg, s, claim) && Refused(cfg, s, waiting)
    ensures Refused(cfg, Granted(cfg, s, claim), waiting)
  {
    hide Total, VacancyFrom, Moves, AcquireVerdict, CardsAccounted, WaitersAccounted;
    var s' := Granted(cfg, s, claim);
    var o := Charged(s.owners, claim);
    GrantMoves(cfg, tierOf, s, claim);
    RefusedExactly(cfg, s, claim);
    if claim.owner == "" || waiting.owner != claim.owner {
      OthersStayRefused(cfg, s, s', o.claim.tier, Need(s, claim), waiting);
    } else if Named(claim.owner) in s.owners {
      assert Charged(s.owners, waiting) == o;
      RefusedExactly(cfg, s, waiting);
      assert false;
    } else {
      ConsumeUsage(s, claim.owner, HoldCover(s.holds, claim.owner, NextUnits(o)), Everything);
      RefusedExactly(cfg, s, waiting);
      OwnStaysRefused(cfg, s, s', claim.tier, Need(s, claim), waiting);
    }
  }

  lemma HoldWakesNobody(cfg: Config, tierOf: string -> int, s: Ledger, claim: Claim, units: int, waiting: Claim)
    requires Books(cfg, s) && OneTier(tierOf, s) && Obeys(tierOf, claim) && Obeys(tierOf, waiting)
    requires HoldPlaced(cfg, s, claim, units) != s && Refused(cfg, s, waiting)
    ensures Refused(cfg, HoldPlaced(cfg, s, claim, units), waiting)
  {
    var s' := HoldPlaced(cfg, s, claim, units);
    HoldMoves(cfg, s, claim, units);
    if waiting.owner == claim.owner {
      OwnStaysRefused(cfg, s, s', claim.tier, units, waiting);
    } else {
      OthersStayRefused(cfg, s, s', claim.tier, units, waiting);
    }
  }

  lemma ChangeWakesNobody(cfg: Config, tierOf: string -> int, s: Ledger, name: string, highRes: bool, waiting: Claim)
    requires Books(cfg, s) && OneTier(tierOf, s) && Obeys(tierOf, waiting)
    requires name != "" && Named(name) in s.owners && ChangeVerdict(cfg, s, name, highRes) == Admit
    requires ResolutionDelta(s.owners[Named(name)], highRes) >= 0
    requires Refused(cfg, s, waiting)
    ensures Refused(cfg, Changed(cfg, s, name, highRes), waiting)
  {
    hide Total, VacancyFrom, Moves, AcquireVerdict, CardsAccounted, WaitersAccounted;
    var s' := Changed(cfg, s, name, highRes);
    var o := s.owners[Named(name)];
    var delta := ResolutionDelta(o, highRes);
    var x := delta - HoldCover(s.holds, name, delta);
    ChangeMoves(cfg, tierOf, s, name, highRes);
    ConsumeUsage(s, name, HoldCover(s.holds, name, delta), Everything);
    if waiting.owner == name {
      OwnStaysRefused(cfg, s, s', o.claim.tier, x, waiting);
    } else {
      OthersStayRefused(cfg, s, s', o.claim.tier, x, waiting);
    }
  }

  /** Refusal depends on owners, holds and leases only, not on the queue. */
  lemma QueueDoesNotMatter(cfg: Config, s: Ledger, s': Ledger, claim: Claim)
    requires s'.owners == s.owners && s'.holds == s.holds && s'.leases == s.leases
    ensures Refused(cfg, s', claim) == Refused(cfg, s, claim)
  {
    var t := Charged(s.owners, claim).claim.tier;
    RefusedExactly(cfg, s, claim);
    RefusedExactly(cfg, s', claim);
    assert Moves(s, s', t, 0);
    VacancyAbove(cfg.reserves, s, s', t, 0, t + 1);
  }

  /** A step that could admit somebody empties the queue; every other step keeps the queued claims refused. */
  lemma StepLosesNoWakeup(cfg: Config, tierOf: string -> int, s: Ledger, e: Event)
    requires Books(cfg, s) && OneTier(tierOf, s) && EventObeys(tierOf, e)
    requires NobodyWaitsInVain(cfg, s)
    ensures NobodyWaitsInVain(cfg, Step(cfg, s, e))
  {
    hide Total, VacancyFrom, BestCard, Room, Books;
    var s' := Step(cfg, s, e);
    if e.Abandon? {
      AbandonKeepsBooks(cfg, s, e.channel);
    }
    forall w | w in s'.waiters
      ensures Refused(cfg, s', w.claim)
    {
      match e
      case Acquire(claim) =>
        if Refused(cfg, s, claim) {
          QueueDoesNotMatter(cfg, s, s', w.claim);
        } else {
          GrantWakesNobody(cfg, tierOf, s, claim, w.claim);
        }
      case Receive(_) => QueueDoesNotMatter(cfg, s, s', w.claim);
      case Abandon(_) => QueueDoesNotMatter(cfg, s, s', w.claim);
      case Release(_) =>
      case ChangeResolution(name, highRes) =>
        if s' != s {
          ChangeWakesNobody(cfg, tierOf, s, name, highRes, w.claim);
        }
      case PlaceHold(claim, units) =>
        if s' != s {
          HoldWakesNobody(cfg, tierOf, s, claim, units, w.claim);
        }
      case DropHold(_) =>
    }
  }

  // ---------- Whole runs ----------

  ghost predicate RunObeys(tierOf: string -> int, run: seq<Event>) {
    forall i :: 0 <= i < |run| ==> EventObeys(tierOf, run[i])
  }

  ghost predicate RunBelow(run: seq<Event>, top: int) {
    forall i :: 0 <= i < |run| ==> EventBelow(run[i], top)
  }

  /** Exact books in every reachable state, whatever the tiers: no assumption on the callers. */
  lemma {:induction false} BooksBalance(cfg: Config, s: Ledger, run: seq<Event>)
    requires Books(cfg, s) && WithinCapacity(cfg, s)
    ensures Books(cfg, Run(cfg, s, run)) && WithinCapacity(cfg, Run(cfg, s, run))
    decreases |run|
  {
    if run != [] {
      StepKeepsBooks(cfg, s, run[0]);
      StepStaysWithinCapacity(cfg, s, run[0]);
      BooksBalance(cfg, Step(cfg, s, run[0]), run[1..]);
    }
  }

  lemma StepStaysWithinCapacity(cfg: Config, s: Ledger, e: Event)
    requires Books(cfg, s) && WithinCapacity(cfg, s)
    ensures WithinCapacity(cfg, Step(cfg, s, e))
  {
    match e
    case Acquire(claim) =>
      if AcquireVerdict(cfg, s, claim) == Admit {
        GrantUsage(cfg, s, claim, Everything);
      }
    case Receive(_) =>
    case Abandon(_) =>
    case Release(lease) => if lease in s.leases { ReleaseUsage(cfg, s, lease, Everything); }
    case ChangeResolution(name, highRes) =>
      if name != "" && Named(name) in s.owners && ChangeVerdict(cfg, s, name, highRes) == Admit {
        ChangeUsage(cfg, s, name, highRes, Everything);
      }
    case PlaceHold(claim, units) =>
      if claim.owner !in s.holds {
        HoldUsage(cfg, s, claim, units, Everything);
      }
    case DropHold(name) => if name in s.holds { DropUsage(s, name, Everything); }
  }

  /** The three guarantees that need one tier per owner, together over every run. */
  lemma {:induction false} RunKeepsGuarantees(cfg: Config, tierOf: string -> int, s: Ledger, run: seq<Event>)
    requires RunObeys(tierOf, run)
    requires Books(cfg, s) && OneTier(tierOf, s)
    requires ReservesRespected(cfg, s) && NobodyWaitsInVain(cfg, s)
    ensures Books(cfg, Run(cfg, s, run)) && OneTier(tierOf, Run(cfg, s, run))
    ensures ReservesRespected(cfg, Run(cfg, s, run))
    ensures NobodyWaitsInVain(cfg, Run(cfg, s, run))
    decreases |run|
  {
    if run != [] {
      var s' := Step(cfg, s, run[0]);
      StepKeepsBooks(cfg, s, run[0]);
      StepKeepsOneTier(cfg, tierOf, s, run[0]);
      var tier, x := StepCharges(cfg, tierOf, s, run[0]);
      ReservesKept(cfg, s, s', tier, x);
      StepLosesNoWakeup(cfg, tierOf, s, run[0]);
      RunKeepsGuarantees(cfg, tierOf, s', run[1..]);
    }
  }

  lemma StepKeepsTiersBelow(cfg: Config, s: Ledger, e: Event, top: int)
    requires TiersBelow(s, top) && EventBelow(e, top)
    ensures TiersBelow(Step(cfg, s, e), top)
  {
    hide Usage, BestCard, Room, NextUnits, HoldCover, EgressUnits;
  }

  lemma {:induction false} RunKeepsTopSeat(cfg: Config, tierOf: string -> int, s: Ledger, run: seq<Event>)
    requires RunObeys(tierOf, run) && RunBelow(run, |cfg.reserves|) && |cfg.reserves| > 0
    requires Books(cfg, s) && OneTier(tierOf, s) && TiersBelow(s, |cfg.reserves|) && TopSeatKept(cfg, s)
    ensures TopSeatKept(cfg, Run(cfg, s, run))
    decreases |run|
  {
    hide Step, Room, Books, OneTier, TiersBelow, Moves, TopSeatKept, EventBelow, EventObeys;
    if run != [] {
      var s' := Step(cfg, s, run[0]);
      StepKeepsBooks(cfg, s, run[0]);
      StepKeepsOneTier(cfg, tierOf, s, run[0]);
      StepKeepsTiersBelow(cfg, s, run[0], |cfg.reserves|);
      var tier, x := StepCharges(cfg, tierOf, s, run[0]);
      TopSeatStays(cfg, s, s', tier, x);
      RunKeepsTopSeat(cfg, tierOf, s', run[1..]);
    }
  }

  lemma {:induction false} EmptyVacancy(reserves: seq<int>, h: int)
    requires 0 <= h
    requires forall i :: 0 <= i < |reserves| ==> reserves[i] >= 0
    ensures VacancyFrom(reserves, EmptyLedger(), h) == ReservedFrom(reserves, h)
    ensures 0 <= ReservedFrom(reserves, h)
    decreases |reserves| - h
  {
    if h < |reserves| {
      EmptyVacancy(reserves, h + 1);
    }
  }

  lemma {:induction false} ReservedShrinks(reserves: seq<int>, h: int)
    requires 0 <= h
    requires forall i :: 0 <= i < |reserves| ==> reserves[i] >= 0
    ensures 0 <= ReservedFrom(reserves, h) <= ReservedFrom(reserves, 0)
    decreases h
  {
    EmptyVacancy(reserves, h);
    if h > 0 {
      ReservedShrinks(reserves, h - 1);
    }
  }

  /** The reserves are set once, on an empty budget, and sum to at most the capacity. */
  ghost predicate Configured(cfg: Config) {
    && (forall i :: 0 <= i < |cfg.reserves| ==> cfg.reserves[i] >= 0)
    && (cfg.capacity > 0 ==> ReservedFrom(cfg.reserves, 0) <= cfg.capacity)
  }

  lemma StartIsGood(cfg: Config, tierOf: string -> int)
    requires Configured(cfg)
    ensures Books(cfg, EmptyLedger()) && WithinCapacity(cfg, EmptyLedger()) && OneTier(tierOf, EmptyLedger())
    ensures ReservesRespected(cfg, EmptyLedger()) && NobodyWaitsInVain(cfg, EmptyLedger())
    ensures TiersBelow(EmptyLedger(), |cfg.reserves|) && TopSeatKept(cfg, EmptyLedger())
  {
    hide Total, Usage, VacancyFrom, Books, AcquireVerdict;
    EmptyBooks(cfg);
    forall h | 0 <= h <= |cfg.reserves|
      ensures ReservedFrom(cfg.reserves, h) <= ReservedFrom(cfg.reserves, 0)
    {
      ReservedShrinks(cfg.reserves, h);
    }
    if |cfg.reserves| > 0 {
      EmptyVacancy(cfg.reserves, |cfg.reserves| - 1);
      ReservedShrinks(cfg.reserves, |cfg.reserves| - 1);
    } else {
      assert TopVacancy(cfg, EmptyLedger()) == 0 by { NoTopVacancy(cfg, EmptyLedger()); }
    }
  }

  lemma NoTopVacancy(cfg: Config, s: Ledger)
    requires |cfg.reserves| == 0
    ensures TopVacancy(cfg, s) == 0
  {
  }

  /** Main theorem: the budget from start-up onwards. */
  lemma ReachableBudget(cfg: Config, tierOf: string -> int, run: seq<Event>)
    requires Configured(cfg) && RunObeys(tierOf, run)
    ensures var s := Run(cfg, EmptyLedger(), run);
            && Books(cfg, s)
            && WithinCapacity(cfg, s)
            && ReservesRespected(cfg, s)
            && NobodyWaitsInVain(cfg, s)
            && (RunBelow(run, |cfg.reserves|) && |cfg.reserves| > 0 ==> TopSeatKept(cfg, s))
  {
    hide *;
    StartIsGood(cfg, tierOf);
    BooksBalance(cfg, EmptyLedger(), run);
    RunKeepsGuarantees(cfg, tierOf, EmptyLedger(), run);
    if RunBelow(run, |cfg.reserves|) && |cfg.reserves| > 0 {
      RunKeepsTopSeat(cfg, tierOf, EmptyLedger(), run);
    }
  }

  /** A top-tier claim that fits its tier's unused reserve passes both capacity rules. */
  lemma TopTierAlwaysSeats(cfg: Config, s: Ledger, claim: Claim)
    requires |cfg.reserves| > 0 && TopSeatKept(cfg, s)
    requires Charged(s.owners, claim).claim.tier == |cfg.reserves| - 1
    requires Need(s, claim) <= TopVacancy(cfg, s)
    ensures Refused(cfg, s, claim) <==> CardsFull(cfg, s)
  {
    RefusedExactly(cfg, s, claim);
  }

  /** A claim its own hold covers in full never fails the total rule; at the top tier it never fails at all. */
  lemma CoveredClaimConverts(cfg: Config, s: Ledger, claim: Claim)
    requires WithinCapacity(cfg, s) && Need(s, claim) <= 0
    ensures AcquireVerdict(cfg, s, claim) == SlotsExhausted ==> CardsFull(cfg, s)
    ensures Charged(s.owners, claim).claim.tier >= |cfg.reserves| - 1 ==>
              (Refused(cfg, s, claim) <==> CardsFull(cfg, s))
  {
    RefusedExactly(cfg, s, claim);
  }
}
