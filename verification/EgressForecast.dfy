/** CheckClaim as a forecast: what it promises about giving up all streams of a session and acquiring n anew. */
module EgressForecast {
  import opened Totals
  import opened EgressSlots
  import opened EgressGuarantees

  ghost predicate HasLease(s: Ledger, key: Key) { exists l :: l in s.leases && s.leases[l].key == key }

  ghost function SomeLease(s: Ledger, key: Key): nat
    requires HasLease(s, key)
  {
    var l :| l in s.leases && s.leases[l].key == key;
    l
  }

  /** Give back every live lease of an owner, one release at a time, in no particular order. */
  ghost function ReleaseAll(cfg: Config, s: Ledger, key: Key): Ledger
    requires Books(cfg, s)
    decreases if key in s.owners then s.owners[key].count else 0
  {
    if HasLease(s, key) then
      ReleaseKeepsBooks(cfg, s, SomeLease(s, key));
      ReleaseAll(cfg, Released(s, SomeLease(s, key)), key)
    else s
  }

  /** Acquire n streams in a row; None as soon as one is refused. */
  datatype Attempt = Failed | Done(ledger: Ledger)

  ghost function AcquireMany(cfg: Config, s: Ledger, claim: Claim, n: nat): Attempt
    decreases n
  {
    if n == 0 then Done(s)
    else if AcquireVerdict(cfg, s, claim) != Admit then Failed
    else AcquireMany(cfg, Granted(cfg, s, claim), claim, n - 1)
  }

  /** Encoder sessions still free on the first n cards. */
  ghost function FreeSessions(leases: map<nat, Lease>, n: nat): int {
    if n == 0 then 0 else FreeSessions(leases, n - 1) + SESSIONS_PER_CARD - CardLoad(leases, n - 1)
  }

  ghost predicate CardsSuffice(cfg: Config, s: Ledger, n: nat) {
    cfg.devices > 0 ==> FreeSessions(s.leases, cfg.devices) >= n
  }

  lemma {:induction false} FreeCardExists(leases: map<nat, Lease>, n: nat)
    requires FreeSessions(leases, n) > 0
    ensures BestCard(leases, n) >= 0
  {
    hide Total;
    if n > 0 && CardLoad(leases, n - 1) >= SESSIONS_PER_CARD {
      FreeCardExists(leases, n - 1);
    }
  }

  lemma {:induction false} FreeSessionsAfter(leases: map<nat, Lease>, l: nat, lease: Lease, n: nat)
    requires l !in leases
    ensures FreeSessions(leases[l := lease], n) ==
            FreeSessions(leases, n) - if 0 <= lease.device < n then 1 else 0
  {
    if n > 0 {
      FreeSessionsAfter(leases, l, lease, n - 1);
      TotalUpdate(leases, l, lease, OnCard(n - 1));
    }
  }

  /** The streams the claim's owner has on exactly the claim's terms. */
  ghost predicate Streams(s: Ledger, claim: Claim, i: nat) {
    claim.owner != "" &&
    if i == 0 then Named(claim.owner) !in s.owners
    else Named(claim.owner) in s.owners && s.owners[Named(claim.owner)].claim == claim && s.owners[Named(claim.owner)].count == i
  }

  /** Units the owner occupies, streams and hold together. */
  ghost function Footprint(s: Ledger, claim: Claim, i: nat): int {
    EgressUnits(claim.highRes, i) + HeldFor(s.holds, claim.owner)
  }

  /** The next stream needs exactly what lifts the footprint to the next multiple. */
  lemma NeedIsGrowth(cfg: Config, s: Ledger, claim: Claim, i: nat)
    requires Books(cfg, s) && Streams(s, claim, i)
    ensures Footprint(s, claim, i) + Need(s, claim) == Max(Footprint(s, claim, i), EgressUnits(claim.highRes, i + 1))
    ensures Charged(s.owners, claim).claim == claim
  {
  }

  lemma GrantFootprint(cfg: Config, s: Ledger, claim: Claim, i: nat)
    requires Books(cfg, s) && Streams(s, claim, i)
    ensures Streams(Granted(cfg, s, claim), claim, i + 1)
    ensures Footprint(Granted(cfg, s, claim), claim, i + 1) == Footprint(s, claim, i) + Need(s, claim)
  {
    hide Total, BestCard, CardsAccounted, WaitersAccounted;
    ConsumeUsage(s, claim.owner, HoldCover(s.holds, claim.owner, NextUnits(Charged(s.owners, claim))), Everything);
  }

  lemma GrantUsesOneSession(cfg: Config, s: Ledger, claim: Claim, n: nat)
    requires LeasesOwned(s.owners, s.leases, s.nextLease)
    requires CardsSuffice(cfg, s, n + 1)
    ensures CardsSuffice(cfg, Granted(cfg, s, claim), n)
  {
    hide Total;
    if cfg.devices > 0 {
      FreeSessionsAfter(s.leases, s.nextLease, Lease(Device(cfg, s), LeaseKey(s, claim)), cfg.devices);
    }
  }

  /** From i streams, r more succeed exactly when the largest footprint on the way fits below the tier's ceiling. */
  lemma {:induction false} AcquireManyExactly(cfg: Config, tierOf: string -> int, s: Ledger, claim: Claim, i: nat, r: nat)
    requires Books(cfg, s) && OneTier(tierOf, s) && Obeys(tierOf, claim) && Streams(s, claim, i)
    requires cfg.capacity > 0 && CardsSuffice(cfg, s, r)
    ensures var others := Used(s) - Footprint(s, claim, i);
            var peak := others + Max(Footprint(s, claim, i), EgressUnits(claim.highRes, i + r));
            var out := AcquireMany(cfg, s, claim, r);
            && (out.Done? <==> r == 0 || peak <= cfg.capacity - HigherTierVacancy(cfg.reserves, s, claim.tier))
            && (out.Done? && r > 0 ==> Used(out.ledger) == peak)
    decreases r
  {
    hide Total, VacancyFrom, OneTier, BestCard, AcquireVerdict, Moves, OwnersAccounted, CardsAccounted, WaitersAccounted;
    if r > 0 {
      RefusedExactly(cfg, s, claim);
      NeedIsGrowth(cfg, s, claim, i);
      if cfg.devices > 0 {
        FreeCardExists(s.leases, cfg.devices);
      }
      if !Refused(cfg, s, claim) {
        GrantTo(cfg, tierOf, s, claim, i, r - 1);
        AcquireManyExactly(cfg, tierOf, Granted(cfg, s, claim), claim, i + 1, r - 1);
      }
    }
  }

  lemma GrantTo(cfg: Config, tierOf: string -> int, s: Ledger, claim: Claim, i: nat, n: nat)
    requires Books(cfg, s) && OneTier(tierOf, s) && Obeys(tierOf, claim) && Streams(s, claim, i)
    requires AcquireVerdict(cfg, s, claim) == Admit && CardsSuffice(cfg, s, n + 1)
    ensures var s' := Granted(cfg, s, claim);
            && Books(cfg, s') && OneTier(tierOf, s') && Streams(s', claim, i + 1) && CardsSuffice(cfg, s', n)
            && Footprint(s', claim, i + 1) == Footprint(s, claim, i) + Need(s, claim)
            && Used(s') == Used(s) + Need(s, claim)
            && HigherTierVacancy(cfg.reserves, s', claim.tier) == HigherTierVacancy(cfg.reserves, s, claim.tier)
  {
    hide Total, VacancyFrom, BestCard, CardsSuffice, OneTier, OwnersAccounted, CardsAccounted, WaitersAccounted;
    var s' := Granted(cfg, s, claim);
    StepKeepsBooks(cfg, s, Acquire(claim));
    StepKeepsOneTier(cfg, tierOf, s, Acquire(claim));
    GrantFootprint(cfg, s, claim, i);
    GrantUsesOneSession(cfg, s, claim, n);
    NeedIsGrowth(cfg, s, claim, i);
    GrantMoves(cfg, tierOf, s, claim);
    VacancyAbove(cfg.reserves, s, s', claim.tier, Need(s, claim), claim.tier + 1);
  }

  /** A release takes from the total exactly what it takes from its owner. */
  lemma ReleaseForecast(cfg: Config, s: Ledger, l: nat, claim: Claim)
    requires Books(cfg, s) && claim.owner != "" && l in s.leases && s.leases[l].key == Named(claim.owner)
    ensures Forecast(Released(s, l), claim, 0) == Forecast(s, claim, 0)
  {
    ReleaseUsage(cfg, s, l, Everything);
    hide Usage, CardsAccounted, WaitersAccounted;
  }

  lemma ReleaseOne(cfg: Config, tierOf: string -> int, s: Ledger, l: nat, claim: Claim)
    requires Books(cfg, s) && OneTier(tierOf, s) && Obeys(tierOf, claim) && claim.owner != ""
    requires l in s.leases && s.leases[l].key == Named(claim.owner)
    ensures var s' := Released(s, l);
            && Books(cfg, s') && OneTier(tierOf, s') && s'.holds == s.holds
            && Forecast(s', claim, 0) == Forecast(s, claim, 0)
            && HigherTierVacancy(cfg.reserves, s', claim.tier) == HigherTierVacancy(cfg.reserves, s, claim.tier)
  {
    hide Total, VacancyFrom, BestCard, Usage, CardsAccounted, WaitersAccounted, OwnersAccounted, Forecast;
    var s' := Released(s, l);
    assert l in s.leases && s.leases[l].key in s.owners;
    var o := s.owners[Named(claim.owner)];
    ReleaseKeepsBooks(cfg, s, l);
    StepKeepsOneTier(cfg, tierOf, s, Release(l));
    assert o.claim.tier == claim.tier && s'.holds == s.holds;
    ReleaseForecast(cfg, s, l, claim);
    ReleaseMoves(cfg, s, l);
    hide OneTier, Books, Released;
    VacancyAbove(cfg.reserves, s, s', claim.tier, EgressUnits(o.claim.highRes, o.count - 1) - o.held, claim.tier + 1);
  }

  /** Giving up all streams changes nobody else's units, keeps the hold and leaves the vacancy above untouched. */
  lemma {:induction false} ReleaseAllEffect(cfg: Config, tierOf: string -> int, s: Ledger, claim: Claim)
    requires Books(cfg, s) && OneTier(tierOf, s) && Obeys(tierOf, claim) && claim.owner != ""
    ensures var s' := ReleaseAll(cfg, s, Named(claim.owner));
            && Books(cfg, s') && OneTier(tierOf, s') && Streams(s', claim, 0) && s'.holds == s.holds
            && Forecast(s', claim, 0) == Forecast(s, claim, 0)
            && HigherTierVacancy(cfg.reserves, s', claim.tier) == HigherTierVacancy(cfg.reserves, s, claim.tier)
    decreases if Named(claim.owner) in s.owners then s.owners[Named(claim.owner)].count else 0
  {
    hide Total, VacancyFrom, BestCard, HigherTierVacancy;
    var key := Named(claim.owner);
    if HasLease(s, key) {
      var l := SomeLease(s, key);
      ReleaseOne(cfg, tierOf, s, l, claim);
      ReleaseAllEffect(cfg, tierOf, Released(s, l), claim);
    } else if key in s.owners {
      var l := TotalPositive(s.leases, OfKey(key));
      assert false;
    }
  }

  /** Main theorem, for every hold and every n, as long as the GPU cards do not limit: giving up all streams and acquiring n in
      a row succeeds exactly when both the units of n streams and the hold fit below the tier's ceiling, so CheckClaim never
      refuses what would succeed, and accepts what then fails exactly when the ceiling lies between its forecast and the hold. */
  lemma ForecastExactly(cfg: Config, tierOf: string -> int, s: Ledger, claim: Claim, n: nat)
    requires Books(cfg, s) && OneTier(tierOf, s) && Obeys(tierOf, claim) && claim.owner != ""
    requires cfg.capacity > 0
    requires CardsSuffice(cfg, ReleaseAll(cfg, s, Named(claim.owner)), n)
    ensures var out := AcquireMany(cfg, ReleaseAll(cfg, s, Named(claim.owner)), claim, n);
            var ceiling := cfg.capacity - HigherTierVacancy(cfg.reserves, s, claim.tier);
            var withHold := Forecast(s, claim, 0) + HeldFor(s.holds, claim.owner);
            && (out.Done? <==> n == 0 || (Forecast(s, claim, n) <= ceiling && withHold <= ceiling))
            && (out.Done? ==> Used(out.ledger) == if n == 0 then withHold else Max(Forecast(s, claim, n), withHold))
            && (out.Done? && n > 0 ==> CheckVerdict(cfg, s, claim, n) == Admit)
            && (CheckVerdict(cfg, s, claim, n) == Admit && out.Failed? <==> n > 0 && Forecast(s, claim, n) <= ceiling < withHold)
  {
    hide Total, VacancyFrom, Books, OneTier;
    var s' := ReleaseAll(cfg, s, Named(claim.owner));
    ReleaseAllEffect(cfg, tierOf, s, claim);
    AcquireManyExactly(cfg, tierOf, s', claim, 0, n);
    VacancyIsNonNegative(cfg.reserves, s, claim.tier);
  }

  /** So a hold of at most the units of n streams makes the forecast exact, total included. */
  lemma CheckClaimForecasts(cfg: Config, tierOf: string -> int, s: Ledger, claim: Claim, n: nat)
    requires Books(cfg, s) && OneTier(tierOf, s) && Obeys(tierOf, claim) && claim.owner != ""
    requires n > 0 && cfg.capacity > 0
    requires CardsSuffice(cfg, ReleaseAll(cfg, s, Named(claim.owner)), n)
    requires HeldFor(s.holds, claim.owner) <= EgressUnits(claim.highRes, n)
    ensures var out := AcquireMany(cfg, ReleaseAll(cfg, s, Named(claim.owner)), claim, n);
            && (CheckVerdict(cfg, s, claim, n) == Admit <==> out.Done?)
            && (out.Done? ==> Used(out.ledger) == Forecast(s, claim, n))
  {
    hide Usage, VacancyFrom, Books, OneTier, AcquireMany, ReleaseAll;
    ForecastExactly(cfg, tierOf, s, claim, n);
    VacancyIsNonNegative(cfg.reserves, s, claim.tier);
  }

  lemma VacancyIsNonNegative(reserves: seq<int>, s: Ledger, tier: int)
    ensures HigherTierVacancy(reserves, s, tier) >= 0
  {
    VacancyNonNegative(reserves, s, tier + 1);
  }

  // ---------- Where the guarantees stop ----------

  const ThreeTiers: Config := Config(4, 0, [2, 1, 1])
  const Low := Claim("low", false, 0, "spark")
  const High := Claim("high", false, 2, "plasma")

  /** The lowest tier pre-pays two units, then the highest tier takes two, one of them borrowed from below while
      the middle reserve stands empty. */
  ghost function PrePaid(): Ledger { Step(ThreeTiers, EmptyLedger(), PlaceHold(Low, 2)) }
  ghost function Shared(): Ledger { Step(ThreeTiers, PrePaid(), Acquire(High)) }
  ghost function Borrowed(): Ledger { Step(ThreeTiers, Shared(), Acquire(High)) }

  ghost function TierByName(): string -> int { (n: string) => if n == "low" then 0 else 2 }

  lemma VacancyOfThree(s: Ledger)
    ensures HigherTierVacancy([2, 1, 1], s, 0) ==
            Max(0, 1 - Usage(s, AtTier(1))) + Max(0, 1 - Usage(s, AtTier(2)))
    ensures HigherTierVacancy([2, 1, 1], s, 2) == 0
  {
    hide Usage;
    assert VacancyFrom([2, 1, 1], s, 3) == 0;
    assert VacancyFrom([2, 1, 1], s, 2) == Max(0, 1 - Usage(s, AtTier(2)));
  }

  ghost predicate Figures(s: Ledger, high: int) {
    && Books(ThreeTiers, s) && OneTier(TierByName(), s)
    && Used(s) == 2 + high && Usage(s, AtTier(1)) == 0 && Usage(s, AtTier(2)) == high
    && s.holds == map["low" := Hold(2, 0, "spark")]
    && s.owners == if high == 0 then map[] else map[Named("high") := Recounted(High, high)]
  }

  lemma PrePaidFigures()
    ensures Figures(PrePaid(), 0)
  {
    hide Total, BestCard, VacancyFrom, Usage, Books, HigherTierVacancy;
    EmptyBooks(ThreeTiers);
    VacancyOfThree(EmptyLedger());
    HoldMoves(ThreeTiers, EmptyLedger(), Low, 2);
    StepKeepsBooks(ThreeTiers, EmptyLedger(), PlaceHold(Low, 2));
  }

  /** One more 720p stream for an owner without a hold costs one unit, at its tier. */
  lemma GrantNext(cfg: Config, tierOf: string -> int, s: Ledger, claim: Claim, k: nat)
    requires Books(cfg, s) && OneTier(tierOf, s) && Obeys(tierOf, claim)
    requires claim.owner != "" && !claim.highRes && claim.owner !in s.holds
    requires Charged(s.owners, claim) == Recounted(claim, k) && Need(s, claim) == 1
    requires AcquireVerdict(cfg, s, claim) == Admit
    ensures var s' := Step(cfg, s, Acquire(claim));
            && Books(cfg, s') && OneTier(tierOf, s') && Moves(s, s', claim.tier, 1)
            && s'.holds == s.holds && s'.owners == s.owners[Named(claim.owner) := Recounted(claim, k + 1)]
  {
    hide Total, BestCard, Usage, Room, OneTier, Books, Moves;
    GrantMoves(cfg, tierOf, s, claim);
    StepKeepsBooks(cfg, s, Acquire(claim));
    StepKeepsOneTier(cfg, tierOf, s, Acquire(claim));
  }

  lemma HighFits(s: Ledger, high: int)
    requires Figures(s, high) && 0 <= high <= 1
    ensures High.owner !in s.holds && Charged(s.owners, High) == Recounted(High, high) && Need(s, High) == 1
    ensures AcquireVerdict(ThreeTiers, s, High) == Admit
  {
    hide Total, Usage, HigherTierVacancy, OneTier, Books;
    VacancyOfThree(s);
    assert "high"[0] != "low"[0];
  }

  lemma GrantHigh(s: Ledger, high: int)
    requires Figures(s, high) && 0 <= high <= 1
    ensures Figures(Step(ThreeTiers, s, Acquire(High)), high + 1)
  {
    hide Total, Usage, HigherTierVacancy, OneTier, Books, Step, AcquireVerdict;
    HighFits(s, high);
    GrantNext(ThreeTiers, TierByName(), s, High, high);
    MovesFigures(s, Step(ThreeTiers, s, Acquire(High)));
  }

  lemma MovesFigures(s: Ledger, s': Ledger)
    requires Moves(s, s', 2, 1)
    ensures Used(s') == Used(s) + 1 && Usage(s', AtTier(1)) == Usage(s, AtTier(1)) && Usage(s', AtTier(2)) == Usage(s, AtTier(2)) + 1
  {
    hide Usage;
  }

  /** All three requests were granted, and these are the figures. */
  lemma BorrowedFigures()
    ensures Figures(Borrowed(), 2) && HigherTierVacancy([2, 1, 1], Borrowed(), 0) == 1
  {
    hide Figures, Step, HigherTierVacancy, Usage;
    PrePaidFigures();
    GrantHigh(PrePaid(), 0);
    GrantHigh(Shared(), 1);
    assert HigherTierVacancy([2, 1, 1], Borrowed(), 0) == 1 by { VacancyFigures(Borrowed()); }
  }

  lemma VacancyFigures(s: Ledger)
    requires Figures(s, 2)
    ensures HigherTierVacancy([2, 1, 1], s, 0) == 1
  {
    hide Usage, HigherTierVacancy;
    VacancyOfThree(s);
  }

  /** Below the top tier a fully pre-paid claim can still be turned away by the tier rule. */
  lemma LowerTierHoldMayNotConvert()
    ensures Need(Borrowed(), Low) == 0
    ensures AcquireVerdict(ThreeTiers, Borrowed(), Low) == TierUnitsExhausted
  {
    hide *;
    BorrowedFigures();
    PrePaidButRefused(Borrowed());
  }

  lemma PrePaidButRefused(s: Ledger)
    requires Figures(s, 2) && HigherTierVacancy([2, 1, 1], s, 0) == 1
    ensures Need(s, Low) == 0
    ensures AcquireVerdict(ThreeTiers, s, Low) == TierUnitsExhausted
    ensures Forecast(s, Low, 1) == 3 && CheckVerdict(ThreeTiers, s, Low, 1) == Admit
  {
    hide Usage, VacancyFrom, HigherTierVacancy, Books, OneTier, BestCard;
    assert Low.owner[0] != High.owner[0];
  }

  /** With a hold larger than the requested streams cost, CheckClaim can accept what then fails. */
  lemma ForecastNeedsSmallHold()
    ensures HeldFor(Borrowed().holds, "low") > EgressUnits(false, 1)
    ensures CheckVerdict(ThreeTiers, Borrowed(), Low, 1) == Admit
    ensures AcquireMany(ThreeTiers, Borrowed(), Low, 1) == Failed
  {
    hide Usage, VacancyFrom, HigherTierVacancy, Step, Books, OneTier, BestCard, AcquireVerdict, CheckVerdict;
    BorrowedFigures();
    PrePaidButRefused(Borrowed());
  }

  const TopOnly: Config := Config(1, 0, [0, 0, 1])
  const AtTop := Claim("x", false, 2, "plasma")
  const AtBottom := Claim("x", false, 0, "spark")

  lemma TopOnlyFigures()
    ensures Configured(TopOnly) && ReservedFrom(TopOnly.reserves, 1) == 1
    ensures forall s :: Usage(s, AtTier(1)) == 0 && Usage(s, AtTier(2)) >= 1 ==>
              HigherTierVacancy(TopOnly.reserves, s, 0) == 0
    ensures forall s :: HigherTierVacancy(TopOnly.reserves, s, 2) == 0
  {
    hide Usage;
    assert ReservedFrom([0, 0, 1], 3) == 0;
    assert ReservedFrom([0, 0, 1], 2) == 1;
    assert ReservedFrom([0, 0, 1], 1) == 1;
    forall s: Ledger
      ensures HigherTierVacancy([0, 0, 1], s, 2) == 0
      ensures Usage(s, AtTier(1)) == 0 && Usage(s, AtTier(2)) >= 1 ==> HigherTierVacancy([0, 0, 1], s, 0) == 0
    {
      assert VacancyFrom([0, 0, 1], s, 3) == 0;
      assert VacancyFrom([0, 0, 1], s, 2) == Max(0, 1 - Usage(s, AtTier(2)));
      assert VacancyFrom([0, 0, 1], s, 1) == Max(0, 0 - Usage(s, AtTier(1))) + VacancyFrom([0, 0, 1], s, 2);
    }
  }

  /** `d` units charged at one tier, of which a hold at another tier had paid `cover`. */
  ghost predicate MovesTwo(s: Ledger, s': Ledger, tier: int, d: int, holdTier: int, cover: int) {
    && Used(s') == Used(s) + d - cover
    && (forall t {:trigger Usage(s', AtTier(t))} ::
          Usage(s', AtTier(t)) == Usage(s, AtTier(t)) + (if tier == t then d else 0) - (if holdTier == t then cover else 0))
    && (forall t {:trigger Usage(s', UpToTier(t))} ::
          Usage(s', UpToTier(t)) == Usage(s, UpToTier(t)) + (if tier <= t then d else 0) - (if holdTier <= t then cover else 0))
  }

  /** The charge stays out of the reserves between its own tier and the tier of the hold that pays for it. */
  ghost predicate FitsBetween(cfg: Config, s: Ledger, tier: int, d: int, holdTier: int) {
    cfg.capacity > 0 ==>
      forall t :: tier <= t < holdTier && t < |cfg.reserves| ==>
        Usage(s, UpToTier(t)) + d <= cfg.capacity - ReservedFrom(cfg.reserves, t + 1)
  }

  lemma VacancyAboveBoth(reserves: seq<int>, s: Ledger, s': Ledger, tier: int, d: int, holdTier: int, cover: int, h: int)
    requires MovesTwo(s, s', tier, d, holdTier, cover) && h > tier && (h > holdTier || cover == 0)
    ensures VacancyFrom(reserves, s', h) == VacancyFrom(reserves, s, h)
    decreases |reserves| - h
  {
    if 0 <= h < |reserves| {
      VacancyAboveBoth(reserves, s, s', tier, d, holdTier, cover, h + 1);
    }
  }

  lemma TwoTierCharge(cfg: Config, s: Ledger, s': Ledger, tier: int, d: int, holdTier: int, cover: int)
    requires Books(cfg, s) && Books(cfg, s') && MovesTwo(s, s', tier, d, holdTier, cover) && tier >= 0 && 0 <= cover <= d
    requires Room(cfg, s, tier, d - cover) == Admit && ReservesRespected(cfg, s) && (cover == 0 ==> holdTier == tier)
    ensures ReservesRespected(cfg, s') <==> FitsBetween(cfg, s, tier, d, holdTier)
  {
    hide Usage, HigherTierVacancy, Books;
    if cfg.capacity > 0 {
      forall t | -1 <= t < |cfg.reserves| && !(tier <= t < holdTier)
        ensures Usage(s', UpToTier(t)) <= cfg.capacity - ReservedFrom(cfg.reserves, t + 1)
      {
        if tier <= t {
          VacancyCovers(cfg, s', t);
          VacancyAboveBoth(cfg.reserves, s, s', tier, d, holdTier, cover, t + 1);
          VacancyShrinksUpwards(cfg.reserves, s, tier + 1, t + 1);
          TierRoom(cfg, s, tier, d - cover);
        }
      }
      forall t | tier <= t < holdTier && t < |cfg.reserves|
        ensures Usage(s', UpToTier(t)) == Usage(s, UpToTier(t)) + d
      {
      }
    }
  }

  lemma TierRoom(cfg: Config, s: Ledger, tier: int, need: int)
    requires Room(cfg, s, tier, need) == Admit && cfg.capacity > 0
    ensures Used(s) + need + VacancyFrom(cfg.reserves, s, tier + 1) <= cfg.capacity
  {
    hide Usage, VacancyFrom;
  }

  /** The tier whose units pay, in part or in whole, for a claim of this session. */
  function PayingTier(s: Ledger, name: string, tier: int): int {
    if name != "" && name in s.holds && s.holds[name].units > 0 then s.holds[name].tier else tier
  }

  /** A next stream always costs something, and a hold with units left pays for part of it. */
  lemma GrantCover(cfg: Config, s: Ledger, claim: Claim)
    requires Books(cfg, s)
    ensures var o := Charged(s.owners, claim);
            var cover := HoldCover(s.holds, claim.owner, NextUnits(o));
            && 0 <= cover <= NextUnits(o) && (cover == 0 ==> PayingTier(s, claim.owner, o.claim.tier) == o.claim.tier)
            && (cover > 0 ==> claim.owner in s.holds && PayingTier(s, claim.owner, o.claim.tier) == s.holds[claim.owner].tier)
  {
  }

  lemma GrantMovesTwo(cfg: Config, s: Ledger, claim: Claim)
    requires Books(cfg, s)
    ensures var o := Charged(s.owners, claim);
            var d := NextUnits(o);
            MovesTwo(s, Granted(cfg, s, claim), o.claim.tier, d, PayingTier(s, claim.owner, o.claim.tier), HoldCover(s.holds, claim.owner, d))
  {
    hide Usage, Granted, Books, Charged, NextUnits, HoldCover, PayingTier;
    GrantCover(cfg, s, claim);
    forall m: Measure {
      GrantUsage(cfg, s, claim, m);
    }
  }

  /** Without one tier per owner a granted claim keeps the reserves exactly when it fits between the two tiers. */
  lemma MixedGrantExactly(cfg: Config, s: Ledger, claim: Claim)
    requires Books(cfg, s) && AcquireVerdict(cfg, s, claim) == Admit && ReservesRespected(cfg, s)
    requires Charged(s.owners, claim).claim.tier >= 0
    ensures var o := Charged(s.owners, claim);
            ReservesRespected(cfg, Step(cfg, s, Acquire(claim))) <==>
            FitsBetween(cfg, s, o.claim.tier, NextUnits(o), PayingTier(s, claim.owner, o.claim.tier))
  {
    hide Books, Room, ReservesRespected, FitsBetween, Granted, MovesTwo, Charged, NextUnits, HoldCover, PayingTier, Usage, BestCard;
    var o := Charged(s.owners, claim);
    StepKeepsBooks(cfg, s, Acquire(claim));
    GrantMovesTwo(cfg, s, claim);
    GrantCover(cfg, s, claim);
    TwoTierCharge(cfg, s, Granted(cfg, s, claim), o.claim.tier, NextUnits(o), PayingTier(s, claim.owner, o.claim.tier),
                  HoldCover(s.holds, claim.owner, NextUnits(o)));
  }

  lemma ChangeCover(cfg: Config, s: Ledger, name: string, highRes: bool)
    requires Books(cfg, s) && Named(name) in s.owners
    ensures var o := s.owners[Named(name)];
            var delta := ResolutionDelta(o, highRes);
            var cover := HoldCover(s.holds, name, delta);
            delta > 0 ==>
              && 0 <= cover <= delta && (cover == 0 ==> PayingTier(s, name, o.claim.tier) == o.claim.tier)
              && (cover > 0 ==> name in s.holds && PayingTier(s, name, o.claim.tier) == s.holds[name].tier)
  {
  }

  lemma ChangeMovesTwo(cfg: Config, s: Ledger, name: string, highRes: bool)
    requires Books(cfg, s) && name != "" && Named(name) in s.owners && ChangeVerdict(cfg, s, name, highRes) == Admit
    requires ResolutionDelta(s.owners[Named(name)], highRes) > 0
    ensures var o := s.owners[Named(name)];
            var delta := ResolutionDelta(o, highRes);
            MovesTwo(s, Changed(cfg, s, name, highRes), o.claim.tier, delta, PayingTier(s, name, o.claim.tier), HoldCover(s.holds, name, delta))
  {
    hide Usage, Changed, Books, ResolutionDelta, HoldCover, PayingTier, ChangeVerdict;
    ChangeCover(cfg, s, name, highRes);
    forall m: Measure {
      ChangeUsage(cfg, s, name, highRes, m);
    }
  }

  lemma MixedChangeExactly(cfg: Config, s: Ledger, name: string, highRes: bool)
    requires Books(cfg, s) && name != "" && Named(name) in s.owners && ChangeVerdict(cfg, s, name, highRes) == Admit
    requires ReservesRespected(cfg, s) && s.owners[Named(name)].claim.tier >= 0 && ResolutionDelta(s.owners[Named(name)], highRes) > 0
    ensures var o := s.owners[Named(name)];
            ReservesRespected(cfg, Changed(cfg, s, name, highRes)) <==>
            FitsBetween(cfg, s, o.claim.tier, ResolutionDelta(o, highRes), PayingTier(s, name, o.claim.tier))
  {
    hide Books, Room, ReservesRespected, FitsBetween, Changed, MovesTwo, ResolutionDelta, HoldCover, PayingTier, Usage;
    var o := s.owners[Named(name)];
    StepKeepsBooks(cfg, s, ChangeResolution(name, highRes));
    ChangeMovesTwo(cfg, s, name, highRes);
    ChangeCover(cfg, s, name, highRes);
    TwoTierCharge(cfg, s, Changed(cfg, s, name, highRes), o.claim.tier, ResolutionDelta(o, highRes), PayingTier(s, name, o.claim.tier),
                  HoldCover(s.holds, name, ResolutionDelta(o, highRes)));
  }

  ghost predicate TiersCounted(s: Ledger) {
    (forall k :: k in s.owners ==> s.owners[k].claim.tier >= 0) && (forall n :: n in s.holds ==> s.holds[n].tier >= 0)
  }

  /** What a step must fit into beyond the two capacity rules, when owners and holds have tiers of their own. */
  ghost predicate FitsTiers(cfg: Config, s: Ledger, e: Event) {
    match e
    case Acquire(claim) =>
      var o := Charged(s.owners, claim);
      AcquireVerdict(cfg, s, claim) == Admit ==>
        FitsBetween(cfg, s, o.claim.tier, NextUnits(o), PayingTier(s, claim.owner, o.claim.tier))
    case ChangeResolution(name, highRes) =>
      name != "" && Named(name) in s.owners && ChangeVerdict(cfg, s, name, highRes) == Admit
      && ResolutionDelta(s.owners[Named(name)], highRes) > 0 ==>
        FitsBetween(cfg, s, s.owners[Named(name)].claim.tier, ResolutionDelta(s.owners[Named(name)], highRes),
                    PayingTier(s, name, s.owners[Named(name)].claim.tier))
    case _ => true
  }

  /** A change to a lower resolution gives units back at the owner's own tier. */
  lemma ChangeDownKeeps(cfg: Config, s: Ledger, name: string, highRes: bool)
    requires Books(cfg, s) && ReservesRespected(cfg, s) && TiersCounted(s)
    requires name != "" && Named(name) in s.owners ==> ResolutionDelta(s.owners[Named(name)], highRes) <= 0
    ensures ReservesRespected(cfg, Changed(cfg, s, name, highRes))
  {
    hide Usage, Books, ReservesRespected, ResolutionDelta;
    var s' := Changed(cfg, s, name, highRes);
    StepKeepsBooks(cfg, s, ChangeResolution(name, highRes));
    if name != "" && Named(name) in s.owners && ChangeVerdict(cfg, s, name, highRes) == Admit {
      var o := s.owners[Named(name)];
      var delta := ResolutionDelta(o, highRes);
      assert HoldCover(s.holds, name, delta) == 0;
      forall m: Measure {
        ChangeUsage(cfg, s, name, highRes, m);
      }
      hide Changed;
      assert Moves(s, s', o.claim.tier, delta);
      ReservesKept(cfg, s, s', o.claim.tier, delta);
    } else {
      NothingMoves(s, s', 0);
      ReservesKept(cfg, s, s', 0, 0);
    }
  }

  /** Over every step and whatever the tiers: the reserves are kept exactly when the charge fits between the tiers. */
  lemma ReservesKeptExactly(cfg: Config, s: Ledger, e: Event)
    requires Books(cfg, s) && ReservesRespected(cfg, s) && TiersCounted(s)
    requires e.Acquire? || e.PlaceHold? ==> e.claim.tier >= 0
    ensures ReservesRespected(cfg, Step(cfg, s, e)) <==> FitsTiers(cfg, s, e)
  {
    hide Usage, Books, ReservesRespected, FitsBetween, ResolutionDelta, Granted, Changed, HoldPlaced, HoldDropped, Released, Room;
    var s' := Step(cfg, s, e);
    StepKeepsBooks(cfg, s, e);
    match e
    case Acquire(claim) =>
      if AcquireVerdict(cfg, s, claim) == Admit {
        MixedGrantExactly(cfg, s, claim);
      } else {
        NothingMoves(s, s', 0);
        ReservesKept(cfg, s, s', 0, 0);
      }
    case ChangeResolution(name, highRes) =>
      if name != "" && Named(name) in s.owners && ResolutionDelta(s.owners[Named(name)], highRes) > 0 {
        if ChangeVerdict(cfg, s, name, highRes) == Admit {
          MixedChangeExactly(cfg, s, name, highRes);
        } else {
          RefusedChange(cfg, s, name, highRes);
        }
      } else {
        ChangeDownKeeps(cfg, s, name, highRes);
      }
    case _ => SingleTierKeeps(cfg, s, e);
  }

  lemma RefusedChange(cfg: Config, s: Ledger, name: string, highRes: bool)
    requires ChangeVerdict(cfg, s, name, highRes) != Admit
    ensures Changed(cfg, s, name, highRes) == s
  {
  }

  /** Releases, holds and the queue charge one tier at a time. */
  lemma SingleTierKeeps(cfg: Config, s: Ledger, e: Event)
    requires Books(cfg, s) && ReservesRespected(cfg, s) && TiersCounted(s) && !e.Acquire? && !e.ChangeResolution?
    requires e.PlaceHold? ==> e.claim.tier >= 0
    ensures ReservesRespected(cfg, Step(cfg, s, e))
  {
    hide Usage, Books, ReservesRespected;
    var s' := Step(cfg, s, e);
    StepKeepsBooks(cfg, s, e);
    var tier, x := 0, 0;
    if e.Release? && e.lease in s.leases {
      tier, x := ReleaseCharge(cfg, s, e.lease);
    } else if e.PlaceHold? && s' != s {
      HoldMoves(cfg, s, e.claim, e.units);
      tier, x := e.claim.tier, e.units;
    } else if e.DropHold? && e.name in s.holds {
      DropMoves(s, e.name);
      DropIsNegative(cfg, s, e.name);
      tier, x := s.holds[e.name].tier, -s.holds[e.name].units;
    } else {
      NothingMoves(s, s', 0);
    }
    ReservesKept(cfg, s, s', tier, x);
  }

  lemma DropIsNegative(cfg: Config, s: Ledger, name: string)
    requires Books(cfg, s) && name in s.holds
    ensures s.holds[name].units > 0
  {
  }

  lemma ReleaseCharge(cfg: Config, s: Ledger, lease: nat) returns (tier: int, x: int)
    requires Books(cfg, s) && lease in s.leases && TiersCounted(s)
    ensures Moves(s, Released(s, lease), tier, x) && tier >= 0 && x <= 0
  {
    hide Usage;
    var o := s.owners[s.leases[lease].key];
    ReleaseMoves(cfg, s, lease);
    tier, x := o.claim.tier, EgressUnits(o.claim.highRes, o.count - 1) - o.held;
  }

  /** Without one tier per owner the reserves can be broken: a hold placed at the top tier pays for a stream at the
      lowest, whose units then sit in the top tier's reserve. */
  lemma MixedTiersBreakReserves()
    ensures Configured(TopOnly)
    ensures !ReservesRespected(TopOnly, Step(TopOnly, Step(TopOnly, EmptyLedger(), PlaceHold(AtTop, 1)), Acquire(AtBottom)))
  {
    hide Total, BestCard, Usage, Books, VacancyFrom, HigherTierVacancy, ReservedFrom;
    TopOnlyFigures();
    EmptyBooks(TopOnly);
    var s0 := EmptyLedger();
    var s1 := HoldPlaced(TopOnly, s0, AtTop, 1);
    assert s1.holds == map["x" := Hold(1, 2, "plasma")];
    HoldMoves(TopOnly, s0, AtTop, 1);
    assert Usage(s1, AtTier(2)) == 1 && Usage(s1, AtTier(1)) == 0;
    StepKeepsBooks(TopOnly, s0, PlaceHold(AtTop, 1));
    assert AcquireVerdict(TopOnly, s1, AtBottom) == Admit;
    GrantUsage(TopOnly, s1, AtBottom, UpToTier(0));
    assert Usage(s1, UpToTier(0)) == 0;
    assert ReservedFrom(TopOnly.reserves, 0 + 1) == 1;
  }
}
