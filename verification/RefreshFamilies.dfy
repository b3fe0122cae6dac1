/** Refresh session families (internal/auth/refresh_store.go, token.go): rotation with reuse detection as in section 4.14.2 of
    RFC 9700.  Each database transaction is one step.  Rows are keyed by their token, which stands for the row's id as well. */
module RefreshFamilies {
  import opened Basics

  type Token = nat
  type User = nat
  type Family = nat

  datatype Reason = ByRotation | ByLogout | ByReuse | ByInactiveUser | ByExpiry
  datatype Revocation = Revocation(at: int, reason: Reason)

  datatype Row = Row(user: User, family: Family, expiresAt: int, createdAt: int,
                     lastUsedAt: Option<int>, revoked: Option<Revocation>, replacedBy: Option<Token>)

  datatype Limits = Limits(idle: int, absolute: int)

  /** What presenting a token comes to. */
  datatype Outcome = Renewed | Invalid | Reused | Revoked | Expired | Inactive | Refused

  function Earlier(a: int, b: int): int { if a < b then a else b }

  function Fresh(user: User, family: Family, expiresAt: int, now: int): Row {
    Row(user, family, expiresAt, now, None, None, None)
  }

  // ---------- The updates ----------

  function Touched(rows: map<Token, Row>, t: Token, now: int): map<Token, Row>
    requires t in rows
  {
    rows[t := rows[t].(lastUsedAt := Some(now))]
  }

  function RevokedRow(row: Row, now: int, reason: Reason): Row {
    if row.revoked.None? then row.(revoked := Some(Revocation(now, reason))) else row
  }

  function RevokedFamily(rows: map<Token, Row>, f: Family, now: int, reason: Reason): map<Token, Row> {
    map t | t in rows :: if rows[t].family == f then RevokedRow(rows[t], now, reason) else rows[t]
  }

  /** The oldest row of a family; which one, when several are equally old, does not matter. */
  ghost predicate IsFirst(rows: map<Token, Row>, f: Family, first: Token) {
    && first in rows && rows[first].family == f
    && forall t :: t in rows && rows[t].family == f ==> rows[first].createdAt <= rows[t].createdAt
  }

  function NextExpiry(limits: Limits, now: int, firstCreatedAt: int): int {
    Earlier(now + limits.idle, firstCreatedAt + limits.absolute)
  }

  function Judged(rows: map<Token, Row>, limits: Limits, t: Token, now: int, active: bool, admitted: bool, firstCreatedAt: int): Outcome {
    if t !in rows then Invalid
    else if rows[t].replacedBy.Some? then Reused
    else if rows[t].revoked.Some? then Revoked
    else if now >= rows[t].expiresAt then Expired
    else if !active then Inactive
    else if !admitted then Refused
    else if now >= NextExpiry(limits, now, firstCreatedAt) then Expired
    else Renewed
  }

  function Expire(rows: map<Token, Row>, t: Token, now: int): map<Token, Row>
    requires t in rows
  {
    if rows[t].revoked.None?
    then rows[t := rows[t].(revoked := Some(Revocation(now, ByExpiry)), lastUsedAt := Some(now))] else rows
  }

  function Renew(rows: map<Token, Row>, t: Token, next: Token, expiresAt: int, now: int): map<Token, Row>
    requires t in rows
  {
    rows[next := Fresh(rows[t].user, rows[t].family, expiresAt, now)]
        [t := rows[t].(lastUsedAt := Some(now), revoked := Some(Revocation(now, ByRotation)), replacedBy := Some(next))]
  }

  function Rotated(rows: map<Token, Row>, limits: Limits, t: Token, next: Token, now: int,
                   active: bool, admitted: bool, firstCreatedAt: int): map<Token, Row>
  {
    match Judged(rows, limits, t, now, active, admitted, firstCreatedAt)
    case Invalid => rows
    case Reused => RevokedFamily(Touched(rows, t, now), rows[t].family, now, ByReuse)
    case Revoked => rows
    case Expired => Expire(rows, t, now)
    case Inactive => RevokedFamily(Touched(rows, t, now), rows[t].family, now, ByInactiveUser)
    case Refused => rows
    case Renewed => Renew(rows, t, next, NextExpiry(limits, now, firstCreatedAt), now)
  }

  function LogoutOutcome(rows: map<Token, Row>, t: Token, now: int): Outcome {
    if t !in rows then Invalid
    else if rows[t].revoked.Some? then Revoked
    else if now >= rows[t].expiresAt then Expired
    else Renewed
  }

  /** Only the family's current token logs it out. */
  function LoggedOut(rows: map<Token, Row>, t: Token, now: int): map<Token, Row> {
    if LogoutOutcome(rows, t, now).Renewed? then RevokedFamily(Touched(rows, t, now), rows[t].family, now, ByLogout) else rows
  }

  // ---------- Runs ----------

  /** The table, and for each family its tokens in the order they were handed out. */
  datatype Sessions = Sessions(rows: map<Token, Row>, chains: map<Family, seq<Token>>)

  datatype Event =
    | Create(user: User, family: Family, token: Token, now: int, active: bool)
    | Rotate(presented: Token, next: Token, now: int, active: bool, admitted: bool, first: Token)
    | Logout(presented: Token, now: int)

  /** New families and tokens are new; the row taken as the oldest is the oldest. */
  ghost predicate Enabled(s: Sessions, e: Event) {
    match e
    case Create(_, family, token, _, _) => family !in s.chains && token !in s.rows
    case Rotate(presented, next, _, _, _, first) =>
      next !in s.rows && (presented in s.rows ==> IsFirst(s.rows, s.rows[presented].family, first))
    case Logout(_, _) => true
  }

  ghost function FirstAt(s: Sessions, e: Event): int
    requires e.Rotate? && Enabled(s, e)
  {
    if e.presented in s.rows then s.rows[e.first].createdAt else 0
  }

  ghost predicate Succeeds(s: Sessions, limits: Limits, e: Event)
    requires Enabled(s, e)
  {
    e.Rotate? && Judged(s.rows, limits, e.presented, e.now, e.active, e.admitted, FirstAt(s, e)).Renewed?
  }

  ghost function Step(s: Sessions, limits: Limits, e: Event): Sessions
    requires Enabled(s, e)
  {
    match e
    case Create(user, family, token, now, active) =>
      if !active then s
      else Sessions(s.rows[token := Fresh(user, family, Earlier(now + limits.idle, now + limits.absolute), now)],
                    s.chains[family := [token]])
    case Rotate(presented, next, now, active, admitted, first) =>
      Sessions(Rotated(s.rows, limits, presented, next, now, active, admitted, FirstAt(s, e)),
               if Succeeds(s, limits, e) && s.rows[presented].family in s.chains
               then s.chains[s.rows[presented].family := s.chains[s.rows[presented].family] + [next]] else s.chains)
    case Logout(presented, now) => s.(rows := LoggedOut(s.rows, presented, now))
  }

  /** A family is one chain: each token but the last is revoked and replaced by the one after it, the last is not replaced, and
      none outlives the first by more than the absolute limit. */
  ghost predicate ChainOk(rows: map<Token, Row>, limits: Limits, f: Family, chain: seq<Token>) {
    && chain != []
    && (forall i, j :: 0 <= i < j < |chain| ==> chain[i] != chain[j])
    && (forall i :: 0 <= i < |chain| ==> chain[i] in rows && rows[chain[i]].family == f)
    && (forall i :: 0 <= i < |chain| - 1 ==> rows[chain[i]].replacedBy == Some(chain[i + 1]) && rows[chain[i]].revoked.Some?)
    && rows[chain[|chain| - 1]].replacedBy.None?
    && (forall i :: 0 <= i < |chain| ==> rows[chain[i]].expiresAt <= rows[chain[0]].createdAt + limits.absolute)
  }

  ghost predicate Inv(s: Sessions, limits: Limits) {
    && (forall f :: f in s.chains ==> ChainOk(s.rows, limits, f, s.chains[f]))
    && Listed(s.rows, s.chains)
  }

  /** Every row is in the chain of its family. */
  ghost predicate Listed(rows: map<Token, Row>, chains: map<Family, seq<Token>>) {
    forall t :: t in rows ==> rows[t].family in chains && t in chains[rows[t].family]
  }

  /** A change that keeps families, links and dates, and only ever revokes. */
  ghost predicate OnlyRevokes(rows: map<Token, Row>, rows': map<Token, Row>) {
    && rows'.Keys == rows.Keys
    && forall t :: t in rows ==>
         rows'[t] == rows[t].(lastUsedAt := rows'[t].lastUsedAt, revoked := rows'[t].revoked) &&
         (rows[t].revoked.Some? ==> rows'[t].revoked == rows[t].revoked)
  }

  lemma ChainKept(rows: map<Token, Row>, rows': map<Token, Row>, limits: Limits, f: Family, chain: seq<Token>)
    requires ChainOk(rows, limits, f, chain)
    requires forall t :: t in rows && rows[t].family == f ==>
               t in rows' && rows'[t] == rows[t].(lastUsedAt := rows'[t].lastUsedAt, revoked := rows'[t].revoked) &&
               (rows[t].revoked.Some? ==> rows'[t].revoked.Some?)
    ensures ChainOk(rows', limits, f, chain)
  {
  }

  lemma RevokesKeeps(s: Sessions, rows': map<Token, Row>, limits: Limits)
    requires Inv(s, limits) && OnlyRevokes(s.rows, rows')
    ensures Inv(s.(rows := rows'), limits)
  {
    hide ChainOk;
    forall f | f in s.chains
      ensures ChainOk(rows', limits, f, s.chains[f])
    {
      ChainKept(s.rows, rows', limits, f, s.chains[f]);
    }
  }

  lemma FamilyRevokes(rows: map<Token, Row>, t: Token, f: Family, now: int, reason: Reason)
    requires t in rows
    ensures OnlyRevokes(rows, RevokedFamily(Touched(rows, t, now), f, now, reason))
  {
  }

  /** An unreplaced token is the last of its family's chain. */
  lemma LastOfChain(s: Sessions, limits: Limits, t: Token)
    requires Inv(s, limits) && t in s.rows
    ensures var chain := s.chains[s.rows[t].family];
            chain != [] && (s.rows[t].replacedBy.None? ==> chain[|chain| - 1] == t)
  {
    var chain := s.chains[s.rows[t].family];
    assert ChainOk(s.rows, limits, s.rows[t].family, chain);
    var i :| 0 <= i < |chain| && chain[i] == t;
    if i < |chain| - 1 {
      assert s.rows[chain[i]].replacedBy == Some(chain[i + 1]);
    }
  }

  lemma RootDates(s: Sessions, limits: Limits, f: Family, first: Token)
    requires Inv(s, limits) && f in s.chains && IsFirst(s.rows, f, first)
    ensures s.chains[f] != [] && s.chains[f][0] in s.rows && s.rows[first].createdAt <= s.rows[s.chains[f][0]].createdAt
  {
    assert ChainOk(s.rows, limits, f, s.chains[f]);
  }

  /** Renewing the last token of a chain makes the chain one longer. */
  lemma RenewChain(rows: map<Token, Row>, limits: Limits, f: Family, chain: seq<Token>, next: Token, expiresAt: int, now: int)
    requires ChainOk(rows, limits, f, chain) && next !in rows
    requires expiresAt <= rows[chain[0]].createdAt + limits.absolute
    ensures ChainOk(Renew(rows, chain[|chain| - 1], next, expiresAt, now), limits, f, chain + [next])
  {
    var t := chain[|chain| - 1];
    var rows' := Renew(rows, t, next, expiresAt, now);
    var chain' := chain + [next];
    assert rows'[t].replacedBy == Some(next) && t != next;
    assert forall i :: 0 <= i < |chain| ==> chain'[i] == chain[i] && chain[i] != next;
    assert forall i :: 0 <= i < |chain| - 1 ==> chain[i] != t && rows'[chain[i]] == rows[chain[i]];
    assert rows'[chain[0]].createdAt == rows[chain[0]].createdAt;
  }

  lemma ListedLonger(rows: map<Token, Row>, rows': map<Token, Row>, chains: map<Family, seq<Token>>, f: Family, next: Token)
    requires Listed(rows, chains) && f in chains && next in rows' && rows'[next].family == f
    requires forall t :: t in rows' && t != next ==> t in rows && rows'[t].family == rows[t].family
    ensures Listed(rows', chains[f := chains[f] + [next]])
  {
    var chain := chains[f] + [next];
    assert chain[|chains[f]|] == next;
    forall t | t in rows' && t != next && rows'[t].family == f
      ensures t in chain
    {
      var i :| 0 <= i < |chains[f]| && chains[f][i] == t;
      assert chain[i] == t;
    }
  }

  lemma RenewListed(rows: map<Token, Row>, chains: map<Family, seq<Token>>, t: Token, next: Token, expiresAt: int, now: int)
    requires Listed(rows, chains) && t in rows && next !in rows && rows[t].family in chains
    ensures Listed(Renew(rows, t, next, expiresAt, now), chains[rows[t].family := chains[rows[t].family] + [next]])
  {
    var rows' := Renew(rows, t, next, expiresAt, now);
    assert rows'[next].family == rows[t].family;
    ListedLonger(rows, rows', chains, rows[t].family, next);
  }

  lemma RenewKeeps(s: Sessions, limits: Limits, t: Token, next: Token, first: Token, now: int)
    requires Inv(s, limits) && t in s.rows && s.rows[t].replacedBy.None? && next !in s.rows && IsFirst(s.rows, s.rows[t].family, first)
    ensures var f := s.rows[t].family;
            && f in s.chains
            && Inv(Sessions(Renew(s.rows, t, next, NextExpiry(limits, now, s.rows[first].createdAt), now),
                            s.chains[f := s.chains[f] + [next]]), limits)
  {
    var f := s.rows[t].family;
    var expiresAt := NextExpiry(limits, now, s.rows[first].createdAt);
    var rows', chains' := Renew(s.rows, t, next, expiresAt, now), s.chains[f := s.chains[f] + [next]];
    LastOfChain(s, limits, t);
    RootDates(s, limits, f, first);
    hide ChainOk, IsFirst;
    RenewChain(s.rows, limits, f, s.chains[f], next, expiresAt, now);
    RenewListed(s.rows, s.chains, t, next, expiresAt, now);
    hide Listed, Renew, NextExpiry;
    forall g | g in chains'
      ensures ChainOk(rows', limits, g, chains'[g])
    {
      if g != f {
        OtherChain(s.rows, limits, g, s.chains[g], t, next, expiresAt, now);
      }
    }
  }

  lemma OtherChain(rows: map<Token, Row>, limits: Limits, g: Family, chain: seq<Token>, t: Token, next: Token, expiresAt: int, now: int)
    requires ChainOk(rows, limits, g, chain) && t in rows && rows[t].family != g && next !in rows
    ensures ChainOk(Renew(rows, t, next, expiresAt, now), limits, g, chain)
  {
    hide ChainOk;
    ChainKept(rows, Renew(rows, t, next, expiresAt, now), limits, g, chain);
  }

  lemma ChainOfOne(rows: map<Token, Row>, limits: Limits, token: Token, row: Row)
    requires row.replacedBy.None? && row.expiresAt <= row.createdAt + limits.absolute
    ensures ChainOk(rows[token := row], limits, row.family, [token])
  {
  }

  lemma ListedNew(rows: map<Token, Row>, chains: map<Family, seq<Token>>, token: Token, row: Row)
    requires Listed(rows, chains) && row.family !in chains
    ensures Listed(rows[token := row], chains[row.family := [token]])
  {
  }

  lemma CreateKeeps(s: Sessions, limits: Limits, e: Event)
    requires Inv(s, limits) && Enabled(s, e) && e.Create? && e.active
    ensures Inv(Step(s, limits, e), limits)
  {
    var s' := Step(s, limits, e);
    ChainOfOne(s.rows, limits, e.token, s'.rows[e.token]);
    ListedNew(s.rows, s.chains, e.token, s'.rows[e.token]);
    hide ChainOk, Listed;
    forall g | g in s'.chains
      ensures ChainOk(s'.rows, limits, g, s'.chains[g])
    {
      if g != e.family {
        ChainKept(s.rows, s'.rows, limits, g, s.chains[g]);
      }
    }
  }

  lemma StepKeepsInv(s: Sessions, limits: Limits, e: Event)
    requires Inv(s, limits) && Enabled(s, e)
    ensures Inv(Step(s, limits, e), limits)
  {
    if Succeeds(s, limits, e) {
      hide ChainOk, Listed, IsFirst, Renew;
      RenewKeeps(s, limits, e.presented, e.next, e.first, e.now);
    } else if e.Create? {
      if e.active {
        CreateKeeps(s, limits, e);
      }
    } else {
      hide Inv;
      QuietStep(s, limits, e);
      RevokesKeeps(s, Step(s, limits, e).rows, limits);
    }
  }

  /** Every other step only revokes. */
  lemma QuietStep(s: Sessions, limits: Limits, e: Event)
    requires Enabled(s, e) && !e.Create? && !Succeeds(s, limits, e)
    ensures OnlyRevokes(s.rows, Step(s, limits, e).rows) && Step(s, limits, e).chains == s.chains
  {
    if e.presented in s.rows {
      hide RevokedFamily, Touched;
      forall reason: Reason
        ensures OnlyRevokes(s.rows, RevokedFamily(Touched(s.rows, e.presented, e.now), s.rows[e.presented].family, e.now, reason))
      {
        FamilyRevokes(s.rows, e.presented, s.rows[e.presented].family, e.now, reason);
      }
    }
  }

  // ---------- What it means ----------

  /** At most one token of a family is unrevoked, and it is the newest. */
  lemma OneLiveToken(s: Sessions, limits: Limits, a: Token, b: Token)
    requires Inv(s, limits) && a in s.rows && b in s.rows && s.rows[a].family == s.rows[b].family
    requires s.rows[a].revoked.None? && s.rows[b].revoked.None?
    ensures a == b && s.rows[a].replacedBy.None?
  {
    var chain := s.chains[s.rows[a].family];
    var i :| 0 <= i < |chain| && chain[i] == a;
    var j :| 0 <= j < |chain| && chain[j] == b;
    assert i == |chain| - 1 && j == |chain| - 1;
  }

  /** A replaced token is revoked. */
  lemma ReplacedIsRevoked(s: Sessions, limits: Limits, t: Token)
    requires Inv(s, limits) && t in s.rows && s.rows[t].replacedBy.Some?
    ensures s.rows[t].revoked.Some?
  {
    var chain := s.chains[s.rows[t].family];
    var i :| 0 <= i < |chain| && chain[i] == t;
    assert i < |chain| - 1;
  }

  /** No token of the family can be renewed any more. */
  ghost predicate Dead(s: Sessions, f: Family) {
    f in s.chains && FamilyRevoked(s.rows, f)
  }

  /** Presenting a replaced token kills its family, unrevoked newest token included; so does an inactive user, and a logout. */
  lemma ReuseKills(s: Sessions, limits: Limits, e: Event)
    requires Inv(s, limits) && Enabled(s, e) && !e.Create? && e.presented in s.rows
    requires e.Rotate? ==> s.rows[e.presented].replacedBy.Some? ||
                           Judged(s.rows, limits, e.presented, e.now, e.active, e.admitted, FirstAt(s, e)).Inactive?
    requires e.Logout? ==> LogoutOutcome(s.rows, e.presented, e.now).Renewed?
    ensures Dead(Step(s, limits, e), s.rows[e.presented].family)
  {
    hide ChainOk, RevokedFamily, Touched, IsFirst;
    forall reason: Reason
      ensures FamilyRevoked(RevokedFamily(Touched(s.rows, e.presented, e.now), s.rows[e.presented].family, e.now, reason),
                            s.rows[e.presented].family)
    {
      AllRevoked(s.rows, e.presented, s.rows[e.presented].family, e.now, reason);
    }
  }

  ghost predicate FamilyRevoked(rows: map<Token, Row>, f: Family) {
    forall t :: t in rows && rows[t].family == f ==> rows[t].revoked.Some?
  }

  lemma AllRevoked(rows: map<Token, Row>, t: Token, f: Family, now: int, reason: Reason)
    requires t in rows
    ensures FamilyRevoked(RevokedFamily(Touched(rows, t, now), f, now, reason), f)
  {
  }

  lemma DeadStays(s: Sessions, limits: Limits, e: Event, f: Family)
    requires Inv(s, limits) && Enabled(s, e) && Dead(s, f)
    ensures Dead(Step(s, limits, e), f)
    ensures Succeeds(s, limits, e) ==> s.rows[e.presented].family != f
  {
    hide ChainOk, RevokedFamily, Touched, IsFirst, Expire;
    if e.Create? || Succeeds(s, limits, e) {
      assert forall t :: t in s.rows ==> s.rows[t].family in s.chains;
    } else {
      QuietStep(s, limits, e);
      OnlyRevokesDead(s.rows, Step(s, limits, e).rows, f);
      hide Step;
    }
  }

  lemma OnlyRevokesDead(rows: map<Token, Row>, rows': map<Token, Row>, f: Family)
    requires OnlyRevokes(rows, rows') && FamilyRevoked(rows, f)
    ensures FamilyRevoked(rows', f)
  {
  }

  ghost predicate Runs(s: Sessions, limits: Limits, run: seq<Event>)
    decreases |run|
  {
    run == [] || (Enabled(s, run[0]) && Runs(Step(s, limits, run[0]), limits, run[1..]))
  }

  ghost function After(s: Sessions, limits: Limits, run: seq<Event>): Sessions
    requires Runs(s, limits, run)
    decreases |run|
  {
    if run == [] then s else After(Step(s, limits, run[0]), limits, run[1..])
  }

  /** Whether some step of the run renews a token of the family. */
  ghost predicate RenewsIn(s: Sessions, limits: Limits, run: seq<Event>, f: Family)
    requires Runs(s, limits, run)
    decreases |run|
  {
    run != [] &&
    ((Succeeds(s, limits, run[0]) && s.rows[run[0].presented].family == f) ||
     RenewsIn(Step(s, limits, run[0]), limits, run[1..], f))
  }

  /** Over every run the families stay chains, and a dead family stays dead: none of its tokens ever renews again. */
  lemma {:induction false} RunKeepsFamilies(s: Sessions, limits: Limits, run: seq<Event>, f: Family)
    requires Inv(s, limits) && Runs(s, limits, run)
    ensures Inv(After(s, limits, run), limits)
    ensures Dead(s, f) ==> Dead(After(s, limits, run), f) && !RenewsIn(s, limits, run, f)
    decreases |run|
  {
    hide Inv, Step, Enabled, Dead, Succeeds;
    if run != [] {
      StepKeepsInv(s, limits, run[0]);
      if Dead(s, f) {
        DeadStays(s, limits, run[0], f);
      }
      RunKeepsFamilies(Step(s, limits, run[0]), limits, run[1..], f);
    }
  }

  /** Main theorem: in a reachable table, presenting any replaced token ends its family for good. */
  lemma ReuseEndsFamily(limits: Limits, before: seq<Event>, reuse: Event, after: seq<Event>)
    requires Runs(Sessions(map[], map[]), limits, before)
    requires var s := After(Sessions(map[], map[]), limits, before);
             && Enabled(s, reuse) && reuse.Rotate? && reuse.presented in s.rows && s.rows[reuse.presented].replacedBy.Some?
             && Runs(Step(s, limits, reuse), limits, after)
    ensures var s := After(Sessions(map[], map[]), limits, before);
            !RenewsIn(Step(s, limits, reuse), limits, after, s.rows[reuse.presented].family)
  {
    var s := After(Sessions(map[], map[]), limits, before);
    RunKeepsFamilies(Sessions(map[], map[]), limits, before, 0);
    StepKeepsInv(s, limits, reuse);
    ReuseKills(s, limits, reuse);
    RunKeepsFamilies(Step(s, limits, reuse), limits, after, s.rows[reuse.presented].family);
  }

  /** No token of a reachable family outlives the family's first token by more than the absolute limit, whatever the clocks. */
  lemma ExpiryBounded(s: Sessions, limits: Limits, t: Token)
    requires Inv(s, limits) && t in s.rows
    ensures var root := s.chains[s.rows[t].family][0];
            root in s.rows && s.rows[root].family == s.rows[t].family && s.rows[t].expiresAt <= s.rows[root].createdAt + limits.absolute
  {
    var chain := s.chains[s.rows[t].family];
    assert ChainOk(s.rows, limits, s.rows[t].family, chain);
    var i :| 0 <= i < |chain| && chain[i] == t;
    assert chain[0] in s.rows;
  }
}
