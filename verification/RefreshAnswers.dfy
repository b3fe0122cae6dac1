/** What the refresh store answers to a presented token and what becomes of the rows, outcome by outcome. */
module RefreshAnswers {
  import opened Basics
  import opened RefreshFamilies

  /** A token that can still be used: neither replaced nor revoked, and before its expiry. */
  predicate Usable(rows: map<Token, Row>, t: Token, now: int) {
    t in rows && rows[t].replacedBy == None && rows[t].revoked == None && now < rows[t].expiresAt
  }

  /** The family may live on: the idle time is positive and the absolute limit, counted from its oldest row, not reached. */
  predicate MayLiveOn(limits: Limits, now: int, oldest: int) { limits.idle > 0 && now < oldest + limits.absolute }

  /** Exactly when a presented token renews, and what it is otherwise turned away for. */
  lemma RotationAnswers(rows: map<Token, Row>, limits: Limits, t: Token, now: int, active: bool, admitted: bool, oldest: int)
    ensures var o := Judged(rows, limits, t, now, active, admitted, oldest);
            && (o == Renewed <==> Usable(rows, t, now) && active && admitted && MayLiveOn(limits, now, oldest))
            && (o == Invalid <==> t !in rows)
            && (o == Reused <==> t in rows && rows[t].replacedBy.Some?)
            && (o == Revoked <==> t in rows && rows[t].replacedBy.None? && rows[t].revoked.Some?)
            && (o == Expired <==>
                  && t in rows && rows[t].replacedBy.None? && rows[t].revoked.None?
                  && (now >= rows[t].expiresAt || (active && admitted && !MayLiveOn(limits, now, oldest))))
            && (o == Inactive <==> Usable(rows, t, now) && !active)
            && (o == Refused <==> Usable(rows, t, now) && active && !admitted)
  {
  }

  predicate UnchangedBut(rows: map<Token, Row>, rows': map<Token, Row>, touched: set<Token>) {
    forall x :: x in rows && x !in touched ==> x in rows' && rows'[x] == rows[x]
  }

  /** A family told to end: its unrevoked rows are revoked at that moment for that reason, revoked ones keep their own. */
  ghost predicate FamilyEnds(rows: map<Token, Row>, rows': map<Token, Row>, t: Token, now: int, reason: Reason)
    requires t in rows
  {
    && rows'.Keys == rows.Keys
    && (forall x :: x in rows && rows[x].family != rows[t].family ==> rows'[x] == rows[x])
    && (forall x :: x in rows && rows[x].family == rows[t].family ==>
          rows'[x].revoked == if rows[x].revoked.Some? then rows[x].revoked else Some(Revocation(now, reason)))
    && (forall x :: x in rows && rows[x].family == rows[t].family ==>
          rows'[x] == rows[x].(revoked := rows'[x].revoked, lastUsedAt := if x == t then Some(now) else rows[x].lastUsedAt))
  }

  /** What becomes of the table. */
  lemma RotationEffects(rows: map<Token, Row>, limits: Limits, t: Token, next: Token, now: int, active: bool, admitted: bool, oldest: int)
    requires next !in rows
    ensures var rows' := Rotated(rows, limits, t, next, now, active, admitted, oldest);
            match Judged(rows, limits, t, now, active, admitted, oldest)
            case Renewed =>
              && rows'.Keys == rows.Keys + {next} && UnchangedBut(rows, rows', {t})
              && rows'[next].user == rows[t].user && rows'[next].family == rows[t].family && rows'[next].createdAt == now
              && rows'[next].expiresAt == (if limits.idle <= oldest + limits.absolute - now then now + limits.idle else oldest + limits.absolute)
              && rows'[next].revoked.None? && rows'[next].replacedBy.None? && rows'[next].lastUsedAt.None?
              && rows'[t] == rows[t].(lastUsedAt := Some(now), revoked := Some(Revocation(now, ByRotation)), replacedBy := Some(next))
            case Reused => FamilyEnds(rows, rows', t, now, ByReuse)
            case Inactive => FamilyEnds(rows, rows', t, now, ByInactiveUser)
            case Expired =>
              && rows'.Keys == rows.Keys && UnchangedBut(rows, rows', {t})
              && rows'[t] == rows[t].(lastUsedAt := Some(now), revoked := Some(Revocation(now, ByExpiry)))
            case _ => rows' == rows
  {
    hide Judged;
    RotationAnswers(rows, limits, t, now, active, admitted, oldest);
  }

  /** Logging out takes a token that is neither revoked nor expired; it ends the family, anything else changes nothing. */
  lemma LogoutAnswers(rows: map<Token, Row>, t: Token, now: int)
    ensures var o, rows' := LogoutOutcome(rows, t, now), LoggedOut(rows, t, now);
            && (o == Invalid <==> t !in rows)
            && (o == Revoked <==> t in rows && rows[t].revoked.Some?)
            && (o == Expired <==> t in rows && rows[t].revoked.None? && now >= rows[t].expiresAt)
            && (o == Renewed <==> t in rows && rows[t].revoked.None? && now < rows[t].expiresAt)
            && (if o == Renewed then FamilyEnds(rows, rows', t, now, ByLogout) else rows' == rows)
  {
  }

  /** Over every run: a step hands out a new token of an existing family if and only if a usable one of that family was
      presented for an active, admitted user before both limits, the absolute one counted from the family's oldest row. */
  lemma RenewsExactly(s: Sessions, limits: Limits, e: Event)
    requires Inv(s, limits) && Enabled(s, e) && e.Rotate?
    ensures e.next in Step(s, limits, e).rows <==>
            && Usable(s.rows, e.presented, e.now) && e.active && e.admitted && limits.idle > 0
            && forall x :: x in s.rows && s.rows[x].family == s.rows[e.presented].family ==> e.now < s.rows[x].createdAt + limits.absolute
  {
    RotationAnswers(s.rows, limits, e.presented, e.now, e.active, e.admitted, FirstAt(s, e));
    RotationEffects(s.rows, limits, e.presented, e.next, e.now, e.active, e.admitted, FirstAt(s, e));
    hide Inv, Judged, Rotated, FamilyEnds;
  }

  /** A session starts with one usable row, for an active user alone. */
  lemma CreateAnswers(s: Sessions, limits: Limits, e: Event)
    requires Enabled(s, e) && e.Create?
    ensures var s' := Step(s, limits, e);
            if !e.active then s' == s
            else
              && s'.rows.Keys == s.rows.Keys + {e.token} && UnchangedBut(s.rows, s'.rows, {})
              && s'.rows[e.token] == Row(e.user, e.family, e.now + (if limits.idle <= limits.absolute then limits.idle else limits.absolute), e.now, None, None, None)
  {
  }
}
