/** The refresh store in the form of the source: one table of rows, changed in place by each transaction. */
module RefreshStores {
  import opened Basics
  import opened RefreshFamilies

  class RefreshStore {
    const limits: Limits
    var rows: map<Token, Row>

    constructor (limits: Limits)
      ensures this.limits == limits && rows == map[]
    {
      this.limits, rows := limits, map[];
    }

    method CreateSession(user: User, family: Family, token: Token, now: int, active: bool) returns (ok: bool)
      requires token !in rows
      modifies this
      ensures ok == active
      ensures rows == if active
                      then old(rows)[token := Fresh(user, family, Earlier(now + limits.idle, now + limits.absolute), now)]
                      else old(rows)
    {
      if !active {
        return false;
      }
      rows := rows[token := Fresh(user, family, Earlier(now + limits.idle, now + limits.absolute), now)];
      return true;
    }

    /** The first row of a family by date of creation. */
    method TakeFirst(family: Family, some: Token) returns (first: Token)
      requires some in rows && rows[some].family == family
      ensures IsFirst(rows, family, first)
    {
      first := some;
      var todo := rows.Keys;
      while todo != {}
        invariant todo <= rows.Keys && first in rows && rows[first].family == family
        invariant forall t :: t in rows && t !in todo && rows[t].family == family ==> rows[first].createdAt <= rows[t].createdAt
        decreases |todo|
      {
        var t :| t in todo;
        todo := todo - {t};
        if rows[t].family == family && rows[t].createdAt < rows[first].createdAt {
          first := t;
        }
      }
    }

    method RevokeFamily(family: Family, now: int, reason: Reason)
      modifies this
      ensures rows == RevokedFamily(old(rows), family, now, reason)
    {
      var todo := rows.Keys;
      while todo != {}
        invariant todo <= rows.Keys == old(rows).Keys
        invariant forall t :: t in rows ==>
                    rows[t] == if t !in todo && old(rows)[t].family == family then RevokedRow(old(rows)[t], now, reason) else old(rows)[t]
        decreases |todo|
      {
        var t :| t in todo;
        todo := todo - {t};
        if rows[t].family == family && rows[t].revoked.None? {
          rows := rows[t := rows[t].(revoked := Some(Revocation(now, reason)))];
        }
      }
    }

    method Touch(t: Token, now: int)
      requires t in rows
      modifies this
      ensures rows == Touched(old(rows), t, now)
    {
      rows := rows[t := rows[t].(lastUsedAt := Some(now))];
    }

    /** Presenting a token: the table changes by exactly one rotation step, with an oldest row of the family as its root. */
    method Rotate(presented: Token, next: Token, now: int, active: bool, admitted: bool) returns (outcome: Outcome, first: Token)
      requires next !in rows
      modifies this
      ensures presented in old(rows) ==> IsFirst(old(rows), old(rows)[presented].family, first)
      ensures var created := if presented in old(rows) then old(rows)[first].createdAt else 0;
              && outcome == Judged(old(rows), limits, presented, now, active, admitted, created)
              && rows == Rotated(old(rows), limits, presented, next, now, active, admitted, created)
    {
      hide IsFirst, RevokedFamily;
      first := 0;
      if presented !in rows {
        return Invalid, first;
      }
      var current := rows[presented];
      first := TakeFirst(current.family, presented);
      assert first in rows by { FirstListed(rows, current.family, first); }
      if current.replacedBy.Some? {
        Touch(presented, now);
        RevokeFamily(current.family, now, ByReuse);
        return Reused, first;
      }
      if current.revoked.Some? {
        return Revoked, first;
      }
      if now >= current.expiresAt {
        rows := Expire(rows, presented, now);
        return Expired, first;
      }
      if !active {
        Touch(presented, now);
        RevokeFamily(current.family, now, ByInactiveUser);
        return Inactive, first;
      }
      if !admitted {
        return Refused, first;
      }
      var nextExpiresAt := Earlier(now + limits.idle, rows[first].createdAt + limits.absolute);
      if now >= nextExpiresAt {
        rows := Expire(rows, presented, now);
        return Expired, first;
      }
      rows := rows[next := Fresh(current.user, current.family, nextExpiresAt, now)];
      rows := rows[presented := current.(lastUsedAt := Some(now), revoked := Some(Revocation(now, ByRotation)), replacedBy := Some(next))];
      return Renewed, first;
    }

    method RevokeFamilyByHash(presented: Token, now: int) returns (outcome: Outcome)
      modifies this
      ensures outcome == LogoutOutcome(old(rows), presented, now)
      ensures rows == LoggedOut(old(rows), presented, now)
    {
      if presented !in rows {
        return Invalid;
      }
      if rows[presented].revoked.Some? {
        return Revoked;
      }
      if now >= rows[presented].expiresAt {
        return Expired;
      }
      var family := rows[presented].family;
      Touch(presented, now);
      RevokeFamily(family, now, ByLogout);
      return Renewed;
    }
  }

  lemma FirstListed(rows: map<Token, Row>, f: Family, first: Token)
    requires IsFirst(rows, f, first)
    ensures first in rows
  {
  }
}
