/** The stored rows and the access token provider in the form of the source.  The provider's loop is proved for a call that is
    undisturbed or overtaken once by another process; arbitrary interleavings are TokenRotation.dfy. */
module AccessTokens {
  import opened Basics
  import opened TokenRotation

  type User = nat

  class AccountStore {
    var rows: map<User, Row>

    constructor ()
      ensures rows == map[]
    {
      rows := map[];
    }

    function Get(u: User): Option<Row>
      reads this
    {
      if u in rows then Some(rows[u]) else None
    }

    /** Connecting, again or for the first time: whatever was stored is replaced and unmarked. */
    method Upsert(u: User, token: Token)
      modifies this
      ensures rows == old(rows)[u := Row(token, false)]
    {
      rows := rows[u := Row(token, false)];
    }

    method UpdateRefreshToken(u: User, previous: Token, token: Token) returns (stored: bool)
      modifies this
      ensures Get(u) == Swapped(old(Get(u)), previous, token)
      ensures forall v :: v != u ==> Get(v) == old(Get(v))
      ensures stored <==> old(Get(u)).Some? && old(Get(u)).value.token == previous
    {
      if u !in rows || rows[u].token != previous {
        return false;
      }
      rows := rows[u := Row(token, false)];
      return true;
    }

    method MarkReconnectRequired(u: User, rejected: Token)
      modifies this
      ensures Get(u) == MarkedIf(old(Get(u)), rejected)
      ensures forall v :: v != u ==> Get(v) == old(Get(v))
    {
      if u in rows && rows[u].token == rejected {
        rows := rows[u := rows[u].(marked := true)];
      }
    }

    method ClearReconnectRequired(u: User)
      modifies this
      ensures Get(u) == Cleared(old(Get(u)))
      ensures forall v :: v != u ==> Get(v) == old(Get(v))
    {
      if u in rows && rows[u].marked {
        rows := rows[u := rows[u].(marked := false)];
      }
    }
  }

  /** The platform: one valid token, consumed when it hands out the next. */
  class Platform {
    var valid: Token
    var next: Token

    constructor (valid: Token)
      ensures this.valid == valid && next == valid + 1
    {
      this.valid, next := valid, valid + 1;
    }

    method RefreshAccessToken(token: Token, rotates: bool) returns (issued: Option<Token>)
      requires valid < next
      modifies this
      ensures valid < next && (issued.Some? <==> token == old(valid)) && (issued.Some? ==> issued.value == valid)
      ensures valid == if token == old(valid) && rotates then old(next) else old(valid)
    {
      if token != valid {
        return None;
      }
      if rotates {
        valid, next := next, next + 1;
      }
      return Some(valid);
    }
  }

  /** A cached access token is not used in its last minute. */
  const ACCESS_TOKEN_SLACK := 60

  datatype Answer = Cached | Granted | NotConnected | ReconnectRequired

  class AccessTokenProvider {
    const store: AccountStore
    const platform: Platform
    /** When the cached access token expires, in seconds, if there is one. */
    var expiresAt: map<User, int>

    constructor (store: AccountStore, platform: Platform)
      ensures this.store == store && this.platform == platform && expiresAt == map[]
    {
      this.store, this.platform, expiresAt := store, platform, map[];
    }

    /** Another process rotates the stored token and stores the new one. */
    method RotateElsewhere(u: User)
      requires platform.valid < platform.next
      modifies store, platform
      ensures platform.valid < platform.next
      ensures if old(u in store.rows && store.rows[u].token == platform.valid)
              then platform.valid == old(platform.next) && store.rows == old(store.rows)[u := Row(platform.valid, false)]
              else platform.valid == old(platform.valid) && store.rows == old(store.rows)
    {
      if u in store.rows && store.rows[u].token == platform.valid {
        var issued := platform.RefreshAccessToken(store.rows[u].token, true);
        store.rows := store.rows[u := Row(issued.value, false)];
      }
    }

    /** A call answers from the cache, or leaves the stored token valid and unmarked, or says why it cannot; being overtaken by
        another process between reading the row and using its token makes no difference. */
    method AccessToken(u: User, now: int, expiresIn: int, rotates: bool, overtaken: bool) returns (answer: Answer)
      requires platform.valid < platform.next
      modifies this, store, platform
      ensures answer == Cached <==> u in old(expiresAt) && now + 60 < old(expiresAt)[u]
      ensures answer == NotConnected <==> answer != Cached && old(store.Get(u)).None?
      ensures answer == Granted <==> answer != Cached && old(store.Get(u)).Some? && old(store.rows[u].token == platform.valid)
      ensures answer == Granted ==> store.Get(u) == Some(Row(platform.valid, false))
      ensures expiresAt == if answer == Granted then old(expiresAt)[u := now + expiresIn] else old(expiresAt)
      ensures answer == ReconnectRequired ==>
                store.Get(u) == Some(Row(old(store.rows[u].token), true)) && store.rows[u].token != platform.valid
      ensures answer == Cached || answer == NotConnected ==> store.rows == old(store.rows)
      ensures forall v :: v != u ==> store.Get(v) == old(store.Get(v))
    {
      if u in expiresAt && now < expiresAt[u] - ACCESS_TOKEN_SLACK {
        return Cached;
      }
      ghost var wasValid := u in store.rows && store.rows[u].token == platform.valid;
      var attempt := 1;
      while true
        invariant 1 <= attempt <= 2 && platform.valid < platform.next && expiresAt == old(expiresAt)
        invariant attempt == 1 ==> store.rows == old(store.rows) && platform.valid == old(platform.valid)
        invariant attempt == 2 ==> wasValid && u in store.rows && store.rows == old(store.rows)[u := Row(platform.valid, false)]
        decreases 2 - attempt
      {
        var account := store.Get(u);
        if account.None? {
          return NotConnected;
        }
        var refreshToken := account.value.token;
        if attempt == 1 && overtaken {
          RotateElsewhere(u);
        }
        var issued := platform.RefreshAccessToken(refreshToken, rotates);
        if issued.None? {
          var again := store.Get(u);
          if attempt == 1 && again.Some? && again.value.token != refreshToken {
            attempt := attempt + 1;
            continue;
          }
          store.MarkReconnectRequired(u, refreshToken);
          return ReconnectRequired;
        }
        if issued.value != refreshToken {
          var _ := store.UpdateRefreshToken(u, refreshToken, issued.value);
        } else if account.value.marked {
          store.ClearReconnectRequired(u);
        }
        expiresAt := expiresAt[u := now + expiresIn];
        return Granted;
      }
    }
  }
}
