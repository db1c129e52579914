/** The revocation store: token ids with the instant until which they stay refused. */
module TokenRevocation {

  type Blacklist = map<string, real>

  /** A listed id is refused up to and including its expiry. */
  predicate Refuses(list: Blacklist, jti: string, now: real) {
    jti in list && list[jti] >= now
  }

  function WithRevoked(list: Blacklist, jti: string, ttlSeconds: int, now: real): Blacklist {
    if ttlSeconds <= 0 then list else list[jti := now + ttlSeconds as real]
  }

  class InMemoryTokenRevocationStore {
    var blacklist: set<string>
    var expiry: map<string, real>

    ghost predicate Valid()
      reads this
    {
      blacklist == expiry.Keys
    }

    constructor ()
      ensures Valid() && expiry == map[]
    {
      blacklist, expiry := {}, map[];
    }

    method Revoke(jti: string, ttlSeconds: int, now: real)
      requires Valid()
      modifies this
      ensures Valid() && expiry == WithRevoked(old(expiry), jti, ttlSeconds, now)
    {
      if ttlSeconds <= 0 {
        return;
      }
      blacklist := blacklist + {jti};
      expiry := expiry[jti := now + ttlSeconds as real];
    }

    /** Answers for `now`, and may drop an entry whose time is over; nobody who asks at `now`
        or later can tell. An expiry of zero counts as none. */
    method IsRevoked(jti: string, now: real) returns (revoked: bool)
      requires Valid() && now >= 0.0
      modifies this
      ensures Valid()
      ensures jti in old(expiry) && old(expiry)[jti] != 0.0 ==> revoked == Refuses(old(expiry), jti, now)
      ensures jti !in old(expiry) ==> !revoked
      ensures forall j, t :: t >= now ==> (Refuses(expiry, j, t) <==> Refuses(old(expiry), j, t))
    {
      if jti !in blacklist {
        return false;
      }
      var exp := expiry[jti];
      if exp != 0.0 && exp < now {
        blacklist := blacklist - {jti};
        expiry := expiry - {jti};
        return false;
      }
      return true;
    }
  }

  /** A revocation refuses its id up to the end of its time to live and no longer, and leaves
      every other id as it was; without time to live it does nothing. */
  lemma RevokedUntil(list: Blacklist, jti: string, ttlSeconds: int, now: real, other: string, t: real)
    ensures ttlSeconds > 0 ==> (Refuses(WithRevoked(list, jti, ttlSeconds, now), jti, t) <==> t <= now + ttlSeconds as real)
    ensures ttlSeconds <= 0 || other != jti ==> (Refuses(WithRevoked(list, jti, ttlSeconds, now), other, t) <==> Refuses(list, other, t))
  {
  }
}
