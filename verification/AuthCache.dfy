/** What GitHub says about a token, and the TTL cache of it: the data of auth/github.go. */
module AuthCache {
  import opened ByteText
  import opened Numbers
  import opened RetryAfter

  datatype Operation = Download | Upload

  datatype Probe = Unchecked | Allowed | Denied

  datatype Access = Access(authenticated: bool, username: Text, private: bool, pull: bool, push: bool,
                           maintainer: bool, read: Probe, write: Probe)

  const NO_ACCESS := Access(false, [], false, false, false, false, Unchecked, Unchecked)
  const NO_ROLE := Access(true, [], false, false, false, false, Unchecked, Unchecked)

  datatype Result = Result(authenticated: bool, authorized: bool, username: Text, maintainer: bool)

  function ResultFor(a: Access, op: Operation): Result {
    match op
    case Download => Result(a.authenticated, a.pull && (!a.private || a.read == Allowed), a.username, false)
    case Upload =>
      Result(a.authenticated, a.push && a.write == Allowed, a.username, a.push && a.write == Allowed && a.maintainer)
  }

  predicate NeedsProbe(a: Access, op: Operation) {
    match op
    case Download => a.pull && a.private && a.read == Unchecked
    case Upload => a.push && a.write == Unchecked
  }

  function WithProbe(a: Access, op: Operation, outcome: Probe): Access {
    if op.Download? then a.(read := outcome) else a.(write := outcome)
  }

  /** The access without what probes found. */
  function Base(a: Access): Access {
    a.(read := Unchecked, write := Unchecked)
  }

  // ---- GitHub's errors ----

  datatype GitHubError = Limited(limit: Limit) | Status(code: int) | Unreachable

  datatype Classified = Definitive(access: Access) | Wait(wait: int64) | Unavailable

  function Classify(e: GitHubError, now: int): Classified {
    match e
    case Limited(limit) => Wait(RateLimited(limit, now))
    case Status(code) =>
      if code == 401 then Definitive(NO_ACCESS)
      else if code == 403 || code == 404 then Definitive(NO_ROLE)
      else Unavailable
    case Unreachable => Unavailable
  }

  /** Whether GitHub answered at all; the time only matters to how long a rate limit asks to wait. */
  predicate IsDefinitive(e: GitHubError) {
    Classify(e, 0).Definitive?
  }

  /** probeOutcome: what the answer to a probe means, or None when GitHub could not answer. */
  function ProbeOutcome(e: Option<GitHubError>): (p: Option<Probe>)
    ensures p != Some(Unchecked)
  {
    if e.None? then Some(Allowed)
    else if e.value.Status? && (e.value.code == 409 || e.value.code == 422) then Some(Allowed)
    else if e.value.Status? && (e.value.code == 403 || e.value.code == 404) then Some(Denied)
    else if IsDefinitive(e.value) then Some(Denied)
    else None
  }

  /** GitHub let the probe through: it succeeded, or failed only for what was in it. */
  predicate IsPassed(e: Option<GitHubError>) {
    e == None || e == Some(Status(409)) || e == Some(Status(422))
  }

  /** GitHub turned the token away. */
  predicate IsTurnedAway(e: GitHubError) {
    e == Status(401) || e == Status(403) || e == Status(404)
  }

  /** What each answer to a probe means, in status codes. */
  lemma ProbeOutcomeMeans(e: Option<GitHubError>)
    ensures ProbeOutcome(e) == Some(Allowed) <==> IsPassed(e)
    ensures ProbeOutcome(e) == Some(Denied) <==> e.Some? && IsTurnedAway(e.value)
    ensures ProbeOutcome(e) == None <==> !IsPassed(e) && !IsTurnedAway(e.value)
  {}

  /** What each error of another call means: an invalid token, no role, a wait of at most an hour, or no answer. */
  lemma ClassifyMeans(e: GitHubError, now: int)
    ensures Classify(e, now).Definitive? <==> IsTurnedAway(e)
    ensures Classify(e, now).Definitive? ==>
              var a := Classify(e, now).access;
              && (a.authenticated <==> e != Status(401))
              && a == Access(a.authenticated, [], false, false, false, false, Unchecked, Unchecked)
    ensures Classify(e, now).Wait? <==> e.Limited?
  {}

  // ---- the cache ----

  const INVALID_TOKEN_TTL: int := 10 * SECOND

  /** A token and an endpoint path; cacheKey's string form of the pair is injective (see CacheKeys). */
  datatype Key = Key(token: Text, path: Text)

  /** A cached access with its expiry; `stored` remembers when it was stored. */
  datatype Entry = Entry(access: Access, expires: int, stored: int)

  type Entries = map<Key, Entry>

  function Ttl(a: Access, cacheTTL: int): int {
    if !a.authenticated && INVALID_TOKEN_TTL < cacheTTL then INVALID_TOKEN_TTL else cacheTTL
  }

  function Find(m: Entries, k: Key, now: int): Option<Access> {
    if k in m && now <= m[k].expires then Some(m[k].access) else None
  }

  function AfterFind(m: Entries, k: Key, now: int): Entries {
    if k in m && now > m[k].expires then m - {k} else m
  }

  function AfterStore(m: Entries, k: Key, a: Access, now: int, cacheTTL: int): Entries {
    if Ttl(a, cacheTTL) <= 0 then m else m[k := Entry(a, now + Ttl(a, cacheTTL), now)]
  }

  function AfterRecord(m: Entries, k: Key, op: Operation, outcome: Probe): Entries {
    if k in m then m[k := m[k].(access := WithProbe(m[k].access, op, outcome))] else m
  }

  function AfterSweep(m: Entries, now: int): Entries {
    map k | k in m && now <= m[k].expires :: m[k]
  }

  class Cache {
    const cacheTTL: int
    var entries: Entries

    constructor (cacheTTL: int)
      ensures entries == map[] && this.cacheTTL == cacheTTL
    {
      this.cacheTTL, entries := cacheTTL, map[];
    }

    /** cacheLookup: dropping an expired entry on the way changes no later answer for any key. */
    method Lookup(k: Key, now: int) returns (a: Option<Access>)
      modifies this
      ensures a == Find(old(entries), k, now) && entries == AfterFind(old(entries), k, now)
      ensures forall k', later :: now <= later ==> Find(entries, k', later) == Find(old(entries), k', later)
    {
      a := None;
      if k in entries {
        if now > entries[k].expires {
          entries := entries - {k};
        } else {
          a := Some(entries[k].access);
        }
      }
    }

    /** cacheStoreIfEnabled: the access is found for its time to live and no longer; no other answer changes. */
    method StoreIfEnabled(k: Key, a: Access, now: int)
      modifies this
      ensures entries == AfterStore(old(entries), k, a, now, cacheTTL)
      ensures cacheTTL <= 0 ==> entries == old(entries)
      ensures cacheTTL > 0 ==>
                var ttl := if a.authenticated then cacheTTL else Min(cacheTTL, INVALID_TOKEN_TTL);
                forall later :: Find(entries, k, later) == if later - now <= ttl then Some(a) else None
      ensures forall k', later :: k' != k ==> Find(entries, k', later) == Find(old(entries), k', later)
    {
      var ttl := cacheTTL;
      if !a.authenticated && INVALID_TOKEN_TTL < ttl {
        ttl := INVALID_TOKEN_TTL;
      }
      if ttl > 0 {
        entries := entries[k := Entry(a, now + ttl, now)];
      }
    }

    /** cacheRecordProbe: what is found, and until when, stays; only k's access, if found, gains the outcome. */
    method RecordProbe(k: Key, op: Operation, outcome: Probe)
      modifies this
      ensures entries == AfterRecord(old(entries), k, op, outcome)
      ensures forall k', at :: Find(entries, k', at).Some? <==> Find(old(entries), k', at).Some?
      ensures forall k', at :: Find(old(entries), k', at).Some? ==>
                var before, after := Find(old(entries), k', at).value, Find(entries, k', at).value;
                if k' != k then after == before
                else Base(after) == Base(before)
                     && (if op.Download? then after.read == outcome && after.write == before.write
                         else after.write == outcome && after.read == before.read)
    {
      if k in entries {
        entries := entries[k := entries[k].(access := WithProbe(entries[k].access, op, outcome))];
      }
    }

    /** sweep: one pass over the map, in whatever order, deleting what has expired; no later answer changes. */
    method Sweep(now: int)
      modifies this
      ensures entries == AfterSweep(old(entries), now)
      ensures forall k, later :: now <= later ==> Find(entries, k, later) == Find(old(entries), k, later)
    {
      ghost var before := entries;
      var todo := entries.Keys;
      while todo != {}
        invariant todo <= before.Keys
        invariant forall k :: k in todo ==> k in entries && entries[k] == before[k]
        invariant forall k :: k in before && k !in todo ==> (k in entries <==> now <= before[k].expires)
        invariant forall k :: k in entries ==> k in before && entries[k] == before[k]
        decreases todo
      {
        var k :| k in todo;
        if now > entries[k].expires {
          entries := entries - {k};
        }
        todo := todo - {k};
      }
    }
  }

  /** An entry expires its time to live after it was stored, whatever was recorded on it since. */
  ghost predicate Fresh(m: Entries, cacheTTL: int, now: int) {
    forall k :: k in m ==>
      m[k].stored <= now && m[k].expires == m[k].stored + Ttl(m[k].access, cacheTTL) && Ttl(m[k].access, cacheTTL) > 0
  }

  /** What a lookup returns was stored at most the TTL ago, at most 10 seconds ago for an invalid token. */
  lemma FoundIsRecent(m: Entries, cacheTTL: int, now: int, k: Key)
    requires Fresh(m, cacheTTL, now) && Find(m, k, now).Some?
    ensures 0 <= now - m[k].stored <= cacheTTL
    ensures !m[k].access.authenticated ==> now - m[k].stored <= INVALID_TOKEN_TTL
  {}

  /** Sweeping at any moment, and dropping on lookup, never change what a later lookup of any key answers. */
  lemma SweepingIsInvisible(m: Entries, at: int, k: Key, k': Key, now: int)
    requires at <= now
    ensures Find(AfterSweep(m, at), k, now) == Find(m, k, now)
    ensures Find(AfterFind(m, k', at), k, now) == Find(m, k, now)
  {}
}
