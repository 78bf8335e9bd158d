/**
 * The credential cache and lease registry of Vault/VaultService.cs.
 *
 * The process-wide memory cache is modelled as one field per cache key, each
 * holding a value with its absolute expiry; an entry is visible while the
 * clock is before its expiry. Every backend call (Vault RPC) is an outcome
 * passed in by the caller, the trial SQL connection is the boolean
 * `validated`, and the ghost log `rpcs` records which backend calls were made.
 */
module Vault {
  import opened Wrappers
  import opened Leases
  import opened LeaseRegistry
  import opened StaticCredentials

  /** The configuration the service reads (Vault/VaultSettings.cs). */
  datatype VaultSettings = VaultSettings(
    databaseServer: string,
    databaseName: string,
    useStaticCredentials: bool,
    cacheExpirationMinutes: int)

  /** A cached value and its absolute expiry. */
  datatype Entry<T> = Entry(value: T, expiry: int)

  /** TryGetValue: the value while the clock is before the expiry. */
  function Lookup<T>(e: Option<Entry<T>>, now: int): Option<T>
  {
    if e.Some? && now < e.value.expiry then Some(e.value.value) else None
  }

  /** What the cache-first paths accept: a visible, non-empty string. */
  function CachedNonEmpty(e: Option<Entry<string>>, now: int): Option<string>
  {
    if e.Some? && now < e.value.expiry && e.value.value != "" then Some(e.value.value) else None
  }

  /** A dynamic credential as the backend issues it. */
  datatype DynamicCreds = DynamicCreds(
    leaseId: string,
    username: string,
    password: string,
    leaseDurationSeconds: int)

  /** The backend calls the service makes, in the order it makes them. */
  datatype Rpc =
    | IssueDynamic
    | Renew(leaseId: string, incrementSeconds: int)
    | Revoke(leaseId: string)
    | FetchStatic
    | RotateStatic
    | ReadSecret(path: string)

  /** A successful static fetch: the connection string and the snapshot to cache. */
  datatype StaticFetched = StaticFetched(connectionString: string, info: StaticCredentialInfo)

  /** The outcome record of a manual static rotation (src/Models/RotationInfo.cs). */
  datatype RotationInfo = RotationInfo(rotatedAt: int, username: string, success: bool, error: Option<string>)

  /** The registry is cached for 5 minutes after every write. */
  const RegistryTtlSeconds: int := 300

  const DynamicRejected: string :=
    "Dynamic credentials are valid but database connection failed. Check user permissions."
  const StaticRejected: string :=
    "Static credentials are valid but database connection failed. Check user permissions."
  /** Thrown by MemoryCacheEntryOptions when a relative expiration is not positive. */
  const NonPositiveRelativeExpiration: string := "The relative expiration value must be positive."
  /** Thrown by ToString() on a null secret value. */
  const NullReference: string := "Object reference not set to an instance of an object."
  const UnknownUsername: string := "Unknown"

  function KeyNotFound(path: string, key: string): string
  {
    "Secret key '" + key + "' not found in path '" + path + "'"
  }

  /** The connection string assembled from a credential (VaultService.cs:75 and :264). */
  function ConnectionString(server: string, database: string, username: string, password: string): string
  {
    "Server=" + server + ";Database=" + database + ";User Id=" + username + ";Password=" + password
    + ";TrustServerCertificate=True;MultipleActiveResultSets=true;Connection Timeout=30"
  }

  /** Cache lifetime of static entries and secrets: CacheExpirationMinutes, in seconds. */
  function CacheSeconds(settings: VaultSettings): int
  {
    60 * settings.cacheExpirationMinutes
  }

  /**
   * The result of minting a dynamic credential: the backend's error, the
   * validation error, or the assembled connection string.
   */
  function MintResult(settings: VaultSettings, issue: Result<DynamicCreds, string>, validated: bool)
    : (r: Result<string, string>)
    ensures r.Ok? <==> issue.Ok? && validated
    ensures issue.Err? ==> r == Err(issue.error)
    ensures issue.Ok? && !validated ==> r == Err(DynamicRejected)
    ensures r.Ok? ==> r.value != ""
  {
    if issue.Err? then Err(issue.error)
    else if !validated then Err(DynamicRejected)
    else Ok(ConnectionString(settings.databaseServer, settings.databaseName, issue.value.username, issue.value.password))
  }

  /**
   * The pure part of a static fetch: the backend's error, the validation
   * error, the cache-options error, or the connection string and the
   * snapshot built with the metadata fallbacks.
   */
  function StaticFetch(settings: VaultSettings, now: int, fetch: Result<StaticCreds, string>, validated: bool)
    : (r: Result<StaticFetched, string>)
    ensures r.Ok? <==> fetch.Ok? && validated && settings.cacheExpirationMinutes > 0
    ensures fetch.Err? ==> r == Err(fetch.error)
    ensures fetch.Ok? && !validated ==> r == Err(StaticRejected)
    ensures r.Ok? ==> r.value.info == FromBackend(fetch.value, now) && r.value.connectionString != ""
  {
    if fetch.Err? then Err(fetch.error)
    else
      var creds := fetch.value;
      var cs := ConnectionString(settings.databaseServer, settings.databaseName, creds.username, creds.password);
      if !validated then Err(StaticRejected)
      else if settings.cacheExpirationMinutes <= 0 then Err(NonPositiveRelativeExpiration)
      else Ok(StaticFetched(cs, FromBackend(creds, now)))
  }

  /**
   * The result of reading one secret when the cache holds nothing usable:
   * the backend's error, key-not-found, a null value, the cache-options
   * error, or the value's string form.
   */
  function ReadSecretResult(settings: VaultSettings, path: string, key: string,
                            read: Result<Option<map<string, Option<string>>>, string>)
    : (r: Result<string, string>)
    ensures r.Ok? <==> read.Ok? && read.value.Some? && key in read.value.value
                       && read.value.value[key].Some? && settings.cacheExpirationMinutes > 0
    ensures r.Ok? ==> r.value == read.value.value[key].value
    ensures read.Err? ==> r == Err(read.error)
    ensures read.Ok? && (read.value.None? || key !in read.value.value) ==> r == Err(KeyNotFound(path, key))
    ensures read.Ok? && read.value.Some? && key in read.value.value && read.value.value[key].None?
            ==> r == Err(NullReference)
    ensures (read.Ok? && read.value.Some? && key in read.value.value && read.value.value[key].Some?
             && settings.cacheExpirationMinutes <= 0) ==> r == Err(NonPositiveRelativeExpiration)
  {
    if read.Err? then Err(read.error)
    else if read.value.None? || key !in read.value.value then Err(KeyNotFound(path, key))
    else if read.value.value[key].None? then Err(NullReference)
    else if settings.cacheExpirationMinutes <= 0 then Err(NonPositiveRelativeExpiration)
    else Ok(read.value.value[key].value)
  }

  /** The backend calls of revoking each lease of a list, in order. */
  function RevokeCalls(s: seq<LeaseInfo>): seq<Rpc>
  {
    if s == [] then [] else RevokeCalls(s[..|s| - 1]) + [Revoke(s[|s| - 1].leaseId)]
  }

  /** Revoking a list makes one revoke call per lease, in the list's order. */
  lemma {:induction false} RevokeCallsInOrder(s: seq<LeaseInfo>)
    ensures |RevokeCalls(s)| == |s|
    ensures forall i :: 0 <= i < |s| ==> RevokeCalls(s)[i] == Revoke(s[i].leaseId)
  {
    if s != [] {
      RevokeCallsInOrder(s[..|s| - 1]);
    }
  }

  lemma LogTwoCalls(logged: seq<Rpc>, first: Rpc, second: Rpc)
    ensures (logged + [first]) + [second] == logged + [first, second]
  {
  }

  /** The log after revoking one more lease of `s`, behind the calls logged before. */
  lemma RevokeCallsStep(logged: seq<Rpc>, s: seq<LeaseInfo>, i: int)
    requires 0 <= i < |s|
    ensures (logged + RevokeCalls(s[..i])) + [Revoke(s[i].leaseId)] == logged + RevokeCalls(s[..i + 1])
  {
    assert s[..i + 1][..i] == s[..i];
  }

  /** The secret cache key as written at VaultService.cs:378. */
  function SecretCacheKey(path: string, key: string): string
  {
    "vault_secret_" + path + "_" + key
  }

  /** Two different (path, key) pairs share one string cache key. */
  lemma SecretCacheKeyCollision()
    ensures ("a_b", "c") != ("a", "b_c")
    ensures SecretCacheKey("a_b", "c") == SecretCacheKey("a", "b_c")
  {
    assert SecretCacheKey("a_b", "c") == "vault_secret_a_b_c";
    assert SecretCacheKey("a", "b_c") == "vault_secret_a_b_c";
  }

  /**
   * With the string key as written, a secret cached for path "a", key "b_c"
   * is what a read of path "a_b", key "c" gets back from the cache.
   */
  lemma StringKeyedCacheServesOtherSecret(now: int, value: string)
    requires value != ""
    ensures var cache := map[SecretCacheKey("a", "b_c") := Entry(value, now + 1)];
            SecretCacheKey("a_b", "c") in cache
            && CachedNonEmpty(Some(cache[SecretCacheKey("a_b", "c")]), now) == Some(value)
  {
    SecretCacheKeyCollision();
  }

  /** The secret cache keyed by the pair: the cached, non-empty value for exactly that path and key. */
  function SecretLookup(cache: map<(string, string), Entry<string>>, path: string, key: string, now: int)
    : Option<string>
  {
    if (path, key) in cache then CachedNonEmpty(Some(cache[(path, key)]), now) else None
  }

  /** Caching a secret for one (path, key) never changes what another pair reads. */
  lemma SecretCacheIsolated(cache: map<(string, string), Entry<string>>, path: string, key: string,
                            e: Entry<string>, otherPath: string, otherKey: string, now: int)
    requires (otherPath, otherKey) != (path, key)
    ensures SecretLookup(cache[(path, key) := e], otherPath, otherKey, now) == SecretLookup(cache, otherPath, otherKey, now)
  {
  }

  class VaultService {
    const settings: VaultSettings
    /** "vault_connection_string" */
    var connection: Option<Entry<string>>
    /** "vault_lease_info" */
    var leaseInfo: Option<Entry<LeaseInfo>>
    /** "vault_all_leases" */
    var allLeases: Option<Entry<seq<LeaseInfo>>>
    /** "vault_static_connection_string" */
    var staticConnection: Option<Entry<string>>
    /** "vault_static_credential_info" */
    var staticInfo: Option<Entry<StaticCredentialInfo>>
    /** The per-secret entries, keyed by (path, key). */
    var secrets: map<(string, string), Entry<string>>
    /** The backend calls made so far. */
    ghost var rpcs: seq<Rpc>

    /**
     * The registry never holds two leases with the same id, and the cached
     * lease record expires from the cache at its own expiry instant.
     */
    ghost predicate Valid()
      reads this
    {
      && (allLeases.Some? ==> UniqueIds(allLeases.value.value))
      && (leaseInfo.Some? ==> leaseInfo.value.expiry == leaseInfo.value.value.expiresAt)
    }

    /** The lease records reachable from the cache. */
    function LeaseObjects(): set<LeaseInfo>
      reads this
    {
      (if allLeases.Some? then set l | l in allLeases.value.value else {})
      + (if leaseInfo.Some? then {leaseInfo.value.value} else {})
    }

    twostate predicate DynamicUnchanged()
      reads this
    {
      connection == old(connection) && leaseInfo == old(leaseInfo) && allLeases == old(allLeases)
    }

    twostate predicate StaticUnchanged()
      reads this
    {
      staticConnection == old(staticConnection) && staticInfo == old(staticInfo) && secrets == old(secrets)
    }

    /** Both static entries hold a successful fetch, for CacheExpirationMinutes from `now`. */
    predicate StaticCached(now: int, f: StaticFetched)
      reads this
    {
      && staticConnection == Some(Entry(f.connectionString, now + CacheSeconds(settings)))
      && staticInfo == Some(Entry(f.info, now + CacheSeconds(settings)))
    }

    /**
     * The dynamic entries after a successful mint of `c` with connection
     * string `cs`: the string and a new lease record cached until now + lease
     * duration - 5 minutes, and the registry rewritten around the new record.
     * The record's in-use flag ends false when the registry was not cached
     * and the record itself was still visible (the registry was then seeded
     * with this very record and cleared).
     */
    twostate predicate MintCached(now: int, c: DynamicCreds, cs: string)
      reads this, LeaseObjects()
    {
      var expiry := CacheExpiry(now, c.leaseDurationSeconds);
      && connection == Some(Entry(cs, expiry))
      && leaseInfo.Some? && leaseInfo.value.expiry == expiry
      && var l := leaseInfo.value.value;
         && fresh(l)
         && l.leaseId == c.leaseId && l.leaseDuration == c.leaseDurationSeconds
         && l.expiresAt == expiry && l.createdAt == now
         && l.username == c.username && l.password == c.password
         && l.isCurrentlyUsed == (old(Lookup(allLeases, now)).Some? || expiry <= now)
         && var snapshot := if old(Lookup(allLeases, now)).Some? then Active(old(allLeases).value.value, now)
                            else if now < expiry then [l] else [];
            && allLeases == Some(Entry(Merged(snapshot, l, now), now + RegistryTtlSeconds))
            && forall x :: x in allLeases.value.value && x != l ==> !x.isCurrentlyUsed
    }

    constructor (settings: VaultSettings)
      ensures this.settings == settings && Valid()
      ensures connection == None && leaseInfo == None && allLeases == None
      ensures staticConnection == None && staticInfo == None && secrets == map[]
      ensures rpcs == []
    {
      this.settings := settings;
      connection, leaseInfo, allLeases := None, None, None;
      staticConnection, staticInfo, secrets := None, None, map[];
      rpcs := [];
    }

    /** GetCurrentLeaseInfo: the cached current lease while it is visible, else null. */
    function GetCurrentLeaseInfo(now: int): (r: LeaseInfo?)
      reads this
      ensures r != null <==> leaseInfo.Some? && now < leaseInfo.value.expiry
      ensures r != null ==> r == leaseInfo.value.value
    {
      if leaseInfo.Some? && now < leaseInfo.value.expiry then leaseInfo.value.value else null
    }

    /** The list GetAllActiveLeasesAsync returns: the unexpired registry, or the seed on a miss. */
    function ActiveLeases(now: int): seq<LeaseInfo>
      reads this
    {
      if Lookup(allLeases, now).Some? then Active(allLeases.value.value, now) else Seed(GetCurrentLeaseInfo(now))
    }

    /** The string GetStaticConnectionStringAsync returns, or its error. */
    function StaticConnectionResult(now: int, fetch: Result<StaticCreds, string>, validated: bool)
      : (r: Result<string, string>)
      reads this
      ensures r.Ok? ==> r.value != ""
    {
      if CachedNonEmpty(staticConnection, now).Some? then Ok(CachedNonEmpty(staticConnection, now).value)
      else
        var f := StaticFetch(settings, now, fetch, validated);
        if f.Ok? then Ok(f.value.connectionString) else Err(f.error)
    }

    /** The string GetSqlConnectionStringAsync returns, or its error. */
    function ConnectionStringResult(now: int, issue: Result<DynamicCreds, string>, validated: bool,
                                    fetch: Result<StaticCreds, string>, staticValidated: bool)
      : (r: Result<string, string>)
      reads this
      ensures r.Ok? ==> r.value != ""
      ensures settings.useStaticCredentials ==> r == StaticConnectionResult(now, fetch, staticValidated)
      ensures !settings.useStaticCredentials && CachedNonEmpty(connection, now).Some?
              ==> r == Ok(CachedNonEmpty(connection, now).value)
      ensures !settings.useStaticCredentials && CachedNonEmpty(connection, now).None?
              ==> r == MintResult(settings, issue, validated)
    {
      if settings.useStaticCredentials then StaticConnectionResult(now, fetch, staticValidated)
      else if CachedNonEmpty(connection, now).Some? then Ok(CachedNonEmpty(connection, now).value)
      else MintResult(settings, issue, validated)
    }

    /** InvalidateConnectionCache: removes exactly the dynamic connection string and lease info. */
    method InvalidateConnectionCache()
      requires Valid()
      modifies this
      ensures Valid()
      ensures connection == None && leaseInfo == None
      ensures allLeases == old(allLeases) && StaticUnchanged() && rpcs == old(rpcs)
    {
      connection := None;
      leaseInfo := None;
    }

    /** InvalidateStaticConnectionCache: removes exactly the two static entries. */
    method InvalidateStaticConnectionCache()
      requires Valid()
      modifies this
      ensures Valid()
      ensures staticConnection == None && staticInfo == None
      ensures DynamicUnchanged() && secrets == old(secrets) && rpcs == old(rpcs)
    {
      staticConnection := None;
      staticInfo := None;
    }

    /**
     * GetAllActiveLeasesAsync. On a registry hit every cached entry's flag is
     * recomputed against the current lease and the unexpired entries are
     * returned; on a miss the registry is seeded for 5 minutes with the
     * current lease, or with nothing.
     */
    method GetAllActiveLeases(now: int) returns (r: seq<LeaseInfo>)
      requires Valid()
      modifies this, LeaseObjects()
      ensures Valid()
      ensures connection == old(connection) && leaseInfo == old(leaseInfo)
      ensures StaticUnchanged() && rpcs == old(rpcs)
      ensures r == old(ActiveLeases(now))
      ensures UniqueIds(r)
      ensures forall l :: l in r ==> !l.IsExpired(now)
      ensures forall i, j :: 0 <= i < |r| && 0 <= j < |r| && r[i].isCurrentlyUsed && r[j].isCurrentlyUsed ==> i == j
      ensures LeaseObjects() <= old(LeaseObjects())
      ensures forall l :: l in r ==> l in LeaseObjects()
      ensures old(Lookup(allLeases, now)).Some? ==>
        && allLeases == old(allLeases)
        && forall l :: l in allLeases.value.value ==>
             l.isCurrentlyUsed == (GetCurrentLeaseInfo(now) != null && GetCurrentLeaseInfo(now).leaseId == l.leaseId)
      ensures old(Lookup(allLeases, now)).None? ==>
        && allLeases == Some(Entry(r, now + RegistryTtlSeconds))
        && unchanged(old(LeaseObjects()))
      ensures leaseInfo.Some? && (old(allLeases).None? || leaseInfo.value.value !in old(allLeases).value.value)
              ==> unchanged(leaseInfo.value.value)
    {
      var cached := Lookup(allLeases, now);
      var current := GetCurrentLeaseInfo(now);
      if cached.Some? {
        MarkCurrent(cached.value, current);
        r := Active(cached.value, now);
        ActiveUnique(cached.value, now);
        if current != null {
          AtMostOneMarked(r, current.leaseId);
        }
      } else {
        r := Seed(current);
        allLeases := Some(Entry(r, now + RegistryTtlSeconds));
      }
    }

    /**
     * UpdateAllLeasesCache: every entry of the listing is marked not in use,
     * the entry with the new lease's id is replaced by the new lease at the
     * end, expired entries are pruned and the list is cached for 5 minutes.
     * The clearing also reaches the new lease when the listing holds it,
     * which happens when the registry was seeded from the current lease.
     */
    method UpdateAllLeasesCache(newLease: LeaseInfo, now: int)
      requires Valid()
      requires leaseInfo.Some? && leaseInfo.value.value == newLease
      requires allLeases.Some? ==> newLease !in allLeases.value.value
      modifies this, LeaseObjects()
      ensures Valid()
      ensures connection == old(connection) && leaseInfo == old(leaseInfo)
      ensures StaticUnchanged() && rpcs == old(rpcs)
      ensures LeaseObjects() <= old(LeaseObjects())
      ensures var snapshot := old(ActiveLeases(now));
        && allLeases == Some(Entry(Merged(snapshot, newLease, now), now + RegistryTtlSeconds))
        && (forall l :: l in snapshot ==> !l.isCurrentlyUsed)
        && (newLease !in snapshot ==> newLease.isCurrentlyUsed == old(newLease.isCurrentlyUsed))
    {
      var snapshot := GetAllActiveLeases(now);
      ClearFlags(snapshot);
      MergedProperties(snapshot, newLease, now);
      allLeases := Some(Entry(Merged(snapshot, newLease, now), now + RegistryTtlSeconds));
    }

    /**
     * GetNewSqlConnectionStringAsync: mints a dynamic credential. Nothing is
     * cached when the backend fails or the trial connection is refused; on
     * success the cache is as MintCached describes.
     */
    method GetNewSqlConnectionString(now: int, issue: Result<DynamicCreds, string>, validated: bool)
      returns (r: Result<string, string>)
      requires Valid()
      modifies this, LeaseObjects()
      ensures Valid()
      ensures StaticUnchanged()
      ensures rpcs == old(rpcs) + [IssueDynamic]
      ensures r == MintResult(settings, issue, validated)
      ensures r.Err? ==> DynamicUnchanged() && unchanged(old(LeaseObjects()))
      ensures r.Ok? ==> MintCached(now, issue.value, r.value)
      ensures r.Ok? ==> LeaseObjects() <= old(LeaseObjects()) + {leaseInfo.value.value}
      ensures r.Ok? && issue.Ok? && issue.value.leaseDurationSeconds > SafetyMarginSeconds
              ==> CachedNonEmpty(connection, now) == Some(r.value)
    {
      rpcs := rpcs + [IssueDynamic];
      if issue.Err? {
        return Err(issue.error);
      }
      var c := issue.value;
      var cs := ConnectionString(settings.databaseServer, settings.databaseName, c.username, c.password);
      if !validated {
        return Err(DynamicRejected);
      }
      CacheMint(now, c, cs);
      r := Ok(cs);
    }

    /**
     * The success branch of the mint: caches the connection string and a new
     * lease record, both until now + lease duration - 5 minutes, and merges
     * the record into the registry.
     */
    method CacheMint(now: int, c: DynamicCreds, cs: string)
      requires Valid()
      modifies this, LeaseObjects()
      ensures Valid()
      ensures StaticUnchanged() && rpcs == old(rpcs)
      ensures MintCached(now, c, cs)
      ensures LeaseObjects() <= old(LeaseObjects()) + {leaseInfo.value.value}
      ensures cs != "" && c.leaseDurationSeconds > SafetyMarginSeconds ==> CachedNonEmpty(connection, now) == Some(cs)
    {
      var expiry := CacheExpiry(now, c.leaseDurationSeconds);
      connection := Some(Entry(cs, expiry));
      var l := new LeaseInfo(c.leaseId, c.leaseDurationSeconds, expiry, now, c.username, c.password, true);
      leaseInfo := Some(Entry(l, expiry));
      ghost var snapshot := ActiveLeases(now);
      if Lookup(allLeases, now).Some? {
        ActiveUnique(allLeases.value.value, now);
      }
      UpdateAllLeasesCache(l, now);
      MergedProperties(snapshot, l, now);
    }

    /**
     * GetSqlConnectionStringAsync: the static path in static mode; otherwise
     * a visible non-empty cached string, with no backend call; otherwise a mint.
     */
    method GetSqlConnectionString(now: int, issue: Result<DynamicCreds, string>, validated: bool,
                                  fetch: Result<StaticCreds, string>, staticValidated: bool)
      returns (r: Result<string, string>)
      requires Valid()
      modifies this, LeaseObjects()
      ensures Valid()
      ensures r == old(ConnectionStringResult(now, issue, validated, fetch, staticValidated))
      ensures settings.useStaticCredentials ==>
        && DynamicUnchanged() && unchanged(old(LeaseObjects())) && secrets == old(secrets)
      ensures settings.useStaticCredentials && old(CachedNonEmpty(staticConnection, now)).Some? ==>
        rpcs == old(rpcs) && StaticUnchanged()
      ensures settings.useStaticCredentials && old(CachedNonEmpty(staticConnection, now)).None? ==>
        var f := StaticFetch(settings, now, fetch, staticValidated);
        && rpcs == old(rpcs) + [FetchStatic]
        && (f.Err? ==> StaticUnchanged())
        && (f.Ok? ==> StaticCached(now, f.value))
      ensures !settings.useStaticCredentials && old(CachedNonEmpty(connection, now)).Some? ==>
        && rpcs == old(rpcs) && DynamicUnchanged() && StaticUnchanged() && unchanged(old(LeaseObjects()))
      ensures !settings.useStaticCredentials && old(CachedNonEmpty(connection, now)).None? ==>
        && rpcs == old(rpcs) + [IssueDynamic] && StaticUnchanged()
        && (r.Err? ==> DynamicUnchanged() && unchanged(old(LeaseObjects())))
        && (r.Ok? ==> MintCached(now, issue.value, r.value))
        && (r.Ok? ==> LeaseObjects() <= old(LeaseObjects()) + {leaseInfo.value.value})
        && (r.Ok? && issue.Ok? && issue.value.leaseDurationSeconds > SafetyMarginSeconds
            ==> CachedNonEmpty(connection, now) == Some(r.value))
    {
      if settings.useStaticCredentials {
        r := GetStaticConnectionString(now, fetch, staticValidated);
        return;
      }
      var cached := CachedNonEmpty(connection, now);
      if cached.Some? {
        return Ok(cached.value);
      }
      r := GetNewSqlConnectionString(now, issue, validated);
    }

    /** RenewLeaseAsync: one backend call; the cache is not touched. */
    method RenewLease(leaseId: string, incrementSeconds: int, outcome: Outcome<string>) returns (r: Outcome<string>)
      modifies this
      ensures r == outcome
      ensures rpcs == old(rpcs) + [Renew(leaseId, incrementSeconds)]
      ensures DynamicUnchanged() && StaticUnchanged()
    {
      rpcs := rpcs + [Renew(leaseId, incrementSeconds)];
      r := outcome;
    }

    /**
     * RevokeSingleLeaseAsync: the backend revoke comes first; if it throws,
     * nothing changes and the error is rethrown. Otherwise the dynamic
     * connection string and lease info are removed exactly when the id is the
     * current lease's, and the registry becomes the listing without that id.
     * On a registry hit the listing's flags are re-marked against the current
     * lease as it stands after the removal.
     */
    method RevokeSingleLease(now: int, leaseId: string, outcome: Outcome<string>) returns (r: Outcome<string>)
      requires Valid()
      modifies this, LeaseObjects()
      ensures Valid()
      ensures r == outcome
      ensures rpcs == old(rpcs) + [Revoke(leaseId)]
      ensures StaticUnchanged()
      ensures LeaseObjects() <= old(LeaseObjects())
      ensures outcome.Fail? ==> DynamicUnchanged() && unchanged(old(LeaseObjects()))
      ensures outcome.Pass? ==>
        var current := old(GetCurrentLeaseInfo(now));
        var wasCurrent := current != null && current.leaseId == leaseId;
        && (wasCurrent ==> connection == None && leaseInfo == None)
        && (!wasCurrent ==> connection == old(connection) && leaseInfo == old(leaseInfo))
        && allLeases == Some(Entry(WithoutId(old(ActiveLeases(now)), leaseId), now + RegistryTtlSeconds))
      ensures outcome.Pass? && old(Lookup(allLeases, now)).Some? ==>
        forall l :: l in old(allLeases).value.value ==>
          l.isCurrentlyUsed == (GetCurrentLeaseInfo(now) != null && GetCurrentLeaseInfo(now).leaseId == l.leaseId)
    {
      rpcs := rpcs + [Revoke(leaseId)];
      if outcome.Fail? {
        return outcome;
      }
      var current := GetCurrentLeaseInfo(now);
      ghost var before := ActiveLeases(now);
      if current != null && current.leaseId == leaseId {
        InvalidateConnectionCache();
      }
      var leases := GetAllActiveLeases(now);
      assert WithoutId(leases, leaseId) == WithoutId(before, leaseId);
      WithoutIdUnique(leases, leaseId);
      allLeases := Some(Entry(WithoutId(leases, leaseId), now + RegistryTtlSeconds));
      r := Pass;
    }

    /**
     * RevokeAllLeasesAsync: one revoke attempt per lease of the listing taken
     * before the loop, in order; failures are swallowed; the dynamic
     * connection string, lease info and registry all end absent. Each revoke
     * re-marks the flags of the registry it reads, but the flags the leases
     * hold at the end are left unspecified: the registry is dropped and the
     * service never reads a flag except through GetAllActiveLeases, which
     * recomputes it.
     */
    method RevokeAllLeases(now: int, revoke: string -> Outcome<string>)
      requires Valid()
      modifies this, LeaseObjects()
      ensures Valid()
      ensures connection == None && leaseInfo == None && allLeases == None
      ensures StaticUnchanged()
      ensures rpcs == old(rpcs) + RevokeCalls(old(ActiveLeases(now)))
    {
      var leases := GetAllActiveLeases(now);
      var i := 0;
      while i < |leases|
        invariant 0 <= i <= |leases|
        invariant Valid()
        invariant StaticUnchanged()
        invariant LeaseObjects() <= old(LeaseObjects())
        invariant rpcs == old(rpcs) + RevokeCalls(leases[..i])
      {
        var _ := RevokeSingleLease(now, leases[i].leaseId, revoke(leases[i].leaseId));
        RevokeCallsStep(old(rpcs), leases, i);
        i := i + 1;
      }
      assert leases[..i] == leases;
      InvalidateConnectionCache();
      allLeases := None;
    }

    /**
     * GetNewStaticConnectionStringAsync: nothing is cached on any failure; on
     * success both static entries are cached for CacheExpirationMinutes.
     */
    method GetNewStaticConnectionString(now: int, fetch: Result<StaticCreds, string>, validated: bool)
      returns (r: Result<string, string>)
      modifies this
      ensures DynamicUnchanged() && secrets == old(secrets)
      ensures rpcs == old(rpcs) + [FetchStatic]
      ensures var f := StaticFetch(settings, now, fetch, validated);
        && (f.Err? ==> r == Err(f.error) && staticConnection == old(staticConnection) && staticInfo == old(staticInfo))
        && (f.Ok? ==> r == Ok(f.value.connectionString) && StaticCached(now, f.value))
    {
      rpcs := rpcs + [FetchStatic];
      var f := StaticFetch(settings, now, fetch, validated);
      if f.Err? {
        return Err(f.error);
      }
      staticConnection := Some(Entry(f.value.connectionString, now + CacheSeconds(settings)));
      staticInfo := Some(Entry(f.value.info, now + CacheSeconds(settings)));
      r := Ok(f.value.connectionString);
    }

    /** GetStaticConnectionStringAsync: a visible non-empty cached string, else a fetch. */
    method GetStaticConnectionString(now: int, fetch: Result<StaticCreds, string>, validated: bool)
      returns (r: Result<string, string>)
      modifies this
      ensures r == old(StaticConnectionResult(now, fetch, validated))
      ensures DynamicUnchanged() && secrets == old(secrets)
      ensures old(CachedNonEmpty(staticConnection, now)).Some? ==> rpcs == old(rpcs) && StaticUnchanged()
      ensures old(CachedNonEmpty(staticConnection, now)).None? ==>
        var f := StaticFetch(settings, now, fetch, validated);
        && rpcs == old(rpcs) + [FetchStatic]
        && (f.Err? ==> StaticUnchanged())
        && (f.Ok? ==> StaticCached(now, f.value))
    {
      var cached := CachedNonEmpty(staticConnection, now);
      if cached.Some? {
        return Ok(cached.value);
      }
      r := GetNewStaticConnectionString(now, fetch, validated);
    }

    /** GetStaticCredentialInfoAsync: the cached snapshot, else a full fetch and the snapshot it cached. */
    method GetStaticCredentialInfo(now: int, fetch: Result<StaticCreds, string>, validated: bool)
      returns (r: Result<Option<StaticCredentialInfo>, string>)
      modifies this
      ensures DynamicUnchanged() && secrets == old(secrets)
      ensures old(Lookup(staticInfo, now)).Some? ==>
        r == Ok(old(Lookup(staticInfo, now))) && rpcs == old(rpcs) && StaticUnchanged()
      ensures old(Lookup(staticInfo, now)).None? ==>
        var f := StaticFetch(settings, now, fetch, validated);
        && rpcs == old(rpcs) + [FetchStatic]
        && (f.Err? ==> r == Err(f.error) && StaticUnchanged())
        && (f.Ok? ==> r == Ok(Some(f.value.info)) && StaticCached(now, f.value))
    {
      var cached := Lookup(staticInfo, now);
      if cached.Some? {
        return Ok(cached);
      }
      var fetched := GetNewStaticConnectionString(now, fetch, validated);
      if fetched.Err? {
        return Err(fetched.error);
      }
      r := Ok(Lookup(staticInfo, now));
    }

    /**
     * RotateStaticCredentialsAsync: never throws. If the backend rotate
     * fails, the cache is untouched and the error is reported. Otherwise the
     * static entries are removed and re-fetched; success means both steps
     * succeeded, and a failed re-fetch leaves the static entries absent.
     */
    method RotateStaticCredentials(now: int, rotate: Outcome<string>, fetch: Result<StaticCreds, string>,
                                   validated: bool)
      returns (info: RotationInfo)
      requires Valid()
      modifies this
      ensures Valid()
      ensures DynamicUnchanged() && secrets == old(secrets)
      ensures info.rotatedAt == now
      ensures info.success <==> rotate.Pass? && StaticFetch(settings, now, fetch, validated).Ok?
      ensures rotate.Fail? ==>
        && info == RotationInfo(now, "", false, Some(rotate.error))
        && rpcs == old(rpcs) + [RotateStatic] && StaticUnchanged()
      ensures rotate.Pass? ==>
        var f := StaticFetch(settings, now, fetch, validated);
        && rpcs == old(rpcs) + [RotateStatic, FetchStatic]
        && (f.Err? ==> info == RotationInfo(now, "", false, Some(f.error))
                       && staticConnection == None && staticInfo == None)
        && (f.Ok? ==> info == RotationInfo(now, f.value.info.username, true, None) && StaticCached(now, f.value))
    {
      rpcs := rpcs + [RotateStatic];
      if rotate.Fail? {
        return RotationInfo(now, "", false, Some(rotate.error));
      }
      ghost var dyn := (connection, leaseInfo, allLeases, secrets);
      InvalidateStaticConnectionCache();
      assert (connection, leaseInfo, allLeases, secrets) == dyn;
      var refreshed := GetStaticCredentialInfo(now, fetch, validated);
      assert (connection, leaseInfo, allLeases, secrets) == dyn;
      LogTwoCalls(old(rpcs), RotateStatic, FetchStatic);
      if refreshed.Err? {
        return RotationInfo(now, "", false, Some(refreshed.error));
      }
      var username := if refreshed.value.Some? then refreshed.value.value.username else UnknownUsername;
      info := RotationInfo(now, username, true, None);
    }

    /** The answer GetSecretAsync(path, key) gives: the cached value, else a backend read. */
    function SecretResult(now: int, path: string, key: string,
                          read: Result<Option<map<string, Option<string>>>, string>)
      : (r: Result<string, string>)
      reads this
      ensures SecretLookup(secrets, path, key, now).Some? ==> r == Ok(SecretLookup(secrets, path, key, now).value)
      ensures SecretLookup(secrets, path, key, now).None? ==> r == ReadSecretResult(settings, path, key, read)
    {
      if SecretLookup(secrets, path, key, now).Some? then Ok(SecretLookup(secrets, path, key, now).value)
      else ReadSecretResult(settings, path, key, read)
    }

    /**
     * GetSecretAsync(path, key): cache-first read of one secret value, cached
     * for CacheExpirationMinutes under its own (path, key).
     */
    method GetSecret(now: int, path: string, key: string, read: Result<Option<map<string, Option<string>>>, string>)
      returns (r: Result<string, string>)
      modifies this
      ensures r == old(SecretResult(now, path, key, read))
      ensures DynamicUnchanged() && staticConnection == old(staticConnection) && staticInfo == old(staticInfo)
      ensures old(SecretLookup(secrets, path, key, now)).Some? ==> rpcs == old(rpcs) && secrets == old(secrets)
      ensures old(SecretLookup(secrets, path, key, now)).None? ==>
        && rpcs == old(rpcs) + [ReadSecret(path)]
        && (r.Err? ==> secrets == old(secrets))
        && (r.Ok? ==> secrets == old(secrets)[(path, key) := Entry(r.value, now + CacheSeconds(settings))])
    {
      var cached := SecretLookup(secrets, path, key, now);
      if cached.Some? {
        return Ok(cached.value);
      }
      rpcs := rpcs + [ReadSecret(path)];
      r := ReadSecretResult(settings, path, key, read);
      if r.Ok? {
        secrets := secrets[(path, key) := Entry(r.value, now + CacheSeconds(settings))];
      }
    }
  }

  /**
   * Two static-mode resolutions at the same instant: once the first
   * succeeds, the second returns the same string from the cache and makes no
   * backend call. `mid` is the backend log between the two calls.
   */
  method ResolveStaticTwice(s: VaultService, now: int, fetch: Result<StaticCreds, string>, validated: bool)
    returns (r1: Result<string, string>, r2: Result<string, string>, ghost mid: seq<Rpc>)
    modifies s
    ensures mid == old(s.rpcs) || mid == old(s.rpcs) + [FetchStatic]
    ensures r1.Ok? ==> r2 == r1 && s.rpcs == mid
  {
    r1 := s.GetStaticConnectionString(now, fetch, validated);
    mid := s.rpcs;
    r2 := s.GetStaticConnectionString(now, fetch, validated);
  }
}
