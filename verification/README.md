# Vault credential cache and lease registry, in Dafny

This project models the database-credential core of an ASP.NET application that
gets its SQL Server credentials from HashiCorp Vault. It also models the small
components around that core.

- **`Vault.VaultService`** is a class. It has one field per memory-cache key:
  - `vault_connection_string`, `vault_lease_info` and `vault_all_leases`;
  - the two `vault_static_*` keys;
  - the per-secret entries.

  Each field holds a value and its absolute expiry. An entry is visible while
  the clock is before that expiry. The lease registry is a sequence of
  `Leases.LeaseInfo` objects. Their `IsCurrentlyUsed` flag is updated in place
  through shared references, as in the C# code.
- **Backend calls** are parameters: issuing, renewing and revoking leases,
  fetching and rotating static credentials, and reading KV secrets. So is the
  trial SQL connection (`validated`). The ghost field `rpcs` records which
  backend calls an operation made, in order.
- **The clock** is an integer number of seconds. Each operation reads it once
  (`now`).
- **The satellites:**
  - the time getters of `LeaseInfo` and `StaticCredentialInfo`;
  - the connection-string fallback chain;
  - the memoised `DbContext`;
  - the user-name extraction and the result records of the test controller;
  - the form folding, row building, path discovery and loading logic of the
    KV controller.

Modules, one per file:

- `wrappers.dfy` (Option, Result, Outcome)
- `text.dfy` (`Split`, `TrimEnd` and the case-insensitive `StartsWith` the
  controllers use)
- `lease_info.dfy`
- `static_credential_info.dfy`
- `lease_registry.dfy` (the list operations of the registry)
- `vault_service.dfy`
- `connection_string_provider.dfy`
- `db_context_provider.dfy`
- `test_vault_controller.dfy`
- `test_kv_controller.dfy`

A new lease's in-use flag does not always end true. When the registry key is
not visible at mint time, `GetAllActiveLeasesAsync` seeds the registry with the
cached current lease. That is the very object just minted. The clear-flags loop
of `UpdateAllLeasesCache` then sets its flag to false. So the design intent
that exactly the new lease is marked in use holds only when the registry was
cached, or when the new lease's cache entry is already past its expiry. The
model follows the code. `Vault.VaultService.GetNewSqlConnectionString` states
the flag exactly.

## Model

| member | source | states |
|---|---|---|
| Leases.LeaseInfo.TimeRemaining | HashiCorpIntegration/Vault/LeaseInfo.cs:11-12 | The remaining time is never negative and is zero once the lease is expired. Otherwise it is exactly the time left until `ExpiresAt`. |
| Leases.ExpiryInstant | HashiCorpIntegration/Vault/LeaseInfo.cs:11-12 | At exactly `now == ExpiresAt` the lease is not expired, yet no time remains. |
| Leases.FreshLeaseTimeRemaining | HashiCorpIntegration/Vault/VaultService.cs:84-100 | A lease minted with a duration over 5 minutes is unexpired at creation. It then has duration − 5 minutes remaining. |
| Leases.CacheExpiry | HashiCorpIntegration/Vault/VaultService.cs:85 | The cache entry ends before the lease does. It is still visible at mint time iff the lease lasts more than 5 minutes. |
| Leases.LeaseInfo.IsExpired | HashiCorpIntegration/Vault/LeaseInfo.cs:11 | A lease is expired only strictly after `ExpiresAt`. `ExpiryInstant` shows the boundary. |
| StaticCredentials.StaticCredentialInfo.TimeUntilRotation | HashiCorpIntegration/Models/Database-Secrets/StaticCredentialInfo.cs:11-12 | The time until rotation is never negative and is zero once expired. Otherwise it is exactly the time left until `NextRotation`. |
| StaticCredentials.RotationInstant | HashiCorpIntegration/Models/Database-Secrets/StaticCredentialInfo.cs:11-12 | At `now == NextRotation` the snapshot is not expired, yet no time remains. |
| StaticCredentials.StaticCredentialInfo.IsExpired | HashiCorpIntegration/Models/Database-Secrets/StaticCredentialInfo.cs:11 | A snapshot is expired only strictly after `NextRotation`. `RotationInstant` shows the boundary. |
| StaticCredentials.FromBackend | HashiCorpIntegration/Vault/VaultService.cs:283-304 | An unparsable rotation time becomes `now`. An unparsable or non-positive period becomes 86400 s, and a positive one is kept. `NextRotation = LastRotated + RotationPeriod`, and the period is always positive. |
| StaticCredentials.MalformedMetadataFallback | HashiCorpIntegration/Vault/VaultService.cs:283-304 | With both metadata fields unusable, the snapshot is unexpired at fetch time with 24 h until rotation. |
| LeaseRegistry.Active | HashiCorpIntegration/Vault/VaultService.cs:192 | `Where(l => !l.IsExpired)` keeps exactly the unexpired entries, and no others. The same filter is the `RemoveAll` at line 223. |
| LeaseRegistry.WithoutId | HashiCorpIntegration/Vault/VaultService.cs:139 | `RemoveAll` keeps exactly the entries with other ids. |
| LeaseRegistry.RemoveFirstWithId | HashiCorpIntegration/Vault/VaultService.cs:216-220 | Removing the first entry with the id keeps every entry with another id and adds nothing. |
| LeaseRegistry.RemoveFirstWithIdUnique | HashiCorpIntegration/Vault/VaultService.cs:216-220 | With unique ids, removing the first entry with the id removes that id entirely and keeps the ids unique. |
| LeaseRegistry.ActiveUnique | HashiCorpIntegration/Vault/VaultService.cs:223 | Pruning expired entries keeps the ids unique. This covers the filter at line 192 as well. |
| LeaseRegistry.WithoutIdUnique | HashiCorpIntegration/Vault/VaultService.cs:139 | Removing an id keeps the ids unique. |
| LeaseRegistry.Seed | HashiCorpIntegration/Vault/VaultService.cs:195-203 | The registry seeded on a miss holds the current lease alone, or nothing. Its ids are unique. |
| LeaseRegistry.Merged | HashiCorpIntegration/Vault/VaultService.cs:216-223 | Every entry is unexpired and is either the new lease or from the listing. Every unexpired listed entry with another id is kept. An unexpired new lease is in the result. |
| LeaseRegistry.ActiveAppend | HashiCorpIntegration/Vault/VaultService.cs:221-222 | Appending an unexpired lease and then pruning equals pruning and then appending. |
| LeaseRegistry.MergedProperties | HashiCorpIntegration/Vault/VaultService.cs:207-226 | After the merge, no entry is expired and the ids stay unique if they were. Every other entry comes from the listing. Unless the new lease is itself expired, it is the last entry and the only one with its id. |
| LeaseRegistry.AtMostOneMarked | HashiCorpIntegration/Vault/VaultService.cs:187-190 | With unique ids, flags derived from one id mark at most one entry. |
| LeaseRegistry.MarkCurrent | HashiCorpIntegration/Vault/VaultService.cs:187-190 | Each cached entry is marked in use exactly when its id equals the current lease's id. |
| LeaseRegistry.ClearFlags | HashiCorpIntegration/Vault/VaultService.cs:211-214 | Every entry of the listing ends marked not in use. |
| Vault.MintResult | HashiCorpIntegration/Vault/VaultService.cs:72-82 | A mint succeeds iff the backend issues a credential and the trial connection succeeds. It returns the backend's error or the validation error otherwise. A successful string is never empty. |
| Vault.ConnectionString | HashiCorpIntegration/Vault/VaultService.cs:75 | The string built from server, database, user name and password. `TestVault.UsernameRoundTrip` reads the user name back out of it. |
| Vault.StaticFetch | HashiCorpIntegration/Vault/VaultService.cs:261-307 | A static fetch succeeds iff the backend answers, the trial connection succeeds and `CacheExpirationMinutes` is positive. The cached snapshot is the one built with the metadata fallbacks. |
| Vault.ReadSecretResult | HashiCorpIntegration/Vault/VaultService.cs:386-408 | Reading a secret succeeds iff the path has data, the key is present with a non-null value and `CacheExpirationMinutes` is positive. The result is that value. Each failure has its own error: the backend's error passes through unchanged, a missing key gives the key-not-found message, a null value gives the null-reference message, and non-positive minutes give the cache-options error. |
| Vault.RevokeCallsInOrder | HashiCorpIntegration/Vault/VaultService.cs:157-167 | Revoking a list logs one revoke call per lease, in the list's order. |
| Vault.SecretCacheKey | HashiCorpIntegration/Vault/VaultService.cs:378 | The secret cache key as written. `SecretCacheKeyCollision` shows that it is not one-to-one. |
| Vault.SecretCacheKeyCollision | HashiCorpIntegration/Vault/VaultService.cs:378 | Two different (path, key) pairs share one string cache key. |
| Vault.StringKeyedCacheServesOtherSecret | HashiCorpIntegration/Vault/VaultService.cs:378-384 | With the string key as written, the value cached for one pair is what a read of the other pair gets. |
| Vault.SecretCacheIsolated | HashiCorpIntegration/Vault/VaultService.cs:376-409 | With the cache keyed by the pair, caching a secret never changes what any other (path, key) reads. |
| Vault.VaultService.GetCurrentLeaseInfo | HashiCorpIntegration/Vault/VaultService.cs:235-239 | The cached lease while its entry is visible, else null. |
| Vault.VaultService.StaticConnectionResult | HashiCorpIntegration/Vault/VaultService.cs:245-255 | The static path's answer is never an empty string. |
| Vault.VaultService.ConnectionStringResult | HashiCorpIntegration/Vault/VaultService.cs:50-66 | Static mode always takes the static path. Otherwise a visible non-empty cached string is the answer, and only a miss or an empty value leads to a mint. A successful answer is never empty. |
| Vault.VaultService.InvalidateConnectionCache | HashiCorpIntegration/Vault/VaultService.cs:228-233 | Exactly the dynamic connection string and the lease info are removed. |
| Vault.VaultService.InvalidateStaticConnectionCache | HashiCorpIntegration/Vault/VaultService.cs:365-370 | Exactly the two static entries are removed. |
| Vault.VaultService.GetAllActiveLeases | HashiCorpIntegration/Vault/VaultService.cs:181-205 | On a registry hit, every cached entry's flag is set iff its id equals the current lease's id, and the unexpired entries are returned. On a miss, the registry is seeded for 5 minutes with the current lease or with nothing. Either way the result has unique ids, no expired entry and at most one marked entry. |
| Vault.VaultService.UpdateAllLeasesCache | HashiCorpIntegration/Vault/VaultService.cs:207-226 | The registry becomes the merged listing, cached for 5 minutes. Every entry of the listing is cleared, and ids stay unique. |
| Vault.VaultService.GetNewSqlConnectionString | HashiCorpIntegration/Vault/VaultService.cs:68-118 | On failure nothing is cached and the error is returned. On success the cache is as `MintCached` states: the string and a fresh `LeaseInfo` are cached with the same expiry, now + duration − 5 min, and `ExpiresAt` equals it. The lease is merged into the registry, and no other entry is marked. The new lease's flag is as described above. With a lease over 5 minutes, the string is then a cache hit. |
| Vault.VaultService.CacheMint | HashiCorpIntegration/Vault/VaultService.cs:84-107 | The success branch of the mint: the cache ends as `MintCached` states, no static entry changes and no backend call is made. |
| Vault.VaultService.GetSqlConnectionString | HashiCorpIntegration/Vault/VaultService.cs:50-66 | It returns `ConnectionStringResult`. A cache hit makes no backend call and changes nothing. In static mode the dynamic keys are untouched, and after a miss a successful fetch caches both static entries. In dynamic mode a miss makes one issue call. A failed mint changes nothing. A successful one leaves the cache as `MintCached` states, so with a lease over 5 minutes the next call is a hit. |
| Vault.VaultService.RenewLease | HashiCorpIntegration/Vault/VaultService.cs:120-124 | One renew call. The cache is unchanged. |
| Vault.VaultService.RevokeSingleLease | HashiCorpIntegration/Vault/VaultService.cs:126-149 | The backend revoke comes first. If it fails, nothing changes and the error is returned. Otherwise both dynamic keys are removed iff the id is the current lease's, and the registry becomes the listing without that id. On a registry hit, every listed entry's flag is re-marked against the current lease as it stands after the removal. Static keys are untouched. |
| Vault.VaultService.RevokeAllLeases | HashiCorpIntegration/Vault/VaultService.cs:151-179 | One revoke attempt per lease of the listing taken first, in order. Failures are swallowed. The connection-string, lease-info and registry keys all end absent. |
| Vault.VaultService.GetNewStaticConnectionString | HashiCorpIntegration/Vault/VaultService.cs:257-318 | Any failure caches nothing. Success caches both static entries for `CacheExpirationMinutes`. |
| Vault.VaultService.GetStaticConnectionString | HashiCorpIntegration/Vault/VaultService.cs:245-255 | A visible non-empty cached string is returned without a backend call or any change. Otherwise it makes one fetch. A successful fetch caches both static entries for `CacheExpirationMinutes`, and a failed one leaves them as they were. |
| Vault.ResolveStaticTwice | HashiCorpIntegration/Vault/VaultService.cs:245-255 | Two resolutions at the same instant. The first logs nothing or one static fetch. Once it succeeds, the second returns the same string and logs nothing. |
| Vault.VaultService.GetStaticCredentialInfo | HashiCorpIntegration/Vault/VaultService.cs:320-332 | It returns the cached snapshot if one is visible. Otherwise it fetches and returns the new snapshot, or the error. |
| Vault.VaultService.RotateStaticCredentials | HashiCorpIntegration/Vault/VaultService.cs:334-363 | It never fails. `Success` is true iff the rotate and the re-fetch both succeed. A failed rotate leaves the cache untouched and reports the message. A failed re-fetch leaves the static keys absent. A successful one caches both static entries again, and the username is the refreshed one. |
| Vault.VaultService.SecretResult | HashiCorpIntegration/Vault/VaultService.cs:376-409 | With the cache keyed by the (path, key) pair, which is the corrected key from the Findings row, a cached non-empty value for the pair is the answer. Otherwise the answer is the backend read. |
| Vault.VaultService.GetSecret | HashiCorpIntegration/Vault/VaultService.cs:376-409 | With the cache keyed by the (path, key) pair, which is the corrected key from the Findings row: a cache hit makes no backend call. A successful read caches the value under its own pair for `CacheExpirationMinutes`. A failed read caches nothing. |
| ConnectionStringProvider.GetConnectionString | HashiCorpIntegration/Data/VaultConnectionStringProvider.cs:20-40 | The call succeeds iff Vault answers or `DefaultConnection` is non-empty. Vault's string is returned unchanged. The fallback is never empty. Otherwise the error wraps Vault's message. |
| ConnectionStringProvider.VaultAnswerIgnoresConfiguration | HashiCorpIntegration/Data/VaultConnectionStringProvider.cs:22-26 | When Vault answers, configuration is not consulted. |
| ConnectionStringProvider.ProvidedStringNonEmpty | HashiCorpIntegration/Data/VaultConnectionStringProvider.cs:28-38 | The provider never returns an empty string when Vault's answers are non-empty. |
| DbContexts.DynamicDbContextProvider.GetContext | HashiCorpIntegration/Data/DynamicDbContextProvider.cs:23-56 | A new context is built iff there is none or the string changed, and the old one is disposed first. The remembered string is the new one. Otherwise the remembered context is returned. A failed fetch returns a fresh, untracked context on `DefaultConnection` and remembers nothing. |
| DbContexts.DynamicDbContextProvider.Dispose | HashiCorpIntegration/Data/DynamicDbContextProvider.cs:58-61 | It disposes the remembered context only. |
| DbContexts.ConsecutiveCallsShareContext | HashiCorpIntegration/Data/DynamicDbContextProvider.cs:30-43 | Two calls with the same connection string return the identical context. |
| TestVault.FirstUserIdIndex | HashiCorpIntegration/Controllers/TestVaultController.cs:99 | It finds the first segment starting, ignoring case, with `User Id=`. No earlier segment does. |
| TestVault.ExtractUsername | HashiCorpIntegration/Controllers/TestVaultController.cs:98-103 | There is no user name iff no segment starts with `User Id=`. Otherwise the name is the text after the first '=' of the first such segment, up to the next '='. |
| TestVault.UserIdPartSplit | HashiCorpIntegration/Controllers/TestVaultController.cs:103 | A `User Id=` segment splits on '=' into its name and the text after it, so `[1]` always exists. |
| TestVault.UsernameRoundTrip | HashiCorpIntegration/Controllers/TestVaultController.cs:98-103 | Parsing a string built by the service gives back its user name. This needs no ';' in the server or database, and no ';' or '=' in the user name. |
| TestVault.CredentialInfo | HashiCorpIntegration/Controllers/TestVaultController.cs:89-119 | A failed call gives `Success` false and the error. Otherwise `Success` holds iff a user name was found, and `IsVaultGenerated` iff it starts, ignoring case, with `v-token-`. |
| TestVault.MintedCredentialShown | HashiCorpIntegration/Controllers/TestVaultController.cs:95-105 | A freshly minted credential shows up under its own user name. |
| TestVault.Index | HashiCorpIntegration/Controllers/TestVaultController.cs:24-57 | Vault success means a non-empty string was returned. Database success equals the `CanConnectAsync` answer. Errors carry the messages. |
| TestVault.HealthCheck | HashiCorpIntegration/Controllers/TestVaultController.cs:121-153 | Vault is healthy iff the call did not fail, otherwise it carries the message. The database is healthy iff no exception occurred, whatever the boolean. |
| TestVault.HealthIgnoresCanConnect | HashiCorpIntegration/Controllers/TestVaultController.cs:141-150 | A database that answers "cannot connect" is healthy for the probe but failing on the test page. |
| TestKv.LastRowFor | HashiCorpIntegration/Controllers/TestKvController.cs:231-234 | It finds the last kept row with the key. No later row keeps it. |
| TestKv.Folded | HashiCorpIntegration/Controllers/TestKvController.cs:229-234 | The dictionary the create form builds. `FoldedSpec` states what it holds. |
| TestKv.FoldedSpec | HashiCorpIntegration/Controllers/TestKvController.cs:229-234 | A key is in the folded dictionary iff some non-blank row carries it. Its value is the last such row's value. |
| TestKv.CollectSecrets | HashiCorpIntegration/Controllers/TestKvController.cs:229-234 | The loop builds the folded dictionary: blank keys are dropped and later rows win. |
| TestKv.CreateSecret | HashiCorpIntegration/Controllers/TestKvController.cs:218-262 | A blank path gives a form error and no write. No surviving row gives an error and no write. Otherwise the folded data is written. The cache is invalidated iff the write succeeded. |
| TestKv.EditRows | HashiCorpIntegration/Controllers/TestKvController.cs:282-289 | There is one row per stored entry, with the value's string form or "", and then exactly one empty row. |
| TestKv.EditRowsRoundTrip | HashiCorpIntegration/Controllers/TestKvController.cs:282-289 | Folding the edit rows gives back exactly the stored non-blank keys with their string values. |
| TestKv.UpdateSecret | HashiCorpIntegration/Controllers/TestKvController.cs:264-298 | An empty path redirects with "Secret path is required". A failed read redirects with its message. Otherwise the form shows exactly `EditRows` of the stored entries: one row per entry, then one empty row. |
| TestKv.FullPath | HashiCorpIntegration/Controllers/TestKvController.cs:133 | A listed child's full path: the child alone under the root, else base + "/" + child. `SubdirectoryLonger` and `DiscoveredUnderBase` state its properties. |
| TestKv.SlashOnlyDirectoryRevisitsBase | HashiCorpIntegration/Controllers/TestKvController.cs:133-138 | Under a base path not ending in '/', a directory name made only of slashes is walked under that same base path again. |
| TestKv.SubdirectoryLonger | HashiCorpIntegration/Controllers/TestKvController.cs:133-138 | A directory child is walked under a strictly longer base that extends the parent with '/'. |
| TestKv.PendingShrinks | HashiCorpIntegration/Controllers/TestKvController.cs:138 | Walking a deeper base leaves strictly fewer listed bases to walk, so discovery ends. |
| TestKv.DiscoveredUnder | HashiCorpIntegration/Controllers/TestKvController.cs:125-161 | The paths the walk appends under a base path, in order. A failed listing appends nothing. |
| TestKv.DiscoveredIn | HashiCorpIntegration/Controllers/TestKvController.cs:130-155 | The paths appended while walking the first n children: a directory adds its own walk, and a leaf is added iff its existence check answers true. |
| TestKv.DiscoverAllSecretPaths | HashiCorpIntegration/Controllers/TestKvController.cs:125-161 | The list grows by exactly the discovered paths. Directories are recursed into with '/' trimmed. A leaf is added iff its existence check answers true. Failures are swallowed. |
| TestKv.DiscoveredUnderExist | HashiCorpIntegration/Controllers/TestKvController.cs:143-153 | Every discovered path's existence check answered true. |
| TestKv.DiscoveredUnderBase | HashiCorpIntegration/Controllers/TestKvController.cs:133 | Every path discovered under a non-root base starts with base + "/". |
| TestKv.Take | HashiCorpIntegration/Controllers/TestKvController.cs:57 | `Take(n)` is the prefix of length min(n, length). |
| TestKv.Loaded | HashiCorpIntegration/Controllers/TestKvController.cs:57-73 | Exactly the readable paths are loaded, each with its data and the load time, and there are never more views than paths. |
| TestKv.LoadFrom | HashiCorpIntegration/Controllers/TestKvController.cs:86-102 | The loop loads each readable path and skips each failing one. |
| TestKv.LoadSecrets | HashiCorpIntegration/Controllers/TestKvController.cs:43-123 | Under the root, it loads at most 10 discovered paths, or the three common paths when the root listing fails, and reports no error. For a path, it loads it or reports the message. |
| TestKv.RootSecretsExist | HashiCorpIntegration/Controllers/TestKvController.cs:54-57 | Every secret loaded from discovered paths comes from a path whose existence check answered true. |
| TestKv.InvalidateCache | HashiCorpIntegration/Controllers/TestKvController.cs:393-416 | The cache gets null iff the path is null or empty, and the path otherwise. The notice depends on that, and a failure reports its message. |
| Text.Split | HashiCorpIntegration/Controllers/TestVaultController.cs:98 | There is at least one piece, and no piece contains the separator. |
| Text.JoinSplit | HashiCorpIntegration/Controllers/TestVaultController.cs:98 | Joining the pieces with the separator gives back the string. |
| Text.TrimEnd | HashiCorpIntegration/Controllers/TestKvController.cs:138 | The result is a prefix that does not end with the character, and only that character was dropped. |

## Left out

- Calls into VaultSharp, the HTTP client, SQL Server (`ValidateConnectionAsync`, `ClearAllPools`) and EF Core are not modelled. Each becomes an outcome parameter. Pool clearing is a no-op.
- The parsing of `LastVaultRotation` (`DateTime.TryParse`) and `RotationPeriod` (`double.TryParse`) depends on culture. Each arrives already parsed, as an `Option` of whole seconds. Fractional seconds and `TimeSpan`/`DateTime` overflow are not modelled.
- Memory-cache eviction under memory pressure and cache priorities are not modelled. An entry lives until its expiry or its removal.
- Logging, `TempData`, view rendering and redirects are not modelled. Only the values they show are kept.
- Concurrency is not modelled: the code has no locks, so calls are modelled one after another. The background refresher (`VaultCredentialRefreshService`) and `Program.cs` are left out as well.
- `GetSecretAsync(path)`, which returns all keys of a path, is a plain backend read and is not modelled. So are the other KV controller actions (listing, detail, delete, add key, test page) and the unseen KV service methods. They appear only as oracles.
- Vault.VaultService.RotateStaticCredentials: the "Unknown" user name cannot occur in a sequential model. A successful re-fetch always leaves a visible snapshot.
- TestKv.DiscoverAllSecretPaths: it requires that no listed directory name is made of slashes only. On such a name `DiscoverAllSecretPaths` in TestKvController.cs calls itself on the same base path again and never ends (`TestKv.SlashOnlyDirectoryRevisitsBase`).
- TestKv.LoadSecrets: the root listing oracle answers the same way each time it is asked, so the first root listing and the walk's own root listing agree.
- TestVault.ExtractUsername: case-insensitive comparison is modelled for ASCII letters only. Culture-specific case folding is not modelled.
- TestVault.CredentialInfo: the local clock (`DateTime.Now`) is a separate parameter, `localNow`.
- Vault.VaultService.GetSecret, Vault.VaultService.SecretResult: the class keys the secret cache by the (path, key) pair, the corrected key from the Findings row. With the string key as written at VaultService.cs:378, a read of one pair can be served another pair's cached value without a backend read (`Vault.StringKeyedCacheServesOtherSecret`). The class does not model that.
- Vault.VaultService.RenewLease: the increment is a required parameter. The interface's default of 3600 seconds (IVaultService.cs:8) is left to the caller.
- Vault.StaticFetch, Vault.ReadSecretResult: the error for a non-positive `CacheExpirationMinutes` is only the first sentence of the .NET message. The parameter name and the actual value that `ArgumentOutOfRangeException` appends are not modelled.
- Vault.VaultService.RevokeAllLeases: the `isCurrentlyUsed` flags the leases hold at the end are not stated. The registry that holds them is dropped, and the service reads a flag only through `GetAllActiveLeases`, which recomputes it.
- DbContexts.DynamicDbContextProvider.GetContext: a context is modelled by its connection string and its disposed flag. The EF Core options are not modelled.

## Findings

| source | as written | input that shows it | evidently intended | confidence | as-written member | corrected member |
|---|---|---|---|---|---|---|
| HashiCorpIntegration/Vault/VaultService.cs:378 | The secret cache key is `"vault_secret_" + path + "_" + key`, so different pairs can share a key. | Path `a_b` with key `c`, and path `a` with key `b_c`: both map to `vault_secret_a_b_c`, and the second read is served the first pair's value. | Each (path, key) pair has its own cache entry. | medium, not executed | Vault.StringKeyedCacheServesOtherSecret | Vault.SecretCacheIsolated |
