/**
 * The form and discovery logic of Controllers/TestKvController.cs: folding
 * the key/value rows of the create form, building the rows of the edit form,
 * discovering secret paths by walking the KV listing, loading the dashboard's
 * secrets, and the cache-invalidation argument.
 *
 * The KV store is seen only through oracles: `listing` maps a base path to
 * its children (a missing base means the listing call throws), `existsCheck`
 * maps a full path to the existence check's answer (missing means the check
 * throws), and `read` is the outcome of reading every key of a path.
 */
module TestKv {
  import opened Wrappers
  import opened Text

  /** One row of the create/update form (Models/KV-Secrets/KvKeyValuePair.cs); None is a null field. */
  datatype KeyValueRow = KeyValueRow(key: Option<string>, value: Option<string>)

  /** KvKeyValuePair.IsEmpty: the key is null, empty or white space. */
  predicate IsEmpty(row: KeyValueRow)
  {
    IsNullOrWhiteSpace(row.key)
  }

  /** A row that is kept and carries the key `k`. */
  predicate KeepsKey(row: KeyValueRow, k: string)
  {
    row.key == Some(k) && !IsEmpty(row)
  }

  /** The secret data of one path: each key's value in string form, None for null. */
  type SecretData = map<string, Option<string>>

  /** The dictionary the create form's loop builds: non-empty rows in order, a later row overwriting an earlier one. */
  function Folded(rows: seq<KeyValueRow>): SecretData
  {
    if rows == [] then map[]
    else
      var earlier := Folded(rows[..|rows| - 1]);
      var row := rows[|rows| - 1];
      if IsEmpty(row) then earlier else earlier[row.key.value := row.value]
  }

  /** The index of the last kept row with key `k`, or -1 when there is none. */
  function LastRowFor(rows: seq<KeyValueRow>, k: string): (i: int)
    ensures -1 <= i < |rows|
    ensures i >= 0 ==> KeepsKey(rows[i], k)
    ensures forall j :: i < j < |rows| ==> !KeepsKey(rows[j], k)
  {
    if rows == [] then -1
    else if KeepsKey(rows[|rows| - 1], k) then |rows| - 1
    else LastRowFor(rows[..|rows| - 1], k)
  }

  /**
   * A key is in the folded dictionary exactly when some kept row carries it,
   * and its value is the value of the last such row.
   */
  lemma {:induction false} FoldedSpec(rows: seq<KeyValueRow>, k: string)
    ensures k in Folded(rows) <==> LastRowFor(rows, k) >= 0
    ensures k in Folded(rows) ==> Folded(rows)[k] == rows[LastRowFor(rows, k)].value
  {
    if rows != [] {
      var prefix := rows[..|rows| - 1];
      FoldedSpec(prefix, k);
      var row := rows[|rows| - 1];
      if !KeepsKey(row, k) {
        assert LastRowFor(rows, k) == LastRowFor(prefix, k);
        if LastRowFor(prefix, k) >= 0 {
          assert rows[LastRowFor(rows, k)] == prefix[LastRowFor(prefix, k)];
        }
      }
    }
  }

  /** CreateSecret's foreach loop over the form rows. */
  method CollectSecrets(rows: seq<KeyValueRow>) returns (secrets: SecretData)
    ensures secrets == Folded(rows)
    ensures forall k :: k in secrets <==> LastRowFor(rows, k) >= 0
  {
    secrets := map[];
    var i := 0;
    while i < |rows|
      invariant 0 <= i <= |rows|
      invariant secrets == Folded(rows[..i])
    {
      var row := rows[i];
      if !IsEmpty(row) {
        secrets := secrets[row.key.value := row.value];
      }
      assert rows[..i + 1][..i] == rows[..i];
      i := i + 1;
    }
    assert rows[..i] == rows;
    forall k | true
      ensures k in secrets <==> LastRowFor(rows, k) >= 0
    {
      FoldedSpec(rows, k);
    }
  }

  /** The page CreateSecret (POST) ends on. */
  datatype CreateOutcome =
    | Created(path: string)
    | FormError(field: string, message: string)
    | Failed(message: string)

  const PathRequired: string := "Path is required"
  const PairRequired: string := "At least one key-value pair is required"
  const CreateFailed: string := "Failed to create secret"

  /**
   * CreateSecret (POST), given the outcome of the write. Returns the page,
   * the write that was sent (path and data), and whether the KV cache was
   * invalidated.
   */
  method CreateSecret(path: Option<string>, rows: seq<KeyValueRow>, write: Result<bool, string>)
    returns (outcome: CreateOutcome, written: Option<(string, SecretData)>, cacheInvalidated: bool)
    ensures IsNullOrWhiteSpace(path) ==> outcome == FormError("Path", PathRequired) && written.None?
    ensures !IsNullOrWhiteSpace(path) && Folded(rows) == map[] ==> outcome == FormError("", PairRequired) && written.None?
    ensures written.Some? <==> !IsNullOrWhiteSpace(path) && Folded(rows) != map[]
    ensures written.Some? ==> written.value == (path.value, Folded(rows))
    ensures written.Some? ==>
      && (write == Ok(true) ==> outcome == Created(path.value))
      && (write == Ok(false) ==> outcome == Failed(CreateFailed))
      && (write.Err? ==> outcome == Failed(write.error))
    ensures cacheInvalidated <==> written.Some? && write == Ok(true)
  {
    written, cacheInvalidated := None, false;
    if IsNullOrWhiteSpace(path) {
      outcome := FormError("Path", PathRequired);
      return;
    }
    var secrets := CollectSecrets(rows);
    if |secrets| == 0 {
      outcome := FormError("", PairRequired);
      return;
    }
    written := Some((path.value, secrets));
    if write.Err? {
      outcome := Failed(write.error);
    } else if write.value {
      cacheInvalidated := true;
      outcome := Created(path.value);
    } else {
      outcome := Failed(CreateFailed);
    }
  }

  /** One entry of a stored secret, in the dictionary's order. */
  datatype SecretItem = SecretItem(key: string, value: Option<string>)

  predicate UniqueKeys(items: seq<SecretItem>)
  {
    forall i, j :: 0 <= i < |items| && 0 <= j < |items| && items[i].key == items[j].key ==> i == j
  }

  /** The edit form's rows: one per stored entry, null values shown as "", then one empty row. */
  function EditRows(items: seq<SecretItem>): (rows: seq<KeyValueRow>)
    ensures |rows| == |items| + 1
    ensures forall i :: 0 <= i < |items| ==> rows[i] == KeyValueRow(Some(items[i].key), Some(items[i].value.GetOr("")))
    ensures rows[|items|] == KeyValueRow(Some(""), Some(""))
  {
    seq(|items|, i requires 0 <= i < |items| => KeyValueRow(Some(items[i].key), Some(items[i].value.GetOr(""))))
    + [KeyValueRow(Some(""), Some(""))]
  }

  /**
   * Submitting the edit form unchanged writes back every stored entry whose
   * key is not blank, with its value in string form, and nothing else.
   */
  lemma EditRowsRoundTrip(items: seq<SecretItem>)
    requires UniqueKeys(items)
    ensures forall i :: 0 <= i < |items| && !IsNullOrWhiteSpace(Some(items[i].key)) ==>
              items[i].key in Folded(EditRows(items))
              && Folded(EditRows(items))[items[i].key] == Some(items[i].value.GetOr(""))
    ensures forall k :: k in Folded(EditRows(items)) ==>
              exists i :: 0 <= i < |items| && items[i].key == k && !IsNullOrWhiteSpace(Some(k))
  {
    var rows := EditRows(items);
    assert IsEmpty(rows[|items|]);
    forall i | 0 <= i < |items| && !IsNullOrWhiteSpace(Some(items[i].key))
      ensures items[i].key in Folded(rows) && Folded(rows)[items[i].key] == Some(items[i].value.GetOr(""))
    {
      var k := items[i].key;
      FoldedSpec(rows, k);
      assert KeepsKey(rows[i], k);
      var last := LastRowFor(rows, k);
      assert last == i;
    }
    forall k | k in Folded(rows)
      ensures exists i :: 0 <= i < |items| && items[i].key == k && !IsNullOrWhiteSpace(Some(k))
    {
      FoldedSpec(rows, k);
      var last := LastRowFor(rows, k);
      assert last < |items|;
      assert items[last].key == k;
    }
  }

  /** The page UpdateSecret (GET) ends on. */
  datatype UpdateOutcome =
    | EditForm(path: string, rows: seq<KeyValueRow>)
    | RedirectWithError(message: string)

  const SecretPathRequired: string := "Secret path is required"

  /** UpdateSecret (GET), given the outcome of reading the stored entries. */
  function UpdateSecret(path: Option<string>, existing: Result<seq<SecretItem>, string>): (r: UpdateOutcome)
    ensures IsNullOrEmpty(path) ==> r == RedirectWithError(SecretPathRequired)
    ensures !IsNullOrEmpty(path) && existing.Err? ==>
              r == RedirectWithError("Failed to load existing secret: " + existing.error)
    ensures r.EditForm? <==> !IsNullOrEmpty(path) && existing.Ok?
    ensures r.EditForm? ==> r.path == path.value && r.rows == EditRows(existing.value)
  {
    if IsNullOrEmpty(path) then RedirectWithError(SecretPathRequired)
    else if existing.Err? then RedirectWithError("Failed to load existing secret: " + existing.error)
    else EditForm(path.value, EditRows(existing.value))
  }

  // Path discovery

  /** The full path of a listed child: the child alone under the root, else base + "/" + child. */
  function FullPath(basePath: string, child: string): string
  {
    if basePath == "" then child else basePath + "/" + child
  }

  /** A listed child ending in "/" names a directory. */
  predicate IsDirectory(child: string)
  {
    EndsWith(child, "/")
  }

  /**
   * No listed directory name is made of slashes only. On such a name the
   * recursion would come back to the same base path and never end.
   */
  predicate WellFormedListing(listing: map<string, seq<string>>)
  {
    forall b, c :: b in listing && c in listing[b] && IsDirectory(c) ==> TrimEnd(c, '/') != ""
  }

  /** Trailing slashes after a piece that does not end in '/' are trimmed back to that piece. */
  lemma {:induction false} TrimEndSlashes(a: string, slashes: string)
    requires a == "" || a[|a| - 1] != '/'
    requires forall k :: 0 <= k < |slashes| ==> slashes[k] == '/'
    ensures TrimEnd(a + slashes, '/') == a
    decreases |slashes|
  {
    if slashes == [] {
      assert a + slashes == a;
    } else {
      var shorter := slashes[..|slashes| - 1];
      assert (a + slashes)[..|a + slashes| - 1] == a + shorter;
      TrimEndSlashes(a, shorter);
    }
  }

  /** A name made of slashes only is a directory that trims to the empty string. */
  lemma SlashOnlyName(child: string)
    requires |child| > 0 && forall k :: 0 <= k < |child| ==> child[k] == '/'
    ensures IsDirectory(child) && TrimEnd(child, '/') == ""
  {
    assert child[|child| - 1..] == "/";
    TrimEndSlashes("", child);
    assert "" + child == child;
  }

  /**
   * Why the listing must be well formed: under a base path that does not end
   * in '/', a directory name made of slashes only is walked under that same
   * base path again.
   */
  lemma SlashOnlyDirectoryRevisitsBase(basePath: string, child: string)
    requires |child| > 0 && forall k :: 0 <= k < |child| ==> child[k] == '/'
    requires basePath == "" || basePath[|basePath| - 1] != '/'
    ensures IsDirectory(child) && TrimEnd(child, '/') == ""
    ensures TrimEnd(FullPath(basePath, child), '/') == basePath
  {
    SlashOnlyName(child);
    if basePath != "" {
      var tail := "/" + child;
      forall k | 0 <= k < |tail|
        ensures tail[k] == '/'
      {
        if k > 0 {
          assert tail[k] == child[k - 1];
        }
      }
      TrimEndSlashes(basePath, tail);
      assert FullPath(basePath, child) == basePath + tail;
    }
  }

  /** The listed base paths at least as long as `basePath`: what is left to walk. */
  function Pending(listing: map<string, seq<string>>, basePath: string): set<string>
  {
    set k | k in listing && |k| >= |basePath|
  }

  /** The base path a directory child is walked under is longer than its parent, and extends it. */
  lemma SubdirectoryLonger(basePath: string, child: string)
    requires IsDirectory(child) && TrimEnd(child, '/') != ""
    ensures |TrimEnd(FullPath(basePath, child), '/')| > |basePath|
    ensures basePath != "" ==> TrimEnd(FullPath(basePath, child), '/')[..|basePath| + 1] == basePath + "/"
  {
    var s := FullPath(basePath, child);
    var t := TrimEnd(child, '/');
    var offset := if basePath == "" then 0 else |basePath| + 1;
    assert s[offset..] == child;
    assert child[|t| - 1] != '/';
    assert s[offset + |t| - 1] != '/';
  }

  lemma PendingShrinks(listing: map<string, seq<string>>, basePath: string, deeper: string)
    requires basePath in listing && |deeper| > |basePath|
    ensures Pending(listing, deeper) < Pending(listing, basePath)
  {
    assert basePath in Pending(listing, basePath);
  }

  /** The paths DiscoverAllSecretPaths appends for `basePath`, in order. */
  function DiscoveredUnder(listing: map<string, seq<string>>, existsCheck: map<string, bool>, basePath: string)
    : seq<string>
    requires WellFormedListing(listing)
    decreases Pending(listing, basePath), 1, 0
  {
    if basePath in listing then DiscoveredIn(listing, existsCheck, basePath, |listing[basePath]|) else []
  }

  /** The paths appended while walking the first `n` children of `basePath`. */
  function DiscoveredIn(listing: map<string, seq<string>>, existsCheck: map<string, bool>, basePath: string, n: nat)
    : seq<string>
    requires WellFormedListing(listing)
    requires basePath in listing && n <= |listing[basePath]|
    decreases Pending(listing, basePath), 0, n
  {
    if n == 0 then []
    else
      var earlier := DiscoveredIn(listing, existsCheck, basePath, n - 1);
      var child := listing[basePath][n - 1];
      var fullPath := FullPath(basePath, child);
      if IsDirectory(child) then
        SubdirectoryLonger(basePath, child);
        PendingShrinks(listing, basePath, TrimEnd(fullPath, '/'));
        earlier + DiscoveredUnder(listing, existsCheck, TrimEnd(fullPath, '/'))
      else if fullPath in existsCheck && existsCheck[fullPath] then earlier + [fullPath]
      else earlier
  }

  lemma AppendAssociative(a: seq<string>, b: seq<string>, c: seq<string>)
    ensures (a + b) + c == a + (b + c)
  {
  }

  /** The paths appended for one listed child of `basePath`. */
  function DiscoveredStep(listing: map<string, seq<string>>, existsCheck: map<string, bool>, basePath: string,
                          child: string): seq<string>
    requires WellFormedListing(listing)
  {
    var fullPath := FullPath(basePath, child);
    if IsDirectory(child) then DiscoveredUnder(listing, existsCheck, TrimEnd(fullPath, '/'))
    else if fullPath in existsCheck && existsCheck[fullPath] then [fullPath]
    else []
  }

  lemma DiscoveredInStep(listing: map<string, seq<string>>, existsCheck: map<string, bool>, basePath: string, i: nat)
    requires WellFormedListing(listing)
    requires basePath in listing && i < |listing[basePath]|
    ensures DiscoveredIn(listing, existsCheck, basePath, i + 1)
            == DiscoveredIn(listing, existsCheck, basePath, i) + DiscoveredStep(listing, existsCheck, basePath, listing[basePath][i])
  {
  }

  /**
   * DiscoverAllSecretPaths: walks the listing under `basePath`, recursing into
   * directories and appending each leaf whose existence check answers true.
   * Listing failures and check failures are swallowed.
   */
  method DiscoverAllSecretPaths(listing: map<string, seq<string>>, existsCheck: map<string, bool>,
                                basePath: string, secretPaths: seq<string>)
    returns (result: seq<string>)
    requires WellFormedListing(listing)
    ensures result == secretPaths + DiscoveredUnder(listing, existsCheck, basePath)
    decreases Pending(listing, basePath), 1
  {
    result := secretPaths;
    if basePath !in listing {
      return;
    }
    var paths := listing[basePath];
    var i := 0;
    while i < |paths|
      invariant 0 <= i <= |paths|
      invariant result == secretPaths + DiscoveredIn(listing, existsCheck, basePath, i)
    {
      var path := paths[i];
      var fullPath := FullPath(basePath, path);
      ghost var before := result;
      DiscoveredInStep(listing, existsCheck, basePath, i);
      if IsDirectory(path) {
        SubdirectoryLonger(basePath, path);
        PendingShrinks(listing, basePath, TrimEnd(fullPath, '/'));
        result := DiscoverAllSecretPaths(listing, existsCheck, TrimEnd(fullPath, '/'), result);
      } else if fullPath in existsCheck && existsCheck[fullPath] {
        result := result + [fullPath];
      }
      AppendAssociative(secretPaths, DiscoveredIn(listing, existsCheck, basePath, i),
                        DiscoveredStep(listing, existsCheck, basePath, path));
      i := i + 1;
    }
  }

  /** Every discovered path is one whose existence check answered true. */
  lemma {:induction false} DiscoveredUnderExist(listing: map<string, seq<string>>, existsCheck: map<string, bool>,
                                                basePath: string)
    requires WellFormedListing(listing)
    ensures forall p :: p in DiscoveredUnder(listing, existsCheck, basePath) ==> p in existsCheck && existsCheck[p]
    decreases Pending(listing, basePath), 1, 0
  {
    if basePath in listing {
      DiscoveredInExist(listing, existsCheck, basePath, |listing[basePath]|);
    }
  }

  lemma {:induction false} DiscoveredInExist(listing: map<string, seq<string>>, existsCheck: map<string, bool>,
                                             basePath: string, n: nat)
    requires WellFormedListing(listing)
    requires basePath in listing && n <= |listing[basePath]|
    ensures forall p :: p in DiscoveredIn(listing, existsCheck, basePath, n) ==> p in existsCheck && existsCheck[p]
    decreases Pending(listing, basePath), 0, n
  {
    if n > 0 {
      DiscoveredInExist(listing, existsCheck, basePath, n - 1);
      var child := listing[basePath][n - 1];
      if IsDirectory(child) {
        var deeper := TrimEnd(FullPath(basePath, child), '/');
        SubdirectoryLonger(basePath, child);
        PendingShrinks(listing, basePath, deeper);
        DiscoveredUnderExist(listing, existsCheck, deeper);
      }
    }
  }

  /** Every path discovered under a non-root base lies under it. */
  lemma {:induction false} DiscoveredUnderBase(listing: map<string, seq<string>>, existsCheck: map<string, bool>,
                                               basePath: string)
    requires WellFormedListing(listing)
    requires basePath != ""
    ensures forall p :: p in DiscoveredUnder(listing, existsCheck, basePath) ==>
              |p| > |basePath| && p[..|basePath| + 1] == basePath + "/"
    decreases Pending(listing, basePath), 1, 0
  {
    if basePath in listing {
      DiscoveredInBase(listing, existsCheck, basePath, |listing[basePath]|);
    }
  }

  lemma {:induction false} DiscoveredInBase(listing: map<string, seq<string>>, existsCheck: map<string, bool>,
                                            basePath: string, n: nat)
    requires WellFormedListing(listing)
    requires basePath != "" && basePath in listing && n <= |listing[basePath]|
    ensures forall p :: p in DiscoveredIn(listing, existsCheck, basePath, n) ==>
              |p| > |basePath| && p[..|basePath| + 1] == basePath + "/"
    decreases Pending(listing, basePath), 0, n
  {
    if n > 0 {
      DiscoveredInBase(listing, existsCheck, basePath, n - 1);
      var child := listing[basePath][n - 1];
      var fullPath := FullPath(basePath, child);
      if IsDirectory(child) {
        var deeper := TrimEnd(fullPath, '/');
        SubdirectoryLonger(basePath, child);
        PendingShrinks(listing, basePath, deeper);
        DiscoveredUnderBase(listing, existsCheck, deeper);
        forall p | p in DiscoveredUnder(listing, existsCheck, deeper)
          ensures |p| > |basePath| && p[..|basePath| + 1] == basePath + "/"
        {
          assert p[..|basePath| + 1] == p[..|deeper| + 1][..|basePath| + 1];
        }
      } else {
        assert fullPath[..|basePath| + 1] == basePath + "/";
      }
    }
  }

  // Loading the dashboard's secrets

  /** One loaded secret on the dashboard. */
  datatype SecretView = SecretView(path: string, data: SecretData, retrievedAt: int)

  /** Discovered paths beyond the first ten are not loaded. */
  const MaxLoadedPaths: nat := 10

  /** The paths tried when the root listing fails. */
  const CommonPaths: seq<string> := [
    "hashicorp-integration/config",
    "hashicorp-integration/environments/dev",
    "hashicorp-integration/environments/prod"
  ]

  /** Take(n). */
  function Take<T>(s: seq<T>, n: nat): (r: seq<T>)
    ensures |r| <= n && |r| <= |s| && r == s[..|r|]
    ensures |s| <= n ==> r == s
    ensures |s| > n ==> |r| == n
  {
    if |s| <= n then s else s[..n]
  }

  /** The views loaded from `paths`, in order, skipping every path whose read fails. */
  function Loaded(paths: seq<string>, read: string -> Result<SecretData, string>, now: int): (views: seq<SecretView>)
    ensures |views| <= |paths|
    ensures forall v :: v in views ==> v.path in paths && read(v.path) == Ok(v.data) && v.retrievedAt == now
    ensures forall p :: p in paths && read(p).Ok? ==> SecretView(p, read(p).value, now) in views
  {
    if paths == [] then []
    else
      var earlier := Loaded(paths[..|paths| - 1], read, now);
      var p := paths[|paths| - 1];
      assert paths == paths[..|paths| - 1] + [p];
      if read(p).Ok? then earlier + [SecretView(p, read(p).value, now)] else earlier
  }

  /** A foreach over paths that adds each readable one and logs the rest. */
  method LoadFrom(paths: seq<string>, read: string -> Result<SecretData, string>, now: int)
    returns (views: seq<SecretView>)
    ensures views == Loaded(paths, read, now)
  {
    views := [];
    var i := 0;
    while i < |paths|
      invariant 0 <= i <= |paths|
      invariant views == Loaded(paths[..i], read, now)
    {
      var secrets := read(paths[i]);
      if secrets.Ok? {
        views := views + [SecretView(paths[i], secrets.value, now)];
      }
      assert paths[..i + 1][..i] == paths[..i];
      i := i + 1;
    }
    assert paths[..i] == paths;
  }

  function LoadFailed(path: string, message: string): string
  {
    "Failed to load secrets from path '" + path + "': " + message
  }

  /**
   * LoadSecrets. Under the root it loads at most the first ten discovered
   * paths, or the three common paths when the root listing fails, and never
   * reports an error; for a given path it loads that path or reports why not.
   */
  method LoadSecrets(path: Option<string>, now: int, listing: map<string, seq<string>>,
                     existsCheck: map<string, bool>, read: string -> Result<SecretData, string>)
    returns (secrets: seq<SecretView>, error: Option<string>)
    requires WellFormedListing(listing)
    ensures IsNullOrEmpty(path) ==> error.None? && |secrets| <= MaxLoadedPaths
    ensures IsNullOrEmpty(path) && "" !in listing ==> secrets == Loaded(CommonPaths, read, now)
    ensures IsNullOrEmpty(path) && "" in listing ==>
              secrets == Loaded(Take(DiscoveredUnder(listing, existsCheck, ""), MaxLoadedPaths), read, now)
    ensures !IsNullOrEmpty(path) && read(path.value).Ok? ==>
              secrets == [SecretView(path.value, read(path.value).value, now)] && error.None?
    ensures !IsNullOrEmpty(path) && read(path.value).Err? ==>
              secrets == [] && error == Some(LoadFailed(path.value, read(path.value).error))
  {
    error := None;
    if IsNullOrEmpty(path) {
      if "" !in listing {
        secrets := LoadFrom(CommonPaths, read, now);
      } else {
        var discovered := DiscoverAllSecretPaths(listing, existsCheck, "", []);
        assert discovered == DiscoveredUnder(listing, existsCheck, "");
        secrets := LoadFrom(Take(discovered, MaxLoadedPaths), read, now);
      }
    } else {
      var data := read(path.value);
      if data.Ok? {
        secrets := [SecretView(path.value, data.value, now)];
      } else {
        secrets := [];
        error := Some(LoadFailed(path.value, data.error));
      }
    }
  }

  /** Every secret loaded under the root comes from a path whose existence check answered true, or is a common path. */
  lemma RootSecretsExist(listing: map<string, seq<string>>, existsCheck: map<string, bool>,
                         read: string -> Result<SecretData, string>, now: int, v: SecretView)
    requires WellFormedListing(listing) && "" in listing
    requires v in Loaded(Take(DiscoveredUnder(listing, existsCheck, ""), MaxLoadedPaths), read, now)
    ensures v.path in existsCheck && existsCheck[v.path]
  {
    DiscoveredUnderExist(listing, existsCheck, "");
  }

  // Cache invalidation

  /** What InvalidateCache does: the argument passed to the KV cache and the notice shown. */
  datatype InvalidateResult = InvalidateResult(argument: Option<string>, notice: Result<string, string>)

  /** InvalidateCache, given the outcome of the cache call. */
  function InvalidateCache(path: Option<string>, outcome: Outcome<string>): (r: InvalidateResult)
    ensures r.argument.None? <==> IsNullOrEmpty(path)
    ensures r.argument.Some? ==> r.argument == path
    ensures r.notice.Ok? <==> outcome.Pass?
    ensures outcome.Fail? ==> r.notice.error == "Failed to invalidate cache: " + outcome.error
    ensures outcome.Pass? && IsNullOrEmpty(path) ==> r.notice.value == "All KV cache invalidated successfully"
    ensures outcome.Pass? && !IsNullOrEmpty(path) ==> r.notice.value == "Cache invalidated for path: " + path.value
  {
    var argument := if IsNullOrEmpty(path) then None else path;
    if outcome.Fail? then InvalidateResult(argument, Err("Failed to invalidate cache: " + outcome.error))
    else if IsNullOrEmpty(path) then InvalidateResult(argument, Ok("All KV cache invalidated successfully"))
    else InvalidateResult(argument, Ok("Cache invalidated for path: " + path.value))
  }
}
