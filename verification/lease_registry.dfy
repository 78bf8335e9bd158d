/**
 * The registry of known leases (the list cached under "vault_all_leases" in
 * Vault/VaultService.cs): the list operations the service applies to it and
 * the two loops that rewrite the in-use flags in place.
 */
module LeaseRegistry {
  import opened Leases

  /** No two entries share a lease id. */
  predicate UniqueIds(s: seq<LeaseInfo>)
  {
    forall i, j :: 0 <= i < |s| && 0 <= j < |s| && s[i].leaseId == s[j].leaseId ==> i == j
  }

  /** Where(l => !l.IsExpired): the unexpired entries, in order. */
  function Active(s: seq<LeaseInfo>, now: int): (r: seq<LeaseInfo>)
    ensures forall l :: l in r ==> l in s && !l.IsExpired(now)
    ensures forall l :: l in s && !l.IsExpired(now) ==> l in r
    ensures |r| <= |s|
  {
    if s == [] then []
    else if s[0].IsExpired(now) then Active(s[1..], now)
    else [s[0]] + Active(s[1..], now)
  }

  /** RemoveAll(l => l.LeaseId == id): the entries with another id, in order. */
  function WithoutId(s: seq<LeaseInfo>, id: string): (r: seq<LeaseInfo>)
    ensures forall l :: l in r ==> l in s && l.leaseId != id
    ensures forall l :: l in s && l.leaseId != id ==> l in r
    ensures |r| <= |s|
  {
    if s == [] then []
    else if s[0].leaseId == id then WithoutId(s[1..], id)
    else [s[0]] + WithoutId(s[1..], id)
  }

  /** FirstOrDefault(l => l.LeaseId == id) followed by Remove: drops the first entry with that id. */
  function RemoveFirstWithId(s: seq<LeaseInfo>, id: string): (r: seq<LeaseInfo>)
    ensures forall l :: l in r ==> l in s
    ensures forall l :: l in s && l.leaseId != id ==> l in r
  {
    if s == [] then []
    else if s[0].leaseId == id then s[1..]
    else [s[0]] + RemoveFirstWithId(s[1..], id)
  }

  /** The registry seeded on a miss: the current lease alone, or nothing. */
  function Seed(current: LeaseInfo?): (r: seq<LeaseInfo>)
    ensures |r| <= 1 && UniqueIds(r)
    ensures forall l :: l in r ==> l == current
    ensures current != null ==> current in r
  {
    if current == null then [] else [current]
  }

  /** UpdateAllLeasesCache's list: replace the entry with the new lease's id, append it, prune expired. */
  function Merged(snapshot: seq<LeaseInfo>, newLease: LeaseInfo, now: int): (r: seq<LeaseInfo>)
    ensures forall l :: l in r ==> !l.IsExpired(now) && (l in snapshot || l == newLease)
    ensures forall l :: l in snapshot && l.leaseId != newLease.leaseId && !l.IsExpired(now) ==> l in r
    ensures !newLease.IsExpired(now) ==> newLease in r
  {
    Active(RemoveFirstWithId(snapshot, newLease.leaseId) + [newLease], now)
  }

  /** Prepending an entry whose id is new keeps the ids unique. */
  lemma UniqueIdsCons(x: LeaseInfo, t: seq<LeaseInfo>)
    requires UniqueIds(t)
    requires forall l :: l in t ==> l.leaseId != x.leaseId
    ensures UniqueIds([x] + t)
  {
    var s := [x] + t;
    forall i, j | 0 <= i < |s| && 0 <= j < |s| && s[i].leaseId == s[j].leaseId
      ensures i == j
    {
      if i > 0 { assert s[i] == t[i - 1]; }
      if j > 0 { assert s[j] == t[j - 1]; }
    }
  }

  /** The tail of a list with unique ids has unique ids, none equal to the head's. */
  lemma UniqueIdsTail(s: seq<LeaseInfo>)
    requires |s| > 0 && UniqueIds(s)
    ensures UniqueIds(s[1..])
    ensures forall l :: l in s[1..] ==> l.leaseId != s[0].leaseId
  {
    var t := s[1..];
    forall i, j | 0 <= i < |t| && 0 <= j < |t| && t[i].leaseId == t[j].leaseId
      ensures i == j
    {
      assert s[i + 1] == t[i] && s[j + 1] == t[j];
    }
    forall l | l in t
      ensures l.leaseId != s[0].leaseId
    {
      var k :| 0 <= k < |t| && t[k] == l;
      assert s[k + 1] == l;
    }
  }

  /** Pruning expired entries keeps ids unique. */
  lemma {:induction false} ActiveUnique(s: seq<LeaseInfo>, now: int)
    requires UniqueIds(s)
    ensures UniqueIds(Active(s, now))
    decreases |s|
  {
    if s != [] {
      UniqueIdsTail(s);
      ActiveUnique(s[1..], now);
      if !s[0].IsExpired(now) {
        UniqueIdsCons(s[0], Active(s[1..], now));
      }
    }
  }

  /** Removing every entry with an id keeps the other ids unique. */
  lemma {:induction false} WithoutIdUnique(s: seq<LeaseInfo>, id: string)
    requires UniqueIds(s)
    ensures UniqueIds(WithoutId(s, id))
    decreases |s|
  {
    if s != [] {
      UniqueIdsTail(s);
      WithoutIdUnique(s[1..], id);
      if s[0].leaseId != id {
        UniqueIdsCons(s[0], WithoutId(s[1..], id));
      }
    }
  }

  /** On a list with unique ids, removing the first entry with an id removes that id altogether. */
  lemma {:induction false} RemoveFirstWithIdUnique(s: seq<LeaseInfo>, id: string)
    requires UniqueIds(s)
    ensures UniqueIds(RemoveFirstWithId(s, id))
    ensures forall l :: l in RemoveFirstWithId(s, id) ==> l.leaseId != id
    decreases |s|
  {
    if s != [] {
      UniqueIdsTail(s);
      if s[0].leaseId != id {
        RemoveFirstWithIdUnique(s[1..], id);
        UniqueIdsCons(s[0], RemoveFirstWithId(s[1..], id));
      }
    }
  }

  /** Pruning distributes over appending one unexpired entry. */
  lemma {:induction false} ActiveAppend(s: seq<LeaseInfo>, x: LeaseInfo, now: int)
    requires !x.IsExpired(now)
    ensures Active(s + [x], now) == Active(s, now) + [x]
    decreases |s|
  {
    if s == [] {
      assert Active([x], now) == [x] + Active([], now);
    } else {
      assert (s + [x])[1..] == s[1..] + [x];
      ActiveAppend(s[1..], x, now);
    }
  }

  /**
   * After the merge no entry is expired; the ids stay unique when they were;
   * and unless the new lease is itself expired it is the last entry and the
   * only one with its id.
   */
  lemma MergedProperties(snapshot: seq<LeaseInfo>, newLease: LeaseInfo, now: int)
    requires UniqueIds(snapshot)
    ensures forall l :: l in Merged(snapshot, newLease, now) ==> !l.IsExpired(now)
    ensures UniqueIds(Merged(snapshot, newLease, now))
    ensures forall l :: l in Merged(snapshot, newLease, now) && l != newLease ==> l in snapshot
    ensures !newLease.IsExpired(now) ==>
      var r := Merged(snapshot, newLease, now);
      |r| > 0 && r[|r| - 1] == newLease &&
      forall i :: 0 <= i < |r| - 1 ==> r[i].leaseId != newLease.leaseId
  {
    var t := RemoveFirstWithId(snapshot, newLease.leaseId);
    RemoveFirstWithIdUnique(snapshot, newLease.leaseId);
    assert UniqueIds(t + [newLease]) by {
      var u := t + [newLease];
      forall i, j | 0 <= i < |u| && 0 <= j < |u| && u[i].leaseId == u[j].leaseId
        ensures i == j
      {
        if i < |t| { assert u[i] in t; }
        if j < |t| { assert u[j] in t; }
      }
    }
    ActiveUnique(t + [newLease], now);
    if !newLease.IsExpired(now) {
      ActiveAppend(t, newLease, now);
      var r := Merged(snapshot, newLease, now);
      forall i | 0 <= i < |r| - 1
        ensures r[i].leaseId != newLease.leaseId
      {
        assert r[i] in Active(t, now);
      }
    }
  }

  /** With unique ids, flags derived from one id mark at most one entry. */
  lemma AtMostOneMarked(s: seq<LeaseInfo>, currentId: string)
    requires UniqueIds(s)
    requires forall l :: l in s ==> (l.isCurrentlyUsed <==> l.leaseId == currentId)
    ensures forall i, j :: 0 <= i < |s| && 0 <= j < |s| && s[i].isCurrentlyUsed && s[j].isCurrentlyUsed ==> i == j
  {
  }

  /**
   * The loop of GetAllActiveLeasesAsync over the cached list: each entry is
   * marked in use exactly when its id is the current lease's id.
   */
  method MarkCurrent(s: seq<LeaseInfo>, current: LeaseInfo?)
    modifies s
    ensures forall l :: l in s ==> l.isCurrentlyUsed == (current != null && current.leaseId == l.leaseId)
  {
    var i := 0;
    while i < |s|
      invariant 0 <= i <= |s|
      invariant forall k :: 0 <= k < i ==> s[k].isCurrentlyUsed == (current != null && current.leaseId == s[k].leaseId)
    {
      s[i].isCurrentlyUsed := current != null && current.leaseId == s[i].leaseId;
      i := i + 1;
    }
  }

  /** The loop of UpdateAllLeasesCache over its snapshot: every entry is marked not in use. */
  method ClearFlags(s: seq<LeaseInfo>)
    modifies s
    ensures forall l :: l in s ==> !l.isCurrentlyUsed
  {
    var i := 0;
    while i < |s|
      invariant 0 <= i <= |s|
      invariant forall k :: 0 <= k < i ==> !s[k].isCurrentlyUsed
    {
      s[i].isCurrentlyUsed := false;
      i := i + 1;
    }
  }
}
