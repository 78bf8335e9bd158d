/**
 * One issued dynamic database credential (Vault/LeaseInfo.cs). Times are
 * seconds on the UTC clock; the clock reading is the parameter `now`.
 */
module Leases {

  /** The margin subtracted from a lease's duration when it is cached: 5 minutes. */
  const SafetyMarginSeconds: int := 300

  /** Absolute expiry of a freshly minted credential: now + lease duration - 5 minutes. */
  function CacheExpiry(now: int, leaseDurationSeconds: int): (r: int)
    ensures r < now + leaseDurationSeconds
    ensures now < r <==> leaseDurationSeconds > SafetyMarginSeconds
  {
    now + leaseDurationSeconds - SafetyMarginSeconds
  }

  /**
   * A lease record. Everything but the in-use flag is set once; the flag is
   * changed in place through every reference to the record, which is why
   * this is a class and not a value.
   */
  class LeaseInfo {
    const leaseId: string
    const leaseDuration: int
    const expiresAt: int
    const createdAt: int
    const username: string
    const password: string
    var isCurrentlyUsed: bool

    constructor (leaseId: string, leaseDuration: int, expiresAt: int, createdAt: int,
                 username: string, password: string, isCurrentlyUsed: bool)
      ensures this.leaseId == leaseId && this.leaseDuration == leaseDuration
      ensures this.expiresAt == expiresAt && this.createdAt == createdAt
      ensures this.username == username && this.password == password
      ensures this.isCurrentlyUsed == isCurrentlyUsed
    {
      this.leaseId := leaseId;
      this.leaseDuration := leaseDuration;
      this.expiresAt := expiresAt;
      this.createdAt := createdAt;
      this.username := username;
      this.password := password;
      this.isCurrentlyUsed := isCurrentlyUsed;
    }

    /** IsExpired: the clock is strictly past the expiry. */
    predicate IsExpired(now: int)
    {
      now > expiresAt
    }

    /** TimeRemaining: seconds left until expiry, zero once the expiry is reached. */
    function TimeRemaining(now: int): (r: int)
      ensures r >= 0
      ensures IsExpired(now) ==> r == 0
      ensures !IsExpired(now) ==> now + r == expiresAt
    {
      if expiresAt > now then expiresAt - now else 0
    }
  }

  /** At the expiry instant a lease is not yet expired, but no time remains. */
  lemma ExpiryInstant(l: LeaseInfo, now: int)
    requires now == l.expiresAt
    ensures !l.IsExpired(now) && l.TimeRemaining(now) == 0
  {
  }

  /**
   * A lease minted at `createdAt` for more than 5 minutes and cached with
   * CacheExpiry has, at that instant, its duration less 5 minutes left and is
   * not expired.
   */
  lemma FreshLeaseTimeRemaining(l: LeaseInfo)
    requires l.expiresAt == CacheExpiry(l.createdAt, l.leaseDuration)
    requires l.leaseDuration > SafetyMarginSeconds
    ensures !l.IsExpired(l.createdAt)
    ensures l.TimeRemaining(l.createdAt) == l.leaseDuration - SafetyMarginSeconds
  {
  }
}
