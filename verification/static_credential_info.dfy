/**
 * The static credential snapshot (Models/Database-Secrets/StaticCredentialInfo.cs)
 * and how it is built from the backend's rotation metadata
 * (Vault/VaultService.cs, GetNewStaticConnectionStringAsync).
 */
module StaticCredentials {
  import opened Wrappers

  /** Fallback rotation period when the backend's value is unusable: 24 hours. */
  const DefaultRotationPeriodSeconds: int := 86400

  datatype StaticCredentialInfo = StaticCredentialInfo(
    username: string,
    password: string,
    lastRotated: int,
    rotationPeriod: int,
    nextRotation: int,
    retrievedAt: int)
  {
    /** IsExpired: the clock is strictly past the next scheduled rotation. */
    predicate IsExpired(now: int)
    {
      now > nextRotation
    }

    /** TimeUntilRotation: seconds until the next rotation, zero once it is reached. */
    function TimeUntilRotation(now: int): (r: int)
      ensures r >= 0
      ensures IsExpired(now) ==> r == 0
      ensures !IsExpired(now) ==> now + r == nextRotation
    {
      if nextRotation > now then nextRotation - now else 0
    }
  }

  /**
   * A static credential as the backend returns it. The two metadata strings
   * are given already parsed: None stands for a string that DateTime.TryParse
   * or double.TryParse rejects.
   */
  datatype StaticCreds = StaticCreds(
    username: string,
    password: string,
    lastVaultRotation: Option<int>,
    rotationPeriod: Option<int>)

  /**
   * The snapshot built from the backend's answer at time `now`: an
   * unparsable rotation time becomes `now`, an unparsable or non-positive
   * period becomes 24 hours, and the next rotation is their sum.
   */
  function FromBackend(creds: StaticCreds, now: int): (info: StaticCredentialInfo)
    ensures info.username == creds.username && info.password == creds.password
    ensures info.lastRotated == creds.lastVaultRotation.GetOr(now)
    ensures info.rotationPeriod > 0
    ensures creds.rotationPeriod.Some? && creds.rotationPeriod.value > 0
            ==> info.rotationPeriod == creds.rotationPeriod.value
    ensures creds.rotationPeriod.None? || creds.rotationPeriod.value <= 0
            ==> info.rotationPeriod == DefaultRotationPeriodSeconds
    ensures info.nextRotation == info.lastRotated + info.rotationPeriod
    ensures info.retrievedAt == now
  {
    var lastRotated := if creds.lastVaultRotation.Some? then creds.lastVaultRotation.value else now;
    var period :=
      if creds.rotationPeriod.None? || creds.rotationPeriod.value <= 0 then DefaultRotationPeriodSeconds
      else creds.rotationPeriod.value;
    StaticCredentialInfo(creds.username, creds.password, lastRotated, period, lastRotated + period, now)
  }

  /** Both metadata fields unusable: at fetch time the snapshot is fresh with 24 hours to go. */
  lemma MalformedMetadataFallback(creds: StaticCreds, now: int)
    requires creds.lastVaultRotation.None?
    requires creds.rotationPeriod.None? || creds.rotationPeriod.value <= 0
    ensures !FromBackend(creds, now).IsExpired(now)
    ensures FromBackend(creds, now).TimeUntilRotation(now) == DefaultRotationPeriodSeconds
  {
  }

  /** At the rotation instant a snapshot is not yet expired, but no time remains. */
  lemma RotationInstant(info: StaticCredentialInfo, now: int)
    requires now == info.nextRotation
    ensures !info.IsExpired(now) && info.TimeUntilRotation(now) == 0
  {
  }
}
