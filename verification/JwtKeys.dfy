/**
Rows of `jwt_keys` and the rotation service over one database session. One tick is a microsecond.

Key material is abstract: a key pair is named by the version of its row.
*/
module JwtKeys {
  import opened Wrappers

  type Instant = int
  type Version = nat

  const SECOND: int := 1_000_000
  const HOUR: int := 3600 * SECOND
  const KEY_VALIDITY: int := 25 * HOUR
  const RENEWAL_WINDOW: int := HOUR
  const LOCK_MAX_RETRIES: nat := 3

  datatype JwtKey = JwtKey(
    version: Version,
    algorithm: string,
    createdAt: Instant,
    expiresAt: Instant,
    isActive: bool,
    rotationCount: nat)

  type Keys = seq<JwtKey>

  function NewKey(version: Version, now: Instant): JwtKey {
    JwtKey(version, "RS256", now, now + KEY_VALIDITY, true, 0)
  }

  /** `i` may be the row that the ORDER BY expires_at DESC LIMIT 1 query returns. */
  predicate IsLatest(keys: Keys, i: nat) {
    && i < |keys| && keys[i].isActive
    && forall k :: 0 <= k < |keys| && keys[k].isActive ==> keys[k].expiresAt <= keys[i].expiresAt
  }

  predicate NoneActive(keys: Keys) {
    forall k :: 0 <= k < |keys| ==> !keys[k].isActive
  }

  /** The answer of `get_latest_active_key`; ties are broken arbitrarily. */
  predicate IsLatestOrNone(keys: Keys, latest: Option<nat>) {
    if latest.Some? then IsLatest(keys, latest.value) else NoneActive(keys)
  }

  /** A latest active key exists unless no key is active. */
  lemma {:induction false} LatestExists(keys: Keys) returns (latest: Option<nat>)
    ensures IsLatestOrNone(keys, latest)
  {
    if keys == [] {
      return None;
    }
    var n := |keys| - 1;
    var before := LatestExists(keys[..n]);
    assert forall k :: 0 <= k < n ==> keys[..n][k] == keys[k];
    if keys[n].isActive && (before.None? || keys[before.value].expiresAt <= keys[n].expiresAt) {
      latest := Some(n);
    } else {
      latest := before;
    }
  }

  predicate Needed(keys: Keys, latest: Option<nat>, now: Instant)
    requires latest.Some? ==> latest.value < |keys|
  {
    latest.None? || keys[latest.value].expiresAt - now < RENEWAL_WINDOW
  }

  function CleanedRow(key: JwtKey, now: Instant): JwtKey {
    if key.isActive && key.expiresAt < now then key.(isActive := false) else key
  }

  function Cleaned(keys: Keys, now: Instant): Keys {
    seq(|keys|, i requires 0 <= i < |keys| => CleanedRow(keys[i], now))
  }

  /**
  The table after one rotation. The counters go up on every key that was active in the database when the rotation
  began: the SELECT does not see the deactivations of the same session, nor the new key.
  */
  function RotatedRow(key: JwtKey, cleanedAt: Instant): JwtKey {
    if key.isActive
    then key.(isActive := cleanedAt <= key.expiresAt, rotationCount := key.rotationCount + 1)
    else key
  }

  function Rotated(keys: Keys, cleanedAt: Instant, createdAt: Instant, version: Version): Keys {
    seq(|keys|, i requires 0 <= i < |keys| => RotatedRow(keys[i], cleanedAt)) + [NewKey(version, createdAt)]
  }

  function ActiveCount(keys: Keys): nat {
    if keys == [] then 0 else ActiveCount(keys[..|keys| - 1]) + if keys[|keys| - 1].isActive then 1 else 0
  }

  lemma {:induction false} DeactivationLowersCount(keys: Keys, i: nat)
    requires i < |keys| && keys[i].isActive
    ensures ActiveCount(keys) == ActiveCount(keys[i := keys[i].(isActive := false)]) + 1
  {
    var n := |keys| - 1;
    var after := keys[i := keys[i].(isActive := false)];
    if i < n {
      assert after[..n] == keys[..n][i := keys[..n][i].(isActive := false)];
      DeactivationLowersCount(keys[..n], i);
    } else {
      assert after[..n] == keys[..n];
    }
  }

  // ---------- Serial rotations ----------

  datatype Rotation = Rotation(cleanedAt: Instant, createdAt: Instant, version: Version)

  function RotateAll(keys: Keys, rotations: seq<Rotation>): Keys {
    if rotations == [] then keys
    else
      var r := rotations[|rotations| - 1];
      Rotated(RotateAll(keys, rotations[..|rotations| - 1]), r.cleanedAt, r.createdAt, r.version)
  }

  /**
  Rows are never dropped, dates never change, and a key that was active stays active through any number of
  rotations exactly when none of them cleaned up after the key had expired.
  */
  lemma {:induction false} ActiveAfterRotationsIff(keys: Keys, rotations: seq<Rotation>, k: nat)
    requires k < |keys| && keys[k].isActive
    ensures |RotateAll(keys, rotations)| == |keys| + |rotations|
    ensures RotateAll(keys, rotations)[k].expiresAt == keys[k].expiresAt
    ensures RotateAll(keys, rotations)[k].version == keys[k].version
    ensures RotateAll(keys, rotations)[k].isActive <==>
            (forall r :: r in rotations ==> r.cleanedAt <= keys[k].expiresAt)
  {
    if rotations != [] {
      var n := |rotations| - 1;
      ActiveAfterRotationsIff(keys, rotations[..n], k);
      assert rotations == rotations[..n] + [rotations[n]];
      assert rotations[n] in rotations;
    }
  }

  /** One rotation, row by row and column by column. */
  predicate TableRotated(before: Keys, cleanedAt: Instant, createdAt: Instant, version: Version, after: Keys) {
    && |after| == |before| + 1
    && after[|before|] == JwtKey(version, "RS256", createdAt, createdAt + 25 * HOUR, true, 0)
    && forall k :: 0 <= k < |before| ==>
         && after[k].version == before[k].version && after[k].algorithm == before[k].algorithm
         && after[k].createdAt == before[k].createdAt && after[k].expiresAt == before[k].expiresAt
         && (after[k].isActive <==> before[k].isActive && cleanedAt <= before[k].expiresAt)
         && after[k].rotationCount == before[k].rotationCount + if before[k].isActive then 1 else 0
  }

  lemma RotatedMeans(keys: Keys, cleanedAt: Instant, createdAt: Instant, version: Version)
    ensures TableRotated(keys, cleanedAt, createdAt, version, Rotated(keys, cleanedAt, createdAt, version))
  {
  }

  // ---------- The service ----------

  /** The answer to one SET NX EX. */
  datatype SetReply = Acquired | Busy | RedisError

  /** Whether `_acquire_lock` returns True: the first answer other than `Busy` among the first three decides. */
  predicate Wins(replies: seq<SetReply>) {
    exists k :: 0 <= k < LOCK_MAX_RETRIES && k < |replies| && replies[k] == Acquired
      && forall j :: 0 <= j < k ==> replies[j] == Busy
  }

  /** Where a rotation raises after it got the lock, if it does. */
  datatype Failure = NoFailure | InCleanup | InKeyGeneration | InCommit

  class JwtKeyRotationService {
    /** Committed rows. */
    var keys: Keys
    /** The same rows as the open session holds them. */
    var session: Keys

    constructor (keys: Keys)
      ensures this.keys == keys && session == keys
    {
      this.keys, session := keys, keys;
    }

    method CheckRotationNeeded(latest: Option<nat>, now: Instant, raises: bool) returns (needed: bool)
      requires IsLatestOrNone(keys, latest)
      ensures needed <==> raises || (forall k :: 0 <= k < |keys| && keys[k].isActive ==>
                                       keys[k].expiresAt - now < HOUR)
    {
      if raises {
        return true;
      }
      if latest.None? {
        return true;
      }
      needed := keys[latest.value].expiresAt - now < RENEWAL_WINDOW;
    }

    method AcquireLock(replies: seq<SetReply>) returns (acquired: bool, tries: nat)
      requires LOCK_MAX_RETRIES <= |replies|
      ensures acquired <==> Wins(replies)
      ensures 1 <= tries <= LOCK_MAX_RETRIES
      ensures forall j :: 0 <= j < tries - 1 ==> replies[j] == Busy
      ensures replies[tries - 1] == if acquired then Acquired else if tries < 3 then RedisError else replies[2]
      ensures acquired <==>
              || replies[0] == Acquired
              || (replies[0] == Busy && replies[1] == Acquired)
              || (replies[0] == Busy && replies[1] == Busy && replies[2] == Acquired)
    {
      tries := 0;
      while tries < LOCK_MAX_RETRIES
        invariant 0 <= tries <= LOCK_MAX_RETRIES
        invariant forall j :: 0 <= j < tries ==> replies[j] == Busy
      {
        var reply := replies[tries];
        tries := tries + 1;
        if reply == Acquired {
          return true, tries;
        }
        if reply == RedisError {
          return false, tries;
        }
      }
      return false, tries;
    }

    /** Deactivates what has expired, and says how many rows that was. */
    method CleanupExpiredKeys(now: Instant) returns (count: nat)
      requires session == keys
      modifies this`session
      ensures session == Cleaned(keys, now)
      ensures |session| == |keys|
      ensures forall k :: 0 <= k < |keys| ==>
        && (session[k].isActive <==> keys[k].isActive && now <= keys[k].expiresAt)
        && session[k] == keys[k].(isActive := session[k].isActive)
      ensures ActiveCount(keys) == ActiveCount(session) + count
    {
      count := 0;
      var i := 0;
      while i < |keys|
        invariant 0 <= i <= |keys| == |session|
        invariant forall k :: 0 <= k < i ==> session[k] == CleanedRow(keys[k], now)
        invariant forall k :: i <= k < |keys| ==> session[k] == keys[k]
        invariant ActiveCount(keys) == ActiveCount(session) + count
      {
        if keys[i].isActive && keys[i].expiresAt < now {
          DeactivationLowersCount(session, i);
          session := session[i := session[i].(isActive := false)];
          count := count + 1;
        }
        i := i + 1;
      }
    }

    /** `get_active_keys` reads the committed rows; the increments land on the session's copies. */
    method CountRotation()
      requires |session| == |keys|
      modifies this`session
      ensures |session| == |keys|
      ensures forall k :: 0 <= k < |keys| ==>
        session[k] == if keys[k].isActive
                      then old(session)[k].(rotationCount := old(session)[k].rotationCount + 1)
                      else old(session)[k]
    {
      var i := 0;
      while i < |keys|
        invariant 0 <= i <= |keys| == |session|
        invariant forall k :: 0 <= k < i ==>
          session[k] == if keys[k].isActive
                        then old(session)[k].(rotationCount := old(session)[k].rotationCount + 1)
                        else old(session)[k]
        invariant forall k :: i <= k < |keys| ==> session[k] == old(session)[k]
      {
        if keys[i].isActive {
          session := session[i := session[i].(rotationCount := session[i].rotationCount + 1)];
        }
        i := i + 1;
      }
    }

    /** A rotation replaces the table by `Rotated` or leaves it alone, and says which. */
    method RotateKeys(replies: seq<SetReply>, cleanedAt: Instant, createdAt: Instant, version: Version,
                      failure: Failure) returns (rotated: bool)
      requires LOCK_MAX_RETRIES <= |replies|
      requires session == keys
      modifies this
      ensures rotated <==> Wins(replies) && failure == NoFailure
      ensures keys == if rotated then Rotated(old(keys), cleanedAt, createdAt, version) else old(keys)
      ensures rotated ==> TableRotated(old(keys), cleanedAt, createdAt, version, keys)
      ensures session == keys
    {
      var acquired, _ := AcquireLock(replies);
      if !acquired {
        return false;
      }
      if failure == InCleanup {
        return false;
      }
      var _ := CleanupExpiredKeys(cleanedAt);
      if failure == InKeyGeneration {
        session := keys;
        return false;
      }
      var newKey := NewKey(version, createdAt);
      CountRotation();
      session := session + [newKey];
      if failure == InCommit {
        session := keys;
        return false;
      }
      keys := session;
      assert keys == Rotated(old(keys), cleanedAt, createdAt, version);
      RotatedMeans(old(keys), cleanedAt, createdAt, version);
      rotated := true;
    }

    /** The scheduled job: the need is looked at before the lock and not again inside it. */
    method RotationJob(latest: Option<nat>, checkedAt: Instant, checkRaises: bool, replies: seq<SetReply>,
                       cleanedAt: Instant, createdAt: Instant, version: Version, failure: Failure)
      returns (rotated: bool)
      requires IsLatestOrNone(keys, latest)
      requires LOCK_MAX_RETRIES <= |replies|
      requires session == keys
      modifies this
      ensures rotated <==>
              (checkRaises || Needed(old(keys), latest, checkedAt)) && Wins(replies) && failure == NoFailure
      ensures keys == if rotated then Rotated(old(keys), cleanedAt, createdAt, version) else old(keys)
      ensures rotated ==> TableRotated(old(keys), cleanedAt, createdAt, version, keys)
      ensures rotated && !checkRaises ==>
              forall k :: 0 <= k < |old(keys)| && old(keys)[k].isActive ==> old(keys)[k].expiresAt - checkedAt < HOUR
      ensures session == keys
    {
      var needed := CheckRotationNeeded(latest, checkedAt, checkRaises);
      if !needed {
        return false;
      }
      rotated := RotateKeys(replies, cleanedAt, createdAt, version, failure);
    }
  }
}
