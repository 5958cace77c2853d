/**
The scheduled rotation job with a fixed check interval and rotations that take no time: which intervals rotate
before the signing key has expired?
*/
module RotationSchedule {
  import opened Wrappers
  import opened JwtKeys

  const DAY: int := KEY_VALIDITY - RENEWAL_WINDOW

  function At(start: Instant, interval: nat, n: nat): Instant {
    start + n * interval
  }

  function Newest(keys: Keys): Option<nat> {
    if keys == [] then None else Some(|keys| - 1)
  }

  /** The key table just before check `n`, on a fresh deployment. */
  function TableBefore(start: Instant, interval: nat, n: nat): Keys {
    if n == 0 then []
    else
      var keys := TableBefore(start, interval, n - 1);
      var now := At(start, interval, n - 1);
      if Needed(keys, Newest(keys), now) then Rotated(keys, now, now, n) else keys
  }

  /** The key that signed just before check `n` still verifies just after it. */
  predicate SignerSurvives(start: Instant, interval: nat, n: nat) {
    var before, after := TableBefore(start, interval, n), TableBefore(start, interval, n + 1);
    before != [] ==> |before| <= |after| && after[|before| - 1].isActive
  }

  predicate Ordered(keys: Keys) {
    && (keys != [] ==> keys[|keys| - 1].isActive)
    && forall i, j :: 0 <= i <= j < |keys| ==> keys[i].expiresAt <= keys[j].expiresAt
  }

  predicate MadeBefore(keys: Keys, now: Instant) {
    forall i :: 0 <= i < |keys| ==> keys[i].expiresAt <= now + KEY_VALIDITY
  }

  lemma NextCheck(start: Instant, interval: nat, n: nat)
    ensures At(start, interval, n + 1) == At(start, interval, n) + interval
  {
  }

  lemma RotationKeepsOrder(keys: Keys, now: Instant, version: Version)
    requires Ordered(keys) && MadeBefore(keys, now)
    ensures Ordered(Rotated(keys, now, now, version)) && MadeBefore(Rotated(keys, now, now, version), now)
  {
  }

  lemma OrderedHasLatest(keys: Keys)
    requires Ordered(keys)
    ensures IsLatestOrNone(keys, Newest(keys))
  {
  }

  /** The newest row is the one that signs. */
  lemma {:induction false} NewestIsLatest(start: Instant, interval: nat, n: nat)
    ensures Ordered(TableBefore(start, interval, n))
    ensures MadeBefore(TableBefore(start, interval, n), At(start, interval, n))
    ensures IsLatestOrNone(TableBefore(start, interval, n), Newest(TableBefore(start, interval, n)))
  {
    if n > 0 {
      NewestIsLatest(start, interval, n - 1);
      NextCheck(start, interval, n - 1);
      RotationKeepsOrder(TableBefore(start, interval, n - 1), At(start, interval, n - 1), n);
    }
    OrderedHasLatest(TableBefore(start, interval, n));
  }

  // ---------- The interval between two rotations ----------

  /** Checks from one rotation to the next. */
  function ChecksApart(interval: nat): nat
    requires interval > 0
  {
    DAY / interval + 1
  }

  function RotationGap(interval: nat): nat
    requires interval > 0
  {
    ChecksApart(interval) * interval
  }

  lemma Grow(a: nat, b: nat, interval: nat)
    requires a <= b
    ensures a * interval <= b * interval
  {
  }

  /** The first check that finds less than an hour left is check number `ChecksApart`. */
  lemma FirstNeeded(interval: nat, i: nat)
    requires interval > 0
    ensures DAY < i * interval <==> ChecksApart(interval) <= i
  {
    var q := DAY / interval;
    assert q * interval <= DAY < (q + 1) * interval;
    if i <= q {
      Grow(i, q, interval);
    } else {
      Grow(q + 1, i, interval);
    }
  }

  predicate Phase(keys: Keys, start: Instant, interval: nat, n: nat, i: nat) {
    && keys != []
    && keys[|keys| - 1].expiresAt == At(start, interval, n) - i * interval + KEY_VALIDITY
  }

  /** `i` checks after a rotation the newest key is `i` intervals old, for `i` from 1 to `ChecksApart`. */
  lemma {:induction false} PhaseOf(start: Instant, interval: nat, n: nat) returns (i: nat)
    requires interval > 0 && n > 0
    ensures 1 <= i <= ChecksApart(interval)
    ensures n <= ChecksApart(interval) ==> i == n
    ensures Phase(TableBefore(start, interval, n), start, interval, n, i)
  {
    NextCheck(start, interval, n - 1);
    var keys, now := TableBefore(start, interval, n - 1), At(start, interval, n - 1);
    if n == 1 {
      assert Needed(keys, Newest(keys), now);
      return 1;
    }
    var before := PhaseOf(start, interval, n - 1);
    FirstNeeded(interval, before);
    if Needed(keys, Newest(keys), now) {
      i := 1;
    } else {
      i := before + 1;
      assert i * interval == before * interval + interval;
    }
  }

  /** The key that signs just before check number `ChecksApart` expires too early for it. */
  lemma DiesWhenLate(start: Instant, interval: nat)
    requires interval > 0 && RotationGap(interval) > KEY_VALIDITY
    ensures !SignerSurvives(start, interval, ChecksApart(interval))
  {
    var n := ChecksApart(interval);
    NewestIsLatest(start, interval, n);
    var i := PhaseOf(start, interval, n);
    FirstNeeded(interval, n);
    assert Needed(TableBefore(start, interval, n), Newest(TableBefore(start, interval, n)), At(start, interval, n));
  }

  lemma WholeHours(hours: nat)
    requires hours > 0
    ensures RotationGap(hours * HOUR) == (24 / hours + 1) * hours * HOUR
  {
    var q := 24 / hours;
    var interval := hours * HOUR;
    assert q * hours <= 24 < (q + 1) * hours;
    Grow(q * hours, 24, HOUR);
    assert q * interval == q * hours * HOUR;
    assert (q + 1) * hours * HOUR >= 25 * HOUR;
    assert (q + 1) * interval == (q + 1) * hours * HOUR;
    FirstNeeded(interval, q);
    FirstNeeded(interval, q + 1);
  }

  lemma GapOfAllowedHours(hours: nat)
    requires 1 <= hours <= 168
    ensures (24 / hours + 1) * hours <= 25 <==> hours in {1, 5, 25}
  {
  }
}
