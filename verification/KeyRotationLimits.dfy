/**
Where token continuity stops: what one whole rotation does to the interleaved system, and the runs that break
continuity when one of its hypotheses is dropped.
*/
module KeyRotationLimits {
  import opened Wrappers
  import opened JwtKeys
  import opened KeyRotation

  const MINUTE: int := 60 * SECOND
  const DAY: int := 24 * HOUR
  const FRESH: World := World(0, [], map[], {})

  predicate Unforced(steps: seq<Step>) {
    forall s :: s in steps && s.Check? ==> !s.forced
  }

  /** Runs are put together from the last step to the first. */
  lemma Before(w: World, s: Step, v: World, rest: seq<Step>, d: nat) returns (steps: seq<Step>)
    requires Enabled(w, s) && Take(w, s) == v && IsRun(v, rest)
    ensures IsRun(w, steps) && Run(w, steps) == Run(v, rest)
    ensures OnTimeRun(w, steps, d) <==> OnTime(w, s, d) && OnTimeRun(v, rest, d)
    ensures Unforced(rest) && !(s.Check? && s.forced) ==> Unforced(steps)
  {
    steps := [s] + rest;
    assert steps[0] == s && steps[1..] == rest;
  }

  // ---------- One undisturbed rotation ----------

  function Increments(keys: Keys): map<nat, nat> {
    map i | 0 <= i < |keys| && keys[i].isActive :: keys[i].rotationCount + 1
  }

  /** From the clean-up to the commit. */
  lemma FinishRotation(w: World, checkedAt: Instant, latest: Option<nat>, version: Version, waits: (nat, nat),
                       v: World, rest: seq<Step>, d: nat)
    returns (steps: seq<Step>)
    requires w.jobs == map[0 := Job(checkedAt, latest, Swept(w.now, ExpiredKeys(w.keys, w.now)))]
    requires v == w.(now := w.now + waits.0 + waits.1, jobs := map[],
                     keys := Rotated(w.keys, w.now, w.now + waits.0, version))
    requires IsRun(v, rest)
    ensures IsRun(w, steps) && Run(w, steps) == Run(v, rest)
    ensures OnTimeRun(w, steps, d) <==> v.now <= checkedAt + d && OnTimeRun(v, rest, d)
    ensures Unforced(rest) ==> Unforced(steps)
  {
    var key := NewKey(version, w.now + waits.0);
    var generated := Job(checkedAt, latest, Generated(w.now, ExpiredKeys(w.keys, w.now), key));
    var w1 := w.(now := w.now + waits.0);
    var w2 := w1.(jobs := map[0 := generated]);
    var w3 := w2.(now := v.now);
    assert Take(w3, Commit(0, Increments(w.keys))) == v by {
      assert w3.jobs - {0} == map[];
      assert Written(w.keys, ExpiredKeys(w.keys, w.now), Increments(w.keys), key) == v.keys;
    }
    steps := Before(w3, Commit(0, Increments(w.keys)), v, rest, d);
    steps := Before(w2, Tick(waits.1), w3, steps, d);
    assert w1.jobs[0 := generated] == w2.jobs;
    steps := Before(w1, Generate(0, version), w2, steps, d);
    steps := Before(w, Tick(waits.0), w1, steps, d);
  }

  /** A job that nobody disturbs changes the table exactly as the serial service does, however long it takes. */
  lemma WholeRotationIsRotated(w: World, latest: Option<nat>, forced: bool, version: Version, waits: (nat, nat, nat),
                               v: World, rest: seq<Step>, d: nat)
    returns (steps: seq<Step>)
    requires w.jobs == map[] && IsLatestOrNone(w.keys, latest) && (forced || Needed(w.keys, latest, w.now))
    requires v == w.(now := w.now + waits.0 + waits.1 + waits.2,
                     keys := Rotated(w.keys, w.now + waits.0, w.now + waits.0 + waits.1, version))
    requires IsRun(v, rest)
    ensures IsRun(w, steps) && Run(w, steps) == Run(v, rest)
    ensures OnTimeRun(w, steps, d) <==>
            && !forced
            && waits.0 + waits.1 + waits.2 <= d
            && (latest.Some? ==> w.now + waits.0 <= w.keys[latest.value].expiresAt)
            && OnTimeRun(v, rest, d)
    ensures Unforced(rest) && !forced ==> Unforced(steps)
  {
    var cleanedAt := w.now + waits.0;
    var swept := Job(w.now, latest, Swept(cleanedAt, ExpiredKeys(w.keys, cleanedAt)));
    var w1 := w.(jobs := map[0 := Job(w.now, latest, Checked)]);
    var w2 := w1.(now := cleanedAt);
    var w3 := w2.(jobs := map[0 := swept]);
    steps := FinishRotation(w3, w.now, latest, version, (waits.1, waits.2), v, rest, d);
    assert w2.jobs[0 := swept] == w3.jobs;
    steps := Before(w2, Clean(0), w3, steps, d);
    steps := Before(w1, Tick(waits.0), w2, steps, d);
    steps := Before(w, Check(0, latest, forced), w1, steps, d);
  }

  // ---------- Broken hypotheses ----------

  predicate Stranded(w: World, life: nat) {
    exists t :: t in w.tokens && w.now <= t.at + life && !(t.key < |w.keys| && w.keys[t.key].isActive)
  }

  const INSTANT: (nat, nat, nat) := (0, 0, 0)

  /** Checks every 24 hours: the check at 24h finds a whole hour left, and the one at 48h drops the signing key. */
  lemma DailyChecksStrandTokens() returns (steps: seq<Step>)
    ensures IsRun(FRESH, steps) && Unforced(steps) && Stranded(Run(FRESH, steps), 0)
    ensures Run(FRESH, steps).now == 48 * HOUR
    ensures !Needed([NewKey(0, 0)], Some(0), 24 * HOUR)
  {
    var k0 := NewKey(0, 0);
    var w1 := World(0, [k0], map[], {});
    var w2 := w1.(now := 48 * HOUR);
    var w3 := w2.(tokens := {Signed(0, 48 * HOUR)});
    var w4 := w3.(keys := Rotated([k0], 48 * HOUR, 48 * HOUR, 1));
    assert Signed(0, 48 * HOUR) in w4.tokens && !w4.keys[0].isActive;
    steps := WholeRotationIsRotated(w3, Some(0), false, 1, INSTANT, w4, [], 0);
    steps := Before(w2, Sign(0), w3, steps, 0);
    steps := Before(w1, Tick(48 * HOUR), w2, steps, 0);
    assert w1.keys == Rotated([], 0, 0, 0);
    steps := WholeRotationIsRotated(FRESH, None, false, 0, INSTANT, w1, steps, 0);
  }

  /** Three hours after the first forced rotation a second one drops the key that signed the token. */
  lemma SecondForced(w4: World) returns (steps: seq<Step>)
    requires w4 == World(23 * HOUR, [NewKey(0, 0).(rotationCount := 1), NewKey(1, 23 * HOUR)], map[],
                         {Signed(0, 23 * HOUR)})
    ensures IsRun(w4, steps) && Stranded(Run(w4, steps), 3 * HOUR) && Run(w4, steps).now == 26 * HOUR
  {
    var w5 := w4.(now := 26 * HOUR);
    var w6 := w5.(keys := [NewKey(0, 0).(isActive := false, rotationCount := 2),
                           NewKey(1, 23 * HOUR).(rotationCount := 1),
                           NewKey(2, 26 * HOUR)]);
    assert Signed(0, 23 * HOUR) in w6.tokens && !w6.keys[0].isActive;
    assert IsLatest(w5.keys, 1);
    assert w6.keys == Rotated(w5.keys, 26 * HOUR, 26 * HOUR, 2);
    steps := WholeRotationIsRotated(w5, Some(1), true, 2, INSTANT, w6, [], 0);
    steps := Before(w4, Tick(3 * HOUR), w5, steps, 0);
  }

  /** `force` skips the need-check: two forced rotations strand a token that is three hours old. */
  lemma ForcedRotationsStrandTokens() returns (steps: seq<Step>)
    ensures IsRun(FRESH, steps) && Stranded(Run(FRESH, steps), 3 * HOUR)
    ensures Run(FRESH, steps).now == 26 * HOUR
  {
    var k0, k1 := NewKey(0, 0), NewKey(1, 23 * HOUR);
    var w1 := World(0, [k0], map[], {});
    var w2 := w1.(now := 23 * HOUR);
    var w3 := w2.(tokens := {Signed(0, 23 * HOUR)});
    var w4 := w3.(keys := [k0.(rotationCount := 1), k1]);
    steps := SecondForced(w4);
    assert w4.keys == Rotated(w3.keys, 23 * HOUR, 23 * HOUR, 1);
    steps := WholeRotationIsRotated(w3, Some(0), true, 1, INSTANT, w4, steps, 0);
    steps := Before(w2, Sign(0), w3, steps, 0);
    steps := Before(w1, Tick(23 * HOUR), w2, steps, 0);
    assert w1.keys == Rotated([], 0, 0, 0);
    steps := WholeRotationIsRotated(FRESH, None, false, 0, INSTANT, w1, steps, 0);
  }

  // ---------- What rotations can do to a token at all ----------

  /** Only expired keys are dropped, or about to be. */
  predicate DropsExpired(w: World) {
    && TableOk(w.keys, w.now)
    && (forall id :: id in w.jobs && !w.jobs[id].phase.Checked? ==>
          w.jobs[id].phase.cleanedAt <= w.now
              && ExpiredBefore(w.keys, w.jobs[id].phase.expired, w.jobs[id].phase.cleanedAt))
    && (forall id :: id in w.jobs && w.jobs[id].phase.Generated? ==> w.jobs[id].phase.key.isActive)
  }

  /** The rows stay, with their dates. */
  predicate DatesStay(keys: Keys, later: Keys) {
    |keys| <= |later| && forall i :: 0 <= i < |keys| ==> later[i].expiresAt == keys[i].expiresAt
  }

  lemma StepDropsExpired(w: World, s: Step)
    requires DropsExpired(w) && Enabled(w, s)
    ensures DropsExpired(Take(w, s)) && DatesStay(w.keys, Take(w, s).keys)
  {
    if s.Commit? {
      assert ExpiredBefore(w.keys, w.jobs[s.job].phase.expired, w.jobs[s.job].phase.cleanedAt);
    }
  }

  lemma {:induction false} RunDropsExpired(w: World, steps: seq<Step>)
    requires DropsExpired(w) && IsRun(w, steps)
    ensures DropsExpired(Run(w, steps)) && DatesStay(w.keys, Run(w, steps).keys)
    decreases |steps|
  {
    if steps != [] {
      StepDropsExpired(w, steps[0]);
      RunDropsExpired(Take(w, steps[0]), steps[1..]);
    }
  }

  /** Some run, with rotations forced at will, drops the key of the token while the token lives. */
  ghost predicate CanBeStranded(w: World, t: Signed, life: nat) {
    exists steps :: IsRun(w, steps) && Run(w, steps).now <= t.at + life
                 && !(t.key < |Run(w, steps).keys| && Run(w, steps).keys[t.key].isActive)
  }

  /** With rotations forced at will, a living token can be stranded iff it outlives its key. */
  lemma ForcedRotationsStrandIff(w: World, t: Signed, life: nat)
    requires DropsExpired(w) && w.jobs == map[] && t.key < |w.keys| && w.keys[t.key].isActive && w.now <= t.at + life
    ensures CanBeStranded(w, t, life) <==> w.keys[t.key].expiresAt < t.at + life
  {
    if w.keys[t.key].expiresAt < t.at + life {
      var steps := ForceLate(w, t, life);
    }
    forall steps | IsRun(w, steps) && Run(w, steps).now <= t.at + life
                && !(t.key < |Run(w, steps).keys| && Run(w, steps).keys[t.key].isActive)
      ensures w.keys[t.key].expiresAt < t.at + life
    {
      RunDropsExpired(w, steps);
    }
  }

  /** Wait for the key to expire, then force a rotation. */
  lemma ForceLate(w: World, t: Signed, life: nat) returns (steps: seq<Step>)
    requires w.jobs == map[] && t.key < |w.keys| && w.keys[t.key].isActive && w.now <= t.at + life
    requires w.keys[t.key].expiresAt < t.at + life
    ensures IsRun(w, steps) && Run(w, steps).now <= t.at + life
    ensures t.key < |Run(w, steps).keys| && !Run(w, steps).keys[t.key].isActive
  {
    var wait: nat := if w.now <= w.keys[t.key].expiresAt then w.keys[t.key].expiresAt + 1 - w.now else 0;
    var v := w.(now := w.now + wait);
    var latest := LatestExists(v.keys);
    var u := v.(keys := Rotated(v.keys, v.now, v.now, 0));
    steps := WholeRotationIsRotated(v, latest, true, 0, INSTANT, u, [], 0);
    steps := Before(w, Tick(wait), v, steps, 0);
  }

  /** A job that checked when there was no key goes on as if there still were none. */
  lemma SecondRotation(w5: World) returns (steps: seq<Step>)
    requires w5 == World(0, [NewKey(1, 0)], map[1 := Job(0, None, Checked)], {})
    ensures IsRun(w5, steps) && OnTimeRun(w5, steps, 0)
    ensures Run(w5, steps) == World(0, [NewKey(1, 0), NewKey(2, 0)], map[], {})
  {
    var k1, k2 := NewKey(1, 0), NewKey(2, 0);
    var w6 := w5.(jobs := map[1 := Job(0, None, Swept(0, {}))]);
    var w7 := w5.(jobs := map[1 := Job(0, None, Generated(0, {}, k2))]);
    var w8 := World(0, [k1, k2], map[], {});
    assert w7.jobs - {1} == map[] && Written([k1], {}, map[], k2) == w8.keys;
    steps := Before(w7, Commit(1, map[]), w8, [], 0);
    steps := Before(w6, Generate(1, 2), w7, steps, 0);
    assert ExpiredKeys(w5.keys, 0) == {};
    steps := Before(w5, Clean(1), w6, steps, 0);
  }

  /**
  The need-check is outside the lock and is not repeated inside it: two jobs that check before either commits
  both rotate, one after the other, and leave two new keys for one period.
  */
  lemma StaleCheckRotatesTwice() returns (steps: seq<Step>)
    ensures IsRun(FRESH, steps) && OnTimeRun(FRESH, steps, 0)
    ensures Run(FRESH, steps).keys == [NewKey(1, 0), NewKey(2, 0)]
  {
    var waiting := Job(0, None, Checked);
    var k1 := NewKey(1, 0);
    var w1 := FRESH.(jobs := map[0 := waiting]);
    var w2 := FRESH.(jobs := map[0 := waiting, 1 := waiting]);
    var w3 := FRESH.(jobs := map[0 := Job(0, None, Swept(0, {})), 1 := waiting]);
    var w4 := FRESH.(jobs := map[0 := Job(0, None, Generated(0, {}, k1)), 1 := waiting]);
    var w5 := World(0, [k1], map[1 := waiting], {});
    steps := SecondRotation(w5);
    assert w4.jobs - {0} == w5.jobs && Written([], {}, map[], k1) == w5.keys;
    steps := Before(w4, Commit(0, map[]), w5, steps, 0);
    steps := Before(w3, Generate(0, 1), w4, steps, 0);
    assert ExpiredKeys([], 0) == {};
    steps := Before(w2, Clean(0), w3, steps, 0);
    steps := Before(w1, Check(1, None, false), w2, steps, 0);
    steps := Before(FRESH, Check(0, None, false), w1, steps, 0);
  }
}
