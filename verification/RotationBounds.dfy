/**
The exact bounds of the rotation protocol: which token lifetimes and which job lengths keep every token verifiable, and
which jobs add a key that nobody needs.
*/
module RotationBounds {
  import opened Wrappers
  import opened JwtKeys
  import opened KeyRotation
  import opened KeyRotationLimits

  // ---------- Lifetimes and job lengths ----------

  /** Every on-time run, with jobs of length at most `d`, keeps every token of lifetime `life`. */
  ghost predicate Continuous(life: nat, d: nat) {
    forall start, steps :: Start(start) && IsRun(start, steps) && OnTimeRun(start, steps, d) ==>
      !Stranded(Run(start, steps), life)
  }

  // One microsecond past the day: the first moment at which the key of time 0 is renewed.
  const RENEWED: Instant := DAY + 1
  const PENDING: World :=
    World(RENEWED, [NewKey(0, 0)], map[0 := Job(RENEWED, Some(0), Generated(RENEWED, {}, NewKey(1, RENEWED)))], {})

  /** The renewal has generated its key and not committed it. */
  lemma RenewalPending(rest: seq<Step>, d: nat) returns (steps: seq<Step>)
    requires IsRun(PENDING, rest) && OnTimeRun(PENDING, rest, d)
    ensures IsRun(FRESH, steps) && Run(FRESH, steps) == Run(PENDING, rest)
    ensures OnTimeRun(FRESH, steps, d)
  {
    var w1 := World(0, [NewKey(0, 0)], map[], {});
    var w2 := w1.(now := RENEWED);
    var w3 := w2.(jobs := map[0 := Job(RENEWED, Some(0), Checked)]);
    var w4 := w2.(jobs := map[0 := Job(RENEWED, Some(0), Swept(RENEWED, {}))]);
    assert w4.jobs[0 := PENDING.jobs[0]] == PENDING.jobs;
    steps := Before(w4, Generate(0, 1), PENDING, rest, d);
    assert ExpiredKeys(w3.keys, RENEWED) == {};
    assert w3.jobs[0 := w4.jobs[0]] == w4.jobs;
    steps := Before(w3, Clean(0), w4, steps, d);
    steps := Before(w2, Check(0, Some(0), false), w3, steps, d);
    steps := Before(w1, Tick(RENEWED), w2, steps, d);
    assert w1.keys == Rotated([], 0, 0, 0);
    steps := WholeRotationIsRotated(FRESH, None, false, 0, INSTANT, w1, steps, d);
  }

  /** The next renewal drops the key of time 0 as soon as it may. */
  lemma NextRenewal(w8: World, life: nat, d: nat) returns (steps: seq<Step>)
    requires d <= RENEWED && 24 * HOUR < life + d
    requires w8 == World(RENEWED + d, [NewKey(0, 0), NewKey(1, RENEWED)], map[], {Signed(0, RENEWED + d)})
    ensures IsRun(w8, steps) && OnTimeRun(w8, steps, d) && Stranded(Run(w8, steps), life)
  {
    var w9 := w8.(now := RENEWED + RENEWED);
    var w10 := w9.(keys := Rotated(w9.keys, w9.now, w9.now, 2));
    assert Signed(0, RENEWED + d) in w10.tokens && !w10.keys[0].isActive;
    assert IsLatest(w9.keys, 1);
    steps := WholeRotationIsRotated(w9, Some(1), false, 2, INSTANT, w10, [], d);
    steps := Before(w8, Tick(RENEWED - d), w9, steps, d);
  }

  /**
  The 24 hours have to pay for the length of a rotation: a token signed just before a commit that comes `d` after the
  key was generated is dropped by the next rotation a day after that generation.
  */
  lemma SlowCommitStrands(life: nat, d: nat) returns (steps: seq<Step>)
    requires d <= RENEWED && 24 * HOUR < life + d
    ensures IsRun(FRESH, steps) && OnTimeRun(FRESH, steps, d) && Stranded(Run(FRESH, steps), life)
  {
    var k0, k1 := NewKey(0, 0), NewKey(1, RENEWED);
    var w6 := PENDING.(now := RENEWED + d);
    var w7 := w6.(tokens := {Signed(0, RENEWED + d)});
    var w8 := w7.(keys := [k0, k1], jobs := map[]);
    steps := NextRenewal(w8, life, d);
    assert Written([k0], {}, map[], k1) == w8.keys && w7.jobs - {0} == map[];
    steps := Before(w7, Commit(0, map[]), w8, steps, d);
    steps := Before(w6, Sign(0), w7, steps, d);
    steps := Before(PENDING, Tick(d), w6, steps, d);
    steps := RenewalPending(steps, d);
  }

  /** The job that checked when there was no key cleans up when the first key has come and expired. */
  lemma LateSweep(w5: World, d: nat) returns (steps: seq<Step>)
    requires KEY_VALIDITY < 2 * d
    requires w5 == World(2 * d, [NewKey(0, 0)], map[1 := Job(d, None, Checked)], {Signed(0, 2 * d)})
    ensures IsRun(w5, steps) && OnTimeRun(w5, steps, d) && Stranded(Run(w5, steps), 0)
  {
    var k0, k1 := NewKey(0, 0), NewKey(1, 2 * d);
    var w6 := w5.(jobs := map[1 := Job(d, None, Swept(2 * d, {0}))]);
    var w7 := w5.(jobs := map[1 := Job(d, None, Generated(2 * d, {0}, k1))]);
    var w8 := w5.(keys := [k0.(isActive := false), k1], jobs := map[]);
    assert Written([k0], {0}, map[], k1) == w8.keys && w7.jobs - {1} == map[];
    assert Signed(0, 2 * d) in w8.tokens && !w8.keys[0].isActive;
    steps := Before(w7, Commit(1, map[]), w8, [], d);
    assert w6.jobs[1 := w7.jobs[1]] == w7.jobs;
    steps := Before(w6, Generate(1, 1), w7, steps, d);
    assert ExpiredKeys(w5.keys, 2 * d) == {0} && w5.jobs[1 := w6.jobs[1]] == w6.jobs;
    steps := Before(w5, Clean(1), w6, steps, d);
  }

  /** From the clean-up of the first job, its commit just before the other one's deadline begins to run. */
  lemma LateFirstKey(w2: World, d: nat) returns (steps: seq<Step>)
    requires KEY_VALIDITY < 2 * d
    requires w2 == World(0, [], map[0 := Job(0, None, Generated(0, {}, NewKey(0, 0)))], {})
    ensures IsRun(w2, steps) && OnTimeRun(w2, steps, d) && Stranded(Run(w2, steps), 0)
  {
    var generated, waiting := w2.jobs[0], Job(d, None, Checked);
    var w3 := World(d, [], map[0 := generated], {});
    var w4 := World(d, [], map[0 := generated, 1 := waiting], {});
    var w5 := World(d, [NewKey(0, 0)], map[1 := waiting], {});
    var w6 := w5.(now := 2 * d);
    var w7 := w6.(tokens := {Signed(0, 2 * d)});
    steps := LateSweep(w7, d);
    steps := Before(w6, Sign(0), w7, steps, d);
    steps := Before(w5, Tick(d), w6, steps, d);
    assert w4.jobs - {0} == w5.jobs && Written([], {}, map[], NewKey(0, 0)) == w5.keys;
    steps := Before(w4, Commit(0, map[]), w5, steps, d);
    assert w3.jobs[1 := waiting] == w4.jobs;
    steps := Before(w3, Check(1, None, false), w4, steps, d);
    steps := Before(w2, Tick(d), w3, steps, d);
  }

  /** Two jobs that may each take more than half a key's life, end to end, strand a token the moment it is signed. */
  lemma LongJobsStrand(d: nat) returns (steps: seq<Step>)
    requires KEY_VALIDITY < 2 * d
    ensures IsRun(FRESH, steps) && OnTimeRun(FRESH, steps, d) && Stranded(Run(FRESH, steps), 0)
  {
    var w1 := FRESH.(jobs := map[0 := Job(0, None, Checked)]);
    var w2 := FRESH.(jobs := map[0 := Job(0, None, Swept(0, {}))]);
    var w3 := FRESH.(jobs := map[0 := Job(0, None, Generated(0, {}, NewKey(0, 0)))]);
    steps := LateFirstKey(w3, d);
    assert w2.jobs[0 := w3.jobs[0]] == w3.jobs;
    steps := Before(w2, Generate(0, 0), w3, steps, d);
    assert ExpiredKeys([], 0) == {} && w1.jobs[0 := w2.jobs[0]] == w2.jobs;
    steps := Before(w1, Clean(0), w2, steps, d);
    steps := Before(FRESH, Check(0, None, false), w1, steps, d);
  }

  /**
  Exactly which lifetimes are safe: over every interleaving of on-time jobs of length at most `d`, with any number of
  instances, no token of lifetime `life` is ever stranded iff lifetime and job length together are at most 24 hours and
  two jobs end to end are at most the 25 hours a key is valid.
  */
  lemma ContinuityIff(life: nat, d: nat)
    ensures Continuous(life, d) <==> life + d <= 24 * HOUR && 2 * d <= KEY_VALIDITY
  {
    if KEY_VALIDITY < 2 * d {
      var steps := LongJobsStrand(d);
      assert Stranded(Run(FRESH, steps), life);
    } else if 24 * HOUR < life + d {
      var steps := SlowCommitStrands(life, d);
    } else {
      forall start, steps | Start(start) && IsRun(start, steps) && OnTimeRun(start, steps, d)
        ensures !Stranded(Run(start, steps), life)
      {
        TokenContinuity(start, steps, life, d);
      }
    }
  }

  // ---------- Keys that nobody needs ----------

  /** The key is active and has at least the hour left that makes a rotation unnecessary. */
  predicate IsFresh(w: World, k: nat) {
    k < |w.keys| && w.keys[k].isActive && w.now + RENEWAL_WINDOW <= w.keys[k].expiresAt
  }

  /** A key that is fresh in the end was so all the time, and no unforced check began meanwhile. */
  lemma {:induction false} NoCheckWhileFresh(w: World, steps: seq<Step>, k: nat)
    requires IsRun(w, steps) && Unforced(steps) && k < |w.keys| && IsFresh(Run(w, steps), k)
    ensures IsFresh(w, k) && Run(w, steps).jobs.Keys <= w.jobs.Keys
    decreases |steps|
  {
    if steps != [] {
      var v := Take(w, steps[0]);
      assert steps[0] in steps;
      assert Unforced(steps[1..]);
      NoCheckWhileFresh(v, steps[1..], k);
      FreshBefore(w, steps[0], k);
    }
  }

  lemma FreshBefore(w: World, s: Step, k: nat)
    requires Enabled(w, s) && !(s.Check? && s.forced) && k < |w.keys| && IsFresh(Take(w, s), k)
    ensures IsFresh(w, k) && Take(w, s).jobs.Keys <= w.jobs.Keys
  {
  }

  /** The job goes on to its commit without waiting. */
  lemma CanFinish(w: World, job: JobId) returns (steps: seq<Step>)
    requires job in w.jobs
    ensures IsRun(w, steps) && Unforced(steps) && Enabled(Run(w, steps), Commit(job, map[]))
    ensures Run(w, steps).keys == w.keys && Run(w, steps).now == w.now
  {
    steps := [];
    var v := w;
    if w.jobs[job].phase.Checked? {
      v := Take(w, Clean(job));
    }
    if !w.jobs[job].phase.Generated? {
      steps := Before(v, Generate(job, 0), Take(v, Generate(job, 0)), steps, 0);
    }
    if w.jobs[job].phase.Checked? {
      steps := Before(w, Clean(job), v, steps, 0);
    }
  }

  /** Without forcing, some run goes on to a commit of this job while the key is still fresh. */
  ghost predicate AddsBeside(w: World, k: nat, job: JobId) {
    exists steps :: IsRun(w, steps) && Unforced(steps) && IsFresh(Run(w, steps), k)
                 && Enabled(Run(w, steps), Commit(job, map[]))
  }

  /**
  The need-check is outside the lock and is not repeated inside it. After a commit, another job adds a second key while
  the new one has an hour left, in some unforced run, iff it had made its check before that commit.
  */
  lemma SecondKeyIff(w: World, first: JobId, counts: map<nat, nat>, job: JobId)
    requires Enabled(w, Commit(first, counts)) && IsFresh(Take(w, Commit(first, counts)), |w.keys|)
    ensures AddsBeside(Take(w, Commit(first, counts)), |w.keys|, job) <==> job in w.jobs && job != first
  {
    var v := Take(w, Commit(first, counts));
    var k := |w.keys|;
    if job in v.jobs {
      var steps := CanFinish(v, job);
    }
    forall steps | IsRun(v, steps) && Unforced(steps) && IsFresh(Run(v, steps), k)
                && Enabled(Run(v, steps), Commit(job, map[]))
      ensures job in v.jobs
    {
      NoCheckWhileFresh(v, steps, k);
    }
  }
}
