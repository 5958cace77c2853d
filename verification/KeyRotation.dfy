/**
Rotation jobs of any number of instances over one key table, interleaved with token signing.

A job checks the need, reads the expired keys, generates a key and commits, and other jobs and signers act in
between. Nothing here depends on the Redis lock: token continuity holds even when two jobs overlap.
*/
module KeyRotation {
  import opened Wrappers
  import opened JwtKeys

  type JobId = nat

  datatype Phase =
    | Checked
    | Swept(cleanedAt: Instant, expired: set<nat>)
    | Generated(cleanedAt: Instant, expired: set<nat>, key: JwtKey)

  /** `seen` is the latest active key at the check. */
  datatype Job = Job(checkedAt: Instant, seen: Option<nat>, phase: Phase)

  /** A token signed with row `key` at `at`. */
  datatype Signed = Signed(key: nat, at: Instant)

  datatype World = World(now: Instant, keys: Keys, jobs: map<JobId, Job>, tokens: set<Signed>)

  datatype Step =
    | Tick(ticks: nat)
    | Check(job: JobId, latest: Option<nat>, forced: bool)
    | Clean(job: JobId)
    | Generate(job: JobId, version: Version)
    | Commit(job: JobId, counts: map<nat, nat>)
    | Abort(job: JobId)
    | Sign(key: nat)

  function ExpiredKeys(keys: Keys, now: Instant): set<nat> {
    set i | 0 <= i < |keys| && keys[i].isActive && keys[i].expiresAt < now
  }

  /** The columns one commit writes; `counts` is whatever the ORM computed for `rotation_count`. */
  function WrittenRow(key: JwtKey, i: nat, expired: set<nat>, counts: map<nat, nat>): JwtKey {
    var deactivated := if i in expired then key.(isActive := false) else key;
    if i in counts then deactivated.(rotationCount := counts[i]) else deactivated
  }

  function Written(keys: Keys, expired: set<nat>, counts: map<nat, nat>, key: JwtKey): Keys {
    seq(|keys|, i requires 0 <= i < |keys| => WrittenRow(keys[i], i, expired, counts)) + [key]
  }

  predicate Enabled(w: World, s: Step) {
    match s
    case Tick(_) => true
    case Check(job, latest, forced) =>
      job !in w.jobs && IsLatestOrNone(w.keys, latest) && (forced || Needed(w.keys, latest, w.now))
    case Clean(job) => job in w.jobs && w.jobs[job].phase.Checked?
    case Generate(job, _) => job in w.jobs && w.jobs[job].phase.Swept?
    case Commit(job, _) => job in w.jobs && w.jobs[job].phase.Generated?
    case Abort(job) => job in w.jobs
    case Sign(key) => IsLatest(w.keys, key)
  }

  function Take(w: World, s: Step): World
    requires Enabled(w, s)
  {
    match s
    case Tick(ticks) => w.(now := w.now + ticks)
    case Check(job, latest, _) => w.(jobs := w.jobs[job := Job(w.now, latest, Checked)])
    case Clean(job) =>
      w.(jobs := w.jobs[job := w.jobs[job].(phase := Swept(w.now, ExpiredKeys(w.keys, w.now)))])
    case Generate(job, version) =>
      var p := w.jobs[job].phase;
      w.(jobs := w.jobs[job := w.jobs[job].(phase := Generated(p.cleanedAt, p.expired, NewKey(version, w.now)))])
    case Commit(job, counts) =>
      var p := w.jobs[job].phase;
      w.(keys := Written(w.keys, p.expired, counts, p.key), jobs := w.jobs - {job})
    case Abort(job) => w.(jobs := w.jobs - {job})
    case Sign(key) => w.(tokens := w.tokens + {Signed(key, w.now)})
  }

  predicate IsRun(w: World, steps: seq<Step>)
    decreases |steps|
  {
    steps == [] || (Enabled(w, steps[0]) && IsRun(Take(w, steps[0]), steps[1..]))
  }

  function Run(w: World, steps: seq<Step>): World
    requires IsRun(w, steps)
    decreases |steps|
  {
    if steps == [] then w else Run(Take(w, steps[0]), steps[1..])
  }

  // ---------- Discipline ----------

  /**
  No forced rotation, every clean-up no later than the expiry of the key its check saw, and at most `d` from
  a check to the clean-up and to the commit.
  */
  predicate OnTime(w: World, s: Step, d: nat)
    requires Enabled(w, s)
  {
    match s
    case Check(_, _, forced) => !forced
    case Clean(job) =>
      var j := w.jobs[job];
      && w.now <= j.checkedAt + d
      && (j.seen.Some? && j.seen.value < |w.keys| ==> w.now <= w.keys[j.seen.value].expiresAt)
    case Commit(job, _) => w.now <= w.jobs[job].checkedAt + d
    case _ => true
  }

  predicate OnTimeRun(w: World, steps: seq<Step>, d: nat)
    requires IsRun(w, steps)
    decreases |steps|
  {
    steps == [] || (OnTime(w, steps[0], d) && OnTimeRun(Take(w, steps[0]), steps[1..], d))
  }

  predicate Start(w: World) {
    w.keys == [] && w.jobs == map[] && w.tokens == {}
  }

  // ---------- Invariant ----------

  predicate TableOk(keys: Keys, now: Instant) {
    forall i :: 0 <= i < |keys| && !keys[i].isActive ==> keys[i].expiresAt < now
  }

  /** Some active key outlives time `t`. */
  predicate Covered(keys: Keys, t: Instant) {
    exists i :: 0 <= i < |keys| && keys[i].isActive && t <= keys[i].expiresAt
  }

  predicate AllActiveOutlive(keys: Keys, t: Instant) {
    forall i :: 0 <= i < |keys| && keys[i].isActive ==> t <= keys[i].expiresAt
  }

  predicate ExpiredBefore(keys: Keys, expired: set<nat>, t: Instant) {
    forall i :: i in expired ==> i < |keys| && keys[i].expiresAt < t
  }

  predicate JobOk(keys: Keys, j: Job, now: Instant, d: nat) {
    && j.checkedAt <= now
    && (j.seen.Some? ==> j.seen.value < |keys|)
    && (j.seen.None? ==> AllActiveOutlive(keys, j.checkedAt + d))
    && (!j.phase.Checked? ==>
          && j.phase.cleanedAt <= now
          && ExpiredBefore(keys, j.phase.expired, j.phase.cleanedAt)
          && (j.seen.None? ==> j.phase.expired == {})
          && (j.seen.Some? ==> Covered(keys, j.phase.cleanedAt)))
    && (j.phase.Generated? ==> j.phase.key.isActive && j.checkedAt + KEY_VALIDITY <= j.phase.key.expiresAt)
  }

  predicate JobsOk(keys: Keys, jobs: map<JobId, Job>, now: Instant, d: nat) {
    forall id :: id in jobs ==> JobOk(keys, jobs[id], now, d)
  }

  /** An on-time clean-up of job `j` leaves key `k` alone. */
  predicate Spares(keys: Keys, j: Job, k: nat, now: Instant, d: nat)
    requires k < |keys|
  {
    if j.phase.Checked? then
      || j.checkedAt + d <= keys[k].expiresAt
      || (j.seen.Some? && j.seen.value < |keys| &&
          (keys[j.seen.value].expiresAt <= keys[k].expiresAt || keys[j.seen.value].expiresAt < now))
    else
      k !in j.phase.expired
  }

  predicate Rivals(keys: Keys, k: nat, t: Instant)
    requires k < |keys|
  {
    forall i :: 0 <= i < |keys| && keys[i].isActive && keys[k].expiresAt < keys[i].expiresAt ==> t <= keys[i].expiresAt
  }

  /** While a token lives its key is active, no job will drop it, and every longer key is too fresh to be renewed. */
  predicate TokenOk(w: World, t: Signed, life: nat, d: nat) {
    && t.at <= w.now
    && (w.now <= t.at + life ==>
          && t.key < |w.keys| && w.keys[t.key].isActive
          && (forall id :: id in w.jobs ==> Spares(w.keys, w.jobs[id], t.key, w.now, d))
          && Rivals(w.keys, t.key, t.at + life + RENEWAL_WINDOW))
  }

  ghost predicate Inv(w: World, life: nat, d: nat) {
    && TableOk(w.keys, w.now)
    && JobsOk(w.keys, w.jobs, w.now, d)
    && forall t :: t in w.tokens ==> TokenOk(w, t, life, d)
  }

  // ---------- Steps keep it ----------

  lemma TickKeepsInv(w: World, ticks: nat, life: nat, d: nat)
    requires Inv(w, life, d)
    ensures Inv(Take(w, Tick(ticks)), life, d)
  {
  }

  lemma CheckKeepsInv(w: World, s: Step, life: nat, d: nat)
    requires Inv(w, life, d) && s.Check? && Enabled(w, s) && !s.forced
    ensures Inv(Take(w, s), life, d)
  {
  }

  lemma CleanKeepsInv(w: World, s: Step, life: nat, d: nat)
    requires Inv(w, life, d) && s.Clean? && Enabled(w, s) && OnTime(w, s, d)
    ensures Inv(Take(w, s), life, d)
  {
  }

  lemma GenerateKeepsInv(w: World, s: Step, life: nat, d: nat)
    requires Inv(w, life, d) && s.Generate? && Enabled(w, s)
    ensures Inv(Take(w, s), life, d)
  {
  }

  lemma AbortKeepsInv(w: World, s: Step, life: nat, d: nat)
    requires Inv(w, life, d) && s.Abort? && Enabled(w, s)
    ensures Inv(Take(w, s), life, d)
  {
  }

  /** The clean-ups of two jobs leave a common survivor: the later of the two witnesses. */
  lemma CommitKeepsCover(keys: Keys, j: Job, other: Instant, now: Instant, d: nat, counts: map<nat, nat>)
    requires JobOk(keys, j, now, d) && j.phase.Generated?
    requires Covered(keys, other)
    ensures Covered(Written(keys, j.phase.expired, counts, j.phase.key), other)
  {
    var after := Written(keys, j.phase.expired, counts, j.phase.key);
    var i :| 0 <= i < |keys| && keys[i].isActive && other <= keys[i].expiresAt;
    if i in j.phase.expired {
      var k :| 0 <= k < |keys| && keys[k].isActive && j.phase.cleanedAt <= keys[k].expiresAt;
      assert after[k].isActive && other <= after[k].expiresAt;
    } else {
      assert after[i].isActive && other <= after[i].expiresAt;
    }
  }

  lemma CommitKeepsJob(keys: Keys, j: Job, other: Job, now: Instant, d: nat, counts: map<nat, nat>)
    requires 2 * d <= KEY_VALIDITY
    requires JobOk(keys, j, now, d) && j.phase.Generated? && now <= j.checkedAt + d
    requires JobOk(keys, other, now, d)
    ensures JobOk(Written(keys, j.phase.expired, counts, j.phase.key), other, now, d)
  {
    if other.seen.Some? && !other.phase.Checked? {
      CommitKeepsCover(keys, j, other.phase.cleanedAt, now, d, counts);
    }
  }

  lemma CommitKeepsToken(w: World, s: Step, t: Signed, life: nat, d: nat)
    requires life + d <= 24 * HOUR
    requires Inv(w, life, d) && s.Commit? && Enabled(w, s) && OnTime(w, s, d) && t in w.tokens
    ensures TokenOk(Take(w, s), t, life, d)
  {
  }

  lemma CommitKeepsInv(w: World, s: Step, life: nat, d: nat)
    requires life + d <= 24 * HOUR && 2 * d <= KEY_VALIDITY
    requires Inv(w, life, d) && s.Commit? && Enabled(w, s) && OnTime(w, s, d)
    ensures Inv(Take(w, s), life, d)
  {
    var v := Take(w, s);
    var j := w.jobs[s.job];
    assert JobOk(w.keys, j, w.now, d);
    forall id | id in v.jobs ensures JobOk(v.keys, v.jobs[id], v.now, d) {
      assert JobOk(w.keys, w.jobs[id], w.now, d);
      CommitKeepsJob(w.keys, j, w.jobs[id], w.now, d, s.counts);
    }
    forall t | t in v.tokens ensures TokenOk(v, t, life, d) {
      CommitKeepsToken(w, s, t, life, d);
    }
  }

  lemma SignKeepsInv(w: World, s: Step, life: nat, d: nat)
    requires Inv(w, life, d) && s.Sign? && Enabled(w, s)
    ensures Inv(Take(w, s), life, d)
  {
  }

  lemma StepKeepsInv(w: World, s: Step, life: nat, d: nat)
    requires life + d <= 24 * HOUR && 2 * d <= KEY_VALIDITY
    requires Inv(w, life, d) && Enabled(w, s) && OnTime(w, s, d)
    ensures Inv(Take(w, s), life, d)
  {
    match s
    case Tick(ticks) => TickKeepsInv(w, ticks, life, d);
    case Check(_, _, _) => CheckKeepsInv(w, s, life, d);
    case Clean(_) => CleanKeepsInv(w, s, life, d);
    case Generate(_, _) => GenerateKeepsInv(w, s, life, d);
    case Commit(_, _) => CommitKeepsInv(w, s, life, d);
    case Abort(_) => AbortKeepsInv(w, s, life, d);
    case Sign(_) => SignKeepsInv(w, s, life, d);
  }

  lemma {:induction false} RunKeepsInv(w: World, steps: seq<Step>, life: nat, d: nat)
    requires life + d <= 24 * HOUR && 2 * d <= KEY_VALIDITY
    requires Inv(w, life, d) && IsRun(w, steps) && OnTimeRun(w, steps, d)
    ensures Inv(Run(w, steps), life, d)
    decreases |steps|
  {
    if steps != [] {
      StepKeepsInv(w, steps[0], life, d);
      RunKeepsInv(Take(w, steps[0]), steps[1..], life, d);
    }
  }

  /**
  Token continuity. Over every interleaving of any number of rotation jobs that are needed, on time and at most
  `d` long, a token of lifetime at most 24 hours less `d` has an active key at every moment of its life.
  */
  lemma {:induction false} TokenContinuity(start: World, steps: seq<Step>, life: nat, d: nat)
    requires life + d <= 24 * HOUR && 2 * d <= KEY_VALIDITY
    requires Start(start) && IsRun(start, steps) && OnTimeRun(start, steps, d)
    ensures var w := Run(start, steps);
            forall t :: t in w.tokens && w.now <= t.at + life ==> t.key < |w.keys| && w.keys[t.key].isActive
  {
    RunKeepsInv(start, steps, life, d);
    var w := Run(start, steps);
    forall t | t in w.tokens && w.now <= t.at + life ensures t.key < |w.keys| && w.keys[t.key].isActive {
      assert TokenOk(w, t, life, d);
    }
  }
}
