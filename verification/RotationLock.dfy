/**
The Redis lock around key rotation: SET NX EX, and compare-and-delete.

Every Redis command is one atomic step; its reply may be lost, in which case the client sees a RedisError although
the command took effect. One tick is a millisecond.
*/
module RotationLock {
  import opened Wrappers

  type CallId = nat
  type Value = nat
  type Millis = int

  const LOCK_TIMEOUT: int := 60_000
  const LOCK_RETRY_DELAY: int := 1_000
  const LOCK_MAX_RETRIES: nat := 3

  datatype Lock = Lock(value: Value, expires: Millis)

  datatype Phase =
    | Trying(tries: nat, notBefore: Millis)
    | Holding(since: Millis)
    | GaveUp(tries: nat)
    | Done

  datatype Call = Call(value: Value, phase: Phase)

  /** From the SET that won to the release. */
  datatype Section = Section(call: CallId, since: Millis, until: Millis)

  datatype State = State(now: Millis, lock: Option<Lock>, calls: map<CallId, Call>, sections: set<Section>)

  datatype Delivery = Delivered | ReplyLost | Dropped

  datatype Step =
    | Tick(ticks: nat)
    | Begin(call: CallId, value: Value)
    | TrySet(call: CallId, delivery: Delivery)
    | Release(call: CallId, delivery: Delivery)

  predicate Live(lock: Option<Lock>, now: Millis) {
    lock.Some? && now < lock.value.expires
  }

  predicate Enabled(s: State, step: Step) {
    match step
    case Tick(_) => true
    case Begin(c, _) => c !in s.calls
    case TrySet(c, _) => c in s.calls && s.calls[c].phase.Trying? && s.calls[c].phase.notBefore <= s.now
    case Release(c, _) => c in s.calls && s.calls[c].phase.Holding?
  }

  /** SET key value NX EX timeout. */
  function SetNx(lock: Option<Lock>, value: Value, now: Millis): Option<Lock> {
    if Live(lock, now) then lock else Some(Lock(value, now + LOCK_TIMEOUT))
  }

  /** The script of the release: delete the key if it still holds this value. */
  function CompareAndDelete(lock: Option<Lock>, value: Value, now: Millis): Option<Lock> {
    if Live(lock, now) && lock.value.value == value then None else lock
  }

  /** A lost or dropped command raises and ends the attempt; a busy lock is tried again, three times in all. */
  function AfterTry(tries: nat, won: bool, now: Millis, delivery: Delivery): Phase {
    if !delivery.Delivered? then GaveUp(tries + 1)
    else if won then Holding(now)
    else if tries + 1 < LOCK_MAX_RETRIES then Trying(tries + 1, now + LOCK_RETRY_DELAY)
    else GaveUp(tries + 1)
  }

  function Take(s: State, step: Step): State
    requires Enabled(s, step)
  {
    match step
    case Tick(ticks) => s.(now := s.now + ticks)
    case Begin(c, value) => s.(calls := s.calls[c := Call(value, Trying(0, s.now))])
    case TrySet(c, delivery) =>
      var call := s.calls[c];
      var phase := AfterTry(call.phase.tries, !Live(s.lock, s.now), s.now, delivery);
      s.(lock := if delivery.Dropped? then s.lock else SetNx(s.lock, call.value, s.now),
         calls := s.calls[c := call.(phase := phase)])
    case Release(c, delivery) =>
      var call := s.calls[c];
      s.(lock := if delivery.Dropped? then s.lock else CompareAndDelete(s.lock, call.value, s.now),
         calls := s.calls[c := call.(phase := Done)],
         sections := s.sections + {Section(c, call.phase.since, s.now)})
  }

  predicate Start(s: State) {
    !Live(s.lock, s.now) && s.calls == map[] && s.sections == {}
  }

  predicate IsRun(s: State, steps: seq<Step>)
    decreases |steps|
  {
    steps == [] || (Enabled(s, steps[0]) && IsRun(Take(s, steps[0]), steps[1..]))
  }

  function Run(s: State, steps: seq<Step>): State
    requires IsRun(s, steps)
    decreases |steps|
  {
    if steps == [] then s else Run(Take(s, steps[0]), steps[1..])
  }

  /** No two calls use the same value. */
  predicate Fresh(s: State, step: Step) {
    step.Begin? ==> forall c :: c in s.calls ==> s.calls[c].value != step.value
  }

  predicate FreshRun(s: State, steps: seq<Step>)
    requires IsRun(s, steps)
    decreases |steps|
  {
    steps == [] || (Fresh(s, steps[0]) && FreshRun(Take(s, steps[0]), steps[1..]))
  }

  // ---------- Invariant ----------

  predicate Distinct(calls: map<CallId, Call>) {
    forall a, b :: a in calls && b in calls && calls[a].value == calls[b].value ==> a == b
  }

  /** A call inside its sixty seconds is the owner of the key. */
  predicate Owns(lock: Option<Lock>, call: Call, now: Millis) {
    call.phase.Holding? ==>
      && call.phase.since <= now
      && (now < call.phase.since + LOCK_TIMEOUT ==> lock == Some(Lock(call.value, call.phase.since + LOCK_TIMEOUT)))
  }

  predicate Short(x: Section) {
    x.until < x.since + LOCK_TIMEOUT
  }

  predicate Apart(x: Section, y: Section) {
    x.until <= y.since || y.until <= x.since
  }

  /** A finished short section ended before any live holder began. */
  predicate SectionOk(s: State, x: Section) {
    && x.since <= x.until <= s.now
    && x.call in s.calls && s.calls[x.call].phase.Done?
    && (Short(x) ==> forall c :: c in s.calls && HoldsInTime(s, c) ==> x.until <= s.calls[c].phase.since)
  }

  /** The call holds the lock and has not outstayed the timeout. */
  predicate HoldsInTime(s: State, c: CallId) {
    && c in s.calls && s.calls[c].phase.Holding?
    && s.now < s.calls[c].phase.since + LOCK_TIMEOUT
  }

  predicate CallsOk(s: State) {
    forall c :: c in s.calls ==> Owns(s.lock, s.calls[c], s.now)
  }

  predicate SectionsOk(s: State) {
    && (forall x :: x in s.sections ==> SectionOk(s, x))
    && (forall x, y :: x in s.sections && y in s.sections && x != y && Short(x) && Short(y) ==> Apart(x, y))
  }

  predicate Inv(s: State) {
    Distinct(s.calls) && CallsOk(s) && SectionsOk(s)
  }

  lemma SoleHolder(s: State, a: CallId, b: CallId)
    requires Distinct(s.calls) && CallsOk(s) && HoldsInTime(s, a) && HoldsInTime(s, b)
    ensures a == b
  {
  }

  lemma StepKeepsCalls(s: State, step: Step)
    requires Distinct(s.calls) && CallsOk(s) && Enabled(s, step) && Fresh(s, step)
    ensures Distinct(Take(s, step).calls) && CallsOk(Take(s, step))
  {
  }

  lemma StepKeepsSections(s: State, step: Step)
    requires Inv(s) && Enabled(s, step)
    ensures SectionsOk(Take(s, step))
  {
    var t := Take(s, step);
    forall x | x in t.sections ensures SectionOk(t, x) {
      if x in s.sections {
        assert SectionOk(s, x);
        forall c | c in t.calls && HoldsInTime(t, c) && Short(x) ensures x.until <= t.calls[c].phase.since {
          assert HoldsInTime(s, c) || (step.TrySet? && step.call == c);
        }
      } else {
        forall c | c in t.calls && Short(x) ensures !HoldsInTime(t, c) {
          if HoldsInTime(s, c) && HoldsInTime(s, x.call) {
            SoleHolder(s, c, x.call);
          }
        }
      }
    }
    forall x, y | x in t.sections && y in t.sections && x != y && Short(x) && Short(y) ensures Apart(x, y) {
      var mine := if x in s.sections then y else x;
      var theirs := if x in s.sections then x else y;
      if mine !in s.sections {
        assert HoldsInTime(s, step.call);
        assert SectionOk(s, theirs);
      }
    }
  }

  lemma {:induction false} RunKeepsInv(s: State, steps: seq<Step>)
    requires Inv(s) && IsRun(s, steps) && FreshRun(s, steps)
    ensures Inv(Run(s, steps))
    decreases |steps|
  {
    if steps != [] {
      StepKeepsCalls(s, steps[0]);
      StepKeepsSections(s, steps[0]);
      RunKeepsInv(Take(s, steps[0]), steps[1..]);
    }
  }

  // ---------- Theorems over whole runs ----------

  /** At most one call is inside its sixty seconds, and the key is its own. */
  lemma {:induction false} MutualExclusion(start: State, steps: seq<Step>, a: CallId, b: CallId)
    requires Start(start) && IsRun(start, steps) && FreshRun(start, steps)
    requires HoldsInTime(Run(start, steps), a) && HoldsInTime(Run(start, steps), b)
    ensures a == b
    ensures Run(start, steps).lock.Some? && Run(start, steps).lock.value.value == Run(start, steps).calls[a].value
  {
    RunKeepsInv(start, steps);
    SoleHolder(Run(start, steps), a, b);
    assert Owns(Run(start, steps).lock, Run(start, steps).calls[a], Run(start, steps).now);
  }

  /** Rotations that finish within the timeout never overlap. */
  lemma {:induction false} ShortSectionsNeverOverlap(start: State, steps: seq<Step>, x: Section, y: Section)
    requires Start(start) && IsRun(start, steps) && FreshRun(start, steps)
    requires x in Run(start, steps).sections && y in Run(start, steps).sections && x != y
    requires x.until < x.since + 60_000 && y.until < y.since + 60_000
    ensures x.until <= y.since || y.until <= x.since
  {
    RunKeepsInv(start, steps);
  }

  lemma {:induction false} PrefixIsRun(s: State, steps: seq<Step>, i: nat)
    requires IsRun(s, steps) && i <= |steps|
    ensures IsRun(s, steps[..i]) && IsRun(Run(s, steps[..i]), steps[i..])
    ensures Run(Run(s, steps[..i]), steps[i..]) == Run(s, steps)
    decreases |steps|
  {
    if i == 0 {
      assert steps[..0] == [] && steps[0..] == steps;
    } else {
      PrefixIsRun(Take(s, steps[0]), steps[1..], i - 1);
      assert steps[..i] == [steps[0]] + steps[1..][..i - 1];
      assert steps[1..][i - 1..] == steps[i..];
    }
  }

  /** The state in which step `i` of the run happens. */
  function At(start: State, steps: seq<Step>, i: nat): State
    requires IsRun(start, steps) && i <= |steps|
  {
    PrefixIsRun(start, steps, i);
    Run(start, steps[..i])
  }

  lemma {:induction false} SectionsStay(s: State, steps: seq<Step>)
    requires IsRun(s, steps)
    ensures s.sections <= Run(s, steps).sections
    decreases |steps|
  {
    if steps != [] {
      SectionsStay(Take(s, steps[0]), steps[1..]);
    }
  }

  /** Every release is recorded, with the time since which the call held the lock. */
  lemma ReleaseIsRecorded(start: State, steps: seq<Step>, i: nat)
    requires IsRun(start, steps) && i < |steps| && steps[i].Release?
    ensures var s := At(start, steps, i);
            var c := steps[i].call;
            && c in s.calls && s.calls[c].phase.Holding?
            && Section(c, s.calls[c].phase.since, s.now) in Run(start, steps).sections
  {
    PrefixIsRun(start, steps, i);
    SectionsStay(Take(At(start, steps, i), steps[i]), steps[i + 1..]);
    assert steps[i..][0] == steps[i] && steps[i..][1..] == steps[i + 1..];
  }

  /** A release, however late, changes the key only when the key is the caller's own. */
  lemma {:induction false} ReleaseSparesOthers(start: State, steps: seq<Step>, c: CallId, delivery: Delivery,
                                               other: CallId)
    requires Start(start) && IsRun(start, steps) && FreshRun(start, steps)
    requires Enabled(Run(start, steps), Release(c, delivery))
    requires other in Run(start, steps).calls && other != c && Run(start, steps).lock.Some?
    requires Run(start, steps).lock.value.value == Run(start, steps).calls[other].value
    ensures Take(Run(start, steps), Release(c, delivery)).lock == Run(start, steps).lock
  {
    RunKeepsInv(start, steps);
  }

  function SetsBy(steps: seq<Step>, c: CallId): nat {
    if steps == [] then 0
    else SetsBy(steps[1..], c) + if steps[0].TrySet? && steps[0].call == c then 1 else 0
  }

  /** The reply of every SET of this call came back. */
  predicate AllReplied(steps: seq<Step>, c: CallId) {
    forall i :: 0 <= i < |steps| && steps[i].TrySet? && steps[i].call == c ==> steps[i].delivery == Delivered
  }

  /** A call that is still trying, or gave up, has sent this many SETs; one that gave up had no more to send. */
  predicate Spent(call: Call, sets: nat, replied: bool) {
    match call.phase
    case Trying(tries, _) => tries == sets < 3 && replied
    case Holding(_) => 1 <= sets <= 3 && replied
    case GaveUp(tries) => tries == sets && 1 <= sets <= 3 && (sets == 3 || !replied)
    case Done => 1 <= sets <= 3 && replied
  }

  lemma {:induction false} SetsAreCounted(s: State, steps: seq<Step>, c: CallId, sets: nat, replied: bool)
    requires IsRun(s, steps) && if c in s.calls then Spent(s.calls[c], sets, replied) else sets == 0 && replied
    ensures var t := Run(s, steps);
            if c in t.calls then Spent(t.calls[c], sets + SetsBy(steps, c), replied && AllReplied(steps, c))
            else c !in s.calls && SetsBy(steps, c) == 0
    decreases |steps|
  {
    if steps != [] {
      var mine := steps[0].TrySet? && steps[0].call == c;
      var more := replied && (mine ==> steps[0].delivery == Delivered);
      SetsAreCounted(Take(s, steps[0]), steps[1..], c, sets + if mine then 1 else 0, more);
      AllRepliedHead(steps, c);
    }
  }

  lemma AllRepliedHead(steps: seq<Step>, c: CallId)
    requires steps != []
    ensures AllReplied(steps, c) <==>
              && AllReplied(steps[1..], c)
              && (steps[0].TrySet? && steps[0].call == c ==> steps[0].delivery == Delivered)
  {
    forall i | 1 <= i < |steps| ensures steps[i] == steps[1..][i - 1] {
    }
  }

  /**
  Each acquire sends at most three SET commands, whatever the other calls do, and gives up without an error only
  after three.
  */
  lemma {:induction false} AtMostThreeTries(start: State, steps: seq<Step>, c: CallId)
    requires Start(start) && IsRun(start, steps)
    ensures SetsBy(steps, c) <= 3
    ensures c in Run(start, steps).calls && Run(start, steps).calls[c].phase.GaveUp? && AllReplied(steps, c) ==>
              SetsBy(steps, c) == 3
  {
    SetsAreCounted(start, steps, c, 0, true);
  }

  lemma {:induction false} NextSetWaits(s: State, steps: seq<Step>, c: CallId, bound: Millis, j: nat)
    requires IsRun(s, steps) && j < |steps| && steps[j].TrySet? && steps[j].call == c
    requires c in s.calls && (s.calls[c].phase.Trying? ==> bound <= s.calls[c].phase.notBefore)
    ensures bound <= At(s, steps, j).now
    decreases |steps|
  {
    assert steps[..0] == [];
    if j > 0 {
      NextSetWaits(Take(s, steps[0]), steps[1..], c, bound, j - 1);
      assert steps[..j] == [steps[0]] + steps[1..][..j - 1];
    }
  }

  /** Two SETs of one call are at least a second apart. */
  lemma SetsAreSpaced(start: State, steps: seq<Step>, c: CallId, i: nat, j: nat)
    requires IsRun(start, steps) && i < j < |steps|
    requires steps[i].TrySet? && steps[i].call == c && steps[j].TrySet? && steps[j].call == c
    ensures At(start, steps, i).now + 1_000 <= At(start, steps, j).now
  {
    PrefixIsRun(start, steps, i);
    PrefixIsRun(start, steps, j);
    var s, rest := At(start, steps, i), steps[i..];
    assert rest[0] == steps[i] && rest[1..] == steps[i + 1..];
    NextSetWaits(Take(s, steps[i]), steps[i + 1..], c, s.now + 1_000, j - i - 1);
    PrefixIsRun(start, steps[..j], i);
    assert steps[..j][..i] == steps[..i];
    assert steps[..j][i..] == [steps[i]] + steps[i + 1..][..j - i - 1];
  }

  // ---------- Which values exclude ----------

  /** The calls draw these values. */
  predicate Draws(steps: seq<Step>, val: CallId -> Value) {
    forall i :: 0 <= i < |steps| && steps[i].Begin? ==> steps[i].value == val(steps[i].call)
  }

  /** With these values no two calls are ever inside their sixty seconds together. */
  ghost predicate Excludes(val: CallId -> Value) {
    forall start, steps, a, b ::
      (Start(start) && IsRun(start, steps) && Draws(steps, val)
       && HoldsInTime(Run(start, steps), a) && HoldsInTime(Run(start, steps), b)) ==> a == b
  }

  lemma {:induction false} InjectiveIsFresh(s: State, steps: seq<Step>, val: CallId -> Value)
    requires forall a, b :: val(a) == val(b) ==> a == b
    requires IsRun(s, steps) && Draws(steps, val) && forall c :: c in s.calls ==> s.calls[c].value == val(c)
    ensures FreshRun(s, steps)
    decreases |steps|
  {
    if steps != [] {
      assert Draws(steps[1..], val);
      InjectiveIsFresh(Take(s, steps[0]), steps[1..], val);
    }
  }

  lemma Before(s: State, step: Step, t: State, rest: seq<Step>, val: CallId -> Value) returns (steps: seq<Step>)
    requires Enabled(s, step) && Take(s, step) == t && IsRun(t, rest) && Draws(rest, val)
    requires step.Begin? ==> step.value == val(step.call)
    ensures IsRun(s, steps) && Run(s, steps) == Run(t, rest) && Draws(steps, val)
  {
    steps := [step] + rest;
    assert steps[0] == step && steps[1..] == rest;
  }

  /** The successor holds the key when the late release of its predecessor deletes it, and a third call gets in. */
  lemma ThirdCallGetsIn(s: State, a: CallId, b: CallId, c: CallId, val: CallId -> Value) returns (steps: seq<Step>)
    requires a != b && b != c && a != c && val(a) == val(b)
    requires s.lock == Some(Lock(val(b), s.now + LOCK_TIMEOUT)) && c !in s.calls
    requires a in s.calls && s.calls[a].phase.Holding? && s.calls[a].value == val(a)
    requires b in s.calls && s.calls[b].phase == Holding(s.now) && s.calls[b].value == val(b)
    ensures IsRun(s, steps) && Draws(steps, val)
    ensures HoldsInTime(Run(s, steps), b) && HoldsInTime(Run(s, steps), c)
  {
    var s1 := Take(s, Release(a, Delivered));
    var s2 := Take(s1, Begin(c, val(c)));
    var s3 := Take(s2, TrySet(c, Delivered));
    steps := Before(s2, TrySet(c, Delivered), s3, [], val);
    steps := Before(s1, Begin(c, val(c)), s2, steps, val);
    steps := Before(s, Release(a, Delivered), s1, steps, val);
  }

  /**
  The value is the event-loop clock in milliseconds, so two processes can draw the same one. A rotation that
  outstays the timeout then deletes the key of its successor, and a third call gets in beside it.
  */
  lemma EqualValuesBreakExclusion(a: CallId, b: CallId, val: CallId -> Value)
    returns (start: State, steps: seq<Step>, c: CallId)
    requires a != b && val(a) == val(b)
    ensures Start(start) && IsRun(start, steps) && Draws(steps, val)
    ensures b != c && HoldsInTime(Run(start, steps), b) && HoldsInTime(Run(start, steps), c)
  {
    c := a + b + 1;
    start := State(0, None, map[], {});
    var s1 := Take(start, Begin(a, val(a)));
    var s2 := Take(s1, TrySet(a, Delivered));
    var s3 := Take(s2, Tick(LOCK_TIMEOUT));
    var s4 := Take(s3, Begin(b, val(b)));
    var s5 := Take(s4, TrySet(b, Delivered));
    steps := ThirdCallGetsIn(s5, a, b, c, val);
    steps := Before(s4, TrySet(b, Delivered), s5, steps, val);
    steps := Before(s3, Begin(b, val(b)), s4, steps, val);
    steps := Before(s2, Tick(LOCK_TIMEOUT), s3, steps, val);
    steps := Before(s1, TrySet(a, Delivered), s2, steps, val);
    steps := Before(start, Begin(a, val(a)), s1, steps, val);
  }

  /** The lock excludes over all runs iff no two calls draw the same value. */
  lemma ExclusionIff(val: CallId -> Value)
    ensures Excludes(val) <==> forall a, b :: val(a) == val(b) ==> a == b
  {
    if a, b :| val(a) == val(b) && a != b {
      var start, steps, c := EqualValuesBreakExclusion(a, b, val);
    } else {
      forall start, steps, a, b | Start(start) && IsRun(start, steps) && Draws(steps, val)
                               && HoldsInTime(Run(start, steps), a) && HoldsInTime(Run(start, steps), b)
        ensures a == b
      {
        InjectiveIsFresh(start, steps, val);
        MutualExclusion(start, steps, a, b);
      }
    }
  }
}
