/**
The scheduled rotation job inside the interleaved system of KeyRotation: a deployment that checks at a fixed interval,
and signs whenever it likes in between, keeps every token verifiable exactly when its rotation gap is at most 25 hours.
*/
module ScheduledContinuity {
  import opened JwtKeys
  import opened KeyRotation
  import opened RotationSchedule
  import Limits = KeyRotationLimits

  // ---------- Between two checks ----------

  predicate Quiet(steps: seq<Step>) {
    forall s :: s in steps ==> s.Tick? || s.Sign?
  }

  function Elapsed(steps: seq<Step>): nat {
    if steps == [] then 0 else (if steps[0].Tick? then steps[0].ticks else 0) + Elapsed(steps[1..])
  }

  /** Signing and waiting change neither keys nor jobs, and are always on time. */
  lemma {:induction false} QuietRun(w: World, steps: seq<Step>)
    requires IsRun(w, steps) && Quiet(steps)
    ensures
      var v := Run(w, steps);
      v.keys == w.keys && v.jobs == w.jobs && v.now == w.now + Elapsed(steps)
    decreases |steps|
  {
    if steps != [] {
      assert steps[0] in steps;
      QuietRun(Take(w, steps[0]), steps[1..]);
    }
  }

  lemma {:induction false} QuietThen(w: World, quiet: seq<Step>, rest: seq<Step>) returns (steps: seq<Step>)
    requires IsRun(w, quiet) && Quiet(quiet) && IsRun(Run(w, quiet), rest)
    ensures IsRun(w, steps) && Run(w, steps) == Run(Run(w, quiet), rest)
    ensures OnTimeRun(w, steps, 0) <==> OnTimeRun(Run(w, quiet), rest, 0)
    decreases |quiet|
  {
    if quiet == [] {
      steps := rest;
    } else {
      assert quiet[0] in quiet;
      var more := QuietThen(Take(w, quiet[0]), quiet[1..], rest);
      steps := Limits.Before(w, quiet[0], Take(w, quiet[0]), more, 0);
    }
  }

  // ---------- Scheduled runs ----------

  /** Just before check `n` of the schedule. */
  predicate AtCheck(start: Instant, interval: nat, n: nat, w: World) {
    w.now == At(start, interval, n) && w.keys == TableBefore(start, interval, n) && w.jobs == map[]
  }

  /** Check `n` and the rotation it may start take no time. */
  function Checked(start: Instant, interval: nat, n: nat, w: World): World {
    w.(keys := TableBefore(start, interval, n + 1))
  }

  /** `rounds` says what happens after each check, up to the next one; the last round may be cut off. */
  predicate Follows(start: Instant, interval: nat, n: nat, w: World, rounds: seq<seq<Step>>, last: World)
    decreases |rounds|
  {
    if rounds == [] then last == w
    else
      var v := Checked(start, interval, n, w);
      && IsRun(v, rounds[0]) && Quiet(rounds[0])
      && (if |rounds| == 1 then Elapsed(rounds[0]) <= interval else Elapsed(rounds[0]) == interval)
      && Follows(start, interval, n + 1, Run(v, rounds[0]), rounds[1..], last)
  }

  function Fresh(start: Instant): World {
    World(start, [], map[], {})
  }

  /** Every token is verifiable as long as it lives, whatever is signed, over every run of the schedule. */
  ghost predicate Continuous(start: Instant, interval: nat, life: nat) {
    forall rounds, last :: Follows(start, interval, 0, Fresh(start), rounds, last) ==>
      forall t :: t in last.tokens && last.now <= t.at + life ==> t.key < |last.keys| && last.keys[t.key].isActive
  }

  lemma RoundEndsAtCheck(start: Instant, interval: nat, n: nat, w: World, round: seq<Step>)
    requires AtCheck(start, interval, n, w) && IsRun(Checked(start, interval, n, w), round) && Quiet(round)
    requires Elapsed(round) == interval
    ensures AtCheck(start, interval, n + 1, Run(Checked(start, interval, n, w), round))
  {
    QuietRun(Checked(start, interval, n, w), round);
    NextCheck(start, interval, n);
  }

  /** A check finds the newest key within its life, if the gap is at most 25 hours. */
  lemma CheckInTime(start: Instant, interval: nat, n: nat)
    requires interval > 0 && RotationGap(interval) <= KEY_VALIDITY
    ensures
      var keys := TableBefore(start, interval, n);
      keys != [] ==> At(start, interval, n) <= keys[|keys| - 1].expiresAt
  {
    if n > 0 {
      var i := PhaseOf(start, interval, n);
      Grow(i, ChecksApart(interval), interval);
    }
  }

  /** The check as steps of the interleaved system. */
  lemma CheckSteps(start: Instant, interval: nat, n: nat, w: World, rest: seq<Step>) returns (steps: seq<Step>)
    requires interval > 0 && RotationGap(interval) <= KEY_VALIDITY && AtCheck(start, interval, n, w)
    requires IsRun(Checked(start, interval, n, w), rest) && OnTimeRun(Checked(start, interval, n, w), rest, 0)
    ensures IsRun(w, steps) && Run(w, steps) == Run(Checked(start, interval, n, w), rest) && OnTimeRun(w, steps, 0)
  {
    NewestIsLatest(start, interval, n);
    CheckInTime(start, interval, n);
    if Needed(w.keys, Newest(w.keys), w.now) {
      steps := Limits.WholeRotationIsRotated(w, Newest(w.keys), false, n + 1, Limits.INSTANT,
                                             Checked(start, interval, n, w), rest, 0);
    } else {
      steps := rest;
    }
  }

  /** A schedule whose rotation gap is at most 25 hours is an on-time run. */
  lemma {:induction false} ScheduleIsOnTimeRun(start: Instant, interval: nat, n: nat, w: World, rounds: seq<seq<Step>>,
                                               last: World)
    returns (steps: seq<Step>)
    requires interval > 0 && RotationGap(interval) <= KEY_VALIDITY
    requires AtCheck(start, interval, n, w) && Follows(start, interval, n, w, rounds, last)
    ensures IsRun(w, steps) && Run(w, steps) == last && OnTimeRun(w, steps, 0)
    decreases |rounds|
  {
    if rounds == [] {
      steps := [];
    } else {
      var v := Checked(start, interval, n, w);
      var u := Run(v, rounds[0]);
      if |rounds| == 1 {
        steps := [];
      } else {
        RoundEndsAtCheck(start, interval, n, w, rounds[0]);
        steps := ScheduleIsOnTimeRun(start, interval, n + 1, u, rounds[1..], last);
      }
      steps := QuietThen(v, rounds[0], steps);
      steps := CheckSteps(start, interval, n, w, steps);
    }
  }

  // ---------- A late schedule ----------

  /** Wait for the check that comes too late, and sign just before it. */
  lemma {:induction false} LateRounds(start: Instant, interval: nat, n: nat, w: World)
    returns (rounds: seq<seq<Step>>, last: World)
    requires interval > 0 && RotationGap(interval) > KEY_VALIDITY && n < ChecksApart(interval)
    requires AtCheck(start, interval, n, w)
    ensures Follows(start, interval, n, w, rounds, last) && Limits.Stranded(last, 0)
    decreases ChecksApart(interval) - n
  {
    var v := Checked(start, interval, n, w);
    NextCheck(start, interval, n);
    if n + 1 < ChecksApart(interval) {
      var round := [Tick(interval)];
      assert round[1..] == [];
      assert IsRun(Take(v, Tick(interval)), round[1..]);
      RoundEndsAtCheck(start, interval, n, w, round);
      var more;
      more, last := LateRounds(start, interval, n + 1, Run(v, round));
      rounds := [round] + more;
      assert rounds[1..] == more;
    } else {
      rounds, last := FatalRounds(start, interval, n, w);
    }
  }

  /** Just before the check that comes too late the newest key still signs, and the check drops it. */
  lemma LateCheckStrands(start: Instant, interval: nat, w: World)
    requires interval > 0 && RotationGap(interval) > KEY_VALIDITY && AtCheck(start, interval, ChecksApart(interval), w)
    ensures w.keys != [] && Enabled(w, Sign(|w.keys| - 1))
    ensures Limits.Stranded(Checked(start, interval, ChecksApart(interval), Take(w, Sign(|w.keys| - 1))), 0)
  {
    var n := ChecksApart(interval);
    NewestIsLatest(start, interval, n);
    DiesWhenLate(start, interval);
    var k := |w.keys| - 1;
    var last := Checked(start, interval, n, Take(w, Sign(k)));
    assert Signed(k, w.now) in last.tokens;
  }

  /** A run of two steps. */
  lemma WaitAndSign(v: World, interval: nat, k: nat) returns (round: seq<Step>)
    requires Enabled(v.(now := v.now + interval), Sign(k))
    ensures IsRun(v, round) && Quiet(round) && Elapsed(round) == interval
    ensures Run(v, round) == Take(v.(now := v.now + interval), Sign(k))
  {
    round := [Tick(interval), Sign(k)];
    var later := v.(now := v.now + interval);
    var sign := round[1..];
    assert sign == [Sign(k)] && sign[1..] == [];
    assert Take(v, round[0]) == later;
    assert Elapsed(sign[1..]) == 0 && Elapsed(sign) == 0;
    assert IsRun(Take(later, Sign(k)), sign[1..]);
    assert IsRun(later, sign) && Run(later, sign) == Take(later, Sign(k));
  }

  lemma LastTwoRounds(start: Instant, interval: nat, n: nat, w: World, round: seq<Step>)
    returns (rounds: seq<seq<Step>>)
    requires IsRun(Checked(start, interval, n, w), round) && Quiet(round) && Elapsed(round) == interval
    ensures
      var u := Run(Checked(start, interval, n, w), round);
      Follows(start, interval, n, w, rounds, Checked(start, interval, n + 1, u))
  {
    var u := Run(Checked(start, interval, n, w), round);
    var last := Checked(start, interval, n + 1, u);
    var tail: seq<seq<Step>> := [[]];
    rounds := [round] + tail;
    assert rounds[1..] == tail && tail[1..] == [];
    assert Follows(start, interval, n + 2, last, [], last);
    assert Follows(start, interval, n + 1, u, tail, last);
  }

  lemma FatalRounds(start: Instant, interval: nat, n: nat, w: World) returns (rounds: seq<seq<Step>>, last: World)
    requires interval > 0 && RotationGap(interval) > KEY_VALIDITY && n + 1 == ChecksApart(interval)
    requires AtCheck(start, interval, n, w)
    ensures Follows(start, interval, n, w, rounds, last) && Limits.Stranded(last, 0)
  {
    var v := Checked(start, interval, n, w);
    NextCheck(start, interval, n);
    var later := v.(now := v.now + interval);
    LateCheckStrands(start, interval, later);
    var round := WaitAndSign(v, interval, |later.keys| - 1);
    rounds := LastTwoRounds(start, interval, n, w, round);
    last := Checked(start, interval, n + 1, Run(v, round));
  }

  // ---------- Continuity of schedules ----------

  /**
  A deployment that checks at a fixed interval keeps every token of at most 24 hours verifiable, over all its runs, iff
  its rotation gap is at most the 25 hours a key is valid.
  */
  lemma ScheduleContinuityIff(start: Instant, interval: nat, life: nat)
    requires 0 < interval && life <= 24 * HOUR
    ensures Continuous(start, interval, life) <==> RotationGap(interval) <= KEY_VALIDITY
  {
    if RotationGap(interval) <= KEY_VALIDITY {
      forall rounds, last | Follows(start, interval, 0, Fresh(start), rounds, last)
        ensures forall t :: t in last.tokens && last.now <= t.at + life ==>
          t.key < |last.keys| && last.keys[t.key].isActive
      {
        var steps := ScheduleIsOnTimeRun(start, interval, 0, Fresh(start), rounds, last);
        TokenContinuity(Fresh(start), steps, life, 0);
      }
    } else {
      var rounds, last := LateRounds(start, interval, 0, Fresh(start));
      var t :| t in last.tokens && last.now <= t.at + 0 && !(t.key < |last.keys| && last.keys[t.key].isActive);
    }
  }

  /** Checks at least hourly keep every token. */
  lemma HourlyChecksKeepTokens(start: Instant, interval: nat, life: nat)
    requires 0 < interval <= HOUR && life <= 24 * HOUR
    ensures Continuous(start, interval, life)
  {
    ScheduleContinuityIff(start, interval, life);
    var q := RotationSchedule.DAY / interval;
    assert q * interval <= RotationSchedule.DAY;
    assert RotationGap(interval) == q * interval + interval;
  }

  /** Of the settings the configuration accepts only 1, 5 and 25 hours keep every token; the default of 24 does not. */
  lemma AllowedIntervalsContinuousIff(start: Instant, hours: nat, life: nat)
    requires 1 <= hours <= 168 && life <= 24 * HOUR
    ensures Continuous(start, hours * HOUR, life) <==> hours in {1, 5, 25}
  {
    ScheduleContinuityIff(start, hours * HOUR, life);
    WholeHours(hours);
    GapOfAllowedHours(hours);
    var gap := (24 / hours + 1) * hours;
    assert gap * HOUR <= 25 * HOUR <==> gap <= 25;
  }
}
