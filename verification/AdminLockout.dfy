/**
Login lockout of administrators: the account, the authentication service, and the failure rate of whole runs.

One tick is a microsecond.
*/
module AdminLockout {
  import opened Wrappers
  import opened PasswordPolicy

  type Instant = int

  const MINUTE: int := 60_000_000
  const LOCK_DURATION: int := 15 * MINUTE
  const MAX_ATTEMPTS: nat := 5

  datatype Account = Account(
    enabled: bool,
    passwordHash: Hash,
    loginAttempts: nat,
    lockedUntil: Option<Instant>,
    lastLoginAt: Option<Instant>)
  {
    predicate IsLocked(now: Instant) {
      lockedUntil.Some? && now < lockedUntil.value
    }

    predicate CanLogin(now: Instant) {
      enabled && !IsLocked(now)
    }
  }

  datatype AuthError = InvalidCredentials | AccountDisabled | AccountLocked

  /** The lock is looked at before the password is hashed; the clock is read again after that. */
  datatype Attempt = Attempt(password: string, checkedAt: Instant, endedAt: Instant)

  /** The password was compared and found wrong. */
  predicate FailsCheck(a: Account, x: Attempt) {
    a.CanLogin(x.checkedAt) && !Verify(x.password, a.passwordHash)
  }

  predicate LogsIn(a: Account, x: Attempt) {
    a.CanLogin(x.checkedAt) && Verify(x.password, a.passwordHash)
  }

  /** From the fifth failure on every failure locks again: the counter survives the end of a lock. */
  function AfterFailure(a: Account, now: Instant): Account {
    a.(loginAttempts := a.loginAttempts + 1,
       lockedUntil := if a.loginAttempts + 1 >= MAX_ATTEMPTS then Some(now + LOCK_DURATION) else a.lockedUntil)
  }

  function AfterReset(a: Account): Account {
    a.(loginAttempts := 0, lockedUntil := None)
  }

  function AfterAttempt(a: Account, x: Attempt): Account {
    if FailsCheck(a, x) then AfterFailure(a, x.endedAt)
    else if LogsIn(a, x) then AfterReset(a).(lastLoginAt := Some(x.endedAt))
    else a
  }

  class AdminUser {
    var enabled: bool
    var passwordHash: Hash
    var loginAttempts: nat
    var lockedUntil: Option<Instant>
    var lastLoginAt: Option<Instant>

    constructor (passwordHash: Hash)
      ensures State() == Account(true, passwordHash, 0, None, None)
    {
      enabled, this.passwordHash, loginAttempts, lockedUntil, lastLoginAt := true, passwordHash, 0, None, None;
    }

    function State(): Account
      reads this
    {
      Account(enabled, passwordHash, loginAttempts, lockedUntil, lastLoginAt)
    }

    method ResetLoginAttempts()
      modifies this`loginAttempts, this`lockedUntil
      ensures State() == AfterReset(old(State()))
      ensures loginAttempts == 0 && lockedUntil == None
    {
      loginAttempts := 0;
      lockedUntil := None;
    }

    method IncrementLoginAttempts(now: Instant, lockDuration: nat)
      modifies this`loginAttempts, this`lockedUntil
      ensures loginAttempts == old(loginAttempts) + 1
      ensures lockedUntil == if loginAttempts >= MAX_ATTEMPTS then Some(now + lockDuration) else old(lockedUntil)
    {
      loginAttempts := loginAttempts + 1;
      if loginAttempts >= MAX_ATTEMPTS {
        lockedUntil := Some(now + lockDuration);
      }
    }

    method Authenticate(x: Attempt) returns (result: Result<(), AuthError>)
      modifies this
      ensures State() == AfterAttempt(old(State()), x)
      ensures result.Ok? <==> LogsIn(old(State()), x)
      ensures result == Err(InvalidCredentials) <==> FailsCheck(old(State()), x)
      ensures result == Err(AccountDisabled) <==> !old(enabled)
      ensures result == Err(AccountLocked) <==>
        old(enabled) && old(lockedUntil).Some? && x.checkedAt < old(lockedUntil).value
      ensures result.Ok? ==> loginAttempts == 0 && lockedUntil == None && lastLoginAt == Some(x.endedAt)
      ensures result == Err(InvalidCredentials) ==>
        && loginAttempts == old(loginAttempts) + 1 && lastLoginAt == old(lastLoginAt)
        && lockedUntil == if loginAttempts >= 5 then Some(x.endedAt + 15 * MINUTE) else old(lockedUntil)
      ensures old(enabled) && !(old(lockedUntil).Some? && x.checkedAt < old(lockedUntil).value) ==>
        (result.Ok? <==> x.password == old(passwordHash).secret)
      ensures result in {Err(AccountDisabled), Err(AccountLocked)} ==> State() == old(State())
      ensures enabled == old(enabled) && passwordHash == old(passwordHash)
    {
      if !enabled {
        return Err(AccountDisabled);
      }
      if lockedUntil.Some? && x.checkedAt < lockedUntil.value {
        return Err(AccountLocked);
      }
      if !Verify(x.password, passwordHash) {
        IncrementLoginAttempts(x.endedAt, LOCK_DURATION);
        return Err(InvalidCredentials);
      }
      ResetLoginAttempts();
      lastLoginAt := Some(x.endedAt);
      return Ok(());
    }
  }

  // ---------- Runs ----------

  datatype Event =
    | Login(attempt: Attempt)
    | AdminReset(at: Instant)
    | SetEnabled(value: bool, at: Instant)
    | SetPassword(hash: Hash, at: Instant)

  function Ended(e: Event): Instant {
    match e
    case Login(x) => x.endedAt
    case AdminReset(at) => at
    case SetEnabled(_, at) => at
    case SetPassword(_, at) => at
  }

  function Began(e: Event): Instant {
    match e
    case Login(x) => x.checkedAt
    case _ => Ended(e)
  }

  function Next(a: Account, e: Event): Account {
    match e
    case Login(x) => AfterAttempt(a, x)
    case AdminReset(_) => AfterReset(a)
    case SetEnabled(value, _) => a.(enabled := value)
    case SetPassword(hash, _) => a.(passwordHash := hash)
  }

  function After(a: Account, events: seq<Event>): Account {
    if events == [] then a else Next(After(a, events[..|events| - 1]), events[|events| - 1])
  }

  /** One after the other, in time order. */
  predicate Serial(events: seq<Event>) {
    && (forall k :: 0 <= k < |events| ==> Began(events[k]) <= Ended(events[k]))
    && (forall j, k :: 0 <= j < k < |events| ==> Ended(events[j]) <= Began(events[k]))
  }

  predicate IsFailure(a: Account, e: Event) {
    e.Login? && FailsCheck(a, e.attempt)
  }

  /** A successful login or an administrative reset. */
  predicate ClearsCounter(a: Account, e: Event) {
    e.AdminReset? || (e.Login? && LogsIn(a, e.attempt))
  }

  function Failures(a: Account, events: seq<Event>, from: Instant, to: Instant): nat {
    if events == [] then 0
    else
      var e := events[|events| - 1];
      Failures(a, events[..|events| - 1], from, to)
      + if from <= Ended(e) <= to && IsFailure(After(a, events[..|events| - 1]), e) then 1 else 0
  }

  function Clears(a: Account, events: seq<Event>, from: Instant, to: Instant): nat {
    if events == [] then 0
    else
      var e := events[|events| - 1];
      Clears(a, events[..|events| - 1], from, to)
      + if from <= Ended(e) <= to && ClearsCounter(After(a, events[..|events| - 1]), e) then 1 else 0
  }

  /**
  How far the count can be by the last event: failures below the fifth are free once per clearing, and each of the
  others has waited for the lock of the one before.
  */
  predicate Paced(a: Account, failures: nat, clears: nat, from: Instant, last: Instant) {
    failures > 0 ==>
      && from <= last
      && if a.loginAttempts < MAX_ATTEMPTS
         then failures <= MAX_ATTEMPTS * clears + a.loginAttempts + (last - from) / LOCK_DURATION
         else
           && a.lockedUntil.Some?
           && a.lockedUntil.value <= last + LOCK_DURATION
           && from + LOCK_DURATION <= a.lockedUntil.value
           && failures <= MAX_ATTEMPTS * (clears + 1) + (a.lockedUntil.value - LOCK_DURATION - from) / LOCK_DURATION
  }

  lemma OneMoreLock(t: int, earlier: int)
    requires earlier + LOCK_DURATION <= t
    ensures earlier / LOCK_DURATION + 1 <= t / LOCK_DURATION
  {
  }

  lemma LongerWaits(t: int, earlier: int)
    requires earlier <= t
    ensures earlier / LOCK_DURATION <= t / LOCK_DURATION
  {
  }

  lemma StepKeepsPace(a: Account, e: Event, failures: nat, clears: nat, from: Instant, last: Instant)
    requires Paced(a, failures, clears, from, last)
    requires failures > 0 ==> last <= Began(e)
    requires Began(e) <= Ended(e) && from <= Ended(e)
    ensures Paced(Next(a, e),
                  failures + if IsFailure(a, e) then 1 else 0,
                  clears + if ClearsCounter(a, e) then 1 else 0,
                  from, Ended(e))
  {
    var t := Ended(e);
    if failures > 0 {
      LongerWaits(t - from, last - from);
      if a.loginAttempts >= MAX_ATTEMPTS {
        LongerWaits(t - from, a.lockedUntil.value - LOCK_DURATION - from);
        if IsFailure(a, e) {
          OneMoreLock(t - from, a.lockedUntil.value - LOCK_DURATION - from);
        }
      }
    } else {
      LongerWaits(t - from, 0);
    }
  }

  lemma {:induction false} RunKeepsPace(a: Account, events: seq<Event>, from: Instant, to: Instant)
    requires Serial(events) && events != [] && Ended(events[|events| - 1]) <= to
    ensures Paced(After(a, events), Failures(a, events, from, to), Clears(a, events, from, to), from,
                  Ended(events[|events| - 1]))
  {
    var n := |events| - 1;
    var before := events[..n];
    var e := events[n];
    if n > 0 {
      assert Ended(events[n - 1]) <= Began(e);
      RunKeepsPace(a, before, from, to);
    }
    if from <= Ended(e) {
      var last := if n > 0 then Ended(events[n - 1]) else from;
      assert n == 0 ==> Failures(a, before, from, to) == 0;
      StepKeepsPace(After(a, before), e, Failures(a, before, from, to), Clears(a, before, from, to), from, last);
    } else {
      assert Failures(a, before, from, to) == 0;
    }
  }

  /**
  The lockout rate: in every serialized run from any account state and every interval, the failed password checks
  number at most five for each stretch between clearings plus one for each whole fifteen minutes.
  */
  lemma {:induction false} LockoutRate(a: Account, events: seq<Event>, from: Instant, to: Instant)
    requires Serial(events) && from <= to
    ensures Failures(a, events, from, to)
            <= MAX_ATTEMPTS * (Clears(a, events, from, to) + 1) + (to - from) / LOCK_DURATION
  {
    if events != [] {
      var n := |events| - 1;
      if to < Ended(events[n]) {
        LockoutRate(a, events[..n], from, to);
      } else {
        RunKeepsPace(a, events, from, to);
        var end := After(a, events);
        if Failures(a, events, from, to) > 0 {
          LongerWaits(to - from, Ended(events[n]) - from);
          if end.loginAttempts >= MAX_ATTEMPTS {
            LongerWaits(to - from, end.lockedUntil.value - LOCK_DURATION - from);
          }
        }
      }
    }
  }

  /** Without a successful login or a reset in the interval the bound is 5 + T / 15. */
  lemma {:induction false} LockoutRateWithoutClearing(a: Account, events: seq<Event>, from: Instant, minutes: nat)
    requires Serial(events) && Clears(a, events, from, from + minutes * MINUTE) == 0
    ensures Failures(a, events, from, from + minutes * MINUTE) <= 5 + minutes / 15
  {
    LockoutRate(a, events, from, from + minutes * MINUTE);
    assert (minutes * MINUTE) / LOCK_DURATION == minutes / 15;
  }

  // ---------- No lock without five failures ----------

  /** Failed checks since the counter was last cleared. */
  function FailuresSince(a: Account, events: seq<Event>): nat {
    if events == [] then 0
    else
      var before := After(a, events[..|events| - 1]);
      var e := events[|events| - 1];
      if e.AdminReset? then 0
      else if e.Login? && before.CanLogin(e.attempt.checkedAt) && Verify(e.attempt.password, before.passwordHash) then 0
      else
        FailuresSince(a, events[..|events| - 1])
        + if e.Login? && before.CanLogin(e.attempt.checkedAt) then 1 else 0
  }

  /** When the last check failed, if one has. */
  function LastFailure(a: Account, events: seq<Event>): Option<Instant> {
    if events == [] then None
    else
      var before := After(a, events[..|events| - 1]);
      var e := events[|events| - 1];
      if e.Login? && before.CanLogin(e.attempt.checkedAt) && !Verify(e.attempt.password, before.passwordHash)
      then Some(e.attempt.endedAt)
      else LastFailure(a, events[..|events| - 1])
  }

  /** The counter is the number of failures since the last clearing; the lock is that of the last one, from five on. */
  lemma {:induction false} CounterIsFailures(a: Account, events: seq<Event>)
    requires a.loginAttempts == 0 && a.lockedUntil == None
    ensures
      var end := After(a, events);
      && end.loginAttempts == FailuresSince(a, events)
      && (FailuresSince(a, events) > 0 ==> LastFailure(a, events).Some?)
      && end.lockedUntil == if FailuresSince(a, events) >= 5
                            then Some(LastFailure(a, events).value + 15 * MINUTE) else None
  {
    if events != [] {
      CounterIsFailures(a, events[..|events| - 1]);
    }
  }

  /**
  From a cleared account a login is answered `AccountLocked` iff at least five failed checks came since the last
  clearing, the last of them less than fifteen minutes ago.
  */
  lemma LockedIff(a: Account, events: seq<Event>, now: Instant)
    requires a.loginAttempts == 0 && a.lockedUntil == None
    ensures After(a, events).IsLocked(now) <==>
      FailuresSince(a, events) >= 5 && LastFailure(a, events).Some? && now < LastFailure(a, events).value + 15 * MINUTE
  {
    CounterIsFailures(a, events);
  }

  /** The last change of a setting holds until the end of the run, and so does the time of the last login. */
  lemma {:induction false} LastChangeHolds(a: Account, events: seq<Event>, k: nat)
    requires k < |events|
    ensures events[k].SetEnabled? && (forall j :: k < j < |events| ==> !events[j].SetEnabled?) ==>
              After(a, events).enabled == events[k].value
    ensures events[k].SetPassword? && (forall j :: k < j < |events| ==> !events[j].SetPassword?) ==>
              After(a, events).passwordHash == events[k].hash
    ensures events[k].Login? && LogsIn(After(a, events[..k]), events[k].attempt)
            && (forall j :: k < j < |events| ==>
                  events[j].Login? ==> !LogsIn(After(a, events[..j]), events[j].attempt)) ==>
              After(a, events).lastLoginAt == Some(events[k].attempt.endedAt)
  {
    var n := |events| - 1;
    if k < n {
      forall j | 0 <= j < n ensures events[..n][j] == events[j] && events[..n][..j] == events[..j] {
      }
      LastChangeHolds(a, events[..n], k);
      assert events[..n] == events[..|events| - 1];
    }
  }

  // ---------- The bound is reached ----------

  function GuessTime(n: nat): Instant {
    if n <= MAX_ATTEMPTS then 0 else (n - MAX_ATTEMPTS) * LOCK_DURATION
  }

  /** Wrong passwords as fast as the lock lets them through. */
  function Guesses(password: string, n: nat): (events: seq<Event>)
    ensures |events| == n
    ensures forall k :: 0 <= k < n ==> events[k] == Login(Attempt(password, GuessTime(k + 1), GuessTime(k + 1)))
  {
    seq(n, k requires 0 <= k < n => Login(Attempt(password, GuessTime(k + 1), GuessTime(k + 1))))
  }

  lemma GuessesAreSerial(password: string, n: nat)
    ensures Serial(Guesses(password, n))
  {
  }

  predicate Guessed(a: Account, n: nat) {
    && a.enabled && a.loginAttempts == n
    && a.lockedUntil == if n < MAX_ATTEMPTS then None else Some(GuessTime(n) + LOCK_DURATION)
  }

  lemma OneGuess(a: Account, password: string, n: nat)
    requires Guessed(a, n) && !Verify(password, a.passwordHash)
    ensures var x := Attempt(password, GuessTime(n + 1), GuessTime(n + 1));
            FailsCheck(a, x) && Guessed(AfterAttempt(a, x), n + 1)
  {
  }

  lemma OneMoreFailure(a: Account, earlier: seq<Event>, e: Event, from: Instant, to: Instant)
    requires IsFailure(After(a, earlier), e) && from <= Ended(e) <= to
    ensures After(a, earlier + [e]) == Next(After(a, earlier), e)
    ensures Failures(a, earlier + [e], from, to) == Failures(a, earlier, from, to) + 1
    ensures Clears(a, earlier + [e], from, to) == Clears(a, earlier, from, to)
  {
  }

  lemma {:induction false} EveryGuessIsChecked(a: Account, password: string, n: nat, to: Instant)
    requires Guessed(a, 0) && !Verify(password, a.passwordHash) && GuessTime(n) <= to
    ensures Guessed(After(a, Guesses(password, n)), n)
    ensures After(a, Guesses(password, n)).passwordHash == a.passwordHash
    ensures Failures(a, Guesses(password, n), 0, to) == n && Clears(a, Guesses(password, n), 0, to) == 0
  {
    if n > 0 {
      EveryGuessIsChecked(a, password, n - 1, to);
      OneGuess(After(a, Guesses(password, n - 1)), password, n - 1);
      var e := Login(Attempt(password, GuessTime(n), GuessTime(n)));
      OneMoreFailure(a, Guesses(password, n - 1), e, 0, to);
      assert Guesses(password, n) == Guesses(password, n - 1) + [e];
    }
  }

  /** For every whole number of lock periods there is a run with exactly 5 + T / 15 failed checks. */
  lemma LockoutRateIsTight(a: Account, password: string, periods: nat)
    requires Guessed(a, 0) && !Verify(password, a.passwordHash)
    ensures var events := Guesses(password, MAX_ATTEMPTS + periods);
            && Serial(events)
            && Clears(a, events, 0, periods * LOCK_DURATION) == 0
            && Failures(a, events, 0, periods * LOCK_DURATION) == 5 + periods
  {
    GuessesAreSerial(password, MAX_ATTEMPTS + periods);
    EveryGuessIsChecked(a, password, MAX_ATTEMPTS + periods, periods * LOCK_DURATION);
  }
}
