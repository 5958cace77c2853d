/** Rotation of service account secrets, and what the secret history rules out over whole runs. */
module SecretRotation {
  import opened Wrappers
  import opened PasswordPolicy

  type Instant = int

  const DAY: int := 86_400_000_000
  const MAX_GENERATIONS: nat := 3

  /** The slice `s[-n:]`: the last `n` elements, but the whole of `s` when `n` is zero. */
  function FromEnd<T>(s: seq<T>, n: int): seq<T> {
    if n > 0 then s[if n < |s| then |s| - n else 0..]
    else s[if -n < |s| then -n else |s|..]
  }

  predicate Reused(secret: string, history: seq<Hash>, size: int) {
    exists h :: h in FromEnd(history, size) && Verify(secret, h)
  }

  /** Position `p` of a history of `n` hashes is among those looked at: the last `size`, or all of them for size 0. */
  predicate IsRecent(n: nat, size: int, p: int) {
    0 <= p < n && if size > 0 then n - size <= p else -size <= p
  }

  /** The secret is none of the recent ones. */
  predicate Differs(secret: string, history: seq<Hash>, size: int) {
    forall p :: 0 <= p < |history| && IsRecent(|history|, size, p) ==> history[p].secret != secret
  }

  lemma ReusedIff(secret: string, history: seq<Hash>, size: int)
    ensures Reused(secret, history, size) <==> !Differs(secret, history, size)
  {
    var recent := FromEnd(history, size);
    var from := |history| - |recent|;
    assert recent == history[from..];
    assert forall p :: 0 <= p < |history| ==> (IsRecent(|history|, size, p) <==> from <= p);
    if h :| h in recent && Verify(secret, h) {
      var i :| 0 <= i < |recent| && recent[i] == h;
      assert history[from + i] == h;
    }
    if p :| 0 <= p < |history| && IsRecent(|history|, size, p) && history[p].secret == secret {
      assert recent[p - from] == history[p];
      assert history[p] in recent && Verify(secret, history[p]);
    }
  }

  function Remembered(history: seq<Hash>, hash: Hash, size: int): seq<Hash> {
    var longer := history + [hash];
    if |longer| > size then FromEnd(longer, size) else longer
  }

  predicate IsSuffix<T(==)>(s: seq<T>, whole: seq<T>) {
    |s| <= |whole| && s == whole[|whole| - |s|..]
  }

  /**
  How many of `n` hashes a history of this size keeps: all of them for size 0, and all but `-size` for a negative one.
  */
  function Kept(n: nat, size: int): nat {
    if size > 0 then (if n < size then n else size)
    else if -size < n then n + size
    else 0
  }

  /**
  The two clauses of `AddToHistory` determine its result; for sizes that are not negative the new hash comes last.
  */
  lemma RememberedIff(history: seq<Hash>, hash: Hash, size: int, updated: seq<Hash>)
    ensures updated == Remembered(history, hash, size) <==>
            IsSuffix(updated, history + [hash]) && |updated| == Kept(|history| + 1, size)
    ensures
      var r := Remembered(history, hash, size);
      size >= 0 ==> r != [] && r[|r| - 1] == hash
  {
    var longer := history + [hash];
    var r := Remembered(history, hash, size);
    assert |r| == Kept(|longer|, size) && r == longer[|longer| - |r|..];
  }

  class PasswordHistory {
    const size: int

    constructor (size: int)
      ensures this.size == size
    {
      this.size := size;
    }

    method CheckReuse(secret: string, history: seq<Hash>) returns (reused: bool)
      ensures reused <==> Reused(secret, history, size)
      ensures reused <==> exists p :: 0 <= p < |history| && IsRecent(|history|, size, p) && history[p].secret == secret
    {
      ReusedIff(secret, history, size);
      if history == [] {
        return false;
      }
      var recent := FromEnd(history, size);
      for i := 0 to |recent|
        invariant forall j :: 0 <= j < i ==> !Verify(secret, recent[j])
      {
        if Verify(secret, recent[i]) {
          return true;
        }
      }
      return false;
    }

    method AddToHistory(hash: Hash, history: seq<Hash>) returns (updated: seq<Hash>)
      ensures IsSuffix(updated, history + [hash])
      ensures |updated| == Kept(|history| + 1, size)
      ensures size >= 0 ==> updated != [] && updated[|updated| - 1] == hash
      ensures size == 0 ==> updated == history + [hash]
    {
      updated := history + [hash];
      if |updated| > size {
        updated := FromEnd(updated, size);
      }
    }
  }

  datatype Status = Active | Suspended | Expired | Deleted

  /** The secrets one call of the generator drew, and the salt of the new hash. */
  datatype Draw = Draw(candidates: seq<string>, salt: nat)

  /** The first of three candidates that is not in the recent history. */
  predicate IsChosen(draw: Draw, history: seq<Hash>, size: int, k: nat) {
    && k < MAX_GENERATIONS && k < |draw.candidates|
    && !Reused(draw.candidates[k], history, size)
    && forall j :: 0 <= j < k ==> Reused(draw.candidates[j], history, size)
  }

  datatype RotationError = NoUniqueSecret | CommitFailed

  class ServiceAccount {
    var secretHash: Hash
    /** A nullable column. */
    var secretHistory: Option<seq<Hash>>
    var secretChangedAt: Instant
    var secretExpiresAt: Instant
    var status: Status

    constructor (secretHash: Hash, now: Instant)
      ensures this.secretHash == secretHash && History() == [] && status == Active
    {
      this.secretHash, secretHistory := secretHash, Some([]);
      secretChangedAt, secretExpiresAt, status := now, now + 90 * DAY, Active;
    }

    function History(): seq<Hash>
      reads this
    {
      if secretHistory.Some? then secretHistory.value else []
    }

    function Secrets(): Credentials
      reads this
    {
      Credentials(secretHash, History())
    }

    /** A failed rotation changes nothing; a successful one also revives an expired account. */
    method RotateSecret(history: PasswordHistory, draw: Draw, now: Instant, expiryDays: int, commitFails: bool)
      returns (result: Result<string, RotationError>)
      requires |draw.candidates| == MAX_GENERATIONS
      modifies this
      ensures result == Err(NoUniqueSecret) <==>
              forall k :: 0 <= k < MAX_GENERATIONS ==> Reused(draw.candidates[k], old(History()), history.size)
      ensures result.Ok? <==>
              !commitFails && exists k :: 0 <= k < 3 && Differs(draw.candidates[k], old(History()), history.size)
      ensures result.Ok? ==>
              exists k :: 0 <= k < 3 && result.value == draw.candidates[k]
                && Differs(draw.candidates[k], old(History()), history.size)
                && forall j :: 0 <= j < k ==> !Differs(draw.candidates[j], old(History()), history.size)
      ensures result == Err(CommitFailed) <==> commitFails && result != Err(NoUniqueSecret)
      ensures result.Ok? ==>
                && (exists k: nat ::
                      IsChosen(draw, old(History()), history.size, k) && result.value == draw.candidates[k])
                && secretHash == Hash(result.value, draw.salt)
                && History() == Remembered(old(History()), old(secretHash), history.size)
                && secretChangedAt == now && secretExpiresAt == now + expiryDays * DAY
                && status == if old(status) == Expired then Active else old(status)
      ensures result.Err? ==> unchanged(this)
      ensures Secrets() == Next(old(Secrets()), Rotation(draw, commitFails), history.size)
    {
      var current := History();
      forall k | 0 <= k < MAX_GENERATIONS
        ensures Reused(draw.candidates[k], current, history.size) <==>
                !Differs(draw.candidates[k], current, history.size)
      {
        ReusedIff(draw.candidates[k], current, history.size);
      }
      var attempt := 0;
      var chosen: Option<string> := None;
      while attempt < MAX_GENERATIONS && chosen.None?
        modifies {}
        invariant 0 <= attempt <= MAX_GENERATIONS
        invariant chosen.None? ==> forall j :: 0 <= j < attempt ==> Reused(draw.candidates[j], current, history.size)
        invariant chosen.Some? ==>
                    0 < attempt && chosen.value == draw.candidates[attempt - 1]
                    && IsChosen(draw, current, history.size, attempt - 1)
      {
        var reused := history.CheckReuse(draw.candidates[attempt], current);
        if !reused {
          chosen := Some(draw.candidates[attempt]);
        }
        attempt := attempt + 1;
      }
      if chosen.None? {
        NoneChosen(draw, current, history.size);
        return Err(NoUniqueSecret);
      }
      ChosenIs(draw, current, history.size, attempt - 1);
      if commitFails {
        return Err(CommitFailed);
      }
      var updated := history.AddToHistory(secretHash, current);
      RememberedIff(current, secretHash, history.size, updated);
      secretHash := Hash(chosen.value, draw.salt);
      secretHistory := Some(updated);
      secretChangedAt := now;
      secretExpiresAt := now + expiryDays * DAY;
      if status == Expired {
        status := Active;
      }
      return Ok(chosen.value);
    }
  }

  // ---------- Runs ----------

  datatype Credentials = Credentials(hash: Hash, history: seq<Hash>)

  datatype Rotation = Rotation(draw: Draw, commitFails: bool)

  function Chosen(draw: Draw, history: seq<Hash>, size: int, k: nat): Option<string>
    decreases MAX_GENERATIONS - k
  {
    if k >= MAX_GENERATIONS || k >= |draw.candidates| then None
    else if Reused(draw.candidates[k], history, size) then Chosen(draw, history, size, k + 1)
    else Some(draw.candidates[k])
  }

  lemma ChosenIs(draw: Draw, history: seq<Hash>, size: int, k: nat)
    requires IsChosen(draw, history, size, k)
    ensures Chosen(draw, history, size, 0) == Some(draw.candidates[k])
  {
  }

  lemma NoneChosen(draw: Draw, history: seq<Hash>, size: int)
    requires |draw.candidates| == MAX_GENERATIONS
    requires forall j :: 0 <= j < MAX_GENERATIONS ==> Reused(draw.candidates[j], history, size)
    ensures Chosen(draw, history, size, 0) == None
  {
  }

  lemma {:induction false} ChosenIsFresh(draw: Draw, history: seq<Hash>, size: int, k: nat)
    requires Chosen(draw, history, size, k).Some?
    ensures !Reused(Chosen(draw, history, size, k).value, history, size)
    decreases MAX_GENERATIONS - k
  {
    if Reused(draw.candidates[k], history, size) {
      ChosenIsFresh(draw, history, size, k + 1);
    }
  }

  predicate Succeeds(c: Credentials, r: Rotation, size: int) {
    Chosen(r.draw, c.history, size, 0).Some? && !r.commitFails
  }

  function Next(c: Credentials, r: Rotation, size: int): Credentials {
    if Succeeds(c, r, size)
    then Credentials(Hash(Chosen(r.draw, c.history, size, 0).value, r.draw.salt), Remembered(c.history, c.hash, size))
    else c
  }

  function After(c: Credentials, rotations: seq<Rotation>, size: int): Credentials {
    if rotations == [] then c
    else Next(After(c, rotations[..|rotations| - 1], size), rotations[|rotations| - 1], size)
  }

  function ReplacedBy(c: Credentials, r: Rotation, size: int): seq<Hash> {
    if Succeeds(c, r, size) then [c.hash] else []
  }

  /** The hashes the successful rotations replaced, oldest first. */
  function Replaced(c: Credentials, rotations: seq<Rotation>, size: int): seq<Hash> {
    if rotations == [] then []
    else
      var n := |rotations| - 1;
      var before := After(c, rotations[..n], size);
      Replaced(c, rotations[..n], size) + ReplacedBy(before, rotations[n], size)
  }

  lemma RotationAppends(c: Credentials, all: seq<Hash>, r: Rotation, size: int)
    requires size >= 1 && c.history == FromEnd(all, size)
    ensures Next(c, r, size).history == FromEnd(all + ReplacedBy(c, r, size), size)
  {
  }

  /**
  From a history no longer than its size, the history after any run is exactly the last `size` of the hashes
  remembered and replaced, in order.
  */
  lemma {:induction false} HistoryIsLastReplaced(c: Credentials, rotations: seq<Rotation>, size: int)
    requires size >= 1 && |c.history| <= size
    ensures After(c, rotations, size).history == FromEnd(c.history + Replaced(c, rotations, size), size)
  {
    if rotations == [] {
      assert c.history + [] == c.history;
    } else {
      var n := |rotations| - 1;
      HistoryIsLastReplaced(c, rotations[..n], size);
      var before := After(c, rotations[..n], size);
      var all := c.history + Replaced(c, rotations[..n], size);
      RotationAppends(before, all, rotations[n], size);
      assert c.history + Replaced(c, rotations, size) == all + ReplacedBy(before, rotations[n], size);
    }
  }

  /** From an empty history: the last min(n, size) of the n replaced hashes. */
  lemma {:induction false} HistoryFromEmpty(hash: Hash, rotations: seq<Rotation>, size: int)
    requires size >= 1
    ensures var c := Credentials(hash, []);
            var replaced := Replaced(c, rotations, size);
            var kept := if |replaced| < size then |replaced| else size;
            After(c, rotations, size).history == replaced[|replaced| - kept..]
  {
    var c := Credentials(hash, []);
    HistoryIsLastReplaced(c, rotations, size);
    assert [] + Replaced(c, rotations, size) == Replaced(c, rotations, size);
  }

  /** Every hash that was current during the run, in order. */
  function Timeline(c: Credentials, rotations: seq<Rotation>, size: int): seq<Hash> {
    Replaced(c, rotations, size) + [After(c, rotations, size).hash]
  }

  lemma RecentIsRemembered(hash: Hash, rotations: seq<Rotation>, size: int, j: nat)
    requires size >= 1
    requires j < |Replaced(Credentials(hash, []), rotations, size)| <= j + size
    ensures Replaced(Credentials(hash, []), rotations, size)[j]
            in FromEnd(After(Credentials(hash, []), rotations, size).history, size)
  {
    HistoryFromEmpty(hash, rotations, size);
    var replaced := Replaced(Credentials(hash, []), rotations, size);
    var kept := if |replaced| < size then |replaced| else size;
    assert replaced[|replaced| - kept..][j - (|replaced| - kept)] == replaced[j];
  }

  /**
  No recent reuse over any run: the secret number `i` differs from the `size` secrets before its predecessor. Its
  predecessor, which is the secret in force at the check, is not among them.
  */
  lemma {:induction false} NoRecentReuse(hash: Hash, rotations: seq<Rotation>, size: int, i: nat, j: nat)
    requires size >= 1
    requires i < |Timeline(Credentials(hash, []), rotations, size)| && i - 1 - size <= j <= i - 2
    ensures var t := Timeline(Credentials(hash, []), rotations, size); t[i].secret != t[j].secret
  {
    var c := Credentials(hash, []);
    if rotations != [] {
      var n := |rotations| - 1;
      var earlier := rotations[..n];
      var before := After(c, earlier, size);
      var t := Timeline(c, rotations, size);
      if !Succeeds(before, rotations[n], size) {
        assert t == Timeline(c, earlier, size);
        NoRecentReuse(hash, earlier, size, i, j);
      } else {
        assert t == Timeline(c, earlier, size) + [After(c, rotations, size).hash];
        if i < |t| - 1 {
          NoRecentReuse(hash, earlier, size, i, j);
        } else {
          RecentIsRemembered(hash, earlier, size, j);
          ChosenIsFresh(rotations[n].draw, before.history, size, 0);
          assert t[j] == Replaced(c, earlier, size)[j];
        }
      }
    }
  }

  // ---------- Fresh secrets are accepted ----------

  /** Every secret the account has had: those remembered at the start, the first one, and each successor. */
  function Had(c: Credentials, rotations: seq<Rotation>, size: int): set<string> {
    (if rotations == [] then set h | h in c.history :: h.secret else Had(c, rotations[..|rotations| - 1], size))
    + {After(c, rotations, size).hash.secret}
  }

  /** Each rotation draws some secret that the account has not had, and its commit goes through. */
  predicate AllOfferFresh(c: Credentials, rotations: seq<Rotation>, size: int) {
    forall n :: 0 <= n < |rotations| ==>
      && !rotations[n].commitFails
      && exists k :: 0 <= k < 3 && k < |rotations[n].draw.candidates|
                     && rotations[n].draw.candidates[k] !in Had(c, rotations[..n], size)
  }

  lemma {:induction false} HistoryWasHad(c: Credentials, rotations: seq<Rotation>, size: int)
    ensures var end := After(c, rotations, size); forall h :: h in end.history ==> h.secret in Had(c, rotations, size)
  {
    if rotations != [] {
      var n := |rotations| - 1;
      HistoryWasHad(c, rotations[..n], size);
      var before := After(c, rotations[..n], size);
      assert forall h :: h in Remembered(before.history, before.hash, size) ==> h in before.history + [before.hash];
    }
  }

  lemma {:induction false} SomeIsChosen(draw: Draw, history: seq<Hash>, size: int, from: nat, k: nat)
    requires from <= k < 3 && k < |draw.candidates| && Differs(draw.candidates[k], history, size)
    ensures Chosen(draw, history, size, from).Some?
    decreases k - from
  {
    ReusedIff(draw.candidates[k], history, size);
    if from < k {
      SomeIsChosen(draw, history, size, from + 1, k);
    }
  }

  /** If each rotation is offered a secret that the account has not had, and no commit fails, every one succeeds. */
  lemma {:induction false} FreshRotationsSucceed(c: Credentials, rotations: seq<Rotation>, size: int)
    requires AllOfferFresh(c, rotations, size)
    ensures |Replaced(c, rotations, size)| == |rotations|
  {
    if rotations != [] {
      var n := |rotations| - 1;
      forall m | 0 <= m < n ensures rotations[..n][m] == rotations[m] && rotations[..n][..m] == rotations[..m] {
      }
      FreshRotationsSucceed(c, rotations[..n], size);
      HistoryWasHad(c, rotations[..n], size);
      var before, draw := After(c, rotations[..n], size), rotations[n].draw;
      var k :| 0 <= k < 3 && k < |draw.candidates| && draw.candidates[k] !in Had(c, rotations[..n], size);
      forall p | 0 <= p < |before.history| ensures before.history[p].secret != draw.candidates[k] {
        assert before.history[p] in before.history;
      }
      SomeIsChosen(draw, before.history, size, 0, k);
    }
  }

  /** With a configured size of zero the slice is the whole list: nothing is ever forgotten. */
  lemma {:induction false} SizeZeroForgetsNothing(c: Credentials, rotations: seq<Rotation>)
    ensures After(c, rotations, 0).history == c.history + Replaced(c, rotations, 0)
  {
    if rotations != [] {
      SizeZeroForgetsNothing(c, rotations[..|rotations| - 1]);
    }
  }
}
