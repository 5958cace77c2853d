/**
The sliding-window rate limiter: one Redis sorted set per client, one request at a time.

A member is the request time and the middleware instance, and its score is its time. One tick is a microsecond.
*/
module RateLimit {
  import opened Wrappers

  type Ticks = nat

  const SECOND: nat := 1_000_000
  const WINDOW_SECONDS: nat := 60
  const WINDOW: nat := WINDOW_SECONDS * SECOND
  const KEY_TTL: nat := 2 * WINDOW

  datatype Member = Member(at: Ticks, instance: nat)

  datatype Request = Request(at: Ticks, instance: nat) {
    function Entry(): Member {
      Member(at, instance)
    }
  }

  /** The sorted set and the expiry of its key; a key that was never written has no expiry. */
  datatype Zset = Zset(entries: set<Member>, expires: Option<Ticks>)

  const EMPTY: Zset := Zset({}, None)

  datatype Outcome = Outcome(allowed: bool, count: nat, retryAfter: nat)

  /** What a command finds at `now`: an expired key is gone. */
  function Seen(z: Zset, now: Ticks): Zset {
    if z.expires.Some? && z.expires.value <= now then EMPTY else z
  }

  function Live(entries: set<Member>, now: Ticks): set<Member> {
    set e | e in entries && now < e.at + WINDOW
  }

  /** ZREMRANGEBYSCORE key 0 (now - window). Redis drops a key with its last member. */
  function Purged(z: Zset, now: Ticks): Zset {
    var kept := Live(z.entries, now);
    Zset(kept, if kept == {} then None else z.expires)
  }

  predicate Admits(z: Zset, now: Ticks, limit: nat) {
    |Live(Seen(z, now).entries, now)| < limit
  }

  predicate IsOldest(entries: set<Member>, e: Member) {
    e in entries && forall o :: o in entries ==> e.at <= o.at
  }

  /** The sorted set after one check. */
  function After(z: Zset, r: Request, limit: nat): Zset {
    var found := Purged(Seen(z, r.at), r.at);
    if Admits(z, r.at, limit) then Zset(found.entries + {r.Entry()}, Some(r.at + KEY_TTL)) else found
  }

  // ---------- The middleware ----------

  class RateLimiter {
    var zset: Zset

    constructor ()
      ensures zset == EMPTY
    {
      zset := EMPTY;
    }

    /** ZRANGE key 0 0: a member with the lowest score. */
    method Oldest(entries: set<Member>) returns (oldest: Option<Member>)
      ensures oldest.None? <==> entries == {}
      ensures oldest.Some? ==> IsOldest(entries, oldest.value)
    {
      var rest := entries;
      oldest := None;
      while rest != {}
        invariant rest <= entries
        invariant oldest.None? ==> rest == entries
        invariant oldest.Some? ==> oldest.value in entries && forall o :: o in entries - rest ==>
          oldest.value.at <= o.at
        decreases rest
      {
        var e :| e in rest;
        if oldest.None? || e.at < oldest.value.at {
          oldest := Some(e);
        }
        rest := rest - {e};
      }
    }

    /**
    A denied client is told the first whole number of seconds after which the oldest entry has left the window: at
    that time it is gone, and a second earlier it is not.
    */
    method CheckRateLimit(r: Request, limit: nat) returns (o: Outcome)
      modifies this
      ensures zset == After(old(zset), r, limit)
      ensures o.allowed <==> Admits(old(zset), r.at, limit)
      ensures o.allowed ==> o.retryAfter == 0 && o.count == |Live(Seen(old(zset), r.at).entries, r.at)| + 1
      ensures !o.allowed ==> o.count == |zset.entries|
      ensures var gone := old(zset).expires.Some? && old(zset).expires.value <= r.at;
              var recent := set e | e in old(zset).entries && !gone && r.at < e.at + 60_000_000;
              && (o.allowed <==> |recent| < limit)
              && zset.entries == (if o.allowed then recent + {Member(r.at, r.instance)} else recent)
              && (o.allowed ==> zset.expires == Some(r.at + 120_000_000))
      ensures !o.allowed && zset.entries == {} ==> o.retryAfter == WINDOW_SECONDS
      ensures !o.allowed ==> forall e :: IsOldest(zset.entries, e) ==>
        r.at + (o.retryAfter - 1) * SECOND <= e.at + WINDOW < r.at + o.retryAfter * SECOND
    {
      zset := Purged(Seen(zset, r.at), r.at);
      ghost var gone := old(zset).expires.Some? && old(zset).expires.value <= r.at;
      assert zset.entries == set e | e in old(zset).entries && !gone && r.at < e.at + 60_000_000;
      var count := |zset.entries|;
      if limit <= count {
        var oldest := Oldest(zset.entries);
        if oldest.Some? {
          return Outcome(false, count, (oldest.value.at + WINDOW - r.at) / SECOND + 1);
        }
        return Outcome(false, count, WINDOW_SECONDS);
      }
      zset := zset.(entries := zset.entries + {r.Entry()});
      zset := zset.(expires := Some(r.at + KEY_TTL));
      return Outcome(true, count + 1, 0);
    }
  }

  // ---------- Runs ----------

  function StateAfter(requests: seq<Request>, limit: nat): Zset {
    if requests == [] then EMPTY
    else
      var n := |requests| - 1;
      After(StateAfter(requests[..n], limit), requests[n], limit)
  }

  predicate IsAdmitted(requests: seq<Request>, limit: nat, k: nat)
    requires k < |requests|
  {
    Admits(StateAfter(requests[..k], limit), requests[k].at, limit)
  }

  function Admitted(requests: seq<Request>, limit: nat): set<Member> {
    if requests == [] then {}
    else
      var n := |requests| - 1;
      Admitted(requests[..n], limit)
      + if Admits(StateAfter(requests[..n], limit), requests[n].at, limit) then {requests[n].Entry()} else {}
  }

  /** Requests in time order. */
  predicate Ordered(requests: seq<Request>) {
    forall j, k :: 0 <= j < k < |requests| ==> requests[j].at <= requests[k].at
  }

  /** Requests in time order, no two of them with the same time on the same instance. */
  predicate Serial(requests: seq<Request>) {
    Ordered(requests) && forall j, k :: 0 <= j < k < |requests| ==> requests[j] != requests[k]
  }

  function InWindow(members: set<Member>, upTo: int): set<Member> {
    set e | e in members && upTo - 60_000_000 < e.at <= upTo
  }

  /** The sorted set holds exactly the admitted requests that are still in the window, and the key outlives them. */
  predicate Faithful(z: Zset, admitted: set<Member>, last: Ticks) {
    && z.entries == InWindow(admitted, last)
    && (forall e :: e in admitted ==> e.at <= last)
    && (z.entries != {} ==> z.expires.Some?)
    && (z.expires.Some? ==> forall e :: e in admitted ==> e.at + KEY_TTL <= z.expires.value)
  }

  lemma FirstIsFaithful(r: Request, limit: nat)
    ensures Faithful(After(EMPTY, r, limit), if Admits(EMPTY, r.at, limit) then {r.Entry()} else {}, r.at)
  {
    assert Live({}, r.at) == {};
  }

  lemma LiveAreRecent(z: Zset, admitted: set<Member>, last: Ticks, now: Ticks)
    requires Faithful(z, admitted, last) && last <= now
    ensures Live(Seen(z, now).entries, now) == InWindow(admitted, now)
  {
  }

  lemma RecentAndNew(admitted: set<Member>, e: Member)
    ensures InWindow(admitted + {e}, e.at) == InWindow(admitted, e.at) + {e}
  {
  }

  lemma StepIsFaithful(z: Zset, admitted: set<Member>, last: Ticks, r: Request, limit: nat)
    requires Faithful(z, admitted, last) && last <= r.at
    ensures var e := r.Entry();
            Faithful(After(z, r, limit), if Admits(z, r.at, limit) then admitted + {e} else admitted, r.at)
  {
    LiveAreRecent(z, admitted, last, r.at);
    RecentAndNew(admitted, r.Entry());
  }

  lemma {:induction false} RunIsFaithful(requests: seq<Request>, limit: nat)
    requires Ordered(requests) && requests != []
    ensures Faithful(StateAfter(requests, limit), Admitted(requests, limit), requests[|requests| - 1].at)
    ensures Serial(requests) ==> requests[|requests| - 1].Entry() !in Admitted(requests[..|requests| - 1], limit)
  {
    var n := |requests| - 1;
    if n > 0 {
      RunIsFaithful(requests[..n], limit);
      StepIsFaithful(StateAfter(requests[..n], limit), Admitted(requests[..n], limit), requests[n - 1].at, requests[n],
                     limit);
    } else {
      FirstIsFaithful(requests[0], limit);
    }
    if requests[n].Entry() in Admitted(requests[..n], limit) {
      CountedWasAdmitted(requests[..n], limit, requests[n].Entry());
    }
  }

  /** A request is admitted iff fewer than `limit` admitted ones lie in the minute that ends with it. */
  lemma AdmittedIff(requests: seq<Request>, limit: nat, k: nat)
    requires Ordered(requests) && k < |requests|
    ensures IsAdmitted(requests, limit, k)
            <==> |InWindow(Admitted(requests[..k], limit), requests[k].at)| < limit
  {
    var z := StateAfter(requests[..k], limit);
    if k > 0 {
      RunIsFaithful(requests[..k], limit);
      LiveAreRecent(z, Admitted(requests[..k], limit), requests[k - 1].at, requests[k].at);
    } else {
      assert InWindow({}, requests[k].at) == {} == Live({}, requests[k].at);
    }
  }

  /** The members counted are those of the admitted requests, each with its time and instance. */
  predicate AdmittedAs(requests: seq<Request>, limit: nat, e: Member) {
    exists k :: 0 <= k < |requests| && IsAdmitted(requests, limit, k) && requests[k] == Request(e.at, e.instance)
  }

  lemma {:induction false} CountedWasAdmitted(requests: seq<Request>, limit: nat, e: Member)
    requires e in Admitted(requests, limit)
    ensures AdmittedAs(requests, limit, e)
  {
    var n := |requests| - 1;
    if e in Admitted(requests[..n], limit) {
      CountedWasAdmitted(requests[..n], limit, e);
      var k :| 0 <= k < n && IsAdmitted(requests[..n], limit, k) && requests[..n][k] == Request(e.at, e.instance);
      assert requests[..n][..k] == requests[..k];
      assert IsAdmitted(requests, limit, k);
    } else {
      assert IsAdmitted(requests, limit, n);
    }
  }

  lemma {:induction false} AdmittedIsCounted(requests: seq<Request>, limit: nat, k: nat)
    requires k < |requests| && IsAdmitted(requests, limit, k)
    ensures Member(requests[k].at, requests[k].instance) in Admitted(requests, limit)
  {
    var n := |requests| - 1;
    if k < n {
      assert requests[..n][..k] == requests[..k];
      AdmittedIsCounted(requests[..n], limit, k);
    }
  }

  lemma Smaller<T>(a: set<T>, b: set<T>)
    requires a <= b
    ensures |a| <= |b|
  {
    assert b == a + (b - a);
  }

  /** The sorted set never outgrows the limit. */
  lemma {:induction false} StateWithinLimit(requests: seq<Request>, limit: nat)
    ensures |StateAfter(requests, limit).entries| <= limit
  {
    if requests != [] {
      var n := |requests| - 1;
      StateWithinLimit(requests[..n], limit);
      var z := StateAfter(requests[..n], limit);
      Smaller(Live(Seen(z, requests[n].at).entries, requests[n].at), z.entries);
    }
  }

  /**
  The sliding-window bound: for every serial trace and every `upTo`, at most `limit` requests were admitted in the
  half-open minute that ends at `upTo`. Requests and admitted members correspond one to one.
  */
  lemma {:induction false} SlidingWindowBound(requests: seq<Request>, limit: nat, upTo: int)
    requires Serial(requests)
    ensures |InWindow(Admitted(requests, limit), upTo)| <= limit
  {
    if requests == [] {
      assert InWindow(Admitted(requests, limit), upTo) == {};
    } else {
      var n := |requests| - 1;
      SlidingWindowBound(requests[..n], limit, upTo);
      var window := InWindow(Admitted(requests, limit), upTo);
      if requests[n].Entry() !in window {
        assert window == InWindow(Admitted(requests[..n], limit), upTo);
      } else {
        RunIsFaithful(requests, limit);
        StateWithinLimit(requests, limit);
        Smaller(window, StateAfter(requests, limit).entries);
      }
    }
  }

  /** The same run with keys that never expire. */
  function StateForever(requests: seq<Request>, limit: nat): Zset {
    if requests == [] then EMPTY
    else
      var n := |requests| - 1;
      After(StateForever(requests[..n], limit).(expires := None), requests[n], limit)
  }

  lemma SameAnswer(z: Zset, y: Zset, r: Request, limit: nat)
    requires z.entries == y.entries && y.expires.None?
    requires Live(Seen(z, r.at).entries, r.at) == Live(z.entries, r.at)
    ensures Admits(z, r.at, limit) <==> Admits(y, r.at, limit)
    ensures After(z, r, limit).entries == After(y, r, limit).entries
  {
  }

  lemma {:induction false} ExpiryDropsNothingLive(requests: seq<Request>, limit: nat, now: Ticks)
    requires Ordered(requests) && (requests != [] ==> requests[|requests| - 1].at <= now)
    ensures var z := StateAfter(requests, limit); Live(Seen(z, now).entries, now) == Live(z.entries, now)
  {
    if requests != [] {
      RunIsFaithful(requests, limit);
      ExpiredMeansEmpty(StateAfter(requests, limit), Admitted(requests, limit), requests[|requests| - 1].at, now);
    }
  }

  /** The expiry of the key drops only what the purge would drop: every answer is the same without it. */
  lemma {:induction false} KeyExpiryIsInvisible(requests: seq<Request>, limit: nat, next: Request)
    requires Ordered(requests) && (requests != [] ==> requests[|requests| - 1].at <= next.at)
    ensures StateAfter(requests, limit).entries == StateForever(requests, limit).entries
    ensures Admits(StateAfter(requests, limit), next.at, limit)
            <==> Admits(StateForever(requests, limit).(expires := None), next.at, limit)
  {
    if requests != [] {
      var n := |requests| - 1;
      KeyExpiryIsInvisible(requests[..n], limit, requests[n]);
      ExpiryDropsNothingLive(requests[..n], limit, requests[n].at);
      SameAnswer(StateAfter(requests[..n], limit), StateForever(requests[..n], limit).(expires := None), requests[n],
                 limit);
    }
    ExpiryDropsNothingLive(requests, limit, next.at);
    SameAnswer(StateAfter(requests, limit), StateForever(requests, limit).(expires := None), next, limit);
  }

  lemma ExpiredMeansEmpty(z: Zset, admitted: set<Member>, last: Ticks, now: Ticks)
    requires Faithful(z, admitted, last)
    ensures Live(Seen(z, now).entries, now) == Live(z.entries, now)
  {
  }

  /** Denied requests add nothing. */
  lemma {:induction false} DenialsOnlyPurge(requests: seq<Request>, limit: nat, d: nat)
    requires d <= |requests| && forall k :: d <= k < |requests| ==> !IsAdmitted(requests, limit, k)
    ensures StateAfter(requests, limit).entries <= StateAfter(requests[..d], limit).entries
  {
    var n := |requests| - 1;
    if d <= n {
      forall k | d <= k < n ensures !IsAdmitted(requests[..n], limit, k) {
        assert !IsAdmitted(requests, limit, k);
        assert requests[..n][..k] == requests[..k];
      }
      DenialsOnlyPurge(requests[..n], limit, d);
      assert requests[..n][..d] == requests[..d];
      assert !IsAdmitted(requests, limit, n);
    } else {
      assert requests[..d] == requests;
    }
  }

  /**
  `retry_after` keeps its promise: a client that was denied and comes back that many seconds later, with nobody
  admitted in between, is admitted. A limit of zero denies for ever.
  */
  lemma RetryAfterIsEnough(requests: seq<Request>, limit: nat, d: nat, retryAfter: nat, now: Ticks)
    requires d < |requests| && forall k :: d <= k < |requests| ==> !IsAdmitted(requests, limit, k)
    requires forall e :: IsOldest(StateAfter(requests[..d + 1], limit).entries, e) ==>
               e.at + WINDOW < requests[d].at + retryAfter * SECOND
    requires requests[d].at + retryAfter * SECOND <= now
    ensures Admits(StateAfter(requests, limit), now, limit) <==> limit > 0
  {
    var first := StateAfter(requests[..d + 1], limit);
    StateWithinLimit(requests[..d + 1], limit);
    DenialsOnlyPurge(requests, limit, d + 1);
    var z := StateAfter(requests, limit);
    var left := Live(Seen(z, now).entries, now);
    if first.entries == {} {
      assert left == {};
    } else {
      var e := OldestOf(first.entries);
      Smaller(left, first.entries - {e});
    }
  }

  lemma {:induction false} OldestOf(entries: set<Member>) returns (oldest: Member)
    requires entries != {}
    ensures IsOldest(entries, oldest)
    decreases |entries|
  {
    var e :| e in entries;
    if entries == {e} {
      return e;
    }
    var o := OldestOf(entries - {e});
    oldest := if e.at < o.at then e else o;
  }

  // ---------- Requests that share a member ----------

  function SameInstant(r: Request, n: nat): seq<Request> {
    seq(n, _ => r)
  }

  /**
  The request id is the clock and the id of the middleware object, so requests of one instance at one clock reading
  share one member: with a limit of at least two any number of them is admitted.
  */
  lemma {:induction false} SharedMemberIsNeverFull(r: Request, n: nat, limit: nat)
    requires limit >= 2
    ensures forall k :: 0 <= k < n ==> IsAdmitted(SameInstant(r, n), limit, k)
    ensures StateAfter(SameInstant(r, n), limit).entries <= {r.Entry()}
  {
    var requests := SameInstant(r, n);
    if n > 0 {
      SharedMemberIsNeverFull(r, n - 1, limit);
      assert requests[..n - 1] == SameInstant(r, n - 1);
      var z := StateAfter(requests[..n - 1], limit);
      Smaller(Live(Seen(z, r.at).entries, r.at), {r.Entry()});
      forall k | 0 <= k < n ensures IsAdmitted(requests, limit, k) {
        if k < n - 1 {
          assert IsAdmitted(SameInstant(r, n - 1), limit, k);
          assert SameInstant(r, n - 1)[..k] == requests[..k];
        }
      }
    }
  }
}
