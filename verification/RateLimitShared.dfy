/**
Requests that share a member. A member is a clock reading and a middleware instance, so several requests can fall into
one; the limiter counts members and the client counts requests. How many requests does a window really admit?
*/
module RateLimitShared {
  import opened RateLimit

  /** How often this request, that is this member, occurs. */
  function Times(requests: seq<Request>, r: Request): nat {
    if requests == [] then 0
    else Times(requests[..|requests| - 1], r) + if requests[|requests| - 1] == r then 1 else 0
  }

  /** No member is shared by more than `c` requests. */
  ghost predicate Shares(requests: seq<Request>, c: nat) {
    forall r :: Times(requests, r) <= c
  }

  /** Admitted requests in the minute that ends at `upTo`, counted as requests. */
  function AdmittedIn(requests: seq<Request>, limit: nat, upTo: int): nat {
    if requests == [] then 0
    else
      var n := |requests| - 1;
      AdmittedIn(requests[..n], limit, upTo)
      + if IsAdmitted(requests, limit, n) && upTo - WINDOW < requests[n].at <= upTo then 1 else 0
  }

  // ---------- At most c for each member but the last ----------

  function Within(requests: seq<Request>, members: set<Member>): nat {
    if requests == [] then 0
    else
      var n := |requests| - 1;
      Within(requests[..n], members) + if requests[n].Entry() in members then 1 else 0
  }

  lemma {:induction false} WithinSplits(requests: seq<Request>, members: set<Member>, e: Member)
    requires e in members
    ensures Within(requests, members) == Within(requests, members - {e}) + Times(requests, Request(e.at, e.instance))
  {
    if requests != [] {
      WithinSplits(requests[..|requests| - 1], members, e);
    }
  }

  lemma {:induction false} WithinNothing(requests: seq<Request>)
    ensures Within(requests, {}) == 0
  {
    if requests != [] {
      WithinNothing(requests[..|requests| - 1]);
    }
  }

  lemma {:induction false} WithinAtMost(requests: seq<Request>, c: nat, members: set<Member>)
    requires Shares(requests, c)
    ensures Within(requests, members) <= c * |members|
    decreases |members|
  {
    if members == {} {
      WithinNothing(requests);
    } else {
      var e :| e in members;
      WithinAtMost(requests, c, members - {e});
      WithinSplits(requests, members, e);
      assert |members| == |members - {e}| + 1;
      assert c * |members| == c * |members - {e}| + c;
    }
  }

  /** Members that cover every admitted request of the window bound their number. */
  lemma {:induction false} CoveredCount(requests: seq<Request>, limit: nat, upTo: int, members: set<Member>)
    requires InWindow(Admitted(requests, limit), upTo) <= members
    ensures AdmittedIn(requests, limit, upTo) <= Within(requests, members)
  {
    if requests != [] {
      var n := |requests| - 1;
      assert InWindow(Admitted(requests[..n], limit), upTo) <= InWindow(Admitted(requests, limit), upTo);
      CoveredCount(requests[..n], limit, upTo, members);
      assert IsAdmitted(requests, limit, n) ==> requests[n].Entry() in Admitted(requests, limit);
    }
  }

  lemma SharesPrefix(requests: seq<Request>, c: nat)
    requires requests != [] && Shares(requests, c)
    ensures Shares(requests[..|requests| - 1], c)
  {
    var before := requests[..|requests| - 1];
    forall r ensures Times(before, r) <= c {
      assert Times(requests, r) <= c;
    }
  }

  /** What the limiter has counted when it admits a request of the window is all the window holds. */
  lemma CountedCover(requests: seq<Request>, limit: nat, upTo: int, now: nat)
    requires Ordered(requests) && now <= upTo && (requests != [] ==> requests[|requests| - 1].at <= now)
    ensures
      var live := Live(Seen(StateAfter(requests, limit), now).entries, now);
      InWindow(Admitted(requests, limit), upTo) <= live
  {
    if requests != [] {
      RunIsFaithful(requests, limit);
      ExpiryDropsNothingLive(requests, limit, now);
    }
  }

  /** When a request is admitted, at most `limit - 1` members of the window are before it. */
  lemma EarlierInWindow(requests: seq<Request>, c: nat, limit: nat, upTo: int, now: nat)
    requires limit > 0 && Ordered(requests) && Shares(requests, c)
    requires now <= upTo && (requests != [] ==> requests[|requests| - 1].at <= now)
    requires Admits(StateAfter(requests, limit), now, limit)
    ensures AdmittedIn(requests, limit, upTo) <= c * (limit - 1)
  {
    var live := Live(Seen(StateAfter(requests, limit), now).entries, now);
    CountedCover(requests, limit, upTo, now);
    CoveredCount(requests, limit, upTo, live);
    WithinAtMost(requests, c, live);
    Grows(c, |live|, limit - 1);
  }

  /** With up to `c` requests per member a window admits at most `c * (limit - 1) + 1` of them. */
  lemma {:induction false} SharedBound(requests: seq<Request>, c: nat, limit: nat, upTo: int)
    requires limit > 0 && Ordered(requests) && Shares(requests, c)
    ensures AdmittedIn(requests, limit, upTo) <= c * (limit - 1) + 1
  {
    if requests != [] {
      var n := |requests| - 1;
      SharesPrefix(requests, c);
      SharedBound(requests[..n], c, limit, upTo);
      if IsAdmitted(requests, limit, n) && upTo - WINDOW < requests[n].at <= upTo {
        EarlierInWindow(requests[..n], c, limit, upTo, requests[n].at);
      }
    }
  }

  lemma Grows(c: nat, a: nat, b: nat)
    requires a <= b
    ensures c * a <= c * b
  {
  }

  // ---------- A window that admits that many ----------

  /** `n` requests at time 0: each instance sends `c` of them, one instance after the other. */
  function Burst(n: nat, c: nat): seq<Request>
    requires c > 0
  {
    seq(n, j requires 0 <= j < n => Request(0, j / c))
  }

  function Below(k: nat): set<Member> {
    set i: nat | 0 <= i < k :: Member(0, i)
  }

  lemma {:induction false} BelowSize(k: nat)
    ensures |Below(k)| == k
  {
    if k > 0 {
      BelowSize(k - 1);
      assert Below(k) == Below(k - 1) + {Member(0, k - 1)};
    } else {
      assert Below(0) == {};
    }
  }

  /** The instances that have sent something. */
  function Senders(n: nat, c: nat): nat
    requires c > 0
  {
    if n == 0 then 0 else (n - 1) / c + 1
  }

  lemma OneMoreSender(n: nat, c: nat)
    requires c > 0
    ensures n / c < Senders(n + 1, c) && Senders(n, c) <= Senders(n + 1, c)
  {
    if n > 0 {
      Quotients(n - 1, n, c);
    }
  }

  lemma Quotients(a: nat, b: nat, c: nat)
    requires a <= b && c > 0
    ensures a / c <= b / c
  {
    var p, q := a / c, b / c;
    assert c * p <= a && b < c * (q + 1);
    if q < p {
      Grows(c, q + 1, p);
    }
  }

  /** Before the last request of the burst there is room. */
  lemma RoomLeft(n: nat, c: nat, limit: nat)
    requires c > 0 && limit > 0 && n <= c * (limit - 1)
    ensures Senders(n, c) < limit
  {
    if n > 0 {
      var q := (n - 1) / c;
      assert c * q <= n - 1;
      if limit <= q + 1 {
        Grows(c, limit - 1, q);
      }
    }
  }

  /** Every request of the burst is admitted. */
  lemma {:induction false} BurstAdmitted(n: nat, c: nat, limit: nat)
    requires c > 0 && limit > 0 && n <= c * (limit - 1) + 1
    ensures StateAfter(Burst(n, c), limit).entries <= Below(Senders(n, c))
    ensures AdmittedIn(Burst(n, c), limit, 0) == n
  {
    if n > 0 {
      var before := Burst(n - 1, c);
      BurstAdmitted(n - 1, c, limit);
      assert Burst(n, c)[..n - 1] == before;
      var z := StateAfter(before, limit);
      BelowSize(Senders(n - 1, c));
      Smaller(Live(Seen(z, 0).entries, 0), Below(Senders(n - 1, c)));
      RoomLeft(n - 1, c, limit);
      OneMoreSender(n - 1, c);
      assert IsAdmitted(Burst(n, c), limit, n - 1);
    }
  }

  /** Instance `i` sends those of the first `n` requests that are its turn. */
  lemma {:induction false} BurstTimes(n: nat, c: nat, i: nat)
    requires c > 0
    ensures Times(Burst(n, c), Request(0, i)) == if n <= i * c then 0 else if n <= i * c + c then n - i * c else c
  {
    if n > 0 {
      BurstTimes(n - 1, c, i);
      assert Burst(n, c)[..n - 1] == Burst(n - 1, c);
      InTurn(n - 1, c, i);
    }
  }

  lemma InTurn(j: nat, c: nat, i: nat)
    requires c > 0
    ensures j / c == i <==> i * c <= j < i * c + c
  {
    var q := j / c;
    assert q * c <= j < q * c + c;
    if q < i {
      Grows(c, q + 1, i);
    } else if i < q {
      Grows(c, i + 1, q);
    }
  }

  lemma {:induction false} NeverSent(n: nat, c: nat, r: Request)
    requires c > 0 && r.at != 0
    ensures Times(Burst(n, c), r) == 0
  {
    if n > 0 {
      NeverSent(n - 1, c, r);
      assert Burst(n, c)[..n - 1] == Burst(n - 1, c);
    }
  }

  /** The bound is reached: `limit - 1` members sent `c` times each, and one more. */
  lemma SharedBoundIsTight(c: nat, limit: nat) returns (requests: seq<Request>)
    requires c > 0 && limit > 0
    ensures Ordered(requests) && Shares(requests, c)
    ensures AdmittedIn(requests, limit, 0) == c * (limit - 1) + 1
  {
    var n := c * (limit - 1) + 1;
    requests := Burst(n, c);
    BurstAdmitted(n, c, limit);
    forall r ensures Times(requests, r) <= c {
      if r.at == 0 {
        BurstTimes(n, c, r.instance);
      } else {
        NeverSent(n, c, r);
      }
    }
  }

  // ---------- When the limit bounds requests ----------

  /** The limit holds for the requests of every window of every trace with up to `c` requests per member. */
  ghost predicate LimitHolds(c: nat, limit: nat) {
    forall requests, upTo :: Ordered(requests) && Shares(requests, c) ==> AdmittedIn(requests, limit, upTo) <= limit
  }

  lemma {:induction false} NothingAdmitted(requests: seq<Request>, upTo: int)
    ensures AdmittedIn(requests, 0, upTo) == 0
  {
    if requests != [] {
      NothingAdmitted(requests[..|requests| - 1], upTo);
    }
  }

  lemma BoundWithinLimit(c: nat, limit: nat)
    requires limit > 0
    ensures c * (limit - 1) + 1 <= limit <==> c <= 1 || limit <= 1
  {
    if c > 1 && limit > 1 {
      assert (c - 1) * (limit - 1) > 0;
      assert c * (limit - 1) == (c - 1) * (limit - 1) + (limit - 1);
    }
  }

  /** The limiter keeps its limit iff no two requests can share a member, or the limit is at most one. */
  lemma LimitHoldsIff(c: nat, limit: nat)
    ensures LimitHolds(c, limit) <==> c <= 1 || limit <= 1
  {
    if limit > 0 {
      BoundWithinLimit(c, limit);
      if c > 0 {
        var requests := SharedBoundIsTight(c, limit);
      }
    }
    forall requests, upTo | Ordered(requests) && Shares(requests, c) && (c <= 1 || limit <= 1)
      ensures AdmittedIn(requests, limit, upTo) <= limit
    {
      if limit > 0 {
        SharedBound(requests, c, limit, upTo);
      } else {
        NothingAdmitted(requests, upTo);
      }
    }
  }
}
