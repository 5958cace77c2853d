/**
The rate limiter when requests of one client overlap: purge, count and add are separate Redis commands, and the
commands of different requests interleave.
*/
module RateLimitRace {
  import opened RateLimit

  type FlightId = nat

  datatype Phase = Purging | Counting | Adding

  /** A request between its first and its last command; the clock was read once, at the start. */
  datatype Flight = Flight(request: Request, phase: Phase)

  datatype State = State(entries: set<Member>, flights: map<FlightId, Flight>)

  datatype Step =
    | Begin(id: FlightId, request: Request)
    | Purge(id: FlightId)
    | Count(id: FlightId)
    | Add(id: FlightId)
    | Expire

  predicate InPhase(s: State, id: FlightId, phase: Phase) {
    id in s.flights && s.flights[id].phase == phase
  }

  predicate Enabled(s: State, step: Step) {
    match step
    case Begin(id, _) => id !in s.flights
    case Purge(id) => InPhase(s, id, Purging)
    case Count(id) => InPhase(s, id, Counting)
    case Add(id) => InPhase(s, id, Adding)
    case Expire => true
  }

  function Take(s: State, step: Step, limit: nat): State
    requires Enabled(s, step)
  {
    match step
    case Begin(id, request) => s.(flights := s.flights[id := Flight(request, Purging)])
    case Purge(id) =>
      var f := s.flights[id];
      State(Live(s.entries, f.request.at), s.flights[id := f.(phase := Counting)])
    case Count(id) =>
      if |s.entries| < limit then s.(flights := s.flights[id := s.flights[id].(phase := Adding)])
      else s.(flights := s.flights - {id})
    case Add(id) => State(s.entries + {s.flights[id].request.Entry()}, s.flights - {id})
    case Expire => s.(entries := {})
  }

  predicate IsRun(s: State, steps: seq<Step>, limit: nat)
    decreases |steps|
  {
    steps == [] || (Enabled(s, steps[0]) && IsRun(Take(s, steps[0], limit), steps[1..], limit))
  }

  function Run(s: State, steps: seq<Step>, limit: nat): State
    requires IsRun(s, steps, limit)
    decreases |steps|
  {
    if steps == [] then s else Run(Take(s, steps[0], limit), steps[1..], limit)
  }

  lemma First(s: State, step: Step, rest: seq<Step>, limit: nat)
    requires Enabled(s, step) && IsRun(Take(s, step, limit), rest, limit)
    ensures IsRun(s, [step] + rest, limit) && Run(s, [step] + rest, limit) == Run(Take(s, step, limit), rest, limit)
  {
    assert ([step] + rest)[1..] == rest;
  }

  /** A request that nobody disturbs does what one check does that is a single step, expired key included. */
  lemma UndisturbedIsSerial(s: State, id: FlightId, z: Zset, r: Request, limit: nat) returns (steps: seq<Step>)
    requires id !in s.flights && z.entries == s.entries
    ensures IsRun(s, steps, limit)
    ensures Run(s, steps, limit) == State(RateLimit.After(z, r, limit).entries, s.flights)
  {
    var gone := z.expires.Some? && z.expires.value <= r.at;
    var s0 := if gone then Take(s, Expire, limit) else s;
    var s1 := Take(s0, Begin(id, r), limit);
    var s2 := Take(s1, Purge(id), limit);
    var s3 := Take(s2, Count(id), limit);
    assert s0.entries == Seen(z, r.at).entries && s2.entries == Live(s0.entries, r.at);
    steps := [];
    if |s2.entries| < limit {
      steps := [Add(id)];
      assert Take(s3, Add(id), limit).flights == s.flights;
      First(s3, Add(id), [], limit);
    } else {
      assert s3.flights == s.flights;
    }
    First(s2, Count(id), steps, limit);
    First(s1, Purge(id), [Count(id)] + steps, limit);
    First(s0, Begin(id, r), [Purge(id)] + ([Count(id)] + steps), limit);
    steps := [Begin(id, r)] + ([Purge(id)] + ([Count(id)] + steps));
    if gone {
      First(s, Expire, steps, limit);
      steps := [Expire] + steps;
    }
  }

  /** Never more than `c` requests of the client in flight. */
  predicate AtMost(s: State, steps: seq<Step>, limit: nat, c: nat)
    requires IsRun(s, steps, limit)
    decreases |steps|
  {
    |s.flights| <= c && (steps == [] || AtMost(Take(s, steps[0], limit), steps[1..], limit, c))
  }

  /** Requests that have been counted and not been added yet. */
  function Owed(flights: map<FlightId, Flight>): set<FlightId> {
    set id | id in flights && flights[id].phase == Adding
  }

  /** What is in the set together with what is owed stays below the bound. */
  predicate Inv(s: State, limit: nat, c: nat) {
    || |s.entries| + |Owed(s.flights)| + 1 <= limit + c
    || (s.entries == {} && Owed(s.flights) == {})
  }

  lemma OwedFits(s: State, c: nat)
    requires |s.flights| <= c
    ensures |Owed(s.flights)| <= c
  {
    Smaller(Owed(s.flights), s.flights.Keys);
  }

  lemma CountKeepsInv(s: State, id: FlightId, limit: nat, c: nat)
    requires Inv(s, limit, c) && Enabled(s, Count(id)) && |s.flights| <= c
    ensures Inv(Take(s, Count(id), limit), limit, c)
  {
    var t := Take(s, Count(id), limit);
    if |s.entries| < limit {
      assert Owed(t.flights) == Owed(s.flights) + {id};
      assert t.flights.Keys == s.flights.Keys;
      OwedFits(t, c);
    } else {
      assert Owed(t.flights) == Owed(s.flights);
    }
  }

  lemma AddKeepsInv(s: State, id: FlightId, limit: nat, c: nat)
    requires Inv(s, limit, c) && Enabled(s, Add(id))
    ensures Inv(Take(s, Add(id), limit), limit, c)
  {
    var t := Take(s, Add(id), limit);
    assert id in Owed(s.flights);
    assert Owed(t.flights) == Owed(s.flights) - {id};
    assert |Owed(t.flights)| + 1 == |Owed(s.flights)|;
  }

  lemma PurgeKeepsInv(s: State, id: FlightId, limit: nat, c: nat)
    requires Inv(s, limit, c) && Enabled(s, Purge(id))
    ensures Inv(Take(s, Purge(id), limit), limit, c)
  {
    var t := Take(s, Purge(id), limit);
    assert Owed(t.flights) == Owed(s.flights);
    Smaller(t.entries, s.entries);
  }

  lemma StepKeepsInv(s: State, step: Step, limit: nat, c: nat)
    requires Inv(s, limit, c) && Enabled(s, step) && |s.flights| <= c
    ensures Inv(Take(s, step, limit), limit, c)
  {
    match step
    case Begin(id, request) =>
      assert Owed(s.flights[id := Flight(request, Purging)]) == Owed(s.flights);
    case Purge(id) => PurgeKeepsInv(s, id, limit, c);
    case Count(id) => CountKeepsInv(s, id, limit, c);
    case Add(id) => AddKeepsInv(s, id, limit, c);
    case Expire =>
  }

  lemma {:induction false} RunKeepsInv(s: State, steps: seq<Step>, limit: nat, c: nat)
    requires IsRun(s, steps, limit) && AtMost(s, steps, limit, c) && Inv(s, limit, c)
    ensures Inv(Run(s, steps, limit), limit, c)
    decreases |steps|
  {
    if steps != [] {
      StepKeepsInv(s, steps[0], limit, c);
      RunKeepsInv(Take(s, steps[0], limit), steps[1..], limit, c);
    }
  }

  const IDLE: State := State({}, map[])

  /**
  On every interleaving with at most `c` requests in flight the sorted set never exceeds `limit + c - 1` entries.
  */
  lemma {:induction false} InterleavedBound(steps: seq<Step>, limit: nat, c: nat)
    requires c > 0
    requires IsRun(IDLE, steps, limit) && AtMost(IDLE, steps, limit, c)
    ensures |Run(IDLE, steps, limit).entries| <= limit + c - 1
  {
    assert Owed(IDLE.flights) == {};
    RunKeepsInv(IDLE, steps, limit, c);
  }

  // ---------- The bound is tight ----------

  ghost predicate Reaches(s: State, limit: nat, c: nat) {
    exists steps :: IsRun(IDLE, steps, limit) && AtMost(IDLE, steps, limit, c) && Run(IDLE, steps, limit) == s
  }

  lemma {:induction false} Append(s: State, steps: seq<Step>, step: Step, limit: nat, c: nat)
    requires IsRun(s, steps, limit) && AtMost(s, steps, limit, c)
    requires Enabled(Run(s, steps, limit), step) && |Take(Run(s, steps, limit), step, limit).flights| <= c
    ensures IsRun(s, steps + [step], limit) && AtMost(s, steps + [step], limit, c)
    ensures Run(s, steps + [step], limit) == Take(Run(s, steps, limit), step, limit)
    decreases |steps|
  {
    if steps == [] {
      assert (steps + [step])[1..] == [];
    } else {
      assert (steps + [step])[1..] == steps[1..] + [step];
      Append(Take(s, steps[0], limit), steps[1..], step, limit, c);
    }
  }

  lemma Then(s: State, step: Step, t: State, limit: nat, c: nat)
    requires Reaches(s, limit, c) && Enabled(s, step) && Take(s, step, limit) == t && |t.flights| <= c
    ensures Reaches(t, limit, c)
  {
    var steps :| IsRun(IDLE, steps, limit) && AtMost(IDLE, steps, limit, c) && Run(IDLE, steps, limit) == s;
    Append(IDLE, steps, step, limit, c);
  }

  /** `n` members at time 0, of the first `n` instances. */
  predicate Filled(entries: set<Member>, n: nat) {
    |entries| == n && forall e :: e in entries ==> e.at == 0 && e.instance < n
  }

  /** Requests `first` to `last - 1`, all counted and none added. */
  function Waiting(first: nat, last: nat): map<FlightId, Flight> {
    map id | first <= id < last :: Flight(Request(0, id), Adding)
  }

  lemma {:induction false} WaitingCount(first: nat, last: nat)
    requires first <= last
    ensures |Waiting(first, last)| == last - first
  {
    if first < last {
      WaitingCount(first, last - 1);
      assert Waiting(first, last) == Waiting(first, last - 1)[last - 1 := Flight(Request(0, last - 1), Adding)];
    }
  }

  lemma Updated(flights: map<FlightId, Flight>, id: FlightId, f: Flight)
    ensures |flights[id := f]| == |flights| + if id in flights then 0 else 1
  {
  }

  /** One more request gets past its count. */
  lemma Counted(s: State, id: FlightId, limit: nat, c: nat)
    requires Reaches(s, limit, c)
    requires id !in s.flights && |s.flights| < c && |s.entries| < limit
    requires forall e :: e in s.entries ==> e.at == 0
    ensures Reaches(s.(flights := s.flights[id := Flight(Request(0, id), Adding)]), limit, c)
  {
    var f := Flight(Request(0, id), Purging);
    var t := s.(flights := s.flights[id := f]);
    Updated(s.flights, id, f);
    Then(s, Begin(id, f.request), t, limit, c);
    var u := s.(flights := s.flights[id := f.(phase := Counting)]);
    assert Live(s.entries, 0) == s.entries;
    assert t.flights[id := f.(phase := Counting)] == u.flights;
    Updated(s.flights, id, f.(phase := Counting));
    Then(t, Purge(id), u, limit, c);
    var v := s.(flights := s.flights[id := f.(phase := Adding)]);
    assert u.flights[id := f.(phase := Adding)] == v.flights;
    Updated(s.flights, id, f.(phase := Adding));
    Then(u, Count(id), v, limit, c);
  }

  lemma OneLessWaiting(id: nat, last: nat)
    requires id < last
    ensures id in Waiting(id, last) && Waiting(id, last)[id] == Flight(Request(0, id), Adding)
    ensures Waiting(id, last) - {id} == Waiting(id + 1, last)
  {
  }

  lemma OneMoreWaiting(first: nat, last: nat)
    requires first <= last
    ensures Waiting(first, last)[last := Flight(Request(0, last), Adding)] == Waiting(first, last + 1)
    ensures last !in Waiting(first, last)
  {
  }

  lemma OneMoreFilled(entries: set<Member>, id: nat)
    requires Filled(entries, id)
    ensures Filled(entries + {Member(0, id)}, id + 1)
  {
    assert Member(0, id) !in entries;
  }

  lemma AddOne(entries: set<Member>, id: nat, last: nat, limit: nat, c: nat) returns (more: set<Member>)
    requires id < last <= id + c && Filled(entries, id)
    requires Reaches(State(entries, Waiting(id, last)), limit, c)
    ensures Filled(more, id + 1) && Reaches(State(more, Waiting(id + 1, last)), limit, c)
  {
    more := entries + {Member(0, id)};
    OneMoreFilled(entries, id);
    OneLessWaiting(id, last);
    WaitingCount(id + 1, last);
    Then(State(entries, Waiting(id, last)), Add(id), State(more, Waiting(id + 1, last)), limit, c);
  }

  /** One after the other, `n` requests fill the set up to the limit. */
  lemma {:induction false} Fill(n: nat, limit: nat, c: nat) returns (entries: set<Member>)
    requires c > 0 && n <= limit
    ensures Filled(entries, n) && Reaches(State(entries, map[]), limit, c)
  {
    if n == 0 {
      entries := {};
      assert IsRun(IDLE, [], limit) && AtMost(IDLE, [], limit, c);
    } else {
      var before := Fill(n - 1, limit, c);
      assert Waiting(n - 1, n - 1) == map[];
      CountOne(before, n - 1, n - 1, limit, c);
      entries := AddOne(before, n - 1, n, limit, c);
      assert Waiting(n, n) == map[];
    }
  }

  lemma CountOne(entries: set<Member>, first: nat, last: nat, limit: nat, c: nat)
    requires first <= last < first + c && |entries| < limit && Filled(entries, first)
    requires Reaches(State(entries, Waiting(first, last)), limit, c)
    ensures Reaches(State(entries, Waiting(first, last + 1)), limit, c)
  {
    WaitingCount(first, last);
    OneMoreWaiting(first, last);
    Counted(State(entries, Waiting(first, last)), last, limit, c);
  }

  /** With one place left, `n` requests count before any of them adds. */
  lemma {:induction false} CountTogether(n: nat, limit: nat, c: nat) returns (entries: set<Member>)
    requires limit > 0 && n <= c && c > 0
    ensures Filled(entries, limit - 1)
    ensures Reaches(State(entries, Waiting(limit - 1, limit - 1 + n)), limit, c)
  {
    if n == 0 {
      entries := Fill(limit - 1, limit, c);
      assert Waiting(limit - 1, limit - 1) == map[];
    } else {
      entries := CountTogether(n - 1, limit, c);
      CountOne(entries, limit - 1, limit - 1 + (n - 1), limit, c);
      assert limit - 1 + (n - 1) + 1 == limit - 1 + n;
    }
  }

  lemma {:induction false} AddTogether(done: nat, limit: nat, c: nat) returns (entries: set<Member>)
    requires limit > 0 && done <= c && c > 0
    ensures Filled(entries, limit - 1 + done)
    ensures Reaches(State(entries, Waiting(limit - 1 + done, limit - 1 + c)), limit, c)
  {
    if done == 0 {
      entries := CountTogether(c, limit, c);
    } else {
      var before := AddTogether(done - 1, limit, c);
      entries := AddOne(before, limit - 1 + done - 1, limit - 1 + c, limit, c);
    }
  }

  /** The bound is reached: for every limit and every `c` there is an interleaving with exactly that many entries. */
  lemma BoundIsTight(limit: nat, c: nat) returns (steps: seq<Step>)
    requires limit > 0 && c > 0
    ensures IsRun(IDLE, steps, limit) && AtMost(IDLE, steps, limit, c)
    ensures |Run(IDLE, steps, limit).entries| == limit + c - 1
  {
    var entries := AddTogether(c, limit, c);
    var s := State(entries, Waiting(limit - 1 + c, limit - 1 + c));
    steps :| IsRun(IDLE, steps, limit) && AtMost(IDLE, steps, limit, c) && Run(IDLE, steps, limit) == s;
  }
}
