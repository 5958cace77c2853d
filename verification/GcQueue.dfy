/**
The cleanup queue under serial collector runs: every non-empty pick makes progress, two healthy runs clear an expired
file unless all its rows are out of reach, and a row that meets an unavailable element often enough keeps its file for
ever.
*/
module GcQueue {
  import opened Wrappers
  import opened FileRegistry
  import opened Cleanup
  import opened NoDataLoss

  // ---------- One pass over the picked rows ----------

  predicate InputFits(queue: seq<QueueItem>, input: RunInput) {
    && |input.picked| == |input.replies|
    && forall k :: 0 <= k < |input.picked| ==> input.picked[k] < |queue|
  }

  /** Rows that have not had their turn are untouched, and those that have were processed from their old value. */
  lemma {:induction false} ProcessFirstRow(p: Progress, elements: Elements, input: RunInput, n: nat, i: ItemId)
    requires InputFits(p.queue, input) && Distinct(input.picked) && n <= |input.picked| && i < |p.queue|
    ensures
      var q := ProcessFirst(p, elements, input, n).queue;
      && (i !in input.picked[..n] ==> q[i] == p.queue[i])
      && forall k :: 0 <= k < n && input.picked[k] == i ==>
           q[i] == Process(p.queue[i], elements, input.replies[k], input.queueNow)
  {
    if n > 0 {
      ProcessFirstRow(p, elements, input, n - 1, i);
      assert input.picked[..n] == input.picked[..n - 1] + [input.picked[n - 1]];
      if input.picked[n - 1] == i {
        assert i !in input.picked[..n - 1];
      }
    }
  }

  /** Each picked row either becomes processed or gains one retry; the retry limit is never exceeded. */
  lemma PickedRowAdvances(item: QueueItem, elements: Elements, reply: Reply, now: Time, maxRetry: nat)
    requires item.Eligible(now, maxRetry)
    ensures
      var after := Process(item, elements, reply, now);
      && (!after.Pending() || (after.Pending() && after.retryCount == item.retryCount + 1))
      && after.retryCount <= maxRetry
      && (after.Pending() <==> item.seId in elements && elements[item.seId] != Online)
      && (after.success == Some(true) && item.success != Some(true) ==>
            Reachable(elements, item.seId) && reply.Succeeded())
  {
  }

  // ---------- Termination ----------

  function Credit(item: QueueItem, maxRetry: nat): nat {
    if item.Pending() && item.retryCount < maxRetry then maxRetry - item.retryCount else 0
  }

  function Weight(queue: seq<QueueItem>, maxRetry: nat): nat {
    if queue == [] then 0 else Weight(queue[..|queue| - 1], maxRetry) + Credit(queue[|queue| - 1], maxRetry)
  }

  lemma {:induction false} WeightUpdate(queue: seq<QueueItem>, i: nat, item: QueueItem, maxRetry: nat)
    requires i < |queue|
    ensures Weight(queue[i := item], maxRetry) + Credit(queue[i], maxRetry)
         == Weight(queue, maxRetry) + Credit(item, maxRetry)
  {
    var n := |queue| - 1;
    if i == n {
      assert queue[i := item][..n] == queue[..n];
    } else {
      assert queue[i := item][..n] == queue[..n][i := item];
      WeightUpdate(queue[..n], i, item, maxRetry);
    }
  }

  /** One turn of an eligible row uses up at least one credit. */
  lemma TurnLowersWeight(queue: seq<QueueItem>, i: nat, elements: Elements, reply: Reply, now: Time, maxRetry: nat)
    requires i < |queue| && queue[i].Eligible(now, maxRetry)
    ensures Weight(queue[i := Process(queue[i], elements, reply, now)], maxRetry) + 1 <= Weight(queue, maxRetry)
  {
    PickedRowAdvances(queue[i], elements, reply, now, maxRetry);
    WeightUpdate(queue, i, Process(queue[i], elements, reply, now), maxRetry);
  }

  lemma {:induction false} PickLowersWeight(p: Progress, elements: Elements, input: RunInput, n: nat, maxRetry: nat)
    requires InputFits(p.queue, input) && Distinct(input.picked) && n <= |input.picked|
    requires forall k :: 0 <= k < |input.picked| ==> p.queue[input.picked[k]].Eligible(input.queueNow, maxRetry)
    ensures Weight(ProcessFirst(p, elements, input, n).queue, maxRetry) + n <= Weight(p.queue, maxRetry)
  {
    if n > 0 {
      PickLowersWeight(p, elements, input, n - 1, maxRetry);
      var q := ProcessFirst(p, elements, input, n - 1);
      var i := input.picked[n - 1];
      ProcessFirstRow(p, elements, input, n - 1, i);
      assert i !in input.picked[..n - 1];
      assert q.queue[i] == p.queue[i];
      TurnLowersWeight(q.queue, i, elements, input.replies[n - 1], input.queueNow, maxRetry);
    }
  }

  /** Queue-only runs: each round works off what its SELECT returned, and nobody adds rows. */
  ghost predicate Rounds(s: Settings, elements: seq<Elements>, states: seq<Progress>, inputs: seq<RunInput>) {
    && |states| == |inputs| + 1 && |elements| == |inputs|
    && forall r :: 0 <= r < |inputs| ==>
         && InputFits(states[r].queue, inputs[r])
         && IsPick(states[r].queue, inputs[r].picked, inputs[r].queueNow, s.maxRetry, s.batchSize)
         && states[r + 1] == ProcessFirst(states[r], elements[r], inputs[r], |inputs[r].picked|)
  }

  /** Without producers, the rows picked over a whole run number at most the retries left in the queue. */
  lemma {:induction false} QueueTerminates(s: Settings, elements: seq<Elements>, states: seq<Progress>,
                                           inputs: seq<RunInput>)
    requires Rounds(s, elements, states, inputs)
    requires forall r :: 0 <= r < |inputs| ==> inputs[r].picked != []
    ensures |inputs| + Weight(states[|inputs|].queue, s.maxRetry) <= Weight(states[0].queue, s.maxRetry)
    decreases |inputs|
  {
    if inputs != [] {
      var n := |inputs| - 1;
      assert Rounds(s, elements[..n], states[..n + 1], inputs[..n]);
      QueueTerminates(s, elements[..n], states[..n + 1], inputs[..n]);
      PickLowersWeight(states[n], elements[n], inputs[n], |inputs[n].picked|, s.maxRetry);
    }
  }

  // ---------- Bounded liveness ----------

  /** Deletes only take bytes away, and a file once stamped stays stamped. */
  lemma {:induction false} ProcessFirstMonotone(p: Progress, elements: Elements, input: RunInput, m: nat, n: nat)
    requires InputFits(p.queue, input) && m <= n <= |input.picked|
    ensures
      var a, b := ProcessFirst(p, elements, input, m), ProcessFirst(p, elements, input, n);
      && b.contents.Keys <= a.contents.Keys
      && b.files.Keys == a.files.Keys
      && forall id :: id in a.files ==>
           b.files[id].seId == a.files[id].seId && (!a.files[id].Live() ==> !b.files[id].Live())
    decreases n
  {
    if m < n {
      ProcessFirstMonotone(p, elements, input, m, n - 1);
    }
  }

  /** For the rows of this file: the element is online, the deletes are answered, and no UPDATE fails. */
  ghost predicate HealthyFor(d: Tables, contents: Contents, input: RunInput, id: FileId) {
    && InputFits(d.queue, input) && HonestReplies(d, contents, input)
    && forall k :: 0 <= k < |input.picked| && d.queue[input.picked[k]].fileId == id ==>
         && Reachable(d.elements, d.queue[input.picked[k]].seId)
         && input.replies[k].Succeeded() && !input.replies[k].markRaises
  }

  /** The k-th picked row ends successful, its bytes gone and its file stamped. */
  lemma PickedRowIsCleaned(d: Tables, contents: Contents, input: RunInput, k: nat)
    requires Distinct(input.picked) && k < |input.picked| == |input.replies| && input.picked[k] < |d.queue|
    requires HealthyFor(d, contents, input, d.queue[input.picked[k]].fileId)
    ensures
      var done := ProcessFirst(Start(d, contents), d.elements, input, |input.picked|);
      var item := d.queue[input.picked[k]];
      && done.queue[input.picked[k]].success == Some(true) && !done.queue[input.picked[k]].Pending()
      && (item.seId, item.fileId) !in done.contents
      && (item.fileId in d.files ==> item.fileId in done.files && !done.files[item.fileId].Live())
  {
    var p := Start(d, contents);
    var i := input.picked[k];
    var item := d.queue[i];
    ProcessFirstRow(p, d.elements, input, |input.picked|, i);
    ProcessFirstRow(p, d.elements, input, k, i);
    assert i !in input.picked[..k];
    ProcessFirstMonotone(p, d.elements, input, 0, k);
    ProcessFirstMonotone(p, d.elements, input, k + 1, |input.picked|);
    var before := ProcessFirst(p, d.elements, input, k);
    assert HonestAt(d, contents, input, k);
    var after := ProcessFirst(p, d.elements, input, k + 1);
    assert after == ProcessOne(before, d.elements, i, input.replies[k], input.queueNow);
    assert (item.seId, item.fileId) !in after.contents;
  }

  function EligibleIds(queue: seq<QueueItem>, now: Time, maxRetry: nat): set<ItemId> {
    set i | 0 <= i < |queue| && queue[i].Eligible(now, maxRetry)
  }

  function ExpiredIds(files: map<FileId, File>, now: Time): set<FileId> {
    set id | id in files && TtlExpiredRow(files[id], now)
  }

  function Elems<T>(s: seq<T>): set<T> {
    set x | x in s
  }

  lemma {:induction false} DistinctSize<T>(s: seq<T>)
    requires Distinct(s)
    ensures |Elems(s)| == |s|
  {
    if s != [] {
      var n := |s| - 1;
      DistinctSize(s[..n]);
      assert s[n] !in s[..n];
      assert Elems(s) == Elems(s[..n]) + {s[n]};
    }
  }

  /** A SELECT whose limit is at least the number of matching rows returns them all. */
  lemma LimitCovers<T>(rows: seq<T>, matching: set<T>, limit: nat)
    requires Distinct(rows) && Elems(rows) <= matching && |matching| <= limit
    requires matching == Elems(rows) || |rows| == limit
    ensures forall x :: x in matching ==> x in rows
  {
    DistinctSize(rows);
    if matching != Elems(rows) {
      SubsetOfSameSize(Elems(rows), matching);
    }
  }

  lemma {:induction false} SubsetOfSameSize<T>(a: set<T>, b: set<T>)
    requires a <= b && |b| <= |a|
    ensures a == b
  {
    if x :| x in b && x !in a {
      SubsetSize(a, b - {x});
    }
  }

  lemma {:induction false} SubsetSize<T>(a: set<T>, b: set<T>)
    requires a <= b
    ensures |a| <= |b|
  {
    if x :| x in a {
      SubsetSize(a - {x}, b - {x});
    }
  }

  /** A run that is not cut off by its batch size. */
  ghost predicate Covered(s: Settings, d: Tables, contents: Contents, input: RunInput)
    requires InputFits(d.queue, input)
  {
    && |EligibleIds(d.queue, input.queueNow, s.maxRetry)| <= s.batchSize
    && var files := ProcessFirst(Start(d, contents), d.elements, input, |input.picked|).files;
       |ExpiredIds(files, input.ttlNow)| <= s.batchSize
  }

  lemma CoveredPicksAll(s: Settings, d: Tables, contents: Contents, input: RunInput, i: ItemId)
    requires ValidInput(s, d, contents, input) && InputFits(d.queue, input) && Covered(s, d, contents, input)
    requires i < |d.queue| && d.queue[i].Eligible(input.queueNow, s.maxRetry)
    ensures i in input.picked
  {
    var eligible := EligibleIds(d.queue, input.queueNow, s.maxRetry);
    assert Elems(input.picked) <= eligible;
    if eligible != Elems(input.picked) {
      var j :| j in eligible && j !in Elems(input.picked);
      assert j !in input.picked;
    }
    LimitCovers(input.picked, eligible, s.batchSize);
    assert i in eligible;
  }

  lemma CoveredSelectsAll(s: Settings, d: Tables, contents: Contents, input: RunInput, id: FileId)
    requires ValidInput(s, d, contents, input) && InputFits(d.queue, input) && Covered(s, d, contents, input)
    requires
      var files := ProcessFirst(Start(d, contents), d.elements, input, |input.picked|).files;
      id in files && TtlExpiredRow(files[id], input.ttlNow)
    ensures id in input.expired
  {
    var files := ProcessFirst(Start(d, contents), d.elements, input, |input.picked|).files;
    var expired := ExpiredIds(files, input.ttlNow);
    assert Elems(input.expired) <= expired;
    if expired != Elems(input.expired) {
      var j :| j in expired && j !in Elems(input.expired);
      assert j !in input.expired;
    }
    LimitCovers(input.expired, expired, s.batchSize);
    assert id in expired;
  }

  /** A file no picked row names comes through the pass unchanged. */
  lemma {:induction false} UnnamedFileUntouched(p: Progress, elements: Elements, input: RunInput, n: nat, id: FileId)
    requires InputFits(p.queue, input) && Distinct(input.picked) && n <= |input.picked| && id in p.files
    requires forall k :: 0 <= k < |input.picked| ==> p.queue[input.picked[k]].fileId != id
    ensures
      var q := ProcessFirst(p, elements, input, n);
      id in q.files && q.files[id] == p.files[id]
  {
    if n > 0 {
      UnnamedFileUntouched(p, elements, input, n - 1, id);
      ProcessFirstRow(p, elements, input, n - 1, input.picked[n - 1]);
      assert input.picked[n - 1] !in input.picked[..n - 1];
    }
  }

  lemma {:induction false} TtlItemIsAmong(queue: seq<QueueItem>, files: map<FileId, File>, ids: seq<FileId>, now: Time,
                                          id: FileId)
    requires id in ids && id in files && PendingOf(queue, id, None) == {}
    ensures TtlItem(queue, files, id, now)[0] in TtlItems(queue, files, ids, now)
  {
    var n := |ids| - 1;
    if ids[n] != id {
      assert ids == ids[..n] + [ids[n]];
      TtlItemIsAmong(queue, files, ids[..n], now, id);
    }
  }

  /** A pending row on the file's own element: one healthy run cleans the file. */
  lemma PendingRowIsCleaned(s: Settings, d: Tables, contents: Contents, input: RunInput, i: ItemId)
    requires i < |d.queue| && HealthyFor(d, contents, input, d.queue[i].fileId)
    requires ValidInput(s, d, contents, input) && Covered(s, d, contents, input)
    requires d.queue[i].Eligible(input.queueNow, s.maxRetry) && d.queue[i].fileId in d.files
    requires d.queue[i].seId == d.files[d.queue[i].fileId].seId
    ensures
      var (d', contents') := Committed(s, d, contents, input);
      var id := d.queue[i].fileId;
      && id in d'.files && !d'.files[id].Live()
      && d'.files[id].seId == d.files[id].seId && (d.files[id].seId, id) !in contents'
  {
    CoveredPicksAll(s, d, contents, input, i);
    var k :| 0 <= k < |input.picked| && input.picked[k] == i;
    PickedRowIsCleaned(d, contents, input, k);
    ProcessFirstMonotone(Start(d, contents), d.elements, input, 0, |input.picked|);
  }

  /** No pending row: the first run queues the expired file on its own element. */
  lemma ExpiredFileIsQueued(s: Settings, d: Tables, contents: Contents, input: RunInput, id: FileId) returns (i: ItemId)
    requires InputFits(d.queue, input) && ValidInput(s, d, contents, input) && Covered(s, d, contents, input)
    requires id in d.files && TtlExpiredRow(d.files[id], input.ttlNow) && PendingOf(d.queue, id, None) == {}
    ensures
      var d' := Committed(s, d, contents, input).0;
      && i < |d'.queue| && d'.queue[i].fileId == id && d'.queue[i].seId == d.files[id].seId
      && d'.queue[i].Pending() && d'.queue[i].retryCount == 0 && d'.queue[i].scheduledAt == input.ttlNow
      && id in d'.files && d'.files[id].seId == d.files[id].seId
  {
    var done := ProcessFirst(Start(d, contents), d.elements, input, |input.picked|);
    forall k | 0 <= k < |input.picked|
      ensures d.queue[input.picked[k]].fileId != id
    {
      assert input.picked[k] !in PendingOf(d.queue, id, None);
    }
    UnnamedFileUntouched(Start(d, contents), d.elements, input, |input.picked|, id);
    CoveredSelectsAll(s, d, contents, input, id);
    TtlItemIsAmong(d.queue, done.files, input.expired, input.ttlNow, id);
    var items := TtlItems(d.queue, done.files, input.expired, input.ttlNow);
    var j :| 0 <= j < |items| && items[j] == TtlItem(d.queue, done.files, id, input.ttlNow)[0];
    i := |d.queue| + j;
    assert (done.queue + Additions(d, done, input))[i] == items[j];
  }

  // ---------- Rows out of reach ----------

  /** The file has a pending row, and none of its pending rows can be picked until then. */
  ghost predicate OutOfReach(s: Settings, d: Tables, id: FileId, until: Time) {
    && PendingOf(d.queue, id, None) != {}
    && forall i :: 0 <= i < |d.queue| && d.queue[i].fileId == id ==> !d.queue[i].Eligible(until, s.maxRetry)
  }

  /** A COMPLETED transaction of the file finds a pending row for its source. */
  ghost predicate Held(d: Tables, id: FileId) {
    forall t :: 0 <= t < |d.txns| && d.txns[t].fileId == id && d.txns[t].status == Completed ==>
      PendingOf(d.queue, id, Some(d.txns[t].sourceSe)) != {}
  }

  lemma {:induction false} TtlItemsSkipPending(queue: seq<QueueItem>, files: map<FileId, File>, ids: seq<FileId>,
                                               now: Time, id: FileId)
    requires PendingOf(queue, id, None) != {}
    ensures forall i :: 0 <= i < |TtlItems(queue, files, ids, now)| ==> TtlItems(queue, files, ids, now)[i].fileId != id
  {
    if ids != [] {
      TtlItemsSkipPending(queue, files, ids[..|ids| - 1], now, id);
    }
  }

  lemma {:induction false} FinalizedItemsSkip(queue: seq<QueueItem>, files: map<FileId, File>, txns: seq<Txn>,
                                              ids: seq<TxnId>,
                                              now: Time, id: FileId)
    requires forall k :: 0 <= k < |ids| ==> ids[k] < |txns|
    requires forall k :: 0 <= k < |ids| && txns[ids[k]].fileId == id ==>
      PendingOf(queue, id, Some(txns[ids[k]].sourceSe)) != {}
    ensures forall i :: 0 <= i < |FinalizedItems(queue, files, txns, ids, now)| ==>
      FinalizedItems(queue, files, txns, ids, now)[i].fileId != id
  {
    if ids != [] {
      FinalizedItemsSkip(queue, files, txns, ids[..|ids| - 1], now, id);
    }
  }

  predicate KeepsRow(before: QueueItem, after: QueueItem, id: FileId) {
    after.fileId == before.fileId && (before.fileId == id ==> after == before)
  }

  /** The file, its rows and the transactions are the same, and it has no new row. */
  ghost predicate LeftAlone(d: Tables, d': Tables, id: FileId) {
    && d'.txns == d.txns && id in d.files && id in d'.files && d'.files[id] == d.files[id] && |d.queue| <= |d'.queue|
    && (forall i :: 0 <= i < |d.queue| ==> KeepsRow(d.queue[i], d'.queue[i], id))
    && (forall i :: |d.queue| <= i < |d'.queue| ==> d'.queue[i].fileId != id)
  }

  lemma RunLeavesAlone(s: Settings, d: Tables, contents: Contents, input: RunInput, id: FileId)
    requires ValidInput(s, d, contents, input) && InputFits(d.queue, input) && id in d.files
    requires OutOfReach(s, d, id, input.queueNow) && Held(d, id)
    ensures LeftAlone(d, Committed(s, d, contents, input).0, id)
  {
    var p := Start(d, contents);
    var done := ProcessFirst(p, d.elements, input, |input.picked|);
    UnnamedFileUntouched(p, d.elements, input, |input.picked|, id);
    TtlItemsSkipPending(d.queue, done.files, input.expired, input.ttlNow, id);
    FinalizedItemsSkip(d.queue, done.files, d.txns, input.completed, input.finalizedNow, id);
    var d' := Committed(s, d, contents, input).0;
    forall i | 0 <= i < |d.queue|
      ensures KeepsRow(d.queue[i], d'.queue[i], id)
    {
      ProcessFirstRow(p, d.elements, input, |input.picked|, i);
      assert input.picked[..|input.picked|] == input.picked;
      assert d.queue[i].fileId == id ==> i !in input.picked;
    }
  }

  lemma StaysHeld(d: Tables, d': Tables, id: FileId)
    requires LeftAlone(d, d', id) && Held(d, id)
    ensures Held(d', id)
  {
    forall t | 0 <= t < |d'.txns| && d'.txns[t].fileId == id && d'.txns[t].status == Completed
      ensures PendingOf(d'.queue, id, Some(d'.txns[t].sourceSe)) != {}
    {
      var i :| i in PendingOf(d.queue, id, Some(d.txns[t].sourceSe));
      assert KeepsRow(d.queue[i], d'.queue[i], id);
      assert i in PendingOf(d'.queue, id, Some(d'.txns[t].sourceSe));
    }
  }

  lemma StaysOutOfReach(s: Settings, d: Tables, d': Tables, id: FileId, until: Time)
    requires LeftAlone(d, d', id) && OutOfReach(s, d, id, until)
    ensures OutOfReach(s, d', id, until)
  {
    var i :| i in PendingOf(d.queue, id, None);
    assert KeepsRow(d.queue[i], d'.queue[i], id);
    assert i in PendingOf(d'.queue, id, None);
    forall j | 0 <= j < |d.queue| && d'.queue[j].fileId == id ensures !d'.queue[j].Eligible(until, s.maxRetry) {
      assert KeepsRow(d.queue[j], d'.queue[j], id);
    }
  }

  // ---------- Two healthy runs ----------

  ghost predicate Cleaned(d: Tables, contents: Contents, id: FileId) {
    id in d.files && !d.files[id].Live() && (d.files[id].seId, id) !in contents
  }

  /** Both runs are answered for this file, and neither SELECT is cut off. */
  ghost predicate TwoRuns(s: Settings, d: Tables, contents: Contents, first: RunInput, second: RunInput, id: FileId) {
    && ValidInput(s, d, contents, first) && HealthyFor(d, contents, first, id) && Covered(s, d, contents, first)
    && first.finalizedNow <= second.queueNow
    && var (d1, c1) := Committed(s, d, contents, first);
       ValidInput(s, d1, c1, second) && HealthyFor(d1, c1, second, id) && Covered(s, d1, c1, second)
  }

  lemma StaysCleaned(s: Settings, d: Tables, contents: Contents, input: RunInput, id: FileId)
    requires ValidInput(s, d, contents, input) && InputFits(d.queue, input) && Cleaned(d, contents, id)
    ensures
      var (d', contents') := Committed(s, d, contents, input);
      Cleaned(d', contents', id)
  {
    ProcessFirstMonotone(Start(d, contents), d.elements, input, 0, |input.picked|);
  }

  /** Pending rows on the element the transactions start from hold the finalized producer. */
  lemma OwnRowsHold(d: Tables, id: FileId)
    requires id in d.files && PendingOf(d.queue, id, None) != {}
    requires forall t :: 0 <= t < |d.txns| && d.txns[t].fileId == id && d.txns[t].status == Completed ==>
      d.txns[t].sourceSe == d.files[id].seId
    requires forall i :: 0 <= i < |d.queue| && d.queue[i].Pending() && d.queue[i].fileId == id ==>
      d.queue[i].seId == d.files[id].seId
    ensures Held(d, id)
  {
    var i :| i in PendingOf(d.queue, id, None);
    assert i in PendingOf(d.queue, id, Some(d.files[id].seId));
  }

  /** A row that becomes eligible by the second run is worked off in the first or in the second. */
  lemma DueRowIsCleaned(s: Settings, d: Tables, contents: Contents, first: RunInput, second: RunInput, i: ItemId)
    requires i < |d.queue| && TwoRuns(s, d, contents, first, second, d.queue[i].fileId)
    requires d.queue[i].Eligible(second.queueNow, s.maxRetry) && d.queue[i].fileId in d.files
    requires forall j :: 0 <= j < |d.queue| && d.queue[j].Pending() && d.queue[j].fileId == d.queue[i].fileId ==>
      d.queue[j].seId == d.files[d.queue[i].fileId].seId
    ensures
      var (d1, c1) := Committed(s, d, contents, first);
      var (d2, c2) := Committed(s, d1, c1, second);
      Cleaned(d2, c2, d.queue[i].fileId)
  {
    var id := d.queue[i].fileId;
    var (d1, c1) := Committed(s, d, contents, first);
    if j :| 0 <= j < |d.queue| && d.queue[j].fileId == id && d.queue[j].Eligible(first.queueNow, s.maxRetry) {
      PendingRowIsCleaned(s, d, contents, first, j);
      StaysCleaned(s, d1, c1, second, id);
    } else {
      ProcessFirstRow(Start(d, contents), d.elements, first, |first.picked|, i);
      assert first.picked[..|first.picked|] == first.picked;
      assert d1.queue[i] == d.queue[i];
      ProcessFirstMonotone(Start(d, contents), d.elements, first, 0, |first.picked|);
      PendingRowIsCleaned(s, d1, c1, second, i);
    }
  }

  /**
  Two committed runs that are answered for this file and whose SELECTs are not cut off leave an expired file marked
  deleted and absent from its element iff it has no pending row at the start, or one of its own rows has retries left
  and is due by the second run; if all its rows are due, iff it is not stuck. Rows of other files do not matter.
  */
  lemma TwoRunsCleanExpiredIff(s: Settings, d: Tables, contents: Contents, first: RunInput, second: RunInput,
                               id: FileId)
    requires 0 < s.maxRetry && TwoRuns(s, d, contents, first, second, id)
    requires id in d.files && TtlExpiredRow(d.files[id], first.ttlNow)
    requires forall t :: 0 <= t < |d.txns| && d.txns[t].fileId == id && d.txns[t].status == Completed ==>
      d.txns[t].sourceSe == d.files[id].seId
    requires forall i :: 0 <= i < |d.queue| && d.queue[i].Pending() && d.queue[i].fileId == id ==>
      d.queue[i].seId == d.files[id].seId
    ensures
      var (d1, c1) := Committed(s, d, contents, first);
      var (d2, c2) := Committed(s, d1, c1, second);
      && (Cleaned(d2, c2, id) <==> !OutOfReach(s, d, id, second.queueNow))
      && (DueBy(d, id, second.queueNow) ==> (Cleaned(d2, c2, id) <==> !Stuck(s, d, id)))
  {
    var (d1, c1) := Committed(s, d, contents, first);
    if OutOfReach(s, d, id, second.queueNow) {
      OwnRowsHold(d, id);
      RunLeavesAlone(s, d, contents, first, id);
      StaysOutOfReach(s, d, d1, id, second.queueNow);
      StaysHeld(d, d1, id);
      RunLeavesAlone(s, d1, c1, second, id);
    } else if PendingOf(d.queue, id, None) == {} {
      var i := ExpiredFileIsQueued(s, d, contents, first, id);
      PendingRowIsCleaned(s, d1, c1, second, i);
    } else {
      var i :| 0 <= i < |d.queue| && d.queue[i].fileId == id && d.queue[i].Eligible(second.queueNow, s.maxRetry);
      DueRowIsCleaned(s, d, contents, first, second, i);
    }
    if PendingOf(d.queue, id, None) != {} && DueBy(d, id, second.queueNow) {
      OwnRowsHold(d, id);
      DueIsStuck(s, d, id, second.queueNow);
    }
  }

  // ---------- What blocks liveness ----------

  /** The file has a pending row, and every pending row of it has used up its retries. */
  ghost predicate Stuck(s: Settings, d: Tables, id: FileId) {
    && PendingOf(d.queue, id, None) != {}
    && (forall i :: 0 <= i < |d.queue| && d.queue[i].Pending() && d.queue[i].fileId == id ==>
          s.maxRetry <= d.queue[i].retryCount)
    && Held(d, id)
  }

  ghost predicate RunsTo(s: Settings, before: (Tables, Contents), input: RunInput, after: (Tables, Contents)) {
    ValidInput(s, before.0, before.1, input) && after == Committed(s, before.0, before.1, input)
  }

  ghost predicate Runs(s: Settings, states: seq<(Tables, Contents)>, inputs: seq<RunInput>) {
    && |states| == |inputs| + 1
    && forall r :: 0 <= r < |inputs| ==> RunsTo(s, states[r], inputs[r], states[r + 1])
  }

  predicate DueBy(d: Tables, id: FileId, until: Time) {
    forall i :: 0 <= i < |d.queue| && d.queue[i].Pending() && d.queue[i].fileId == id ==>
      d.queue[i].scheduledAt <= until
  }

  /** When all rows of the file are due, being out of reach and being stuck are the same. */
  lemma DueIsStuck(s: Settings, d: Tables, id: FileId, until: Time)
    requires Held(d, id) && DueBy(d, id, until)
    ensures OutOfReach(s, d, id, until) <==> Stuck(s, d, id)
  {
  }

  lemma StuckRunChangesNothing(s: Settings, d: Tables, contents: Contents, input: RunInput, id: FileId)
    requires ValidInput(s, d, contents, input) && InputFits(d.queue, input) && Stuck(s, d, id) && id in d.files
    ensures
      var d' := Committed(s, d, contents, input).0;
      Stuck(s, d', id) && id in d'.files && d'.files[id] == d.files[id]
  {
    RunLeavesAlone(s, d, contents, input, id);
    StaysStuck(s, d, Committed(s, d, contents, input).0, id);
  }

  lemma StaysStuck(s: Settings, d: Tables, d': Tables, id: FileId)
    requires Stuck(s, d, id) && LeftAlone(d, d', id)
    ensures Stuck(s, d', id)
  {
    StaysOutOfReach(s, d, d', id, 0);
    StaysHeld(d, d', id);
    forall j | 0 <= j < |d.queue| && d'.queue[j].fileId == id && d'.queue[j].Pending()
      ensures s.maxRetry <= d'.queue[j].retryCount
    {
      assert KeepsRow(d.queue[j], d'.queue[j], id);
    }
  }

  /**
  A row that met an unavailable element `maxRetry` times is never picked again, yet it stays pending, and the TTL
  producer skips every file with a pending row: no number of runs ever deletes the file.
  */
  lemma {:induction false} ExhaustedRowBlocksForever(s: Settings, states: seq<(Tables, Contents)>,
                                                     inputs: seq<RunInput>, id: FileId)
    requires Runs(s, states, inputs) && Stuck(s, states[0].0, id) && id in states[0].0.files
    ensures
      var last := states[|inputs|].0;
      Stuck(s, last, id) && id in last.files && last.files[id] == states[0].0.files[id]
    decreases |inputs|
  {
    if inputs != [] {
      var n := |inputs| - 1;
      assert Runs(s, states[..n + 1], inputs[..n]);
      ExhaustedRowBlocksForever(s, states[..n + 1], inputs[..n], id);
      assert RunsTo(s, states[n], inputs[n], states[n + 1]);
      StuckRunChangesNothing(s, states[n].0, states[n].1, inputs[n], id);
    }
  }

  // ---------- How a file gets stuck ----------

  /**
  Row `i` is the file's only pending row, it has failed `tries` times, and its element is registered but not online.
  */
  ghost predicate Waiting(d: Tables, id: FileId, i: ItemId, tries: nat) {
    && i < |d.queue| && d.queue[i].Pending() && d.queue[i].fileId == id && d.queue[i].retryCount == tries
    && (forall j :: 0 <= j < |d.queue| && d.queue[j].Pending() && d.queue[j].fileId == id ==> j == i)
    && d.queue[i].seId in d.elements && d.elements[d.queue[i].seId] != Online
    && (forall t :: 0 <= t < |d.txns| && d.txns[t].fileId == id && d.txns[t].status == Completed ==>
          d.txns[t].sourceSe == d.queue[i].seId)
  }

  /** A run that picks the row costs it one retry and leaves it pending. */
  lemma UnavailableRun(s: Settings, d: Tables, contents: Contents, input: RunInput, id: FileId, i: ItemId, tries: nat)
    requires ValidInput(s, d, contents, input) && InputFits(d.queue, input) && Waiting(d, id, i, tries)
    requires i in input.picked
    ensures tries < s.maxRetry && Waiting(Committed(s, d, contents, input).0, id, i, tries + 1)
  {
    var p := Start(d, contents);
    var done := ProcessFirst(p, d.elements, input, |input.picked|);
    var d' := Committed(s, d, contents, input).0;
    assert input.picked[..|input.picked|] == input.picked;
    forall j | 0 <= j < |d.queue|
      ensures j != i && d'.queue[j].fileId == id ==> !d'.queue[j].Pending()
      ensures j == i ==>
        d'.queue[j].Pending() && d'.queue[j].retryCount == tries + 1 && SameTarget(d'.queue[j], d.queue[j])
    {
      ProcessFirstRow(p, d.elements, input, |input.picked|, j);
      if j in input.picked {
        var k :| 0 <= k < |input.picked| && input.picked[k] == j;
        assert d.queue[j].Eligible(input.queueNow, s.maxRetry);
      }
    }
    assert i in PendingOf(d.queue, id, None) && i in PendingOf(d.queue, id, Some(d.queue[i].seId));
    TtlItemsSkipPending(d.queue, done.files, input.expired, input.ttlNow, id);
    FinalizedItemsSkip(d.queue, done.files, d.txns, input.completed, input.finalizedNow, id);
  }

  /** After exactly `maxRetry` runs that met the element unavailable, and no sooner, the file is stuck. */
  lemma {:induction false} UnavailableRunsStick(s: Settings, states: seq<(Tables, Contents)>, inputs: seq<RunInput>,
                                                id: FileId, i: ItemId)
    requires Runs(s, states, inputs) && Waiting(states[0].0, id, i, 0)
    requires forall r :: 0 <= r < |inputs| ==> i in inputs[r].picked
    ensures |inputs| <= s.maxRetry && Waiting(states[|inputs|].0, id, i, |inputs|)
    ensures Stuck(s, states[|inputs|].0, id) <==> |inputs| == s.maxRetry
    decreases |inputs|
  {
    if inputs != [] {
      var n := |inputs| - 1;
      assert Runs(s, states[..n + 1], inputs[..n]);
      UnavailableRunsStick(s, states[..n + 1], inputs[..n], id, i);
      assert RunsTo(s, states[n], inputs[n], states[n + 1]);
      UnavailableRun(s, states[n].0, states[n].1, inputs[n], id, i, n);
    }
    var last := states[|inputs|].0;
    assert i in PendingOf(last.queue, id, None) && i in PendingOf(last.queue, id, Some(last.queue[i].seId));
  }

  function Unavailable(row: File, item: QueueItem, tries: nat): Tables {
    Tables(map[item.fileId := row], [],
           [item.(retryCount := tries, error := if tries == 0 then None else Some(SeUnavailable(Offline)))],
           map[item.seId := Offline])
  }

  /** The row as the TTL producer queues it. */
  predicate QueuedByTtl(row: File, item: QueueItem) {
    item == NewItem(item.fileId, row.seId, Some(row.storagePath), item.scheduledAt, PRIORITY_NORMAL, TtlExpired,
                    item.scheduledAt)
  }

  function UnavailableInput(item: QueueItem): RunInput {
    RunInput([0], [Reply(Timeout, false, false, 0)], item.scheduledAt, [item.fileId], item.scheduledAt, [],
             item.scheduledAt)
  }

  /** The turn of the only row. */
  lemma UnavailablePass(contents: Contents, row: File, item: QueueItem, tries: nat)
    requires QueuedByTtl(row, item)
    ensures
      var d, input := Unavailable(row, item, tries), UnavailableInput(item);
      ProcessFirst(Start(d, contents), d.elements, input, 1)
      == Progress(Unavailable(row, item, tries + 1).queue, d.files, contents)
  {
    var d, input := Unavailable(row, item, tries), UnavailableInput(item);
    var p := Start(d, contents);
    assert ProcessFirst(p, d.elements, input, 0) == p;
    assert ProcessFirst(p, d.elements, input, 1) == ProcessOne(p, d.elements, 0, input.replies[0], input.queueNow);
    assert d.queue[0 := Unavailable(row, item, tries + 1).queue[0]] == Unavailable(row, item, tries + 1).queue;
  }

  /** One such run, whatever the settings. */
  lemma UnavailableStep(s: Settings, contents: Contents, row: File, item: QueueItem, tries: nat)
    requires tries < s.maxRetry && 0 < s.batchSize
    requires TtlExpiredRow(row, item.scheduledAt) && QueuedByTtl(row, item)
    ensures
      var d := Unavailable(row, item, tries);
      RunsTo(s, (d, contents), UnavailableInput(item), (Unavailable(row, item, tries + 1), contents))
  {
    var d, input := Unavailable(row, item, tries), UnavailableInput(item);
    UnavailablePass(contents, row, item, tries);
    assert [item.fileId][..0] == [] && TtlItems(d.queue, d.files, [], input.ttlNow) == [];
    assert 0 in PendingOf(d.queue, item.fileId, None);
    assert TtlItems(d.queue, d.files, [item.fileId], input.ttlNow) == [] + [];
    var done := ProcessFirst(Start(d, contents), d.elements, input, 1);
    assert Additions(d, done, input) == [] && done.queue + [] == done.queue;
  }

  lemma OneMoreRun(s: Settings, states: seq<(Tables, Contents)>, inputs: seq<RunInput>, input: RunInput,
                   next: (Tables, Contents))
    requires Runs(s, states, inputs)
    requires RunsTo(s, states[|inputs|], input, next)
    ensures Runs(s, states + [next], inputs + [input])
  {
    var states', inputs' := states + [next], inputs + [input];
    forall r | 0 <= r < |inputs'| ensures RunsTo(s, states'[r], inputs'[r], states'[r + 1]) {
      if r < |inputs| {
        assert RunsTo(s, states[r], inputs[r], states[r + 1]);
      }
    }
  }

  /** The row has spent its retries, and the expired file is still there. */
  lemma LastTryStrands(s: Settings, row: File, item: QueueItem)
    requires QueuedByTtl(row, item)
    ensures Stuck(s, Unavailable(row, item, s.maxRetry), item.fileId)
  {
    assert 0 in PendingOf(Unavailable(row, item, s.maxRetry).queue, item.fileId, None);
  }

  /**
  There are such runs for every setting: an expired file, queued once, whose element is offline for a while. Its bytes
  stay.
  */
  lemma {:induction false} StuckIsReached(s: Settings, contents: Contents, row: File, item: QueueItem, n: nat)
    returns (states: seq<(Tables, Contents)>, inputs: seq<RunInput>)
    requires n <= s.maxRetry && 0 < s.batchSize
    requires TtlExpiredRow(row, item.scheduledAt) && QueuedByTtl(row, item)
    ensures Runs(s, states, inputs) && |inputs| == n
    ensures states[0] == (Unavailable(row, item, 0), contents) && states[n] == (Unavailable(row, item, n), contents)
    ensures n == s.maxRetry ==> Stuck(s, states[n].0, item.fileId)
  {
    if n == 0 {
      states, inputs := [(Unavailable(row, item, 0), contents)], [];
    } else {
      states, inputs := StuckIsReached(s, contents, row, item, n - 1);
      UnavailableStep(s, contents, row, item, n - 1);
      OneMoreRun(s, states, inputs, UnavailableInput(item), (Unavailable(row, item, n), contents));
      states, inputs := states + [(Unavailable(row, item, n), contents)], inputs + [UnavailableInput(item)];
    }
    LastTryStrands(s, row, item);
  }
}
