/**
Crash safety of a collector run. The run is one database transaction, but its remote deletes are not part of it:
a roll-back leaves the tables alone and the bytes gone. Because 404 counts as success, running again reaches the
state an uninterrupted run would have reached.
*/
module GcRecovery {
  import opened Wrappers
  import opened FileRegistry
  import opened Cleanup
  import opened GcQueue

  /** The (element, file) pairs that the first `n` picked rows address on reachable elements. */
  function Addressed(d: Tables, picked: seq<ItemId>, n: nat): set<(SeId, FileId)>
    requires n <= |picked| && forall k :: 0 <= k < |picked| ==> picked[k] < |d.queue|
  {
    set k | 0 <= k < n && Reachable(d.elements, d.queue[picked[k]].seId) ::
      (d.queue[picked[k]].seId, d.queue[picked[k]].fileId)
  }

  lemma AddressedStep(d: Tables, picked: seq<ItemId>, n: nat)
    requires 0 < n <= |picked| && forall k :: 0 <= k < |picked| ==> picked[k] < |d.queue|
    ensures
      var item := d.queue[picked[n - 1]];
      Addressed(d, picked, n) == Addressed(d, picked, n - 1)
                               + if Reachable(d.elements, item.seId) then {(item.seId, item.fileId)} else {}
  {
  }

  /** Whatever the replies, a prefix of a run removes at most what it addressed, and changes nothing else. */
  lemma {:induction false} PrefixRemovesOnlyAddressed(d: Tables, contents: Contents, input: RunInput, n: nat)
    requires InputFits(d.queue, input) && Distinct(input.picked) && n <= |input.picked|
    ensures
      var after := ProcessFirst(Start(d, contents), d.elements, input, n).contents;
      && after.Keys <= contents.Keys && contents.Keys - Addressed(d, input.picked, n) <= after.Keys
      && forall key :: key in after ==> after[key] == contents[key]
  {
    if n > 0 {
      PrefixRemovesOnlyAddressed(d, contents, input, n - 1);
      AddressedStep(d, input.picked, n);
      ProcessFirstRow(Start(d, contents), d.elements, input, n - 1, input.picked[n - 1]);
      assert input.picked[n - 1] !in input.picked[..n - 1];
    }
  }

  /**
  A run that is rolled back after any number of items leaves the tables unchanged (nothing was committed) and only
  bytes that an eligible row of a reachable element names can be missing.
  */
  lemma RolledBackRunRemovesOnlyTargets(s: Settings, d: Tables, contents: Contents, input: RunInput, n: nat,
                                        key: (SeId, FileId))
    requires ValidInput(s, d, contents, input) && n <= |input.picked|
    requires key in contents && key !in ProcessFirst(Start(d, contents), d.elements, input, n).contents
    ensures exists i :: 0 <= i < |d.queue| && d.queue[i].Eligible(input.queueNow, s.maxRetry)
                     && Reachable(d.elements, key.0) && key == (d.queue[i].seId, d.queue[i].fileId)
  {
    PrefixRemovesOnlyAddressed(d, contents, input, n);
    assert key in Addressed(d, input.picked, n);
    var k :| 0 <= k < n && Reachable(d.elements, d.queue[input.picked[k]].seId)
          && key == (d.queue[input.picked[k]].seId, d.queue[input.picked[k]].fileId);
    var i := input.picked[k];
    assert d.queue[i].Eligible(input.queueNow, s.maxRetry);
  }

  /** A picked row is as the database has it when its turn comes. */
  lemma RowAtItsTurn(d: Tables, contents: Contents, input: RunInput, n: nat)
    requires InputFits(d.queue, input) && Distinct(input.picked) && n < |input.picked|
    ensures
      var q := ProcessFirst(Start(d, contents), d.elements, input, n).queue;
      |q| == |d.queue| && q[input.picked[n]] == d.queue[input.picked[n]]
  {
    ProcessFirstRow(Start(d, contents), d.elements, input, n, input.picked[n]);
    assert input.picked[n] !in input.picked[..n];
  }

  /** When a run commits `success = true`, the bytes are gone from that element. */
  lemma CommittedSuccessMeansAbsent(s: Settings, d: Tables, contents: Contents, input: RunInput, k: nat)
    requires ValidInput(s, d, contents, input) && HonestReplies(d, contents, input) && k < |input.picked|
    requires d.queue[input.picked[k]].success.None?
    ensures
      var (d', contents') := Committed(s, d, contents, input);
      var item := d'.queue[input.picked[k]];
      item.success == Some(true) ==> (item.seId, item.fileId) !in contents'
  {
    var p := Start(d, contents);
    var i := input.picked[k];
    ProcessFirstRow(p, d.elements, input, |input.picked|, i);
    RowAtItsTurn(d, contents, input, k);
    ProcessFirstMonotone(p, d.elements, input, k + 1, |input.picked|);
    assert HonestAt(d, contents, input, k);
    SuccessfulTurnRemoves(ProcessFirst(p, d.elements, input, k), d.elements, i, input.replies[k], input.queueNow);
  }

  /** An honest success leaves the pair absent. */
  lemma SuccessfulTurnRemoves(p: Progress, elements: Elements, i: ItemId, reply: Reply, now: Time)
    requires i < |p.queue| && p.queue[i].success.None?
    requires reply.Honest((p.queue[i].seId, p.queue[i].fileId) in p.contents)
    ensures Process(p.queue[i], elements, reply, now).success == Some(true) ==>
              (p.queue[i].seId, p.queue[i].fileId) !in ProcessOne(p, elements, i, reply, now).contents
  {
  }

  // ---------- Running again ----------

  ghost predicate AllSucceed(d: Tables, input: RunInput) {
    && InputFits(d.queue, input)
    && forall k :: 0 <= k < |input.picked| && Reachable(d.elements, d.queue[input.picked[k]].seId) ==>
         input.replies[k].Succeeded() && !input.replies[k].markRaises
  }

  /** Every online element answers this run, with 200, 204 or 404 as its contents demand. */
  ghost predicate Answered(d: Tables, contents: Contents, input: RunInput) {
    AllSucceed(d, input) && HonestReplies(d, contents, input)
  }

  /** One answered delete leaves the pair absent: either it was removed now, or 404 said it was not there. */
  lemma AnsweredDelete(contents: Contents, item: QueueItem, elements: Elements, reply: Reply)
    requires reply.Honest((item.seId, item.fileId) in contents)
    requires Reachable(elements, item.seId) ==> reply.Succeeded()
    ensures
      (if Removes(item, elements, reply) then Strike(contents, item.seId, item.fileId) else contents)
      == contents - if Reachable(elements, item.seId) then {(item.seId, item.fileId)} else {}
  {
  }

  lemma {:induction false} AnsweredRunRemovesAddressed(d: Tables, contents: Contents, input: RunInput, n: nat)
    requires Answered(d, contents, input) && Distinct(input.picked) && n <= |input.picked|
    ensures ProcessFirst(Start(d, contents), d.elements, input, n).contents == contents - Addressed(d, input.picked, n)
  {
    if n > 0 {
      var p := Start(d, contents);
      AnsweredRunRemovesAddressed(d, contents, input, n - 1);
      AddressedStep(d, input.picked, n);
      var i := input.picked[n - 1];
      ProcessFirstRow(p, d.elements, input, n - 1, i);
      assert i !in input.picked[..n - 1];
      var item := d.queue[i];
      assert HonestAt(d, contents, input, n - 1);
      AnsweredDelete(ProcessFirst(p, d.elements, input, n - 1).contents, item, d.elements, input.replies[n - 1]);
    }
  }

  /** An interrupted attempt: `cut` rows had their turn, with any honest or lost replies, then the roll-back. */
  datatype Attempt = Attempt(input: RunInput, cut: nat)

  predicate AttemptFits(d: Tables, a: Attempt) {
    InputFits(d.queue, a.input) && a.cut <= |a.input.picked|
  }

  function AfterAttempt(d: Tables, contents: Contents, a: Attempt): Contents
    requires AttemptFits(d, a)
  {
    ProcessFirst(Start(d, contents), d.elements, a.input, a.cut).contents
  }

  function AfterAttempts(d: Tables, contents: Contents, attempts: seq<Attempt>): Contents
    requires forall a :: 0 <= a < |attempts| ==> AttemptFits(d, attempts[a])
  {
    if attempts == [] then contents
    else AfterAttempt(d, AfterAttempts(d, contents, attempts[..|attempts| - 1]), attempts[|attempts| - 1])
  }

  /** The attempt picked only rows of `picked`, each once. */
  predicate Within(a: Attempt, picked: seq<ItemId>) {
    Distinct(a.input.picked) && forall k :: 0 <= k < |a.input.picked| ==> a.input.picked[k] in picked
  }

  lemma AddressedWithin(d: Tables, some: seq<ItemId>, n: nat, all: seq<ItemId>)
    requires n <= |some| && forall k :: 0 <= k < |some| ==> some[k] in all
    requires forall k :: 0 <= k < |all| ==> all[k] < |d.queue|
    ensures Addressed(d, some, n) <= Addressed(d, all, |all|)
  {
    forall key | key in Addressed(d, some, n) ensures key in Addressed(d, all, |all|) {
      var k :| 0 <= k < n && Reachable(d.elements, d.queue[some[k]].seId)
            && key == (d.queue[some[k]].seId, d.queue[some[k]].fileId);
      var j :| 0 <= j < |all| && all[j] == some[k];
      assert Reachable(d.elements, d.queue[all[j]].seId);
    }
  }

  lemma {:induction false} AttemptsRemoveOnlyAddressed(d: Tables, contents: Contents, picked: seq<ItemId>,
                                                       attempts: seq<Attempt>)
    requires forall k :: 0 <= k < |picked| ==> picked[k] < |d.queue|
    requires forall a :: 0 <= a < |attempts| ==> AttemptFits(d, attempts[a]) && Within(attempts[a], picked)
    ensures
      var after := AfterAttempts(d, contents, attempts);
      && after.Keys <= contents.Keys && contents.Keys - Addressed(d, picked, |picked|) <= after.Keys
      && forall key :: key in after ==> after[key] == contents[key]
  {
    if attempts != [] {
      var n := |attempts| - 1;
      AttemptsRemoveOnlyAddressed(d, contents, picked, attempts[..n]);
      assert Within(attempts[n], picked);
      PrefixRemovesOnlyAddressed(d, AfterAttempts(d, contents, attempts[..n]), attempts[n].input, attempts[n].cut);
      AddressedWithin(d, attempts[n].input.picked, attempts[n].cut, picked);
    }
  }

  // ---------- Equality up to timestamps ----------

  function EraseItem(item: QueueItem): QueueItem {
    item.(scheduledAt := 0, createdAt := 0, processedAt := if item.processedAt.Some? then Some(0) else None)
  }

  function EraseFile(row: File): File {
    row.(deletedAt := if row.deletedAt.Some? then Some(0) else None)
  }

  ghost predicate SameItems(a: seq<QueueItem>, b: seq<QueueItem>) {
    |a| == |b| && forall i :: 0 <= i < |a| ==> EraseItem(a[i]) == EraseItem(b[i])
  }

  ghost predicate SameFiles(a: map<FileId, File>, b: map<FileId, File>) {
    a.Keys == b.Keys && forall id :: id in a ==> EraseFile(a[id]) == EraseFile(b[id])
  }

  ghost predicate SameUpToTimes(a: Tables, b: Tables) {
    SameItems(a.queue, b.queue) && SameFiles(a.files, b.files) && a.txns == b.txns && a.elements == b.elements
  }

  /** Two answered runs over the same picked rows agree on the tables, whatever bytes they still found. */
  lemma {:induction false} AnsweredRunsAgree(d: Tables, c1: Contents, c2: Contents, a: RunInput, b: RunInput, n: nat)
    requires AllSucceed(d, a) && AllSucceed(d, b) && a.picked == b.picked && Distinct(a.picked) && n <= |a.picked|
    ensures SameItems(ProcessFirst(Start(d, c1), d.elements, a, n).queue,
                      ProcessFirst(Start(d, c2), d.elements, b, n).queue)
    ensures SameFiles(ProcessFirst(Start(d, c1), d.elements, a, n).files,
                      ProcessFirst(Start(d, c2), d.elements, b, n).files)
  {
    if n > 0 {
      var p := ProcessFirst(Start(d, c1), d.elements, a, n - 1);
      var q := ProcessFirst(Start(d, c2), d.elements, b, n - 1);
      var i := a.picked[n - 1];
      assert SameItems(p.queue, q.queue) && SameFiles(p.files, q.files) by {
        AnsweredRunsAgree(d, c1, c2, a, b, n - 1);
      }
      assert i < |p.queue| && p.queue[i] == d.queue[i] && q.queue[i] == d.queue[i] by {
        RowAtItsTurn(d, c1, a, n - 1);
        RowAtItsTurn(d, c2, b, n - 1);
      }
      AgreeingTurn(d, p, q, i, a.replies[n - 1], b.replies[n - 1], a.queueNow, b.queueNow);
    }
  }

  lemma AgreeingTurn(d: Tables, p: Progress, q: Progress, i: ItemId, r1: Reply, r2: Reply, t1: Time, t2: Time)
    requires SameItems(p.queue, q.queue) && SameFiles(p.files, q.files) && i < |p.queue| && p.queue[i] == q.queue[i]
    requires Reachable(d.elements, p.queue[i].seId) ==>
      r1.Succeeded() && !r1.markRaises && r2.Succeeded() && !r2.markRaises
    ensures SameItems(ProcessOne(p, d.elements, i, r1, t1).queue, ProcessOne(q, d.elements, i, r2, t2).queue)
    ensures SameFiles(ProcessOne(p, d.elements, i, r1, t1).files, ProcessOne(q, d.elements, i, r2, t2).files)
  {
  }

  lemma {:induction false} TtlItemsAgree(queue: seq<QueueItem>, f: map<FileId, File>, g: map<FileId, File>,
                                         ids: seq<FileId>,
                                         t1: Time, t2: Time)
    requires SameFiles(f, g)
    ensures SameItems(TtlItems(queue, f, ids, t1), TtlItems(queue, g, ids, t2))
  {
    if ids != [] {
      TtlItemsAgree(queue, f, g, ids[..|ids| - 1], t1, t2);
      var id := ids[|ids| - 1];
      if id in f {
        assert EraseFile(f[id]) == EraseFile(g[id]);
      }
    }
  }

  lemma {:induction false} FinalizedItemsAgree(queue: seq<QueueItem>, f: map<FileId, File>, g: map<FileId, File>,
                                               txns: seq<Txn>,
                                               ids: seq<TxnId>, t1: Time, t2: Time)
    requires SameFiles(f, g) && forall k :: 0 <= k < |ids| ==> ids[k] < |txns|
    ensures SameItems(FinalizedItems(queue, f, txns, ids, t1), FinalizedItems(queue, g, txns, ids, t2))
  {
    if ids != [] {
      FinalizedItemsAgree(queue, f, g, txns, ids[..|ids| - 1], t1, t2);
      var id := txns[ids[|ids| - 1]].fileId;
      if id in f {
        assert EraseFile(f[id]) == EraseFile(g[id]);
      }
    }
  }

  lemma SameItemsConcat(a: seq<QueueItem>, b: seq<QueueItem>, x: seq<QueueItem>, y: seq<QueueItem>)
    requires SameItems(a, b) && SameItems(x, y)
    ensures SameItems(a + x, b + y)
  {
  }

  lemma CommittedAgree(s: Settings, d: Tables, c1: Contents, c2: Contents, a: RunInput, b: RunInput)
    requires ValidInput(s, d, c1, a) && ValidInput(s, d, c2, b)
    requires Answered(d, c1, a) && Answered(d, c2, b)
    requires a.picked == b.picked && a.expired == b.expired && a.completed == b.completed
    ensures SameUpToTimes(Committed(s, d, c1, a).0, Committed(s, d, c2, b).0)
  {
    AnsweredRunsAgree(d, c1, c2, a, b, |a.picked|);
    var p := ProcessFirst(Start(d, c1), d.elements, a, |a.picked|);
    var q := ProcessFirst(Start(d, c2), d.elements, b, |b.picked|);
    TtlItemsAgree(d.queue, p.files, q.files, a.expired, a.ttlNow, b.ttlNow);
    FinalizedItemsAgree(d.queue, p.files, q.files, d.txns, a.completed, a.finalizedNow, b.finalizedNow);
    var e1, e2 := TtlItems(d.queue, p.files, a.expired, a.ttlNow), TtlItems(d.queue, q.files, b.expired, b.ttlNow);
    var f1 := FinalizedItems(d.queue, p.files, d.txns, a.completed, a.finalizedNow);
    var f2 := FinalizedItems(d.queue, q.files, d.txns, b.completed, b.finalizedNow);
    SameItemsConcat(e1, e2, f1, f2);
    SameItemsConcat(p.queue, q.queue, e1 + f1, e2 + f2);
  }

  /**
  Convergence. After any number of attempts, each cut off anywhere and rolled back, with deletes that may or may
  not have gone through, one answered run commits the same tables (up to timestamps) as one answered run that was
  never interrupted, and leaves the same bytes if the attempts picked no other rows.
  */
  lemma InterruptedRunsConverge(s: Settings, d: Tables, contents: Contents, attempts: seq<Attempt>, again: RunInput,
                                once: RunInput)
    requires forall a :: 0 <= a < |attempts| ==> AttemptFits(d, attempts[a])
    requires again.picked == once.picked && again.expired == once.expired && again.completed == once.completed
    requires ValidInput(s, d, contents, once) && Answered(d, contents, once)
    requires
      var left := AfterAttempts(d, contents, attempts);
      ValidInput(s, d, left, again) && Answered(d, left, again)
    ensures SameUpToTimes(Committed(s, d, AfterAttempts(d, contents, attempts), again).0,
                          Committed(s, d, contents, once).0)
    ensures (forall a :: 0 <= a < |attempts| ==> Within(attempts[a], once.picked)) ==>
              Committed(s, d, AfterAttempts(d, contents, attempts), again).1 == Committed(s, d, contents, once).1
  {
    var left := AfterAttempts(d, contents, attempts);
    CommittedAgree(s, d, left, contents, again, once);
    if forall a :: 0 <= a < |attempts| ==> Within(attempts[a], once.picked) {
      SameBytesInTheEnd(d, contents, attempts, again, once);
    }
  }

  lemma SameBytesInTheEnd(d: Tables, contents: Contents, attempts: seq<Attempt>, again: RunInput, once: RunInput)
    requires forall a :: 0 <= a < |attempts| ==> AttemptFits(d, attempts[a]) && Within(attempts[a], once.picked)
    requires again.picked == once.picked && Distinct(once.picked)
    requires Answered(d, contents, once) && Answered(d, AfterAttempts(d, contents, attempts), again)
    ensures ProcessFirst(Start(d, AfterAttempts(d, contents, attempts)), d.elements, again, |again.picked|).contents
         == ProcessFirst(Start(d, contents), d.elements, once, |once.picked|).contents
  {
    var left := AfterAttempts(d, contents, attempts);
    AttemptsRemoveOnlyAddressed(d, contents, once.picked, attempts);
    AnsweredRunRemovesAddressed(d, contents, once, |once.picked|);
    AnsweredRunRemovesAddressed(d, left, again, |once.picked|);
    var gone := Addressed(d, once.picked, |once.picked|);
    assert (left - gone).Keys == (contents - gone).Keys;
    assert left - gone == contents - gone;
  }

  // ---------- The later run may meet the same rows ----------

  /** No row becomes due between the two clock readings. */
  ghost predicate Quiet(s: Settings, d: Tables, early: RunInput, late: RunInput) {
    && early.queueNow <= late.queueNow <= late.ttlNow <= late.finalizedNow
    && early.ttlNow <= late.ttlNow && early.finalizedNow <= late.finalizedNow
    && (forall i :: 0 <= i < |d.queue| && d.queue[i].scheduledAt <= late.queueNow ==>
          d.queue[i].scheduledAt <= early.queueNow)
    && (forall id | id in d.files && d.files[id].ttlExpiresAt.Some? ::
          d.files[id].ttlExpiresAt.value <= late.ttlNow ==>
          d.files[id].ttlExpiresAt.value <= early.ttlNow)
    && (forall t | 0 <= t < |d.txns| && d.txns[t].completedAt.Some? ::
          d.txns[t].completedAt.value <= late.finalizedNow - s.safetyMargin ==>
          d.txns[t].completedAt.value <= early.finalizedNow - s.safetyMargin)
  }

  lemma {:induction false} PassKeepsTtlColumns(p: Progress, elements: Elements, input: RunInput, n: nat)
    requires InputFits(p.queue, input) && n <= |input.picked|
    ensures
      var q := ProcessFirst(p, elements, input, n);
      && q.files.Keys == p.files.Keys
      && forall id :: id in q.files ==> q.files[id].ttlExpiresAt == p.files[id].ttlExpiresAt
  {
    if n > 0 {
      PassKeepsTtlColumns(p, elements, input, n - 1);
    }
  }

  lemma QuietPickStays(s: Settings, d: Tables, early: RunInput, late: RunInput)
    requires Quiet(s, d, early, late) && late.picked == early.picked
    requires IsPick(d.queue, early.picked, early.queueNow, s.maxRetry, s.batchSize)
    ensures IsPick(d.queue, late.picked, late.queueNow, s.maxRetry, s.batchSize)
  {
  }

  lemma QuietTtlSelectionStays(d: Tables, f: map<FileId, File>, g: map<FileId, File>, ids: seq<FileId>, t1: Time,
                               t2: Time, batch: nat)
    requires SameFiles(f, g) && f.Keys == d.files.Keys && t1 <= t2
    requires forall id :: id in f ==> f[id].ttlExpiresAt == d.files[id].ttlExpiresAt
    requires forall id :: id in d.files && d.files[id].ttlExpiresAt.Some? && d.files[id].ttlExpiresAt.value <= t2 ==>
      d.files[id].ttlExpiresAt.value <= t1
    requires IsTtlSelection(f, ids, t1, batch)
    ensures IsTtlSelection(g, ids, t2, batch)
  {
  }

  /** If nothing becomes due in between, the rows the first run was given are a valid answer for the later one. */
  lemma QuietInputStaysValid(s: Settings, d: Tables, c1: Contents, c2: Contents, early: RunInput, late: RunInput)
    requires ValidInput(s, d, c1, early) && Answered(d, c1, early) && Answered(d, c2, late) && Quiet(s, d, early, late)
    requires late.picked == early.picked && late.expired == early.expired && late.completed == early.completed
    ensures ValidInput(s, d, c2, late)
  {
    QuietPickStays(s, d, early, late);
    AnsweredRunsAgree(d, c1, c2, early, late, |early.picked|);
    PassKeepsTtlColumns(Start(d, c1), d.elements, early, |early.picked|);
    var f := ProcessFirst(Start(d, c1), d.elements, early, |early.picked|).files;
    var g := ProcessFirst(Start(d, c2), d.elements, late, |late.picked|).files;
    QuietTtlSelectionStays(d, f, g, early.expired, early.ttlNow, late.ttlNow, s.batchSize);
    forall t | 0 <= t < |d.txns|
      ensures FinalizedTxn(d.txns[t], late.finalizedNow - s.safetyMargin)
         <==> FinalizedTxn(d.txns[t], early.finalizedNow - s.safetyMargin)
    {
    }
  }
}
