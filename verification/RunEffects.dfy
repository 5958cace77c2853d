/**
What a committed collector run does, read off the tables before and after it: each picked row, each file, each copy,
each new row and each counter, by their columns alone.
*/
module RunEffects {
  import opened Wrappers
  import opened FileRegistry
  import opened Cleanup
  import opened GcQueue

  // ---------- Picked rows ----------

  /** The element of the row is registered and online, and the DELETE was answered with 200, 204 or 404. */
  predicate Answered(d: Tables, input: RunInput, k: nat)
    requires k < |input.picked| == |input.replies| && input.picked[k] < |d.queue|
  {
    var seId := d.queue[input.picked[k]].seId;
    && seId in d.elements && d.elements[seId] == Online
    && input.replies[k].response.Status? && input.replies[k].response.code in {200, 204, 404}
  }

  /** What a turn leaves of a row, by what became of its request. */
  predicate TurnMeans(d: Tables, input: RunInput, k: nat, before: QueueItem, after: QueueItem)
    requires k < |input.picked| == |input.replies| && input.picked[k] < |d.queue|
    requires d.queue[input.picked[k]] == before
  {
    if before.seId !in d.elements then
      Processed(after, input, false) && after.error == Some(SeNotFound) && after.retryCount == before.retryCount + 1
    else if d.elements[before.seId] != Online then
      && after.processedAt == before.processedAt && after.success == before.success
      && after.error == Some(SeUnavailable(d.elements[before.seId])) && after.retryCount == before.retryCount + 1
    else if !Answered(d, input, k) then
      && Processed(after, input, false) && after.error == Some(DeleteFailed(input.replies[k].response))
      && after.retryCount == before.retryCount + 1
    else if input.replies[k].markRaises then
      Processed(after, input, false) && after.error == Some(Raised) && after.retryCount == before.retryCount + 1
    else
      Processed(after, input, true) && after.error == before.error && after.retryCount == before.retryCount
  }

  predicate Processed(after: QueueItem, input: RunInput, success: bool) {
    after.processedAt == Some(input.queueNow) && after.success == Some(success)
  }

  /** A row never changes what it names. */
  predicate NamesTheSame(before: QueueItem, after: QueueItem) {
    && after.fileId == before.fileId && after.seId == before.seId && after.storagePath == before.storagePath
    && after.scheduledAt == before.scheduledAt && after.priority == before.priority && after.reason == before.reason
    && after.createdAt == before.createdAt
  }

  /** A picked row shows what became of its request, the others are as they were. */
  ghost predicate RowMeans(d: Tables, input: RunInput, i: ItemId, after: QueueItem)
    requires InputFits(d.queue, input) && i < |d.queue|
  {
    && NamesTheSame(d.queue[i], after)
    && (i !in input.picked ==> after == d.queue[i])
    && forall k :: 0 <= k < |input.picked| && input.picked[k] == i ==> TurnMeans(d, input, k, d.queue[i], after)
  }

  lemma ProcessMeans(d: Tables, input: RunInput, k: nat)
    requires k < |input.picked| == |input.replies| && input.picked[k] < |d.queue|
    ensures
      var before := d.queue[input.picked[k]];
      var after := Process(before, d.elements, input.replies[k], input.queueNow);
      NamesTheSame(before, after) && TurnMeans(d, input, k, before, after)
  {
  }

  /** Each row by what became of its request. */
  lemma PickedRowAfterRun(s: Settings, d: Tables, contents: Contents, input: RunInput, i: ItemId)
    requires ValidInput(s, d, contents, input) && InputFits(d.queue, input) && i < |d.queue|
    ensures RowMeans(d, input, i, Committed(s, d, contents, input).0.queue[i])
  {
    ProcessFirstRow(Start(d, contents), d.elements, input, |input.picked|, i);
    assert input.picked[..|input.picked|] == input.picked;
    forall k | 0 <= k < |input.picked| && input.picked[k] == i
      ensures TurnMeans(d, input, k, d.queue[i], Committed(s, d, contents, input).0.queue[i])
      ensures NamesTheSame(d.queue[i], Committed(s, d, contents, input).0.queue[i])
    {
      ProcessMeans(d, input, k);
    }
  }

  /** No row is worked off while a more urgent one waits: higher priority first, then the earlier schedule. */
  lemma UrgentRowsFirst(s: Settings, d: Tables, contents: Contents, input: RunInput, i: ItemId, j: ItemId)
    requires ValidInput(s, d, contents, input) && InputFits(d.queue, input) && i < |d.queue| && j < |d.queue|
    requires IsDue(d.queue[i], input.queueNow, s.maxRetry)
    requires
      var d' := Committed(s, d, contents, input).0;
      d'.queue[i] == d.queue[i] && d'.queue[j] != d.queue[j]
    ensures d.queue[j].priority >= d.queue[i].priority
    ensures d.queue[j].priority == d.queue[i].priority ==> d.queue[j].scheduledAt <= d.queue[i].scheduledAt
    ensures |input.picked| == s.batchSize
  {
    PickedRowAfterRun(s, d, contents, input, i);
    PickedRowAfterRun(s, d, contents, input, j);
    var k :| 0 <= k < |input.picked| && input.picked[k] == j;
    if l :| 0 <= l < |input.picked| && input.picked[l] == i {
      assert false;
    }
  }

  /** Unprocessed, due and with retries left. */
  predicate IsDue(item: QueueItem, now: Time, maxRetry: nat) {
    item.processedAt == None && item.scheduledAt <= now && item.retryCount < maxRetry
  }

  /** Temporary, not deleted, and past its TTL. */
  predicate HasExpired(row: File, now: Time) {
    row.retention == Temporary && row.deletedAt == None && row.ttlExpiresAt.Some? && row.ttlExpiresAt.value <= now
  }

  /** Completed long enough ago. */
  predicate IsSettled(txn: Txn, margin: nat, now: Time) {
    txn.status == Completed && txn.completedAt.Some? && txn.completedAt.value + margin <= now
  }

  /** Of a higher priority, or of the same one and scheduled earlier. */
  predicate MoreUrgent(a: QueueItem, b: QueueItem) {
    a.priority > b.priority || (a.priority == b.priority && a.scheduledAt < b.scheduledAt)
  }

  /** Due rows only, no row ahead of a more urgent one, and a row is left out only by a full batch before it. */
  lemma PickMeans(queue: seq<QueueItem>, ids: seq<ItemId>, now: Time, maxRetry: nat, batch: nat)
    ensures IsPick(queue, ids, now, maxRetry, batch) <==>
      && |ids| <= batch
      && (forall k :: 0 <= k < |ids| ==> ids[k] < |queue| && IsDue(queue[ids[k]], now, maxRetry))
      && (forall k, l :: 0 <= k < l < |ids| ==> ids[k] != ids[l] && !MoreUrgent(queue[ids[l]], queue[ids[k]]))
      && (forall i :: 0 <= i < |queue| && IsDue(queue[i], now, maxRetry) && i !in ids ==>
            |ids| == batch && forall k :: 0 <= k < |ids| ==> !MoreUrgent(queue[i], queue[ids[k]]))
  {
  }

  /** The producers' SELECTs: such rows only, each once, at most a batch of them, and all of them if fewer. */
  lemma SelectionsMean(files: map<FileId, File>, expired: seq<FileId>, txns: seq<Txn>, completed: seq<TxnId>,
                       s: Settings, now: Time)
    ensures IsTtlSelection(files, expired, now, s.batchSize) <==>
      && |expired| <= s.batchSize && (forall k, l :: 0 <= k < l < |expired| ==> expired[k] != expired[l])
      && (forall id :: id in expired ==> id in files && HasExpired(files[id], now))
      && (|expired| < s.batchSize ==> forall id :: id in files && HasExpired(files[id], now) ==> id in expired)
    ensures IsFinalizedSelection(txns, completed, now - s.safetyMargin, s.batchSize) <==>
      && |completed| <= s.batchSize && (forall k, l :: 0 <= k < l < |completed| ==> completed[k] != completed[l])
      && (forall k :: 0 <= k < |completed| ==>
            completed[k] < |txns| && IsSettled(txns[completed[k]], s.safetyMargin, now))
      && (|completed| < s.batchSize ==>
            forall t :: 0 <= t < |txns| && IsSettled(txns[t], s.safetyMargin, now) ==> t in completed)
  {
  }

  // ---------- Counters ----------

  predicate CountsClean(item: QueueItem, elements: Elements, reply: Reply) {
    Reachable(elements, item.seId) && reply.Succeeded()
  }

  /** A failing UPDATE counts on both sides: the cleaned counter was raised before it. */
  predicate CountsFailed(item: QueueItem, elements: Elements, reply: Reply) {
    !CountsClean(item, elements, reply) || reply.markRaises
  }

  function CleanCount(queue: seq<QueueItem>, elements: Elements, input: RunInput, n: nat): nat
    requires InputFits(queue, input) && n <= |input.picked|
  {
    if n == 0 then 0
    else
      CleanCount(queue, elements, input, n - 1)
      + if CountsClean(queue[input.picked[n - 1]], elements, input.replies[n - 1]) then 1 else 0
  }

  function FailCount(queue: seq<QueueItem>, elements: Elements, input: RunInput, n: nat): nat
    requires InputFits(queue, input) && n <= |input.picked|
  {
    if n == 0 then 0
    else
      FailCount(queue, elements, input, n - 1)
      + if CountsFailed(queue[input.picked[n - 1]], elements, input.replies[n - 1]) then 1 else 0
  }

  /** Every row of the batch is counted, and one is counted twice exactly when its UPDATE raised. */
  lemma {:induction false} CountsAddUp(queue: seq<QueueItem>, elements: Elements, input: RunInput, n: nat)
    requires InputFits(queue, input) && n <= |input.picked|
    ensures n <= CleanCount(queue, elements, input, n) + FailCount(queue, elements, input, n)
    ensures (forall k :: 0 <= k < n ==> !input.replies[k].markRaises) ==>
      CleanCount(queue, elements, input, n) + FailCount(queue, elements, input, n) == n
  {
    if n > 0 {
      CountsAddUp(queue, elements, input, n - 1);
    }
  }

  /** `scalar_one_or_none` raises when a file already has several pending rows. */
  function TtlFailures(queue: seq<QueueItem>, ids: seq<FileId>): nat {
    if ids == [] then 0
    else TtlFailures(queue, ids[..|ids| - 1]) + if |PendingOf(queue, ids[|ids| - 1], None)| > 1 then 1 else 0
  }

  function FinalizedFailures(queue: seq<QueueItem>, txns: seq<Txn>, ids: seq<TxnId>): nat
    requires forall k :: 0 <= k < |ids| ==> ids[k] < |txns|
  {
    if ids == [] then 0
    else
      var txn := txns[ids[|ids| - 1]];
      FinalizedFailures(queue, txns, ids[..|ids| - 1])
      + if |PendingOf(queue, txn.fileId, Some(txn.sourceSe))| > 1 then 1 else 0
  }

  // ---------- What the counters mean ----------

  /** The picked rows that ended processed, with success or because their UPDATE of `files` raised. */
  function CleanedRows(after: seq<QueueItem>, picked: seq<ItemId>, n: nat): nat
    requires n <= |picked| && forall k :: 0 <= k < |picked| ==> picked[k] < |after|
  {
    if n == 0 then 0
    else
      var r := after[picked[n - 1]];
      CleanedRows(after, picked, n - 1)
      + if r.processedAt.Some? && (r.success == Some(true) || r.error == Some(Raised)) then 1 else 0
  }

  /** The picked rows that gained a retry. */
  function RetriedRows(before: seq<QueueItem>, after: seq<QueueItem>, picked: seq<ItemId>, n: nat): nat
    requires n <= |picked| && |before| <= |after| && forall k :: 0 <= k < |picked| ==> picked[k] < |before|
  {
    if n == 0 then 0
    else
      RetriedRows(before, after, picked, n - 1)
      + if after[picked[n - 1]].retryCount > before[picked[n - 1]].retryCount then 1 else 0
  }

  /** The turns whose DELETE was answered, and those that failed. */
  function AnsweredTurns(d: Tables, input: RunInput, n: nat): nat
    requires InputFits(d.queue, input) && n <= |input.picked|
  {
    if n == 0 then 0 else AnsweredTurns(d, input, n - 1) + if Answered(d, input, n - 1) then 1 else 0
  }

  function FailedTurns(d: Tables, input: RunInput, n: nat): nat
    requires InputFits(d.queue, input) && n <= |input.picked|
  {
    if n == 0 then 0
    else
      FailedTurns(d, input, n - 1)
      + if !Answered(d, input, n - 1) || input.replies[n - 1].markRaises then 1 else 0
  }

  lemma {:induction false} CountsAreTurns(d: Tables, input: RunInput, n: nat)
    requires InputFits(d.queue, input) && n <= |input.picked|
    ensures CleanCount(d.queue, d.elements, input, n) == AnsweredTurns(d, input, n)
    ensures FailCount(d.queue, d.elements, input, n) == FailedTurns(d, input, n)
  {
    if n > 0 {
      CountsAreTurns(d, input, n - 1);
    }
  }

  lemma {:induction false} CountersOf(d: Tables, input: RunInput, after: seq<QueueItem>, n: nat)
    requires InputFits(d.queue, input) && n <= |input.picked| && |d.queue| <= |after|
    requires forall i :: 0 <= i < |d.queue| ==> RowMeans(d, input, i, after[i])
    requires forall k :: 0 <= k < |input.picked| ==> d.queue[input.picked[k]].processedAt.None?
    ensures CleanCount(d.queue, d.elements, input, n) == CleanedRows(after, input.picked, n)
    ensures FailCount(d.queue, d.elements, input, n) == RetriedRows(d.queue, after, input.picked, n)
  {
    if n > 0 {
      CountersOf(d, input, after, n - 1);
      var i := input.picked[n - 1];
      assert RowMeans(d, input, i, after[i]);
      assert TurnMeans(d, input, n - 1, d.queue[i], after[i]);
    }
  }

  /**
  `queueProcessed` is the number of picked rows that end processed with success, or whose UPDATE of `files` raised;
  `queueFailed` is the number of picked rows that gained a retry.
  */
  lemma CountersMeanRows(s: Settings, d: Tables, contents: Contents, input: RunInput)
    requires ValidInput(s, d, contents, input) && InputFits(d.queue, input)
    ensures
      var after := Committed(s, d, contents, input).0.queue;
      var n := |input.picked|;
      && |d.queue| <= |after|
      && CleanCount(d.queue, d.elements, input, n) == CleanedRows(after, input.picked, n)
      && FailCount(d.queue, d.elements, input, n) == RetriedRows(d.queue, after, input.picked, n)
  {
    var after := Committed(s, d, contents, input).0.queue;
    forall i | 0 <= i < |d.queue| ensures RowMeans(d, input, i, after[i]) {
      PickedRowAfterRun(s, d, contents, input, i);
    }
    CountersOf(d, input, after, |input.picked|);
  }

  // ---------- The producers ----------

  /** An unprocessed row of the file, on this element if one is given. */
  predicate IsPendingFor(item: QueueItem, id: FileId, seId: Option<SeId>) {
    item.processedAt.None? && item.fileId == id && (seId.None? || item.seId == seId.value)
  }

  datatype Load = NoRow | OneRow | SeveralRows

  /** How many pending rows there are. */
  predicate HasLoad(queue: seq<QueueItem>, id: FileId, seId: Option<SeId>, load: Load) {
    match load
    case NoRow => forall i :: 0 <= i < |queue| ==> !IsPendingFor(queue[i], id, seId)
    case OneRow =>
      exists i :: 0 <= i < |queue| && IsPendingFor(queue[i], id, seId)
               && forall j :: 0 <= j < |queue| && IsPendingFor(queue[j], id, seId) ==> j == i
    case SeveralRows =>
      exists i, j :: 0 <= i < j < |queue| && IsPendingFor(queue[i], id, seId) && IsPendingFor(queue[j], id, seId)
  }

  lemma SetSizes(rows: set<nat>)
    ensures |rows| == 1 <==> exists i :: i in rows && forall j :: j in rows ==> j == i
    ensures |rows| > 1 <==> exists i, j :: i in rows && j in rows && i < j
  {
    if i, j :| i in rows && j in rows && i < j {
      SubsetSize({i, j}, rows);
    } else if i :| i in rows {
      assert rows == {i};
    }
  }

  /** `rows` are the positions of the pending rows. */
  ghost predicate ArePending(rows: set<ItemId>, queue: seq<QueueItem>, id: FileId, seId: Option<SeId>) {
    forall i: ItemId :: i in rows <==> i < |queue| && IsPendingFor(queue[i], id, seId)
  }

  lemma NoRowIsEmpty(rows: set<ItemId>, queue: seq<QueueItem>, id: FileId, seId: Option<SeId>)
    requires ArePending(rows, queue, id, seId)
    ensures HasLoad(queue, id, seId, NoRow) <==> rows == {}
  {
  }

  lemma OneRowIsOne(rows: set<ItemId>, queue: seq<QueueItem>, id: FileId, seId: Option<SeId>)
    requires ArePending(rows, queue, id, seId)
    ensures HasLoad(queue, id, seId, OneRow) <==> |rows| == 1
  {
    SetSizes(rows);
    if |rows| == 1 {
      var i :| i in rows && forall j :: j in rows ==> j == i;
      assert IsPendingFor(queue[i], id, seId);
    }
    if HasLoad(queue, id, seId, OneRow) {
      var i :| 0 <= i < |queue| && IsPendingFor(queue[i], id, seId);
      assert i in rows;
    }
  }

  lemma SeveralRowsAreMore(rows: set<ItemId>, queue: seq<QueueItem>, id: FileId, seId: Option<SeId>)
    requires ArePending(rows, queue, id, seId)
    ensures HasLoad(queue, id, seId, SeveralRows) <==> |rows| > 1
  {
    SetSizes(rows);
    if i, j :| i in rows && j in rows && i < j {
      assert IsPendingFor(queue[i], id, seId) && IsPendingFor(queue[j], id, seId);
    }
    if i, j :| 0 <= i < j < |queue| && IsPendingFor(queue[i], id, seId) && IsPendingFor(queue[j], id, seId) {
      assert i in rows && j in rows;
    }
  }

  lemma LoadIsSize(queue: seq<QueueItem>, id: FileId, seId: Option<SeId>)
    ensures HasLoad(queue, id, seId, NoRow) <==> PendingOf(queue, id, seId) == {}
    ensures HasLoad(queue, id, seId, OneRow) <==> |PendingOf(queue, id, seId)| == 1
    ensures HasLoad(queue, id, seId, SeveralRows) <==> |PendingOf(queue, id, seId)| > 1
  {
    var rows: set<ItemId> := PendingOf(queue, id, seId);
    assert ArePending(rows, queue, id, seId);
    NoRowIsEmpty(rows, queue, id, seId);
    OneRowIsOne(rows, queue, id, seId);
    SeveralRowsAreMore(rows, queue, id, seId);
  }

  /** A file, and an element if only that one matters. */
  type Name = (FileId, Option<SeId>)

  /** How many of these have that load. */
  function LoadCount(queue: seq<QueueItem>, names: seq<Name>, load: Load): nat {
    if names == [] then 0
    else
      var n := |names| - 1;
      LoadCount(queue, names[..n], load) + if HasLoad(queue, names[n].0, names[n].1, load) then 1 else 0
  }

  /** Each has no pending row, one, or several. */
  lemma {:induction false} LoadsAddUp(queue: seq<QueueItem>, names: seq<Name>)
    ensures LoadCount(queue, names, NoRow) + LoadCount(queue, names, OneRow) + LoadCount(queue, names, SeveralRows)
         == |names|
  {
    if names != [] {
      var n := |names| - 1;
      LoadsAddUp(queue, names[..n]);
      LoadIsSize(queue, names[n].0, names[n].1);
    }
  }

  function ExpiredNames(ids: seq<FileId>): seq<Name> {
    seq(|ids|, k requires 0 <= k < |ids| => (ids[k], None))
  }

  function SourceNames(txns: seq<Txn>, ids: seq<TxnId>): seq<Name>
    requires forall k :: 0 <= k < |ids| ==> ids[k] < |txns|
  {
    seq(|ids|, k requires 0 <= k < |ids| => (txns[ids[k]].fileId, Some(txns[ids[k]].sourceSe)))
  }

  /** A fresh row, due at once, of normal priority. */
  predicate IsFreshRow(r: QueueItem, now: Time) {
    && r.scheduledAt == now && r.createdAt == now && r.priority == 10
    && r.processedAt == None && r.success == None && r.error == None && r.retryCount == 0
  }

  /** The row that an expired file without a pending row gets: on the element and path of its row. */
  predicate TtlRowFor(r: QueueItem, queue: seq<QueueItem>, files: map<FileId, File>, id: FileId, now: Time) {
    && HasLoad(queue, id, None, NoRow) && IsFreshRow(r, now) && r.reason == TtlExpired
    && r.fileId == id && id in files && r.seId == files[id].seId && r.storagePath == Some(files[id].storagePath)
  }

  /** The row that the source of a completed transaction gets if none is pending there. */
  predicate SourceRowFor(r: QueueItem, queue: seq<QueueItem>, files: map<FileId, File>, txn: Txn, now: Time) {
    && HasLoad(queue, txn.fileId, Some(txn.sourceSe), NoRow) && IsFreshRow(r, now) && r.reason == Finalized
    && r.fileId == txn.fileId && r.seId == txn.sourceSe
    && r.storagePath == if txn.fileId in files then Some(files[txn.fileId].storagePath) else None
  }

  predicate IsTtlRow(r: QueueItem, queue: seq<QueueItem>, files: map<FileId, File>, ids: seq<FileId>, now: Time) {
    exists k :: 0 <= k < |ids| && TtlRowFor(r, queue, files, ids[k], now)
  }

  predicate IsSourceRow(r: QueueItem, queue: seq<QueueItem>, files: map<FileId, File>, txns: seq<Txn>, ids: seq<TxnId>,
                        now: Time)
    requires forall k :: 0 <= k < |ids| ==> ids[k] < |txns|
  {
    exists k :: 0 <= k < |ids| && SourceRowFor(r, queue, files, txns[ids[k]], now)
  }

  lemma TtlItemMeans(queue: seq<QueueItem>, files: map<FileId, File>, id: FileId, now: Time)
    requires id in files
    ensures forall r :: r in TtlItem(queue, files, id, now) <==> TtlRowFor(r, queue, files, id, now)
    ensures |TtlItem(queue, files, id, now)| == if HasLoad(queue, id, None, NoRow) then 1 else 0
  {
    LoadIsSize(queue, id, None);
  }

  lemma FinalizedItemMeans(queue: seq<QueueItem>, files: map<FileId, File>, txn: Txn, now: Time)
    ensures forall r :: r in FinalizedItem(queue, files, txn, now) <==> SourceRowFor(r, queue, files, txn, now)
    ensures |FinalizedItem(queue, files, txn, now)|
         == if HasLoad(queue, txn.fileId, Some(txn.sourceSe), NoRow) then 1 else 0
  {
    LoadIsSize(queue, txn.fileId, Some(txn.sourceSe));
  }

  lemma TtlRowSplits(r: QueueItem, queue: seq<QueueItem>, files: map<FileId, File>, ids: seq<FileId>, now: Time)
    requires ids != []
    ensures
      var n := |ids| - 1;
      IsTtlRow(r, queue, files, ids, now) <==>
        IsTtlRow(r, queue, files, ids[..n], now) || TtlRowFor(r, queue, files, ids[n], now)
  {
    var n := |ids| - 1;
    if k :| 0 <= k < |ids| && TtlRowFor(r, queue, files, ids[k], now) {
      assert k < n ==> ids[..n][k] == ids[k];
    }
    if k :| 0 <= k < n && TtlRowFor(r, queue, files, ids[..n][k], now) {
      assert ids[k] == ids[..n][k];
    }
  }

  lemma SourceRowSplits(r: QueueItem, queue: seq<QueueItem>, files: map<FileId, File>, txns: seq<Txn>, ids: seq<TxnId>,
                        now: Time)
    requires ids != [] && forall k :: 0 <= k < |ids| ==> ids[k] < |txns|
    ensures
      var n := |ids| - 1;
      IsSourceRow(r, queue, files, txns, ids, now) <==>
        IsSourceRow(r, queue, files, txns, ids[..n], now) || SourceRowFor(r, queue, files, txns[ids[n]], now)
  {
    var n := |ids| - 1;
    if k :| 0 <= k < |ids| && SourceRowFor(r, queue, files, txns[ids[k]], now) {
      assert k < n ==> ids[..n][k] == ids[k];
    }
    if k :| 0 <= k < n && SourceRowFor(r, queue, files, txns[ids[..n][k]], now) {
      assert ids[k] == ids[..n][k];
    }
  }

  /**
  The TTL producer adds exactly one row for each expired file without a pending row, and counts a failure for each
  that has several; a file with exactly one is passed over.
  */
  lemma {:induction false} TtlProducerMeans(queue: seq<QueueItem>, files: map<FileId, File>, ids: seq<FileId>,
                                            now: Time)
    requires forall k :: 0 <= k < |ids| ==> ids[k] in files
    ensures forall r :: r in TtlItems(queue, files, ids, now) <==> IsTtlRow(r, queue, files, ids, now)
    ensures |TtlItems(queue, files, ids, now)| == LoadCount(queue, ExpiredNames(ids), NoRow)
    ensures TtlFailures(queue, ids) == LoadCount(queue, ExpiredNames(ids), SeveralRows)
  {
    if ids == [] {
      assert ExpiredNames(ids) == [];
    } else {
      var n := |ids| - 1;
      TtlProducerMeans(queue, files, ids[..n], now);
      assert ExpiredNames(ids)[..n] == ExpiredNames(ids[..n]);
      LoadIsSize(queue, ids[n], None);
      TtlItemMeans(queue, files, ids[n], now);
      forall r ensures r in TtlItems(queue, files, ids, now) <==> IsTtlRow(r, queue, files, ids, now) {
        TtlRowSplits(r, queue, files, ids, now);
        assert r in TtlItems(queue, files, ids[..n], now) <==> IsTtlRow(r, queue, files, ids[..n], now);
      }
    }
  }

  /** The same for the finalized producer and the sources of the selected transactions. */
  lemma {:induction false} FinalizedProducerMeans(queue: seq<QueueItem>, files: map<FileId, File>, txns: seq<Txn>,
                                                  ids: seq<TxnId>, now: Time)
    requires forall k :: 0 <= k < |ids| ==> ids[k] < |txns|
    ensures forall r :: r in FinalizedItems(queue, files, txns, ids, now) <==>
                        IsSourceRow(r, queue, files, txns, ids, now)
    ensures |FinalizedItems(queue, files, txns, ids, now)| == LoadCount(queue, SourceNames(txns, ids), NoRow)
    ensures FinalizedFailures(queue, txns, ids) == LoadCount(queue, SourceNames(txns, ids), SeveralRows)
  {
    if ids == [] {
      assert SourceNames(txns, ids) == [];
    } else {
      var n := |ids| - 1;
      FinalizedProducerMeans(queue, files, txns, ids[..n], now);
      assert SourceNames(txns, ids)[..n] == SourceNames(txns, ids[..n]);
      LoadIsSize(queue, txns[ids[n]].fileId, Some(txns[ids[n]].sourceSe));
      FinalizedItemMeans(queue, files, txns[ids[n]], now);
      forall r
        ensures r in FinalizedItems(queue, files, txns, ids, now) <==> IsSourceRow(r, queue, files, txns, ids, now)
      {
        SourceRowSplits(r, queue, files, txns, ids, now);
        assert r in FinalizedItems(queue, files, txns, ids[..n], now) <==>
               IsSourceRow(r, queue, files, txns, ids[..n], now);
      }
    }
  }

  /** The row that a listed id without a registry row gets: due after the grace period, of low priority. */
  predicate OrphanRowFor(r: QueueItem, queue: seq<QueueItem>, files: map<FileId, File>, id: FileId, seId: SeId,
                         grace: nat, now: Time)
  {
    && HasLoad(queue, id, Some(seId), NoRow) && id !in files
    && r.fileId == id && r.seId == seId && r.storagePath == None && r.scheduledAt == now + grace && r.createdAt == now
    && r.priority == 0 && r.reason == Orphaned
    && r.processedAt == None && r.success == None && r.error == None && r.retryCount == 0
  }

  predicate IsOrphanRow(r: QueueItem, queue: seq<QueueItem>, files: map<FileId, File>, seId: SeId, listing: seq<FileId>,
                        grace: nat, now: Time)
  {
    exists k :: 0 <= k < |listing| && OrphanRowFor(r, queue, files, listing[k], seId, grace, now)
  }

  lemma OrphanItemMeans(queue: seq<QueueItem>, id: FileId, seId: SeId, grace: nat, now: Time)
    ensures forall r :: r in OrphanItem(queue, id, seId, grace, now) <==>
                        OrphanRowFor(r, queue, map[], id, seId, grace, now)
  {
    LoadIsSize(queue, id, Some(seId));
  }

  /** The orphan scan adds a row for exactly the listed ids that nothing knows. */
  lemma {:induction false} OrphanProducerMeans(queue: seq<QueueItem>, files: map<FileId, File>, seId: SeId,
                                               listing: seq<FileId>, grace: nat, now: Time, r: QueueItem)
    ensures r in OrphanItems(queue, files, seId, listing, grace, now) <==>
            IsOrphanRow(r, queue, files, seId, listing, grace, now)
  {
    if listing != [] {
      var n := |listing| - 1;
      OrphanProducerMeans(queue, files, seId, listing[..n], grace, now, r);
      OrphanItemMeans(queue, listing[n], seId, grace, now);
      if k :| 0 <= k < |listing| && OrphanRowFor(r, queue, files, listing[k], seId, grace, now) {
        assert k < n ==> listing[..n][k] == listing[k];
      }
      if k :| 0 <= k < n && OrphanRowFor(r, queue, files, listing[..n][k], seId, grace, now) {
        assert listing[k] == listing[..n][k];
      }
    }
  }

  // ---------- Files and copies ----------

  /** The k-th turn ended in a successful delete of this file whose UPDATE went through. */
  predicate StampsFile(d: Tables, input: RunInput, k: nat, f: FileId)
    requires k < |input.picked| == |input.replies| && input.picked[k] < |d.queue|
  {
    Answered(d, input, k) && !input.replies[k].markRaises && d.queue[input.picked[k]].fileId == f
  }

  /** The file as the pass left it: untouched, or marked deleted by the last turn that stamped it. */
  ghost predicate FileMeans(d: Tables, input: RunInput, n: nat, f: FileId, after: File)
    requires InputFits(d.queue, input) && n <= |input.picked| && f in d.files
  {
    && after == d.files[f].(deletedAt := after.deletedAt, deletionReason := after.deletionReason)
    && ((forall k :: 0 <= k < n ==> !StampsFile(d, input, k, f)) ==> after == d.files[f])
    && forall k :: 0 <= k < n && StampsFile(d, input, k, f)
                   && (forall l :: k < l < n ==> !StampsFile(d, input, l, f)) ==>
         && after.deletedAt == Some(input.replies[k].markAt)
         && after.deletionReason == match d.queue[input.picked[k]].reason
                                    case TtlExpired => Some("ttl_expired")
                                    case Finalized => Some("finalized")
                                    case Orphaned => Some("orphaned")
                                    case Manual => Some("manual")
  }

  /** An element dropped the copy when it was asked to. */
  predicate RemovesCopy(d: Tables, input: RunInput, k: nat, key: (SeId, FileId))
    requires k < |input.picked| == |input.replies| && input.picked[k] < |d.queue|
  {
    var item := d.queue[input.picked[k]];
    && (item.seId, item.fileId) == key && item.seId in d.elements && d.elements[item.seId] == Online
    && input.replies[k].removed
  }

  ghost predicate ContentsMean(d: Tables, contents: Contents, input: RunInput, n: nat, after: Contents)
    requires InputFits(d.queue, input) && n <= |input.picked|
  {
    forall key ::
      && (key in after <==> key in contents && forall k :: 0 <= k < n ==> !RemovesCopy(d, input, k, key))
      && (key in after ==> after[key] == contents[key])
  }

  lemma FileAfterTurn(d: Tables, input: RunInput, n: nat, f: FileId, before: File, after: File)
    requires InputFits(d.queue, input) && 0 < n <= |input.picked| && f in d.files
    requires FileMeans(d, input, n - 1, f, before)
    requires
      var item := d.queue[input.picked[n - 1]];
      after == if StampsFile(d, input, n - 1, f)
               then before.(deletedAt := Some(input.replies[n - 1].markAt),
                            deletionReason := Some(ReasonText(item.reason)))
               else before
    ensures FileMeans(d, input, n, f, after)
  {
    if StampsFile(d, input, n - 1, f) {
      forall k | 0 <= k < n && StampsFile(d, input, k, f) && (forall l :: k < l < n ==> !StampsFile(d, input, l, f))
        ensures k == n - 1
      {
      }
    } else {
      assert after == before;
    }
  }

  lemma {:induction false} FileAfterPass(d: Tables, contents: Contents, input: RunInput, n: nat, f: FileId)
    requires InputFits(d.queue, input) && Distinct(input.picked) && n <= |input.picked| && f in d.files
    ensures
      var files := ProcessFirst(Start(d, contents), d.elements, input, n).files;
      f in files && FileMeans(d, input, n, f, files[f])
  {
    if n > 0 {
      FileAfterPass(d, contents, input, n - 1, f);
      RowBeforeTurn(d, contents, input, n);
      var before := ProcessFirst(Start(d, contents), d.elements, input, n - 1).files[f];
      var after := ProcessFirst(Start(d, contents), d.elements, input, n).files[f];
      FileAfterTurn(d, input, n, f, before, after);
    }
  }

  lemma RowBeforeTurn(d: Tables, contents: Contents, input: RunInput, n: nat)
    requires InputFits(d.queue, input) && Distinct(input.picked) && 0 < n <= |input.picked|
    ensures
      var p := ProcessFirst(Start(d, contents), d.elements, input, n - 1);
      p.queue[input.picked[n - 1]] == d.queue[input.picked[n - 1]]
  {
    ProcessFirstRow(Start(d, contents), d.elements, input, n - 1, input.picked[n - 1]);
    assert input.picked[n - 1] !in input.picked[..n - 1];
  }

  lemma {:induction false} ContentsAfterPass(d: Tables, contents: Contents, input: RunInput, n: nat)
    requires InputFits(d.queue, input) && Distinct(input.picked) && n <= |input.picked|
    ensures ContentsMean(d, contents, input, n, ProcessFirst(Start(d, contents), d.elements, input, n).contents)
  {
    if n > 0 {
      ContentsAfterPass(d, contents, input, n - 1);
      RowBeforeTurn(d, contents, input, n);
      var before := ProcessFirst(Start(d, contents), d.elements, input, n - 1).contents;
      var after := ProcessFirst(Start(d, contents), d.elements, input, n).contents;
      forall key
        ensures key in after <==> key in before && !RemovesCopy(d, input, n - 1, key)
        ensures key in after ==> after[key] == before[key]
      {
      }
    }
  }

  lemma {:induction false} PassKeepsKeys(d: Tables, contents: Contents, input: RunInput, n: nat)
    requires InputFits(d.queue, input) && n <= |input.picked|
    ensures ProcessFirst(Start(d, contents), d.elements, input, n).files.Keys == d.files.Keys
  {
    if n > 0 {
      PassKeepsKeys(d, contents, input, n - 1);
    }
  }

  // ---------- The whole run ----------

  datatype RunResult = RunResult(
    queueProcessed: nat, queueFailed: nat,
    ttlCleaned: nat, ttlFailed: nat,
    finalizedCleaned: nat, finalizedFailed: nat)

  /** The counters of a completed run. */
  function Counters(d: Tables, done: Progress, input: RunInput): RunResult
    requires InputFits(d.queue, input)
    requires forall k :: 0 <= k < |input.completed| ==> input.completed[k] < |d.txns|
  {
    RunResult(
      CleanCount(d.queue, d.elements, input, |input.picked|), FailCount(d.queue, d.elements, input, |input.picked|),
      |TtlItems(d.queue, done.files, input.expired, input.ttlNow)|, TtlFailures(d.queue, input.expired),
      |FinalizedItems(d.queue, done.files, d.txns, input.completed, input.finalizedNow)|,
      FinalizedFailures(d.queue, d.txns, input.completed))
  }

  /** The rows behind the old ones are what the two producers owe. */
  ghost predicate AddedMean(d: Tables, input: RunInput, d': Tables)
    requires forall k :: 0 <= k < |input.completed| ==> input.completed[k] < |d.txns|
  {
    && |d.queue| <= |d'.queue|
    && forall r :: r in d'.queue[|d.queue|..] <==>
         || IsTtlRow(r, d.queue, d'.files, input.expired, input.ttlNow)
         || IsSourceRow(r, d.queue, d'.files, d.txns, input.completed, input.finalizedNow)
  }

  ghost predicate CountersMean(d: Tables, input: RunInput, d': Tables, result: RunResult)
    requires |d.queue| <= |d'.queue| && InputFits(d.queue, input)
    requires forall k :: 0 <= k < |input.completed| ==> input.completed[k] < |d.txns|
  {
    var expired, sources := ExpiredNames(input.expired), SourceNames(d.txns, input.completed);
    && result.queueProcessed == CleanedRows(d'.queue, input.picked, |input.picked|)
    && result.queueFailed == RetriedRows(d.queue, d'.queue, input.picked, |input.picked|)
    && result.ttlCleaned == LoadCount(d.queue, expired, NoRow)
    && result.ttlFailed == LoadCount(d.queue, expired, SeveralRows)
    && result.ttlCleaned + LoadCount(d.queue, expired, OneRow) + result.ttlFailed == |input.expired|
    && result.finalizedCleaned == LoadCount(d.queue, sources, NoRow)
    && result.finalizedFailed == LoadCount(d.queue, sources, SeveralRows)
    && result.finalizedCleaned + LoadCount(d.queue, sources, OneRow) + result.finalizedFailed == |input.completed|
    && |d'.queue| == |d.queue| + result.ttlCleaned + result.finalizedCleaned
  }

  /** What a committed run has done to the tables and the bytes, and what its counters say of it. */
  ghost predicate RunMeans(d: Tables, contents: Contents, input: RunInput, d': Tables, contents': Contents,
                           result: RunResult)
    requires InputFits(d.queue, input)
    requires forall k :: 0 <= k < |input.completed| ==> input.completed[k] < |d.txns|
  {
    && d'.txns == d.txns && d'.elements == d.elements && d'.files.Keys == d.files.Keys
    && (forall f :: f in d.files ==> FileMeans(d, input, |input.picked|, f, d'.files[f]))
    && ContentsMean(d, contents, input, |input.picked|, contents')
    && AddedMean(d, input, d')
    && (forall i :: 0 <= i < |d.queue| ==> RowMeans(d, input, i, d'.queue[i]))
    && CountersMean(d, input, d', result)
  }

  lemma AdditionsMean(s: Settings, d: Tables, contents: Contents, input: RunInput)
    requires ValidInput(s, d, contents, input) && InputFits(d.queue, input)
    requires forall k :: 0 <= k < |input.expired| ==> input.expired[k] in d.files
    ensures
      var (d', _) := Committed(s, d, contents, input);
      var done := ProcessFirst(Start(d, contents), d.elements, input, |input.picked|);
      && AddedMean(d, input, d') && CountersMean(d, input, d', Counters(d, done, input))
  {
    var (d', _) := Committed(s, d, contents, input);
    var done := ProcessFirst(Start(d, contents), d.elements, input, |input.picked|);
    PassKeepsKeys(d, contents, input, |input.picked|);
    TtlProducerMeans(d.queue, done.files, input.expired, input.ttlNow);
    FinalizedProducerMeans(d.queue, done.files, d.txns, input.completed, input.finalizedNow);
    assert d'.queue[|d.queue|..] == Additions(d, done, input);
    CountersMeanRows(s, d, contents, input);
    LoadsAddUp(d.queue, ExpiredNames(input.expired));
    LoadsAddUp(d.queue, SourceNames(d.txns, input.completed));
  }

  /** Every committed run. */
  lemma CommittedRunMeans(s: Settings, d: Tables, contents: Contents, input: RunInput)
    requires ValidInput(s, d, contents, input) && InputFits(d.queue, input)
    requires forall k :: 0 <= k < |input.expired| ==> input.expired[k] in d.files
    ensures
      var (d', contents') := Committed(s, d, contents, input);
      var done := ProcessFirst(Start(d, contents), d.elements, input, |input.picked|);
      RunMeans(d, contents, input, d', contents', Counters(d, done, input))
  {
    PassKeepsKeys(d, contents, input, |input.picked|);
    forall f | f in d.files
      ensures FileMeans(d, input, |input.picked|, f, Committed(s, d, contents, input).0.files[f])
    {
      FileAfterPass(d, contents, input, |input.picked|, f);
    }
    ContentsAfterPass(d, contents, input, |input.picked|);
    forall i | 0 <= i < |d.queue| ensures RowMeans(d, input, i, Committed(s, d, contents, input).0.queue[i]) {
      PickedRowAfterRun(s, d, contents, input, i);
    }
    AdditionsMean(s, d, contents, input);
  }

  /** A service that commits what the phases computed has done a run. */
  lemma PhasesMakeARun(s: Settings, d: Tables, contents: Contents, input: RunInput, d': Tables, contents': Contents,
                       result: RunResult)
    requires ValidInput(s, d, contents, input) && InputFits(d.queue, input)
    requires forall k :: 0 <= k < |input.expired| ==> input.expired[k] in d.files
    requires
      var done := ProcessFirst(Start(d, contents), d.elements, input, |input.picked|);
      && d' == d.(files := done.files, queue := done.queue + Additions(d, done, input)) && contents' == done.contents
      && result == Counters(d, done, input)
    ensures (d', contents') == Committed(s, d, contents, input)
    ensures RunMeans(d, contents, input, d', contents', result)
  {
    CommittedRunMeans(s, d, contents, input);
  }
}
