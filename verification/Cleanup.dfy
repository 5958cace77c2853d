/**
Tables and decision rules of the garbage collector.

Every rule here is a function of the rows a SELECT returned and of the reply of the Storage Element,
so that the serial service (GarbageCollector), the interleaved system (FileLifecycle) and the whole-run
theorems (GcQueue, GcRecovery) all speak about the same steps.
*/
module Cleanup {
  import opened Wrappers
  import opened FileRegistry

  type ItemId = nat
  type TxnId = nat

  datatype StorageStatus = Online | Offline | Degraded | Maintenance

  // ---------- Finalize transactions ----------

  datatype TxnStatus = Copying | Copied | Verifying | Completed | Failed | RolledBack

  datatype Txn = Txn(
    fileId: FileId,
    sourceSe: SeId,
    targetSe: SeId,
    status: TxnStatus,
    checksumSource: Option<Checksum>,
    checksumTarget: Option<Checksum>,
    completedAt: Option<Time>)
  {
    predicate IsPending() {
      status in {Copying, Copied, Verifying}
    }
  }

  // ---------- The cleanup queue ----------

  datatype Reason = TtlExpired | Finalized | Orphaned | Manual

  const PRIORITY_LOW: int := 0
  const PRIORITY_NORMAL: int := 10

  datatype ItemError =
    | SeNotFound
    | SeUnavailable(status: StorageStatus)
    | DeleteFailed(response: Response)
    | Raised

  datatype QueueItem = QueueItem(
    fileId: FileId,
    seId: SeId,
    storagePath: Option<string>,
    scheduledAt: Time,
    priority: int,
    reason: Reason,
    processedAt: Option<Time>,
    success: Option<bool>,
    error: Option<ItemError>,
    retryCount: nat,
    createdAt: Time)
  {
    predicate Pending() {
      processedAt.None?
    }

    /** The WHERE clause of the queue SELECT. */
    predicate Eligible(now: Time, maxRetry: nat) {
      Pending() && scheduledAt <= now && retryCount < maxRetry
    }
  }

  function NewItem(fileId: FileId, seId: SeId, path: Option<string>, at: Time, priority: int, reason: Reason, now: Time)
    : QueueItem
  {
    QueueItem(fileId, seId, path, at, priority, reason, None, None, None, 0, now)
  }

  // ---------- Remote deletes ----------

  datatype Response = Status(code: int) | Timeout | ConnectError | UnexpectedError

  /**
  The reply to one DELETE request. `removed` says whether the element dropped the bytes (a timeout can hide
  a completed delete), `markRaises` whether the following UPDATE of the `files` row raises, `markAt` its time.
  */
  datatype Reply = Reply(response: Response, removed: bool, markRaises: bool, markAt: Time)
  {
    /** 404 counts as success. */
    predicate Succeeded() {
      response.Status? && response.code in {200, 204, 404}
    }

    /** What a Storage Element's answer means for its contents. */
    predicate Honest(present: bool) {
      && (response.Status? && response.code in {200, 204} ==> removed)
      && (response.Status? && response.code == 404 ==> !present)
    }
  }

  type Elements = map<SeId, StorageStatus>
  type Contents = map<(SeId, FileId), Checksum>

  predicate Reachable(elements: Elements, seId: SeId) {
    seId in elements && elements[seId] == Online
  }

  /** The queue row after its turn in `_process_cleanup_queue`. */
  function Process(item: QueueItem, elements: Elements, reply: Reply, now: Time): QueueItem {
    if item.seId !in elements then
      item.(processedAt := Some(now), success := Some(false), error := Some(SeNotFound),
            retryCount := item.retryCount + 1)
    else if elements[item.seId] != Online then
      item.(retryCount := item.retryCount + 1, error := Some(SeUnavailable(elements[item.seId])))
    else if !reply.Succeeded() then
      item.(processedAt := Some(now), success := Some(false), error := Some(DeleteFailed(reply.response)),
            retryCount := item.retryCount + 1)
    else if reply.markRaises then
      item.(processedAt := Some(now), success := Some(false), error := Some(Raised),
            retryCount := item.retryCount + 1)
    else
      item.(processedAt := Some(now), success := Some(true))
  }

  /** The `files` row is stamped only after a successful delete. */
  predicate Marks(item: QueueItem, elements: Elements, reply: Reply) {
    Reachable(elements, item.seId) && reply.Succeeded() && !reply.markRaises
  }

  predicate Removes(item: QueueItem, elements: Elements, reply: Reply) {
    Reachable(elements, item.seId) && reply.removed
  }

  function ReasonText(reason: Reason): string {
    match reason
    case TtlExpired => "ttl_expired"
    case Finalized => "finalized"
    case Orphaned => "orphaned"
    case Manual => "manual"
  }

  /** `_mark_file_as_deleted`: a direct UPDATE, for every reason and also over an earlier stamp. */
  function Stamp(files: map<FileId, File>, fileId: FileId, reason: Reason, at: Time): map<FileId, File> {
    if fileId in files
    then files[fileId := files[fileId].(deletedAt := Some(at), deletionReason := Some(ReasonText(reason)))]
    else files
  }

  function Strike(contents: Contents, seId: SeId, fileId: FileId): Contents {
    contents - {(seId, fileId)}
  }

  // ---------- Producers ----------

  /** WHERE clause of the TTL SELECT. */
  predicate TtlExpiredRow(row: File, now: Time) {
    row.retention == Temporary && row.ttlExpiresAt.Some? && row.ttlExpiresAt.value <= now && row.Live()
  }

  /** WHERE clause of the finalized SELECT. */
  predicate FinalizedTxn(txn: Txn, cutoff: Time) {
    txn.status == Completed && txn.completedAt.Some? && txn.completedAt.value <= cutoff
  }

  /** Pending rows of a file, on one element or (for the TTL producer) on any. */
  function PendingOf(queue: seq<QueueItem>, fileId: FileId, seId: Option<SeId>): set<ItemId> {
    set i | 0 <= i < |queue| && queue[i].Pending() && queue[i].fileId == fileId
         && (seId.Some? ==> queue[i].seId == seId.value)
  }

  /** `scalar_one_or_none` on the pending rows: only the empty answer lets the producer add a row. */
  function TtlItem(queue: seq<QueueItem>, files: map<FileId, File>, fileId: FileId, now: Time): seq<QueueItem> {
    if fileId in files && PendingOf(queue, fileId, None) == {}
    then [NewItem(fileId, files[fileId].seId, Some(files[fileId].storagePath), now, PRIORITY_NORMAL, TtlExpired, now)]
    else []
  }

  function FinalizedItem(queue: seq<QueueItem>, files: map<FileId, File>, txn: Txn, now: Time): seq<QueueItem> {
    if PendingOf(queue, txn.fileId, Some(txn.sourceSe)) == {}
    then [NewItem(txn.fileId, txn.sourceSe,
                  if txn.fileId in files then Some(files[txn.fileId].storagePath) else None,
                  now, PRIORITY_NORMAL, Finalized, now)]
    else []
  }

  function OrphanItem(queue: seq<QueueItem>, fileId: FileId, seId: SeId, grace: nat, now: Time): seq<QueueItem> {
    if PendingOf(queue, fileId, Some(seId)) == {}
    then [NewItem(fileId, seId, None, now + grace, PRIORITY_LOW, Orphaned, now)]
    else []
  }

  /** `cleanup_orphaned_files`: listed ids without a row in `files`, soft-deleted rows included. */
  function OrphanItems(queue: seq<QueueItem>, files: map<FileId, File>, seId: SeId, listing: seq<FileId>, grace: nat,
                       now: Time)
    : seq<QueueItem>
  {
    if listing == [] then []
    else
      var rest := OrphanItems(queue, files, seId, listing[..|listing| - 1], grace, now);
      var id := listing[|listing| - 1];
      if id in files then rest else rest + OrphanItem(queue, id, seId, grace, now)
  }

  // ---------- SELECT results ----------

  predicate Distinct<T(==)>(s: seq<T>) {
    forall i, j :: 0 <= i < j < |s| ==> s[i] != s[j]
  }

  function Before(a: QueueItem, b: QueueItem): bool {
    a.priority > b.priority || (a.priority == b.priority && a.scheduledAt <= b.scheduledAt)
  }

  /**
  `ids` is an answer to the queue SELECT: eligible rows, each once, in the requested order, cut at the batch
  size; a row that was cut off comes after every row returned. Ties may be broken either way.
  */
  ghost predicate IsPick(queue: seq<QueueItem>, ids: seq<ItemId>, now: Time, maxRetry: nat, batch: nat) {
    && Distinct(ids) && |ids| <= batch
    && (forall k :: 0 <= k < |ids| ==> ids[k] < |queue| && queue[ids[k]].Eligible(now, maxRetry))
    && (forall k, l :: 0 <= k < l < |ids| ==> Before(queue[ids[k]], queue[ids[l]]))
    && (forall i :: 0 <= i < |queue| && queue[i].Eligible(now, maxRetry) && i !in ids ==>
          |ids| == batch && forall k :: 0 <= k < |ids| ==> Before(queue[ids[k]], queue[i]))
  }

  ghost predicate IsTtlSelection(files: map<FileId, File>, ids: seq<FileId>, now: Time, batch: nat) {
    && Distinct(ids) && |ids| <= batch
    && (forall k :: 0 <= k < |ids| ==> ids[k] in files && TtlExpiredRow(files[ids[k]], now))
    && (forall id :: id in files && TtlExpiredRow(files[id], now) && id !in ids ==> |ids| == batch)
  }

  ghost predicate IsFinalizedSelection(txns: seq<Txn>, ids: seq<TxnId>, cutoff: Time, batch: nat) {
    && Distinct(ids) && |ids| <= batch
    && (forall k :: 0 <= k < |ids| ==> ids[k] < |txns| && FinalizedTxn(txns[ids[k]], cutoff))
    && (forall t :: 0 <= t < |txns| && FinalizedTxn(txns[t], cutoff) && t !in ids ==> |ids| == batch)
  }

  // ---------- One whole run ----------

  datatype Settings = Settings(batchSize: nat, safetyMargin: nat, orphanGrace: nat, maxRetry: nat)

  datatype Tables = Tables(files: map<FileId, File>, txns: seq<Txn>, queue: seq<QueueItem>, elements: Elements)

  /** The unit of work at commit: dirty rows overwrite their old values. */
  function Flush(queue: seq<QueueItem>, dirty: map<ItemId, QueueItem>): seq<QueueItem> {
    seq(|queue|, i requires 0 <= i < |queue| => if i in dirty then dirty[i] else queue[i])
  }

  /** What a run meets: the rows its SELECTs return, the replies, and the clock readings of its three phases. */
  datatype RunInput = RunInput(
    picked: seq<ItemId>, replies: seq<Reply>, queueNow: Time,
    expired: seq<FileId>, ttlNow: Time,
    completed: seq<TxnId>, finalizedNow: Time)

  /** The session while the queue is worked off: dirty queue rows, stamped files, and the remote bytes. */
  datatype Progress = Progress(queue: seq<QueueItem>, files: map<FileId, File>, contents: Contents)

  function ProcessOne(p: Progress, elements: Elements, id: ItemId, reply: Reply, now: Time): Progress
    requires id < |p.queue|
  {
    var item := p.queue[id];
    Progress(
      p.queue[id := Process(item, elements, reply, now)],
      if Marks(item, elements, reply) then Stamp(p.files, item.fileId, item.reason, reply.markAt) else p.files,
      if Removes(item, elements, reply) then Strike(p.contents, item.seId, item.fileId) else p.contents)
  }

  /** The first `n` picked rows have had their turn. */
  function ProcessFirst(p: Progress, elements: Elements, input: RunInput, n: nat): (r: Progress)
    requires n <= |input.picked| == |input.replies|
    requires forall k :: 0 <= k < |input.picked| ==> input.picked[k] < |p.queue|
    ensures |r.queue| == |p.queue|
  {
    if n == 0 then p
    else
      var q := ProcessFirst(p, elements, input, n - 1);
      ProcessOne(q, elements, input.picked[n - 1], input.replies[n - 1], input.queueNow)
  }

  function TtlItems(queue: seq<QueueItem>, files: map<FileId, File>, ids: seq<FileId>, now: Time): seq<QueueItem> {
    if ids == [] then []
    else TtlItems(queue, files, ids[..|ids| - 1], now) + TtlItem(queue, files, ids[|ids| - 1], now)
  }

  function FinalizedItems(queue: seq<QueueItem>, files: map<FileId, File>, txns: seq<Txn>, ids: seq<TxnId>, now: Time)
    : seq<QueueItem>
    requires forall k :: 0 <= k < |ids| ==> ids[k] < |txns|
  {
    if ids == [] then []
    else (FinalizedItems(queue, files, txns, ids[..|ids| - 1], now)
          + FinalizedItem(queue, files, txns[ids[|ids| - 1]], now))
  }

  function Start(d: Tables, contents: Contents): Progress {
    Progress(d.queue, d.files, contents)
  }

  /** The run's SELECTs answer from the committed queue, but see the run's own direct UPDATEs of `files`. */
  ghost predicate ValidInput(s: Settings, d: Tables, contents: Contents, input: RunInput) {
    && |input.picked| == |input.replies|
    && input.queueNow <= input.ttlNow <= input.finalizedNow
    && IsPick(d.queue, input.picked, input.queueNow, s.maxRetry, s.batchSize)
    && IsTtlSelection(ProcessFirst(Start(d, contents), d.elements, input, |input.picked|).files,
                      input.expired, input.ttlNow, s.batchSize)
    && IsFinalizedSelection(d.txns, input.completed, input.finalizedNow - s.safetyMargin, s.batchSize)
  }

  /** Rows the run adds. Both producers test the committed queue, blind to what the run itself did. */
  function Additions(d: Tables, done: Progress, input: RunInput): seq<QueueItem>
    requires forall k :: 0 <= k < |input.completed| ==> input.completed[k] < |d.txns|
  {
    TtlItems(d.queue, done.files, input.expired, input.ttlNow)
    + FinalizedItems(d.queue, done.files, d.txns, input.completed, input.finalizedNow)
  }

  function Committed(s: Settings, d: Tables, contents: Contents, input: RunInput): (r: (Tables, Contents))
    requires |input.picked| == |input.replies|
    requires forall k :: 0 <= k < |input.picked| ==> input.picked[k] < |d.queue|
    requires forall k :: 0 <= k < |input.completed| ==> input.completed[k] < |d.txns|
  {
    var done := ProcessFirst(Start(d, contents), d.elements, input, |input.picked|);
    (d.(files := done.files, queue := done.queue + Additions(d, done, input)), done.contents)
  }

  /** The k-th reply is honest about the bytes the element held when the request arrived. */
  ghost predicate HonestAt(d: Tables, contents: Contents, input: RunInput, k: nat)
    requires |input.picked| == |input.replies| && k < |input.picked|
    requires forall l :: 0 <= l < |input.picked| ==> input.picked[l] < |d.queue|
  {
    var item := d.queue[input.picked[k]];
    input.replies[k].Honest(
      (item.seId, item.fileId) in ProcessFirst(Start(d, contents), d.elements, input, k).contents)
  }

  ghost predicate HonestReplies(d: Tables, contents: Contents, input: RunInput)
    requires |input.picked| == |input.replies|
    requires forall k :: 0 <= k < |input.picked| ==> input.picked[k] < |d.queue|
  {
    forall k :: 0 <= k < |input.picked| ==> HonestAt(d, contents, input, k)
  }
}
