/**
The file lifecycle as one interleaved system: registry, finalize driver, cleanup queue, the bytes on the Storage
Elements, and any number of garbage-collector sessions and finalize transactions at the same time.

`Enabled` is what the code lets happen; `Disciplined` is what has to hold besides. The finalize driver is the one of
the Ingester: it copies, compares the checksum of the copy with the registry's, sends the registry update, and marks
the transaction COMPLETED whether or not the update took effect. A session works on the rows as its SELECT loaded them;
its commit writes the columns it changed and adds its new rows, and its remote deletes happen at once and survive its
roll-back.
*/
module FileLifecycle {
  import opened Wrappers
  import opened FileRegistry
  import opened Cleanup

  datatype Stage = QueueStage | TtlDone | ReadyToCommit

  datatype Mark = Mark(reason: Reason, at: Time)

  /** One open database session of the garbage collector; `loaded` is the queue as its SELECT found it. */
  datatype Session = Session(
    stage: Stage,
    picked: seq<ItemId>,
    loaded: seq<QueueItem>,
    done: nat,
    queueNow: Time,
    elements: Elements,
    dirty: map<ItemId, QueueItem>,
    marks: map<FileId, Mark>,
    added: seq<QueueItem>)

  /** A DELETE request that went out: the row it was sent for, and when. */
  datatype Sent = Sent(item: QueueItem, at: Time)

  /** An orphan scan: when it ran, and what it was given. */
  datatype Scan = Scan(at: Time, seId: SeId, listing: seq<FileId>)

  datatype World = World(
    now: Time,
    db: Tables,
    contents: Contents,
    sessions: map<nat, Session>,
    sent: seq<Sent>,
    scans: seq<Scan>)

  datatype Step =
    | Tick(elapsed: nat)
    | SetStatus(seId: SeId, status: StorageStatus)
    | Upload(id: FileId, seId: SeId, checksum: Checksum)
    | RegisterFile(id: FileId, register: RegisterRequest)
    | EditFile(id: FileId, update: UpdateRequest)
    | DeleteFile(id: FileId, deletionReason: string)
    | BeginFinalize(id: FileId, sourceSe: SeId, targetSe: SeId)
    | CopyWrite(txn: TxnId, written: Checksum)
    | CopyDone(txn: TxnId)
    | Verify(txn: TxnId)
    | RegistryPut(txn: TxnId, path: string, finalizedAt: Time)
    | MarkCompleted(txn: TxnId, completedAt: Time)
    | FailFinalize(txn: TxnId)
    | RollBackFinalize(txn: TxnId, deletes: bool)
    | GcStart(session: nat, picked: seq<ItemId>)
    | GcItem(session: nat, reply: Reply)
    | GcTtl(session: nat, expired: seq<FileId>)
    | GcFinalized(session: nat, completed: seq<TxnId>)
    | OrphanScan(session: nat, seId: SeId, listing: seq<FileId>)
    | GcCommit(session: nat)
    | GcRollback(session: nat)

  // ---------- Transitions ----------

  /** The registry lets the file be finalized: temporary, and without a finalization time. */
  predicate Movable(row: File) {
    row.retention == Temporary && row.finalizedAt.None?
  }

  /** The copy was compared with the registry's checksum and found equal, and the registry may point to it. */
  predicate Vouched(txn: Txn) {
    txn.status in {Verifying, Completed} && txn.checksumTarget.Some? && txn.checksumSource == txn.checksumTarget
  }

  /** Somebody counts on this copy: the registry row, or a transaction that vouched for it. */
  predicate Relied(w: World, seId: SeId, id: FileId) {
    || (id in w.db.files && w.db.files[id].seId == seId)
    || exists t :: 0 <= t < |w.db.txns| && Vouched(w.db.txns[t]) && w.db.txns[t].fileId == id
        && w.db.txns[t].targetSe == seId
  }

  predicate Named(w: World, id: FileId) {
    || (exists i :: 0 <= i < |w.db.queue| && w.db.queue[i].fileId == id)
    || (exists s :: s in w.sessions && NamedIn(w.sessions[s].added, id))
  }

  predicate NamedIn(items: seq<QueueItem>, id: FileId) {
    exists i :: 0 <= i < |items| && items[i].fileId == id
  }

  /** `files` as the session sees it: the committed rows under its own direct UPDATEs. */
  function Seen(files: map<FileId, File>, marks: map<FileId, Mark>): map<FileId, File> {
    map id | id in files ::
      if id in marks
      then files[id].(deletedAt := Some(marks[id].at), deletionReason := Some(ReasonText(marks[id].reason)))
      else files[id]
  }

  ghost predicate Enabled(config: Settings, w: World, step: Step) {
    match step
    case Tick(_) => true
    case SetStatus(_, _) => true
    case Upload(id, _, _) => id !in w.db.files
    case RegisterFile(id, _) => id !in w.db.files
    case EditFile(id, update) => id in w.db.files && !Downgrades(w.db.files[id], update)
    case DeleteFile(id, _) => id in w.db.files && w.db.files[id].Live()
    case BeginFinalize(id, sourceSe, _) =>
      id in w.db.files && Movable(w.db.files[id]) && sourceSe == w.db.files[id].seId
    case CopyWrite(t, _) => t < |w.db.txns| && w.db.txns[t].status == Copying
    case CopyDone(t) => t < |w.db.txns| && w.db.txns[t].status == Copying
    case Verify(t) =>
      && t < |w.db.txns| && w.db.txns[t].status == Copied && w.db.txns[t].fileId in w.db.files
      && (w.db.txns[t].targetSe, w.db.txns[t].fileId) in w.contents
    case RegistryPut(t, _, _) => t < |w.db.txns| && Vouched(w.db.txns[t]) && w.db.txns[t].fileId in w.db.files
    case MarkCompleted(t, at) =>
      t < |w.db.txns| && w.db.txns[t].status == Verifying && Vouched(w.db.txns[t]) && at <= w.now
    case FailFinalize(t) => t < |w.db.txns| && w.db.txns[t].IsPending()
    case RollBackFinalize(t, _) => t < |w.db.txns| && w.db.txns[t].status == Failed
    case GcStart(s, picked) =>
      s !in w.sessions && IsPick(w.db.queue, picked, w.now, config.maxRetry, config.batchSize)
    case GcItem(s, reply) =>
      && s in w.sessions && w.sessions[s].stage == QueueStage
      && CanTurn(w.sessions[s])
      && (var item := w.sessions[s].loaded[w.sessions[s].picked[w.sessions[s].done]];
          reply.Honest((item.seId, item.fileId) in w.contents))
    case GcTtl(s, expired) =>
      && s in w.sessions && w.sessions[s].stage == QueueStage && w.sessions[s].done == |w.sessions[s].picked|
      && IsTtlSelection(Seen(w.db.files, w.sessions[s].marks), expired, w.now, config.batchSize)
    case GcFinalized(s, completed) =>
      && s in w.sessions && w.sessions[s].stage == TtlDone
      && IsFinalizedSelection(w.db.txns, completed, w.now - config.safetyMargin, config.batchSize)
    case OrphanScan(s, _, listing) => s !in w.sessions && Distinct(listing)
    case GcCommit(s) => s in w.sessions && w.sessions[s].stage == ReadyToCommit
    case GcRollback(s) => s in w.sessions
  }

  /** What the theorems assume besides, step by step. */
  ghost predicate Disciplined(w: World, step: Step)
  {
    match step
    case Upload(id, _, _) =>
      // ids are fresh
      !Named(w, id)
    case RegisterFile(id, register) =>
      // the upload came first, and no orphan scan has queued the id in the meantime
      && (register.seId, id) in w.contents && w.contents[(register.seId, id)] == register.checksum
      && !Named(w, id)
    case EditFile(id, update) =>
      // promotion and relocation are the finalize driver's business
      && (update.retention.Some? && id in w.db.files ==> update.retention.value == w.db.files[id].retention)
      && (update.seId.Some? && id in w.db.files ==> update.seId.value == w.db.files[id].seId)
    case BeginFinalize(_, sourceSe, targetSe) => targetSe != sourceSe
    case CopyWrite(t, written) =>
      // an element does not replace a copy somebody counts on by other bytes
      t < |w.db.txns| && Relied(w, w.db.txns[t].targetSe, w.db.txns[t].fileId) && w.db.txns[t].fileId in w.db.files ==>
        written == w.db.files[w.db.txns[t].fileId].checksum
    case MarkCompleted(t, _) =>
      // the registry update took effect
      t < |w.db.txns| && TookEffect(w, w.db.txns[t])
    case RollBackFinalize(t, deletes) =>
      deletes ==> t < |w.db.txns| && !Relied(w, w.db.txns[t].targetSe, w.db.txns[t].fileId)
    case _ => true
  }

  /** The registry row has left the source of the transaction. */
  predicate TookEffect(w: World, txn: Txn) {
    txn.fileId in w.db.files && w.db.files[txn.fileId].retention == Permanent
    && w.db.files[txn.fileId].seId != txn.sourceSe
  }

  function WithTxn(w: World, t: TxnId, txn: Txn): World
    requires t < |w.db.txns|
  {
    w.(db := w.db.(txns := w.db.txns[t := txn]))
  }

  function WithFile(w: World, id: FileId, row: File): World {
    w.(db := w.db.(files := w.db.files[id := row]))
  }

  function WithSession(w: World, s: nat, session: Session): World {
    w.(sessions := w.sessions[s := session])
  }

  /** The body of the driver's PUT. */
  function PromotionRequest(txn: Txn, path: string, at: Time): UpdateRequest {
    UpdateRequest(Some(Permanent), Some(txn.targetSe), Some(path), Some(at), None, None)
  }

  /** A picked row has not had its turn yet. */
  predicate CanTurn(session: Session) {
    session.done < |session.picked| && session.picked[session.done] < |session.loaded|
  }

  function AfterItem(w: World, s: nat, reply: Reply): World
    requires s in w.sessions && CanTurn(w.sessions[s])
  {
    var session := w.sessions[s];
    var i := session.picked[session.done];
    var item := session.loaded[i];
    var reached := Reachable(session.elements, item.seId);
    w.(contents := if Removes(item, session.elements, reply)
                   then Strike(w.contents, item.seId, item.fileId) else w.contents,
       sent := if reached then w.sent + [Sent(item, w.now)] else w.sent,
       sessions := w.sessions[s := session.(
         done := session.done + 1,
         dirty := session.dirty[i := Process(item, session.elements, reply, session.queueNow)],
         marks := if Marks(item, session.elements, reply)
                  then session.marks[item.fileId := Mark(item.reason, reply.markAt)] else session.marks)])
  }

  /**
  The UPDATE of one row at commit: only changed columns are written. A turn that met an unavailable element changes
  the counter and the error, so it leaves a row alone that another session has processed in the meantime.
  */
  function WriteBack(committed: QueueItem, changed: QueueItem): QueueItem {
    if changed.Pending() then committed.(retryCount := changed.retryCount, error := changed.error)
    else if changed.success == Some(true) then committed.(processedAt := changed.processedAt, success := Some(true))
    else committed.(processedAt := changed.processedAt, success := changed.success, error := changed.error,
                    retryCount := changed.retryCount)
  }

  function Merge(queue: seq<QueueItem>, dirty: map<ItemId, QueueItem>): seq<QueueItem> {
    seq(|queue|, i requires 0 <= i < |queue| => if i in dirty then WriteBack(queue[i], dirty[i]) else queue[i])
  }

  /** On the row it was made from, writing back is the turn itself. */
  lemma WriteBackIsProcess(item: QueueItem, elements: Elements, reply: Reply, now: Time)
    requires item.Pending()
    ensures WriteBack(item, Process(item, elements, reply, now)) == Process(item, elements, reply, now)
  {
  }

  function AfterCommit(w: World, s: nat): World
    requires s in w.sessions
  {
    var session := w.sessions[s];
    w.(db := w.db.(files := Seen(w.db.files, session.marks),
                   queue := Merge(w.db.queue, session.dirty) + session.added),
       sessions := w.sessions - {s})
  }

  ghost function Take(config: Settings, w: World, step: Step): World
    requires Enabled(config, w, step)
  {
    match step
    case Tick(elapsed) => w.(now := w.now + elapsed)
    case SetStatus(seId, status) => w.(db := w.db.(elements := w.db.elements[seId := status]))
    case Upload(id, seId, checksum) => w.(contents := w.contents[(seId, id) := checksum])
    case RegisterFile(id, register) => WithFile(w, id, NewRow(register, w.now))
    case EditFile(id, update) => WithFile(w, id, Updated(w.db.files[id], update, w.now))
    case DeleteFile(id, reason) => WithFile(w, id, Deleted(w.db.files[id], reason, w.now))
    case BeginFinalize(id, sourceSe, targetSe) =>
      w.(db := w.db.(txns := w.db.txns + [Txn(id, sourceSe, targetSe, Copying, None, None, None)]))
    case CopyWrite(t, written) =>
      w.(contents := w.contents[(w.db.txns[t].targetSe, w.db.txns[t].fileId) := written])
    case CopyDone(t) => WithTxn(w, t, w.db.txns[t].(status := Copied))
    case Verify(t) =>
      var txn := w.db.txns[t];
      WithTxn(w, t, txn.(status := Verifying,
                         checksumSource := Some(w.db.files[txn.fileId].checksum),
                         checksumTarget := Some(w.contents[(txn.targetSe, txn.fileId)])))
    case RegistryPut(t, path, at) =>
      var txn := w.db.txns[t];
      WithFile(w, txn.fileId, Updated(w.db.files[txn.fileId], PromotionRequest(txn, path, at), w.now))
    case MarkCompleted(t, at) => WithTxn(w, t, w.db.txns[t].(status := Completed, completedAt := Some(at)))
    case FailFinalize(t) => WithTxn(w, t, w.db.txns[t].(status := Failed, completedAt := Some(w.now)))
    case RollBackFinalize(t, deletes) =>
      var txn := w.db.txns[t];
      WithTxn(w.(contents := if deletes then Strike(w.contents, txn.targetSe, txn.fileId) else w.contents),
              t, txn.(status := RolledBack))
    case GcStart(s, picked) =>
      WithSession(w, s, Session(QueueStage, picked, w.db.queue, 0, w.now, w.db.elements, map[], map[], []))
    case GcItem(s, reply) => AfterItem(w, s, reply)
    case GcTtl(s, expired) =>
      WithSession(w, s, w.sessions[s].(
        stage := TtlDone,
        added := w.sessions[s].added
               + TtlItems(w.db.queue, Seen(w.db.files, w.sessions[s].marks), expired, w.now)))
    case GcFinalized(s, completed) =>
      WithSession(w, s, w.sessions[s].(
        stage := ReadyToCommit,
        added := w.sessions[s].added
               + FinalizedItems(w.db.queue, Seen(w.db.files, w.sessions[s].marks), w.db.txns, completed, w.now)))
    case OrphanScan(s, seId, listing) =>
      WithSession(w.(scans := w.scans + [Scan(w.now, seId, listing)]), s,
                  Session(ReadyToCommit, [], [], 0, w.now, w.db.elements, map[], map[],
                          OrphanItems(w.db.queue, w.db.files, seId, listing, config.orphanGrace, w.now)))
    case GcCommit(s) => AfterCommit(w, s)
    case GcRollback(s) => w.(sessions := w.sessions - {s})
  }

  /** The registry update of a transaction moves the row to the target for good and changes no other row. */
  lemma PromotionMeans(config: Settings, w: World, t: TxnId, path: string, at: Time)
    requires Enabled(config, w, RegistryPut(t, path, at))
    ensures
      var txn := w.db.txns[t];
      var after := Take(config, w, RegistryPut(t, path, at));
      && after == w.(db := w.db.(files := after.db.files))
      && after.db.files.Keys == w.db.files.Keys
      && (forall id :: id in w.db.files && id != txn.fileId ==> after.db.files[id] == w.db.files[id])
      && after.db.files[txn.fileId]
         == w.db.files[txn.fileId].(retention := Permanent, ttlExpiresAt := None, ttlDays := None,
                                    seId := txn.targetSe, storagePath := path, finalizedAt := Some(at),
                                    updatedAt := w.now)
  {
  }

  /**
  A transaction can fail until it is completed, failed or rolled back. Failing and rolling back without a delete
  changes nothing but the transaction.
  */
  lemma FailAndRollBackIff(config: Settings, w: World, t: TxnId)
    ensures Enabled(config, w, FailFinalize(t)) <==>
            t < |w.db.txns| && w.db.txns[t].status !in {Completed, Failed, RolledBack}
    ensures Enabled(config, w, FailFinalize(t)) ==>
              var failed := Take(config, w, FailFinalize(t));
              && Enabled(config, failed, RollBackFinalize(t, false))
              && Take(config, failed, RollBackFinalize(t, false))
                 == WithTxn(w, t, w.db.txns[t].(status := RolledBack, completedAt := Some(w.now)))
  {
    if t < |w.db.txns| {
      var status := w.db.txns[t].status;
      assert status.Copying? || status.Copied? || status.Verifying? || status in {Completed, Failed, RolledBack};
    }
  }
}
