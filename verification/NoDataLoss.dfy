/**
Safety of every interleaving of the file lifecycle.

The inductive invariant says for each queued delete why it is harmless: its file is an expired temporary
file on that very element, or a permanent file that lives somewhere else.
*/
module NoDataLoss {
  import opened Wrappers
  import opened FileRegistry
  import opened Cleanup
  import opened FileLifecycle

  // ---------- What is promised ----------

  /** Permanent files, and temporary files whose TTL has not run out. */
  predicate Protected(row: File, now: Time) {
    row.retention == Permanent || row.ttlExpiresAt.None? || now < row.ttlExpiresAt.value
  }

  /** The element named by the row holds the registered bytes. */
  predicate Intact(contents: Contents, id: FileId, row: File) {
    (row.seId, id) in contents && contents[(row.seId, id)] == row.checksum
  }

  ghost predicate NoLoss(w: World) {
    forall id :: id in w.db.files && Protected(w.db.files[id], w.now) ==> Intact(w.contents, id, w.db.files[id])
  }

  /** A delete recorded as successful stays true: the bytes are gone from that element and never come back. */
  predicate GoneIfDone(contents: Contents, item: QueueItem) {
    item.success == Some(true) ==> (item.seId, item.fileId) !in contents
  }

  ghost predicate SuccessMeansAbsent(w: World) {
    forall i :: 0 <= i < |w.db.queue| ==> GoneIfDone(w.contents, w.db.queue[i])
  }

  // ---------- The invariant ----------

  predicate Target(files: map<FileId, File>, now: Time, item: QueueItem) {
    item.fileId in files ==>
      var row := files[item.fileId];
      || (row.retention == Temporary && row.ttlExpiresAt.Some? && row.ttlExpiresAt.value <= now
          && item.seId == row.seId)
      || (row.retention == Permanent && item.seId != row.seId)
  }

  ghost predicate Targets(files: map<FileId, File>, now: Time, items: seq<QueueItem>) {
    forall i :: 0 <= i < |items| ==> Target(files, now, items[i])
  }

  predicate SameTarget(a: QueueItem, b: QueueItem) {
    && a.fileId == b.fileId && a.seId == b.seId && a.scheduledAt == b.scheduledAt
    && a.reason == b.reason && a.createdAt == b.createdAt
  }

  /** A commit never changes what a row names. */
  lemma MergeKeepsTargets(queue: seq<QueueItem>, dirty: map<ItemId, QueueItem>)
    ensures forall i :: 0 <= i < |queue| ==> SameTarget(Merge(queue, dirty)[i], queue[i])
  {
  }

  /** Where the row is tells how far the transactions of its file have got. */
  predicate Copy(files: map<FileId, File>, contents: Contents, txn: Txn)
    requires txn.fileId in files
  {
    var row := files[txn.fileId];
    && (row.retention == Temporary <==> row.seId == txn.sourceSe)
    && (Vouched(txn) ==>
          && txn.checksumSource == Some(row.checksum)
          && (txn.targetSe, txn.fileId) in contents
          && contents[(txn.targetSe, txn.fileId)] == row.checksum)
    && (txn.status == Completed ==> Vouched(txn) && row.retention == Permanent && txn.completedAt.Some?)
  }

  ghost predicate Txns(files: map<FileId, File>, contents: Contents, txns: seq<Txn>) {
    && (forall t :: 0 <= t < |txns| ==>
          txns[t].fileId in files && txns[t].sourceSe != txns[t].targetSe && Copy(files, contents, txns[t]))
    && SameSource(txns)
  }

  /** All transactions of a file start from the element it was uploaded to. */
  ghost predicate SameSource(txns: seq<Txn>) {
    forall t, u :: 0 <= t < u < |txns| && txns[t].fileId == txns[u].fileId ==> txns[t].sourceSe == txns[u].sourceSe
  }

  /** Queued deletes of a file name the element its transactions start from. */
  ghost predicate Sourced(txns: seq<Txn>, items: seq<QueueItem>) {
    forall t, i :: 0 <= t < |txns| && 0 <= i < |items| && items[i].fileId == txns[t].fileId ==>
      items[i].seId == txns[t].sourceSe
  }

  ghost predicate SessionOk(files: map<FileId, File>, now: Time, contents: Contents, txns: seq<Txn>,
                            queue: seq<QueueItem>, s: Session) {
    && s.done <= |s.picked| && s.queueNow <= now
    && |s.loaded| <= |queue| && (forall i :: 0 <= i < |s.loaded| ==> SameTarget(s.loaded[i], queue[i]))
    && (forall k :: 0 <= k < |s.picked| ==> s.picked[k] < |s.loaded| && s.loaded[s.picked[k]].success.None?)
    && (forall i :: i in s.dirty ==>
          i < |queue| && SameTarget(s.dirty[i], queue[i]) && GoneIfDone(contents, s.dirty[i]))
    && Targets(files, now, s.added) && Sourced(txns, s.added)
    && (forall i :: 0 <= i < |s.added| ==> s.added[i].success.None?)
  }

  ghost predicate Rows(files: map<FileId, File>, contents: Contents, now: Time) {
    forall id :: id in files ==>
      && ((files[id].seId, id) in contents ==> contents[(files[id].seId, id)] == files[id].checksum)
      && (Protected(files[id], now) ==> (files[id].seId, id) in contents)
  }

  ghost predicate Sessions(files: map<FileId, File>, now: Time, contents: Contents, txns: seq<Txn>,
                           queue: seq<QueueItem>, sessions: map<nat, Session>) {
    forall s :: s in sessions ==> SessionOk(files, now, contents, txns, queue, sessions[s])
  }

  /** What was done is true, and pending rows have no outcome. */
  ghost predicate Absent(contents: Contents, queue: seq<QueueItem>) {
    forall i :: 0 <= i < |queue| ==> GoneIfDone(contents, queue[i]) && (queue[i].Pending() ==> queue[i].success.None?)
  }

  ghost predicate Inv(w: World) {
    && Rows(w.db.files, w.contents, w.now)
    && Targets(w.db.files, w.now, w.db.queue)
    && Sourced(w.db.txns, w.db.queue)
    && Absent(w.contents, w.db.queue)
    && Txns(w.db.files, w.contents, w.db.txns)
    && Sessions(w.db.files, w.now, w.contents, w.db.txns, w.db.queue, w.sessions)
  }

  ghost predicate Initial(w: World) {
    w.db.files == map[] && w.db.txns == [] && w.db.queue == [] && w.contents == map[] && w.sessions == map[]
    && w.sent == [] && w.scans == []
  }

  // ---------- Producers add harmless targets ----------

  /** Rows a producer may add. */
  ghost predicate Addable(w: World, items: seq<QueueItem>) {
    && Targets(w.db.files, w.now, items) && Sourced(w.db.txns, items)
    && forall i :: 0 <= i < |items| ==> items[i].success.None?
  }

  lemma {:induction false} TtlItemsAreTargets(w: World, marks: map<FileId, Mark>, ids: seq<FileId>)
    requires Txns(w.db.files, w.contents, w.db.txns)
    requires forall k :: 0 <= k < |ids| ==>
      ids[k] in Seen(w.db.files, marks) && TtlExpiredRow(Seen(w.db.files, marks)[ids[k]], w.now)
    ensures Addable(w, TtlItems(w.db.queue, Seen(w.db.files, marks), ids, w.now))
  {
    if ids != [] {
      TtlItemsAreTargets(w, marks, ids[..|ids| - 1]);
    }
  }

  lemma {:induction false} FinalizedItemsAreTargets(w: World, seen: map<FileId, File>, ids: seq<TxnId>)
    requires Txns(w.db.files, w.contents, w.db.txns)
    requires forall k :: 0 <= k < |ids| ==> ids[k] < |w.db.txns| && w.db.txns[ids[k]].status == Completed
    ensures Addable(w, FinalizedItems(w.db.queue, seen, w.db.txns, ids, w.now))
  {
    if ids != [] {
      FinalizedItemsAreTargets(w, seen, ids[..|ids| - 1]);
      assert Copy(w.db.files, w.contents, w.db.txns[ids[|ids| - 1]]);
    }
  }

  lemma {:induction false} OrphanItemsAreTargets(config: Settings, w: World, seId: SeId, listing: seq<FileId>)
    requires Txns(w.db.files, w.contents, w.db.txns)
    ensures Addable(w, OrphanItems(w.db.queue, w.db.files, seId, listing, config.orphanGrace, w.now))
  {
    if listing != [] {
      OrphanItemsAreTargets(config, w, seId, listing[..|listing| - 1]);
    }
  }

  // ---------- One kind of change at a time ----------

  /** Time passes: fewer files are protected, more targets are harmless. */
  lemma LaterKeepsInv(w: World, now: Time)
    requires Inv(w) && w.now <= now
    ensures Inv(w.(now := now))
  {
  }

  /** No queued or uncommitted row claims that this copy was deleted. */
  ghost predicate Unclaimed(w: World, seId: SeId, id: FileId) {
    && (forall i :: 0 <= i < |w.db.queue| && w.db.queue[i].fileId == id && w.db.queue[i].seId == seId ==>
          w.db.queue[i].success != Some(true))
    && (forall s, i ::
          s in w.sessions && i in w.sessions[s].dirty
          && w.sessions[s].dirty[i].fileId == id && w.sessions[s].dirty[i].seId == seId ==>
          w.sessions[s].dirty[i].success != Some(true))
  }

  lemma WriteKeepsInv(w: World, seId: SeId, id: FileId, checksum: Checksum)
    requires Inv(w) && Unclaimed(w, seId, id)
    requires Relied(w, seId, id) ==> id in w.db.files && w.db.files[id].checksum == checksum
    ensures Inv(w.(contents := w.contents[(seId, id) := checksum]))
  {
  }

  lemma StrikeKeepsInv(w: World, seId: SeId, id: FileId)
    requires Inv(w)
    requires id in w.db.files && w.db.files[id].seId == seId ==> !Protected(w.db.files[id], w.now)
    requires forall t :: 0 <= t < |w.db.txns| && w.db.txns[t].fileId == id && Vouched(w.db.txns[t]) ==>
      w.db.txns[t].targetSe != seId
    ensures Inv(w.(contents := Strike(w.contents, seId, id)))
  {
  }

  /** The columns the invariant looks at. */
  predicate SameCore(a: File, b: File) {
    && a.retention == b.retention && a.seId == b.seId && a.checksum == b.checksum
    && (a.retention == Temporary ==> a.ttlExpiresAt == b.ttlExpiresAt)
  }

  ghost predicate SameCores(files: map<FileId, File>, files': map<FileId, File>) {
    files'.Keys == files.Keys && forall id :: id in files ==> SameCore(files'[id], files[id])
  }

  lemma SameCoreKeepsSession(w: World, files: map<FileId, File>, x: Session)
    requires SameCores(w.db.files, files) && SessionOk(w.db.files, w.now, w.contents, w.db.txns, w.db.queue, x)
    ensures SessionOk(files, w.now, w.contents, w.db.txns, w.db.queue, x)
  {
    forall i | 0 <= i < |x.added| ensures Target(files, w.now, x.added[i]) {
      assert Target(w.db.files, w.now, x.added[i]);
    }
  }

  lemma SameCoreKeepsTxns(w: World, files: map<FileId, File>)
    requires SameCores(w.db.files, files) && Txns(w.db.files, w.contents, w.db.txns)
    ensures Txns(files, w.contents, w.db.txns)
  {
    forall t | 0 <= t < |w.db.txns| ensures Copy(files, w.contents, w.db.txns[t]) {
      assert Copy(w.db.files, w.contents, w.db.txns[t]);
    }
  }

  lemma SameCoreKeepsInv(w: World, files: map<FileId, File>)
    requires Inv(w) && SameCores(w.db.files, files)
    ensures Inv(w.(db := w.db.(files := files)))
  {
    SameCoreKeepsTxns(w, files);
    forall s | s in w.sessions ensures SessionOk(files, w.now, w.contents, w.db.txns, w.db.queue, w.sessions[s]) {
      SameCoreKeepsSession(w, files, w.sessions[s]);
    }
    forall i | 0 <= i < |w.db.queue| ensures Target(files, w.now, w.db.queue[i]) {
      assert Target(w.db.files, w.now, w.db.queue[i]);
    }
  }

  lemma EditKeepsInv(w: World, id: FileId, row: File)
    requires Inv(w) && id in w.db.files && SameCore(row, w.db.files[id])
    ensures Inv(WithFile(w, id, row))
  {
    SameCoreKeepsInv(w, w.db.files[id := row]);
  }

  lemma RegisterKeepsInv(w: World, id: FileId, row: File)
    requires Inv(w) && id !in w.db.files && !Named(w, id) && Intact(w.contents, id, row)
    ensures Inv(WithFile(w, id, row))
  {
    var files := w.db.files[id := row];
    forall i | 0 <= i < |w.db.queue|
      ensures w.db.queue[i].fileId != id
    {
    }
    forall s | s in w.sessions
      ensures SessionOk(files, w.now, w.contents, w.db.txns, w.db.queue, w.sessions[s])
    {
      assert SessionOk(w.db.files, w.now, w.contents, w.db.txns, w.db.queue, w.sessions[s]);
      assert !NamedIn(w.sessions[s].added, id);
    }
    forall t | 0 <= t < |w.db.txns|
      ensures Copy(files, w.contents, w.db.txns[t])
    {
      assert Copy(w.db.files, w.contents, w.db.txns[t]);
    }
  }

  /** A transaction moves along its workflow without touching rows or bytes. */
  lemma TxnKeepsInv(w: World, t: TxnId, txn: Txn)
    requires Inv(w) && t < |w.db.txns|
    requires txn.fileId == w.db.txns[t].fileId && txn.sourceSe == w.db.txns[t].sourceSe
    requires txn.targetSe == w.db.txns[t].targetSe
    requires txn.fileId in w.db.files && Copy(w.db.files, w.contents, txn)
    ensures Inv(WithTxn(w, t, txn))
  {
  }

  lemma BeginKeepsInv(w: World, txn: Txn)
    requires Inv(w) && txn.fileId in w.db.files && txn.sourceSe != txn.targetSe && Copy(w.db.files, w.contents, txn)
    requires w.db.files[txn.fileId].retention == Temporary
    ensures Inv(w.(db := w.db.(txns := w.db.txns + [txn])))
  {
    var txns := w.db.txns + [txn];
    forall s | s in w.sessions
      ensures SessionOk(w.db.files, w.now, w.contents, txns, w.db.queue, w.sessions[s])
    {
      assert SessionOk(w.db.files, w.now, w.contents, w.db.txns, w.db.queue, w.sessions[s]);
    }
  }

  /** The row moves to the vouched copy, away from every queued delete of the file. */
  lemma PromotionKeepsInv(w: World, t: TxnId, path: string, at: Time)
    requires Inv(w) && t < |w.db.txns| && Vouched(w.db.txns[t]) && w.db.txns[t].fileId in w.db.files
    ensures
      var txn := w.db.txns[t];
      Inv(WithFile(w, txn.fileId, Updated(w.db.files[txn.fileId], PromotionRequest(txn, path, at), w.now)))
  {
    var txn := w.db.txns[t];
    var id := txn.fileId;
    var row := Updated(w.db.files[id], PromotionRequest(txn, path, at), w.now);
    var files := w.db.files[id := row];
    assert Copy(w.db.files, w.contents, txn);
    assert Intact(w.contents, id, row);
    forall u | 0 <= u < |w.db.txns|
      ensures Copy(files, w.contents, w.db.txns[u])
    {
      assert Copy(w.db.files, w.contents, w.db.txns[u]);
    }
    forall s | s in w.sessions
      ensures SessionOk(files, w.now, w.contents, w.db.txns, w.db.queue, w.sessions[s])
    {
      assert SessionOk(w.db.files, w.now, w.contents, w.db.txns, w.db.queue, w.sessions[s]);
    }
  }

  lemma SessionKeepsInv(w: World, s: nat, session: Session)
    requires Inv(w) && SessionOk(w.db.files, w.now, w.contents, w.db.txns, w.db.queue, session)
    ensures Inv(WithSession(w, s, session))
  {
  }

  lemma CloseKeepsInv(w: World, s: nat)
    requires Inv(w)
    ensures Inv(w.(sessions := w.sessions - {s}))
  {
  }

  lemma QueueKeepsInv(w: World, dirty: map<ItemId, QueueItem>, added: seq<QueueItem>)
    requires Inv(w)
    requires forall i :: i in dirty ==>
      i < |w.db.queue| && SameTarget(dirty[i], w.db.queue[i]) && GoneIfDone(w.contents, dirty[i])
    requires Addable(w, added)
    ensures Inv(w.(db := w.db.(queue := Merge(w.db.queue, dirty) + added)))
  {
    var queue := Merge(w.db.queue, dirty) + added;
    forall i | 0 <= i < |queue|
      ensures Target(w.db.files, w.now, queue[i]) && GoneIfDone(w.contents, queue[i])
      ensures queue[i].Pending() ==> queue[i].success.None?
      ensures i < |w.db.queue| ==> SameTarget(queue[i], w.db.queue[i])
      ensures forall t :: 0 <= t < |w.db.txns| && w.db.txns[t].fileId == queue[i].fileId ==>
        queue[i].seId == w.db.txns[t].sourceSe
    {
      if i < |w.db.queue| {
        assert Target(w.db.files, w.now, w.db.queue[i]) && GoneIfDone(w.contents, w.db.queue[i]);
      } else {
        assert queue[i] == added[i - |w.db.queue|];
      }
    }
    forall s | s in w.sessions
      ensures SessionOk(w.db.files, w.now, w.contents, w.db.txns, queue, w.sessions[s])
    {
      assert SessionOk(w.db.files, w.now, w.contents, w.db.txns, w.db.queue, w.sessions[s]);
    }
  }

  // ---------- Steps keep the invariant ----------

  /** Whatever a session has picked, deleting it loses nothing. */
  lemma DeleteIsHarmless(w: World, item: QueueItem)
    requires Inv(w) && item in w.db.queue
    ensures item.fileId in w.db.files && w.db.files[item.fileId].seId == item.seId ==>
      !Protected(w.db.files[item.fileId], w.now)
    ensures forall t :: 0 <= t < |w.db.txns| && w.db.txns[t].fileId == item.fileId && Vouched(w.db.txns[t]) ==>
      w.db.txns[t].targetSe != item.seId
  {
  }

  /** A turn that records success has left no bytes behind. */
  lemma TurnKeepsOk(config: Settings, w: World, v: World, s: nat, reply: Reply)
    requires Enabled(config, w, GcItem(s, reply)) && v.contents == AfterItem(w, s, reply).contents
    requires SessionOk(w.db.files, w.now, v.contents, w.db.txns, w.db.queue, w.sessions[s])
    ensures SessionOk(w.db.files, w.now, v.contents, w.db.txns, w.db.queue, AfterItem(w, s, reply).sessions[s])
  {
    var session := w.sessions[s];
    var i := session.picked[session.done];
    var after := AfterItem(w, s, reply).sessions[s];
    assert SameTarget(after.dirty[i], session.loaded[i]) && GoneIfDone(v.contents, after.dirty[i]);
  }

  lemma ItemKeepsInv(config: Settings, w: World, s: nat, reply: Reply)
    requires Inv(w) && Enabled(config, w, GcItem(s, reply))
    ensures Inv(AfterItem(w, s, reply))
  {
    var session := w.sessions[s];
    var i := session.picked[session.done];
    var item := session.loaded[i];
    assert SessionOk(w.db.files, w.now, w.contents, w.db.txns, w.db.queue, session);
    var v := w.(sent := AfterItem(w, s, reply).sent);
    if Removes(item, session.elements, reply) {
      DeleteIsHarmless(w, w.db.queue[i]);
      StrikeKeepsInv(v, item.seId, item.fileId);
      v := v.(contents := Strike(w.contents, item.seId, item.fileId));
    }
    assert Inv(v);
    TurnKeepsOk(config, w, v, s, reply);
    SessionKeepsInv(v, s, AfterItem(w, s, reply).sessions[s]);
  }

  lemma TtlKeepsInv(config: Settings, w: World, s: nat, expired: seq<FileId>)
    requires Inv(w) && Enabled(config, w, GcTtl(s, expired))
    ensures Inv(Take(config, w, GcTtl(s, expired)))
  {
    assert SessionOk(w.db.files, w.now, w.contents, w.db.txns, w.db.queue, w.sessions[s]);
    TtlItemsAreTargets(w, w.sessions[s].marks, expired);
    SessionKeepsInv(w, s, Take(config, w, GcTtl(s, expired)).sessions[s]);
  }

  lemma FinalizedKeepsInv(config: Settings, w: World, s: nat, completed: seq<TxnId>)
    requires Inv(w) && Enabled(config, w, GcFinalized(s, completed))
    ensures Inv(Take(config, w, GcFinalized(s, completed)))
  {
    assert SessionOk(w.db.files, w.now, w.contents, w.db.txns, w.db.queue, w.sessions[s]);
    FinalizedItemsAreTargets(w, Seen(w.db.files, w.sessions[s].marks), completed);
    SessionKeepsInv(w, s, Take(config, w, GcFinalized(s, completed)).sessions[s]);
  }

  lemma SessionStepKeepsInv(config: Settings, w: World, step: Step)
    requires Inv(w) && Enabled(config, w, step)
    requires step.GcStart? || step.GcTtl? || step.GcFinalized? || step.OrphanScan? || step.GcRollback?
    ensures Inv(Take(config, w, step))
  {
    match step
    case GcStart(s, picked) =>
      SessionKeepsInv(w, s, Take(config, w, step).sessions[s]);
    case GcTtl(s, expired) =>
      TtlKeepsInv(config, w, s, expired);
    case GcFinalized(s, completed) =>
      FinalizedKeepsInv(config, w, s, completed);
    case OrphanScan(s, seId, listing) =>
      OrphanItemsAreTargets(config, w, seId, listing);
      var v := w.(scans := Take(config, w, step).scans);
      SessionKeepsInv(v, s, Take(config, w, step).sessions[s]);
    case GcRollback(s) =>
      CloseKeepsInv(w, s);
  }

  lemma CommitKeepsInv(w: World, s: nat)
    requires Inv(w) && s in w.sessions
    ensures Inv(AfterCommit(w, s))
  {
    var session := w.sessions[s];
    assert SessionOk(w.db.files, w.now, w.contents, w.db.txns, w.db.queue, session);
    var files := Seen(w.db.files, session.marks);
    SameCoreKeepsInv(w, files);
    var v := w.(db := w.db.(files := files));
    assert SessionOk(v.db.files, v.now, v.contents, v.db.txns, v.db.queue, session);
    QueueKeepsInv(v, session.dirty, session.added);
    CloseKeepsInv(v.(db := v.db.(queue := Merge(v.db.queue, session.dirty) + session.added)), s);
  }

  /** A copy is only ever written where no delete of the file is queued. */
  lemma CopyTargetIsFree(w: World, t: TxnId)
    requires Inv(w) && t < |w.db.txns|
    ensures Unclaimed(w, w.db.txns[t].targetSe, w.db.txns[t].fileId)
  {
    var txn := w.db.txns[t];
    forall s, i | s in w.sessions && i in w.sessions[s].dirty && w.sessions[s].dirty[i].fileId == txn.fileId
      ensures w.sessions[s].dirty[i].seId == txn.sourceSe
    {
      assert SessionOk(w.db.files, w.now, w.contents, w.db.txns, w.db.queue, w.sessions[s]);
    }
  }

  lemma WorkflowStepKeepsInv(config: Settings, w: World, step: Step)
    requires Inv(w) && Enabled(config, w, step) && Disciplined(w, step)
    requires step.CopyDone? || step.Verify? || step.MarkCompleted? || step.FailFinalize?
    ensures Inv(Take(config, w, step))
  {
    assert Copy(w.db.files, w.contents, w.db.txns[step.txn]);
    TxnKeepsInv(w, step.txn, Take(config, w, step).db.txns[step.txn]);
  }

  lemma FinalizeStepKeepsInv(config: Settings, w: World, step: Step)
    requires Inv(w) && Enabled(config, w, step) && Disciplined(w, step)
    requires step.BeginFinalize? || step.CopyWrite? || step.CopyDone? || step.Verify? || step.RegistryPut?
          || step.MarkCompleted? || step.FailFinalize?
    ensures Inv(Take(config, w, step))
  {
    if step.BeginFinalize? {
      BeginKeepsInv(w, Txn(step.id, step.sourceSe, step.targetSe, Copying, None, None, None));
    } else if step.CopyWrite? {
      CopyTargetIsFree(w, step.txn);
      WriteKeepsInv(w, w.db.txns[step.txn].targetSe, w.db.txns[step.txn].fileId, step.written);
    } else if step.RegistryPut? {
      PromotionKeepsInv(w, step.txn, step.path, step.finalizedAt);
    } else {
      WorkflowStepKeepsInv(config, w, step);
    }
  }

  /** A failed transaction takes back a copy that nobody counts on, or takes back nothing. */
  lemma RollBackKeepsInv(config: Settings, w: World, t: TxnId, deletes: bool)
    requires Inv(w) && Enabled(config, w, RollBackFinalize(t, deletes)) && Disciplined(w, RollBackFinalize(t, deletes))
    ensures Inv(Take(config, w, RollBackFinalize(t, deletes)))
  {
    var txn := w.db.txns[t];
    assert Copy(w.db.files, w.contents, txn);
    var v := w;
    if deletes {
      StrikeKeepsInv(w, txn.targetSe, txn.fileId);
      v := w.(contents := Strike(w.contents, txn.targetSe, txn.fileId));
    }
    TxnKeepsInv(v, t, txn.(status := RolledBack));
  }

  lemma RegistryStepKeepsInv(config: Settings, w: World, step: Step)
    requires Inv(w) && Enabled(config, w, step) && Disciplined(w, step)
    requires step.Tick? || step.SetStatus? || step.Upload? || step.RegisterFile? || step.EditFile? || step.DeleteFile?
    ensures Inv(Take(config, w, step))
  {
    match step
    case Tick(elapsed) => LaterKeepsInv(w, w.now + elapsed);
    case SetStatus(_, _) =>
    case Upload(id, seId, checksum) =>
      UploadIsFree(w, seId, id);
      WriteKeepsInv(w, seId, id, checksum);
    case RegisterFile(id, register) => RegisterKeepsInv(w, id, NewRow(register, w.now));
    case EditFile(id, update) => EditKeepsInv(w, id, Updated(w.db.files[id], update, w.now));
    case DeleteFile(id, reason) => EditKeepsInv(w, id, Deleted(w.db.files[id], reason, w.now));
  }

  lemma UploadIsFree(w: World, seId: SeId, id: FileId)
    requires Inv(w) && id !in w.db.files && !Named(w, id)
    ensures Unclaimed(w, seId, id) && !Relied(w, seId, id)
  {
  }

  predicate DriverStep(step: Step) {
    step.BeginFinalize? || step.CopyWrite? || step.CopyDone? || step.Verify? || step.RegistryPut?
    || step.MarkCompleted? || step.FailFinalize? || step.RollBackFinalize?
  }

  predicate RegistryStep(step: Step) {
    step.Tick? || step.SetStatus? || step.Upload? || step.RegisterFile? || step.EditFile? || step.DeleteFile?
  }

  lemma CollectorStepKeepsInv(config: Settings, w: World, step: Step)
    requires Inv(w) && Enabled(config, w, step) && !DriverStep(step) && !RegistryStep(step)
    ensures Inv(Take(config, w, step))
  {
    if step.GcItem? {
      ItemKeepsInv(config, w, step.session, step.reply);
    } else if step.GcCommit? {
      CommitKeepsInv(w, step.session);
    } else {
      SessionStepKeepsInv(config, w, step);
    }
  }

  lemma StepKeepsInv(config: Settings, w: World, step: Step)
    requires Inv(w) && Enabled(config, w, step) && Disciplined(w, step)
    ensures Inv(Take(config, w, step))
  {
    if RegistryStep(step) {
      RegistryStepKeepsInv(config, w, step);
    } else if DriverStep(step) {
      if step.RollBackFinalize? {
        RollBackKeepsInv(config, w, step.txn, step.deletes);
      } else {
        FinalizeStepKeepsInv(config, w, step);
      }
    } else {
      CollectorStepKeepsInv(config, w, step);
    }
  }

  // ---------- Whole runs ----------

  ghost predicate EnabledRun(config: Settings, w: World, steps: seq<Step>, last: World)
    decreases steps
  {
    if steps == [] then last == w
    else Enabled(config, w, steps[0]) && EnabledRun(config, Take(config, w, steps[0]), steps[1..], last)
  }

  ghost predicate DisciplinedRun(config: Settings, w: World, steps: seq<Step>)
    decreases steps
  {
    steps == [] || (Enabled(config, w, steps[0]) && Disciplined(w, steps[0])
                    && DisciplinedRun(config, Take(config, w, steps[0]), steps[1..]))
  }

  lemma {:induction false} Extend(config: Settings, w: World, steps: seq<Step>, last: World, step: Step)
    requires EnabledRun(config, w, steps, last) && Enabled(config, last, step)
    ensures EnabledRun(config, w, steps + [step], Take(config, last, step))
    decreases steps
  {
    if steps == [] {
      assert [step][1..] == [];
      assert EnabledRun(config, Take(config, w, step), [], Take(config, last, step));
    } else {
      assert (steps + [step])[1..] == steps[1..] + [step];
      Extend(config, Take(config, w, steps[0]), steps[1..], last, step);
    }
  }

  lemma {:induction false} RunKeepsInv(config: Settings, w: World, steps: seq<Step>, last: World)
    requires Inv(w) && EnabledRun(config, w, steps, last) && DisciplinedRun(config, w, steps)
    ensures Inv(last)
    decreases steps
  {
    if steps != [] {
      StepKeepsInv(config, w, steps[0]);
      RunKeepsInv(config, Take(config, w, steps[0]), steps[1..], last);
    }
  }

  /**
  No data loss. In every state of every disciplined run, with any number of collector sessions and finalize
  transactions interleaved with registration, editing, roll-backs and clock ticks, a permanent file and an unexpired
  temporary file have their registered bytes on the element their row names; and a row that says `success = true` is
  true. Of the finalize driver the discipline asks that a transaction is marked COMPLETED only after its registry
  update took effect, and that no copy somebody counts on is overwritten or taken back.
  */
  lemma NoDataLossEver(config: Settings, w: World, steps: seq<Step>, last: World)
    requires Initial(w) && EnabledRun(config, w, steps, last) && DisciplinedRun(config, w, steps)
    ensures NoLoss(last) && SuccessMeansAbsent(last)
  {
    RunKeepsInv(config, w, steps, last);
  }

  // ---------- Without orphan scans, registration needs no care ----------

  ghost predicate OnlyRegistered(files: map<FileId, File>, items: seq<QueueItem>) {
    forall i :: 0 <= i < |items| ==> items[i].fileId in files
  }

  ghost predicate NamesRegistered(w: World) {
    && OnlyRegistered(w.db.files, w.db.queue)
    && forall s :: s in w.sessions ==> OnlyRegistered(w.db.files, w.sessions[s].added)
  }

  lemma {:induction false} TtlItemsNameRegistered(queue: seq<QueueItem>, files: map<FileId, File>, ids: seq<FileId>,
                                                  now: Time)
    ensures OnlyRegistered(files, TtlItems(queue, files, ids, now))
  {
    if ids != [] {
      TtlItemsNameRegistered(queue, files, ids[..|ids| - 1], now);
    }
  }

  lemma {:induction false} FinalizedItemsNameRegistered(queue: seq<QueueItem>, files: map<FileId, File>,
                                                        seen: map<FileId, File>,
                                                        txns: seq<Txn>, ids: seq<TxnId>, now: Time)
    requires forall k :: 0 <= k < |ids| ==> ids[k] < |txns| && txns[ids[k]].fileId in files
    ensures OnlyRegistered(files, FinalizedItems(queue, seen, txns, ids, now))
  {
    if ids != [] {
      FinalizedItemsNameRegistered(queue, files, seen, txns, ids[..|ids| - 1], now);
    }
  }

  lemma NamesGrow(w: World, v: World)
    requires NamesRegistered(w) && w.db.files.Keys <= v.db.files.Keys
    requires OnlyRegistered(v.db.files, v.db.queue)
    requires forall s :: s in v.sessions ==>
      OnlyRegistered(v.db.files, v.sessions[s].added) || (s in w.sessions && v.sessions[s].added == w.sessions[s].added)
    ensures NamesRegistered(v)
  {
  }

  lemma NamesRegisteredTtl(config: Settings, w: World, s: nat, expired: seq<FileId>)
    requires NamesRegistered(w) && Enabled(config, w, GcTtl(s, expired))
    ensures NamesRegistered(Take(config, w, GcTtl(s, expired)))
  {
    assert OnlyRegistered(w.db.files, w.sessions[s].added);
    TtlItemsNameRegistered(w.db.queue, Seen(w.db.files, w.sessions[s].marks), expired, w.now);
    NamesGrow(w, Take(config, w, GcTtl(s, expired)));
  }

  lemma NamesRegisteredFinalized(config: Settings, w: World, s: nat, completed: seq<TxnId>)
    requires Txns(w.db.files, w.contents, w.db.txns)
    requires NamesRegistered(w) && Enabled(config, w, GcFinalized(s, completed))
    ensures NamesRegistered(Take(config, w, GcFinalized(s, completed)))
  {
    assert OnlyRegistered(w.db.files, w.sessions[s].added);
    FinalizedItemsNameRegistered(w.db.queue, w.db.files, Seen(w.db.files, w.sessions[s].marks), w.db.txns,
                                 completed, w.now);
    NamesGrow(w, Take(config, w, GcFinalized(s, completed)));
  }

  lemma NamesRegisteredCommit(w: World, s: nat)
    requires NamesRegistered(w) && s in w.sessions
    requires SessionOk(w.db.files, w.now, w.contents, w.db.txns, w.db.queue, w.sessions[s])
    ensures NamesRegistered(AfterCommit(w, s))
  {
  }

  lemma NamesRegisteredStep(config: Settings, w: World, step: Step)
    requires Inv(w) && NamesRegistered(w) && Enabled(config, w, step) && !step.OrphanScan?
    ensures NamesRegistered(Take(config, w, step))
  {
    if step.GcTtl? {
      NamesRegisteredTtl(config, w, step.session, step.expired);
    } else if step.GcFinalized? {
      NamesRegisteredFinalized(config, w, step.session, step.completed);
    } else if step.GcCommit? {
      NamesRegisteredCommit(w, step.session);
    } else {
      var v := Take(config, w, step);
      assert v.db.queue == w.db.queue && w.db.files.Keys <= v.db.files.Keys;
      NamesGrow(w, v);
    }
  }

  /** The discipline of a deployment that never runs the orphan scan: registration only has to follow the upload. */
  ghost predicate DisciplinedNoScan(w: World, step: Step) {
    match step
    case OrphanScan(_, _, _) => false
    case RegisterFile(id, register) =>
      (register.seId, id) in w.contents && w.contents[(register.seId, id)] == register.checksum
    case Upload(_, _, _) => true
    case _ => Disciplined(w, step)
  }

  ghost predicate NoScanRun(config: Settings, w: World, steps: seq<Step>)
    decreases steps
  {
    steps == [] || (Enabled(config, w, steps[0]) && DisciplinedNoScan(w, steps[0])
                    && NoScanRun(config, Take(config, w, steps[0]), steps[1..]))
  }

  lemma {:induction false} NoScanRunIsDisciplined(config: Settings, w: World, steps: seq<Step>)
    requires Inv(w) && NamesRegistered(w) && NoScanRun(config, w, steps)
    ensures DisciplinedRun(config, w, steps)
    decreases steps
  {
    if steps != [] {
      assert Disciplined(w, steps[0]) by {
        forall s | s in w.sessions && (steps[0].RegisterFile? || steps[0].Upload?)
          ensures !NamedIn(w.sessions[s].added, steps[0].id)
        {
          assert OnlyRegistered(w.db.files, w.sessions[s].added);
        }
      }
      StepKeepsInv(config, w, steps[0]);
      NamesRegisteredStep(config, w, steps[0]);
      NoScanRunIsDisciplined(config, Take(config, w, steps[0]), steps[1..]);
    }
  }

  /** With TTL and finalized cleanup only, registering an uploaded file is always safe. */
  lemma NoDataLossWithoutScans(config: Settings, w: World, steps: seq<Step>, last: World)
    requires Initial(w) && EnabledRun(config, w, steps, last) && NoScanRun(config, w, steps)
    ensures NoLoss(last) && SuccessMeansAbsent(last)
  {
    NoScanRunIsDisciplined(config, w, steps);
    NoDataLossEver(config, w, steps, last);
  }
}
