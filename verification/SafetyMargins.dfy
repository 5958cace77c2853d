/**
The two waiting periods: 24 hours between finalization and the source delete, 7 days between an orphan scan
and the delete of what it found. Both are properties of every DELETE request ever sent, in every interleaving.
*/
module SafetyMargins {
  import opened FileRegistry
  import opened Cleanup
  import opened FileLifecycle
  import opened NoDataLoss

  /** A completed transaction for the item's file and element whose margin had run out by the scheduled time. */
  ghost predicate Settled(config: Settings, txns: seq<Txn>, item: QueueItem) {
    exists t :: 0 <= t < |txns| && SettledBy(config, txns[t], item)
  }

  predicate SettledBy(config: Settings, txn: Txn, item: QueueItem) {
    && txn.fileId == item.fileId && txn.sourceSe == item.seId
    && txn.status == Completed && txn.completedAt.Some?
    && txn.completedAt.value + config.safetyMargin <= item.scheduledAt
  }

  /** A scan of the item's element listed the file, and its grace period had run out by the scheduled time. */
  ghost predicate Scanned(config: Settings, scans: seq<Scan>, item: QueueItem) {
    exists k :: 0 <= k < |scans| && ScannedBy(config, scans[k], item)
  }

  predicate ScannedBy(config: Settings, scan: Scan, item: QueueItem) {
    scan.seId == item.seId && item.fileId in scan.listing && scan.at + config.orphanGrace <= item.scheduledAt
  }

  ghost predicate Justified(config: Settings, w: World, item: QueueItem) {
    && (item.reason == Finalized ==> Settled(config, w.db.txns, item))
    && (item.reason == Orphaned ==> Scanned(config, w.scans, item))
  }

  ghost predicate AllJustified(config: Settings, w: World, items: seq<QueueItem>) {
    forall i :: 0 <= i < |items| ==> Justified(config, w, items[i])
  }

  /** Every DELETE request went out no earlier than scheduled, and was scheduled no earlier than allowed. */
  ghost predicate MarginsKept(config: Settings, w: World) {
    forall k :: 0 <= k < |w.sent| ==> Justified(config, w, w.sent[k].item) && w.sent[k].item.scheduledAt <= w.sent[k].at
  }

  ghost predicate Margins(config: Settings, w: World) {
    && AllJustified(config, w, w.db.queue)
    && (forall s :: s in w.sessions ==> AllJustified(config, w, w.sessions[s].added))
    && MarginsKept(config, w)
  }

  ghost predicate CompletedStay(txns: seq<Txn>, later: seq<Txn>) {
    |txns| <= |later| && forall t :: 0 <= t < |txns| && txns[t].status == Completed ==> later[t] == txns[t]
  }

  /** Completed transactions and scans are for ever. */
  ghost predicate Grows(w: World, v: World) {
    CompletedStay(w.db.txns, v.db.txns) && |w.scans| <= |v.scans| && v.scans[..|w.scans|] == w.scans
  }

  lemma StaysJustified(config: Settings, w: World, v: World, item: QueueItem)
    requires Grows(w, v) && Justified(config, w, item)
    ensures Justified(config, v, item)
  {
    if item.reason == Finalized {
      var t :| 0 <= t < |w.db.txns| && SettledBy(config, w.db.txns[t], item);
      assert SettledBy(config, v.db.txns[t], item);
    }
    if item.reason == Orphaned {
      var k :| 0 <= k < |w.scans| && ScannedBy(config, w.scans[k], item);
      assert v.scans[k] == v.scans[..|w.scans|][k];
    }
  }

  // ---------- What a session remembers about the rows it picked ----------

  ghost predicate SessionBooks(now: Time, queue: seq<QueueItem>, s: Session) {
    && s.done <= |s.picked| && s.queueNow <= now
    && |s.loaded| <= |queue| && (forall i :: 0 <= i < |s.loaded| ==> SameTarget(s.loaded[i], queue[i]))
    && (forall k :: 0 <= k < |s.picked| ==>
          s.picked[k] < |s.loaded| && s.loaded[s.picked[k]].scheduledAt <= s.queueNow)
  }

  ghost predicate Books(w: World) {
    forall s :: s in w.sessions ==> SessionBooks(w.now, w.db.queue, w.sessions[s])
  }

  lemma BooksStay(w: World, v: World)
    requires Books(w) && w.now <= v.now && |w.db.queue| <= |v.db.queue|
    requires forall i :: 0 <= i < |w.db.queue| ==> SameTarget(w.db.queue[i], v.db.queue[i])
    requires forall s :: s in v.sessions ==>
      || SessionBooks(v.now, v.db.queue, v.sessions[s])
      || (s in w.sessions
          && v.sessions[s].(stage := w.sessions[s].stage, added := w.sessions[s].added) == w.sessions[s])
    ensures Books(v)
  {
    forall s | s in v.sessions
      ensures SessionBooks(v.now, v.db.queue, v.sessions[s])
    {
      if !SessionBooks(v.now, v.db.queue, v.sessions[s]) {
        assert SessionBooks(w.now, w.db.queue, w.sessions[s]);
      }
    }
  }

  lemma ItemKeepsBooks(config: Settings, w: World, s: nat, reply: Reply)
    requires Books(w) && Enabled(config, w, GcItem(s, reply))
    ensures Books(AfterItem(w, s, reply))
  {
    assert SessionBooks(w.now, w.db.queue, w.sessions[s]);
    assert SessionBooks(w.now, w.db.queue, AfterItem(w, s, reply).sessions[s]);
    BooksStay(w, AfterItem(w, s, reply));
  }

  lemma OpeningKeepsBooks(config: Settings, w: World, step: Step)
    requires Books(w) && Enabled(config, w, step) && (step.GcStart? || step.OrphanScan?)
    ensures Books(Take(config, w, step))
  {
    var v := Take(config, w, step);
    assert SessionBooks(v.now, v.db.queue, v.sessions[step.session]);
    BooksStay(w, v);
  }

  lemma StepKeepsBooks(config: Settings, w: World, step: Step)
    requires Books(w) && Enabled(config, w, step)
    ensures Books(Take(config, w, step))
  {
    if step.GcCommit? {
      CommitKeepsBooks(w, step.session);
    } else if step.GcItem? {
      ItemKeepsBooks(config, w, step.session, step.reply);
    } else if step.GcStart? || step.OrphanScan? {
      OpeningKeepsBooks(config, w, step);
    } else {
      BooksStay(w, Take(config, w, step));
    }
  }

  lemma CommitKeepsBooks(w: World, s: nat)
    requires Books(w) && s in w.sessions
    ensures Books(AfterCommit(w, s))
  {
    var queue := AfterCommit(w, s).db.queue;
    MergeKeepsTargets(w.db.queue, w.sessions[s].dirty);
    forall i | 0 <= i < |w.db.queue| ensures SameTarget(w.db.queue[i], queue[i]) {
      assert queue[i] == Merge(w.db.queue, w.sessions[s].dirty)[i];
    }
    BooksStay(w, AfterCommit(w, s));
  }

  lemma MarginsStay(config: Settings, w: World, v: World)
    requires Margins(config, w) && Grows(w, v)
    requires v.db.queue == w.db.queue && v.sent == w.sent
    requires forall s :: s in v.sessions ==>
      || AllJustified(config, v, v.sessions[s].added)
      || (s in w.sessions && v.sessions[s].added == w.sessions[s].added)
    ensures Margins(config, v)
  {
    forall item | Justified(config, w, item) ensures Justified(config, v, item) {
      StaysJustified(config, w, v, item);
    }
    forall s | s in v.sessions ensures AllJustified(config, v, v.sessions[s].added) {
      assert AllJustified(config, v, v.sessions[s].added) || AllJustified(config, w, w.sessions[s].added);
    }
  }

  lemma {:induction false} TtlItemsJustified(config: Settings, w: World, files: map<FileId, File>, ids: seq<FileId>)
    ensures AllJustified(config, w, TtlItems(w.db.queue, files, ids, w.now))
  {
    if ids != [] {
      TtlItemsJustified(config, w, files, ids[..|ids| - 1]);
    }
  }

  lemma {:induction false} FinalizedItemsJustified(config: Settings, w: World, files: map<FileId, File>,
                                                   ids: seq<TxnId>)
    requires forall k :: 0 <= k < |ids| ==>
      ids[k] < |w.db.txns| && FinalizedTxn(w.db.txns[ids[k]], w.now - config.safetyMargin)
    ensures AllJustified(config, w, FinalizedItems(w.db.queue, files, w.db.txns, ids, w.now))
  {
    if ids != [] {
      FinalizedItemsJustified(config, w, files, ids[..|ids| - 1]);
      var t := ids[|ids| - 1];
      var items := FinalizedItem(w.db.queue, files, w.db.txns[t], w.now);
      assert items != [] ==> SettledBy(config, w.db.txns[t], items[0]);
    }
  }

  /** What a prefix of the listing adds is justified by the scan of the whole listing. */
  lemma {:induction false} OrphanItemsJustified(config: Settings, w: World, v: World, scan: Scan, n: nat)
    requires v.scans != [] && v.scans[|v.scans| - 1] == scan && scan.at == w.now && n <= |scan.listing|
    ensures AllJustified(config, v,
                         OrphanItems(w.db.queue, w.db.files, scan.seId, scan.listing[..n], config.orphanGrace, w.now))
  {
    if n > 0 {
      OrphanItemsJustified(config, w, v, scan, n - 1);
      var id := scan.listing[n - 1];
      assert scan.listing[..n][..n - 1] == scan.listing[..n - 1] && scan.listing[..n][n - 1] == id;
      var items := OrphanItem(w.db.queue, id, scan.seId, config.orphanGrace, w.now);
      assert items != [] ==> ScannedBy(config, v.scans[|v.scans| - 1], items[0]);
    }
  }

  lemma ProducerKeepsMargins(config: Settings, w: World, step: Step)
    requires Margins(config, w) && Enabled(config, w, step) && (step.GcTtl? || step.GcFinalized?)
    ensures Margins(config, Take(config, w, step))
  {
    var v := Take(config, w, step);
    var s := step.session;
    var seen := Seen(w.db.files, w.sessions[s].marks);
    assert AllJustified(config, w, w.sessions[s].added);
    if step.GcTtl? {
      TtlItemsJustified(config, w, seen, step.expired);
    } else {
      FinalizedItemsJustified(config, w, seen, step.completed);
    }
    assert AllJustified(config, w, v.sessions[s].added);
    assert AllJustified(config, v, v.sessions[s].added);
    MarginsStay(config, w, v);
  }

  lemma ScanKeepsMargins(config: Settings, w: World, s: nat, seId: SeId, listing: seq<FileId>)
    requires Margins(config, w) && Enabled(config, w, OrphanScan(s, seId, listing))
    ensures Margins(config, Take(config, w, OrphanScan(s, seId, listing)))
  {
    var v := Take(config, w, OrphanScan(s, seId, listing));
    OrphanItemsJustified(config, w, v, Scan(w.now, seId, listing), |listing|);
    assert listing[..|listing|] == listing;
    assert AllJustified(config, v, v.sessions[s].added);
    MarginsStay(config, w, v);
  }

  lemma ItemKeepsMargins(config: Settings, w: World, s: nat, reply: Reply)
    requires Books(w) && Margins(config, w) && Enabled(config, w, GcItem(s, reply))
    ensures Margins(config, AfterItem(w, s, reply))
  {
  }

  lemma SameTargetJustified(config: Settings, w: World, a: QueueItem, b: QueueItem)
    requires SameTarget(b, a) && Justified(config, w, a)
    ensures Justified(config, w, b)
  {
    if b.reason == Finalized {
      var t :| 0 <= t < |w.db.txns| && SettledBy(config, w.db.txns[t], a);
      assert SettledBy(config, w.db.txns[t], b);
    }
    if b.reason == Orphaned {
      var k :| 0 <= k < |w.scans| && ScannedBy(config, w.scans[k], a);
      assert ScannedBy(config, w.scans[k], b);
    }
  }

  lemma CommitKeepsMargins(config: Settings, w: World, s: nat)
    requires Books(w) && Margins(config, w) && s in w.sessions
    ensures Margins(config, AfterCommit(w, s))
  {
    var v := AfterCommit(w, s);
    assert AllJustified(config, w, w.sessions[s].added);
    MergeKeepsTargets(w.db.queue, w.sessions[s].dirty);
    forall i | 0 <= i < |v.db.queue| ensures Justified(config, v, v.db.queue[i]) {
      if i < |w.db.queue| {
        SameTargetJustified(config, w, w.db.queue[i], v.db.queue[i]);
      } else {
        assert v.db.queue[i] == w.sessions[s].added[i - |w.db.queue|];
      }
      StaysJustified(config, w, v, v.db.queue[i]);
    }
    forall r | r in v.sessions ensures AllJustified(config, v, v.sessions[r].added) {
      assert AllJustified(config, w, w.sessions[r].added);
    }
  }

  lemma StepKeepsMargins(config: Settings, w: World, step: Step)
    requires Books(w) && Margins(config, w) && Enabled(config, w, step)
    ensures Margins(config, Take(config, w, step))
  {
    if step.GcTtl? || step.GcFinalized? {
      ProducerKeepsMargins(config, w, step);
    } else if step.OrphanScan? {
      ScanKeepsMargins(config, w, step.session, step.seId, step.listing);
    } else if step.GcItem? {
      ItemKeepsMargins(config, w, step.session, step.reply);
    } else if step.GcCommit? {
      CommitKeepsMargins(config, w, step.session);
    } else {
      var v := Take(config, w, step);
      assert step.GcStart? ==> AllJustified(config, v, v.sessions[step.session].added);
      MarginsStay(config, w, v);
    }
  }

  lemma {:induction false} RunKeepsMargins(config: Settings, w: World, steps: seq<Step>, last: World)
    requires Books(w) && Margins(config, w)
    requires EnabledRun(config, w, steps, last)
    ensures Margins(config, last)
    decreases steps
  {
    if steps != [] {
      StepKeepsBooks(config, w, steps[0]);
      StepKeepsMargins(config, w, steps[0]);
      RunKeepsMargins(config, Take(config, w, steps[0]), steps[1..], last);
    }
  }

  /**
  In every run, whatever its callers do, each DELETE sent for a finalized file goes out at least the safety margin
  after the recorded completion of a finalize transaction for that file and element, and each one sent for an orphan
  at least the grace period after an orphan scan that listed it on that element.
  */
  lemma SafetyMarginsEver(config: Settings, w: World, steps: seq<Step>, last: World, k: nat)
    requires Initial(w) && EnabledRun(config, w, steps, last)
    requires k < |last.sent|
    ensures
      var sent := last.sent[k];
      && (sent.item.reason == Finalized ==>
            exists t :: 0 <= t < |last.db.txns|
              && last.db.txns[t].fileId == sent.item.fileId && last.db.txns[t].sourceSe == sent.item.seId
              && last.db.txns[t].status == Completed && last.db.txns[t].completedAt.Some?
              && last.db.txns[t].completedAt.value + config.safetyMargin <= sent.at)
      && (sent.item.reason == Orphaned ==>
            exists j :: 0 <= j < |last.scans|
              && last.scans[j].seId == sent.item.seId && sent.item.fileId in last.scans[j].listing
              && last.scans[j].at + config.orphanGrace <= sent.at)
  {
    RunKeepsMargins(config, w, steps, last);
    var sent := last.sent[k];
    assert Justified(config, last, sent.item);
    if sent.item.reason == Finalized {
      var t :| 0 <= t < |last.db.txns| && SettledBy(config, last.db.txns[t], sent.item);
    }
    if sent.item.reason == Orphaned {
      var j :| 0 <= j < |last.scans| && ScannedBy(config, last.scans[j], sent.item);
    }
  }
}
