/**
At most one pending queue row per file and element.

The producers decide by reading the committed queue, blind to the rows they are about to add. That is enough under
four rules, each of which UniquenessLimits shows to be needed: one collector session is open at a time; it reaches its
last producer within the safety margin; completions are recorded promptly; and no two transactions of a file are
COMPLETED. Registration, editing and finalization may interleave with the session freely.
*/
module PendingUniqueness {
  import opened Wrappers
  import opened FileRegistry
  import opened Cleanup
  import opened FileLifecycle
  import opened NoDataLoss

  predicate SamePlace(a: QueueItem, b: QueueItem) {
    a.fileId == b.fileId && a.seId == b.seId
  }

  ghost predicate UniquePending(queue: seq<QueueItem>) {
    forall i, j :: 0 <= i < j < |queue| && queue[i].Pending() && queue[j].Pending() ==> !SamePlace(queue[i], queue[j])
  }

  ghost predicate Fresh(queue: seq<QueueItem>, added: seq<QueueItem>) {
    forall i, j :: 0 <= i < |queue| && 0 <= j < |added| && queue[i].Pending() ==> !SamePlace(queue[i], added[j])
  }

  ghost predicate PairwiseApart(items: seq<QueueItem>) {
    forall i, j :: 0 <= i < j < |items| ==> !SamePlace(items[i], items[j])
  }

  /** A TTL row's file was temporary when the session looked: whatever completed since, completed after that. */
  ghost predicate StillRecent(txns: seq<Txn>, since: Time, item: QueueItem) {
    forall t :: 0 <= t < |txns| && txns[t].fileId == item.fileId && txns[t].status == Completed ==>
      txns[t].completedAt.Some? && since <= txns[t].completedAt.value
  }

  ghost predicate AllRecent(txns: seq<Txn>, since: Time, items: seq<QueueItem>) {
    forall i :: 0 <= i < |items| ==> StillRecent(txns, since, items[i])
  }

  ghost predicate AddsOk(w: World, lag: nat, s: Session) {
    && PairwiseApart(s.added) && Fresh(w.db.queue, s.added)
    && s.queueNow <= w.now
    && (s.stage == QueueStage ==> s.added == [])
    && (s.stage == TtlDone ==> AllRecent(w.db.txns, s.queueNow - lag, s.added))
  }

  ghost predicate Alone(w: World) {
    forall s, t :: s in w.sessions && t in w.sessions ==> s == t
  }

  ghost predicate OneCompleted(txns: seq<Txn>) {
    forall t, u :: 0 <= t < u < |txns| && txns[t].fileId == txns[u].fileId ==>
      txns[t].status != Completed || txns[u].status != Completed
  }

  ghost predicate Unique(w: World, lag: nat) {
    && UniquePending(w.db.queue) && Alone(w) && OneCompleted(w.db.txns)
    && forall s :: s in w.sessions ==> AddsOk(w, lag, w.sessions[s])
  }

  /** Which of the four rules are kept. */
  datatype Rules = Rules(alone: bool, inMargin: bool, prompt: bool, once: bool)

  const ALL := Rules(true, true, true, true)

  predicate NoneCompleted(txns: seq<Txn>, id: FileId) {
    forall t :: 0 <= t < |txns| && txns[t].status == Completed ==> txns[t].fileId != id
  }

  /** A completion time is at most `lag` old when it is written. */
  ghost predicate Serial(config: Settings, lag: nat, rules: Rules, w: World, step: Step) {
    match step
    case GcStart(_, _) => rules.alone ==> w.sessions == map[]
    case OrphanScan(_, _, _) => rules.alone ==> w.sessions == map[]
    case GcFinalized(s, _) =>
      rules.inMargin ==> s in w.sessions && w.now + lag < w.sessions[s].queueNow + config.safetyMargin
    case MarkCompleted(t, at) =>
      && (rules.prompt ==> w.now <= at + lag)
      && (rules.once ==> t < |w.db.txns| && NoneCompleted(w.db.txns, w.db.txns[t].fileId))
    case _ => true
  }

  // ---------- Producers ----------

  lemma NotPending(queue: seq<QueueItem>, fileId: FileId, seId: Option<SeId>, i: nat)
    requires PendingOf(queue, fileId, seId) == {} && i < |queue|
    ensures !(queue[i].Pending() && queue[i].fileId == fileId && (seId.Some? ==> queue[i].seId == seId.value))
  {
    assert i !in PendingOf(queue, fileId, seId);
  }

  ghost predicate NamesOnly(items: seq<QueueItem>, ids: seq<FileId>) {
    forall i :: 0 <= i < |items| ==> items[i].fileId in ids
  }

  lemma {:induction false} TtlItemsUnique(queue: seq<QueueItem>, files: map<FileId, File>, ids: seq<FileId>, now: Time)
    requires Distinct(ids)
    ensures
      var items := TtlItems(queue, files, ids, now);
      PairwiseApart(items) && Fresh(queue, items) && NamesOnly(items, ids)
  {
    if ids != [] {
      var rest, id := ids[..|ids| - 1], ids[|ids| - 1];
      TtlItemsUnique(queue, files, rest, now);
      assert id !in rest;
      var items := TtlItem(queue, files, id, now);
      forall i | 0 <= i < |queue| && items != []
        ensures !(queue[i].Pending() && SamePlace(queue[i], items[0]))
      {
        NotPending(queue, id, None, i);
      }
    }
  }

  ghost predicate FromTxns(items: seq<QueueItem>, txns: seq<Txn>, ids: seq<TxnId>) {
    forall i :: 0 <= i < |items| ==> IsFrom(items[i].fileId, txns, ids)
  }

  ghost predicate IsFrom(id: FileId, txns: seq<Txn>, ids: seq<TxnId>) {
    exists k :: 0 <= k < |ids| && ids[k] < |txns| && txns[ids[k]].fileId == id
  }

  lemma {:induction false} FinalizedItemsUnique(queue: seq<QueueItem>, files: map<FileId, File>, txns: seq<Txn>,
                                                ids: seq<TxnId>, now: Time)
    requires Distinct(ids)
    requires forall k :: 0 <= k < |ids| ==> ids[k] < |txns| && txns[ids[k]].status == Completed
    requires OneCompleted(txns)
    ensures
      var items := FinalizedItems(queue, files, txns, ids, now);
      PairwiseApart(items) && Fresh(queue, items) && FromTxns(items, txns, ids)
  {
    if ids != [] {
      var n := |ids| - 1;
      FinalizedItemsUnique(queue, files, txns, ids[..n], now);
      var before := FinalizedItems(queue, files, txns, ids[..n], now);
      var items := FinalizedItem(queue, files, txns[ids[n]], now);
      assert FinalizedItems(queue, files, txns, ids, now) == before + items;
      EarlierFilesDiffer(before, txns, ids);
      FinalizedItemIsFresh(queue, files, txns[ids[n]], now);
      assert forall i :: 0 <= i < |items| ==> items[i].fileId == txns[ids[n]].fileId;
    }
  }

  /** Rows of the transactions before the last one name other files. */
  lemma EarlierFilesDiffer(before: seq<QueueItem>, txns: seq<Txn>, ids: seq<TxnId>)
    requires ids != [] && Distinct(ids) && OneCompleted(txns)
    requires forall k :: 0 <= k < |ids| ==> ids[k] < |txns| && txns[ids[k]].status == Completed
    requires FromTxns(before, txns, ids[..|ids| - 1])
    ensures FromTxns(before, txns, ids)
    ensures forall i :: 0 <= i < |before| ==> before[i].fileId != txns[ids[|ids| - 1]].fileId
  {
    var n := |ids| - 1;
    forall i | 0 <= i < |before|
      ensures before[i].fileId != txns[ids[n]].fileId
      ensures IsFrom(before[i].fileId, txns, ids)
    {
      assert IsFrom(before[i].fileId, txns, ids[..n]);
      var k :| 0 <= k < n && ids[..n][k] < |txns| && txns[ids[..n][k]].fileId == before[i].fileId;
      assert ids[k] != ids[n] && ids[k] < |txns| && txns[ids[k]].fileId == before[i].fileId;
    }
  }

  lemma FinalizedItemIsFresh(queue: seq<QueueItem>, files: map<FileId, File>, txn: Txn, now: Time)
    ensures Fresh(queue, FinalizedItem(queue, files, txn, now))
  {
    var items := FinalizedItem(queue, files, txn, now);
    forall i | 0 <= i < |queue| && items != []
      ensures !(queue[i].Pending() && SamePlace(queue[i], items[0]))
    {
      NotPending(queue, txn.fileId, Some(txn.sourceSe), i);
    }
  }

  lemma {:induction false} OrphanItemsUnique(config: Settings, w: World, seId: SeId, listing: seq<FileId>)
    requires Distinct(listing)
    ensures
      var items := OrphanItems(w.db.queue, w.db.files, seId, listing, config.orphanGrace, w.now);
      PairwiseApart(items) && Fresh(w.db.queue, items) && NamesOnly(items, listing)
  {
    if listing != [] {
      var rest, id := listing[..|listing| - 1], listing[|listing| - 1];
      OrphanItemsUnique(config, w, seId, rest);
      assert id !in rest;
      var items := OrphanItem(w.db.queue, id, seId, config.orphanGrace, w.now);
      forall i | 0 <= i < |w.db.queue| && items != []
        ensures !(w.db.queue[i].Pending() && SamePlace(w.db.queue[i], items[0]))
      {
        NotPending(w.db.queue, id, Some(seId), i);
      }
    }
  }

  // ---------- Steps ----------

  lemma TtlFilesAreRecent(w: World, seen: map<FileId, File>, expired: seq<FileId>, items: seq<QueueItem>, since: Time)
    requires Txns(w.db.files, w.contents, w.db.txns) && NamesOnly(items, expired)
    requires forall k :: 0 <= k < |expired| ==>
      expired[k] in w.db.files && w.db.files[expired[k]].retention == Temporary
    ensures AllRecent(w.db.txns, since, items)
  {
  }

  lemma TtlKeepsUnique(config: Settings, lag: nat, w: World, s: nat, expired: seq<FileId>)
    requires Inv(w) && Unique(w, lag) && Enabled(config, w, GcTtl(s, expired))
    ensures Unique(Take(config, w, GcTtl(s, expired)), lag)
  {
    var session := w.sessions[s];
    assert AddsOk(w, lag, session);
    var seen := Seen(w.db.files, session.marks);
    var items := TtlItems(w.db.queue, seen, expired, w.now);
    TtlItemsUnique(w.db.queue, seen, expired, w.now);
    assert [] + items == items;
    TtlFilesAreRecent(w, seen, expired, items, session.queueNow - lag);
    var v := Take(config, w, GcTtl(s, expired));
    assert AddsOk(v, lag, v.sessions[s]);
    assert forall t :: t in v.sessions ==> t == s;
  }

  /** What the TTL producer added was temporary at the start; what is finalized now completed before that. */
  lemma RecentApartFromOld(txns: seq<Txn>, since: Time, cutoff: Time, added: seq<QueueItem>, items: seq<QueueItem>,
                           completed: seq<TxnId>)
    requires AllRecent(txns, since, added) && cutoff < since && FromTxns(items, txns, completed)
    requires forall k :: 0 <= k < |completed| ==> completed[k] < |txns| && FinalizedTxn(txns[completed[k]], cutoff)
    ensures forall i, j :: 0 <= i < |added| && 0 <= j < |items| ==> !SamePlace(added[i], items[j])
  {
  }

  lemma AppendKeepsApart(queue: seq<QueueItem>, added: seq<QueueItem>, items: seq<QueueItem>)
    requires PairwiseApart(added) && PairwiseApart(items) && Fresh(queue, added) && Fresh(queue, items)
    requires forall i, j :: 0 <= i < |added| && 0 <= j < |items| ==> !SamePlace(added[i], items[j])
    ensures PairwiseApart(added + items) && Fresh(queue, added + items)
  {
  }

  lemma FinalizedKeepsUnique(config: Settings, lag: nat, w: World, s: nat, completed: seq<TxnId>)
    requires Inv(w) && Unique(w, lag) && Enabled(config, w, GcFinalized(s, completed))
    requires Serial(config, lag, ALL, w, GcFinalized(s, completed))
    ensures Unique(Take(config, w, GcFinalized(s, completed)), lag)
  {
    var session := w.sessions[s];
    assert AddsOk(w, lag, session);
    var items := FinalizedItems(w.db.queue, Seen(w.db.files, session.marks), w.db.txns, completed, w.now);
    FinalizedItemsUnique(w.db.queue, Seen(w.db.files, session.marks), w.db.txns, completed, w.now);
    RecentApartFromOld(w.db.txns, session.queueNow - lag, w.now - config.safetyMargin, session.added, items, completed);
    AppendKeepsApart(w.db.queue, session.added, items);
    OnlySessionKeepsUnique(lag, w, Take(config, w, GcFinalized(s, completed)), s);
  }

  lemma OnlySessionKeepsUnique(lag: nat, w: World, v: World, s: nat)
    requires Unique(w, lag) && s in w.sessions && v.db == w.db && v.now == w.now
    requires s in v.sessions && v.sessions == w.sessions[s := v.sessions[s]] && AddsOk(v, lag, v.sessions[s])
    ensures Unique(v, lag)
  {
  }

  lemma CommitKeepsUnique(lag: nat, w: World, s: nat)
    requires Unique(w, lag) && s in w.sessions
    ensures Unique(AfterCommit(w, s), lag)
  {
  }

  /** Queue and sessions untouched, and what completes now is stamped recently. */
  ghost predicate Quiet(lag: nat, w: World, v: World) {
    && v.db.queue == w.db.queue && v.sessions == w.sessions && w.now <= v.now && OneCompleted(v.db.txns)
    && forall t :: 0 <= t < |v.db.txns| && v.db.txns[t].status == Completed ==>
         || (t < |w.db.txns| && v.db.txns[t] == w.db.txns[t])
         || (v.db.txns[t].completedAt.Some? && w.now - lag <= v.db.txns[t].completedAt.value)
  }

  predicate Outside(step: Step) {
    && !step.GcStart? && !step.GcItem? && !step.GcTtl? && !step.GcFinalized? && !step.OrphanScan?
    && !step.GcCommit? && !step.GcRollback?
  }

  lemma OutsideIsQuiet(config: Settings, lag: nat, w: World, step: Step)
    requires OneCompleted(w.db.txns) && Enabled(config, w, step) && Serial(config, lag, ALL, w, step) && Outside(step)
    ensures Quiet(lag, w, Take(config, w, step))
  {
  }

  lemma QuietKeepsUnique(lag: nat, w: World, v: World)
    requires Unique(w, lag) && Quiet(lag, w, v)
    ensures Unique(v, lag)
  {
  }

  /** Steps outside the collector leave the queue alone; a completion they cause is recent. */
  lemma OutsideKeepsUnique(config: Settings, lag: nat, w: World, step: Step)
    requires Unique(w, lag) && Enabled(config, w, step) && Serial(config, lag, ALL, w, step) && Outside(step)
    ensures Unique(Take(config, w, step), lag)
  {
    OutsideIsQuiet(config, lag, w, step);
    QuietKeepsUnique(lag, w, Take(config, w, step));
  }

  lemma ItemKeepsUnique(config: Settings, lag: nat, w: World, s: nat, reply: Reply)
    requires Unique(w, lag) && Enabled(config, w, GcItem(s, reply))
    requires SessionOk(w.db.files, w.now, w.contents, w.db.txns, w.db.queue, w.sessions[s])
    ensures Unique(AfterItem(w, s, reply), lag)
  {
    assert AddsOk(w, lag, w.sessions[s]);
  }

  lemma OpeningKeepsUnique(config: Settings, lag: nat, w: World, step: Step)
    requires Unique(w, lag) && Enabled(config, w, step) && Serial(config, lag, ALL, w, step)
    requires step.GcStart? || step.OrphanScan?
    ensures Unique(Take(config, w, step), lag)
  {
    if step.OrphanScan? {
      OrphanItemsUnique(config, w, step.seId, step.listing);
    }
  }

  lemma StepKeepsUnique(config: Settings, lag: nat, w: World, step: Step)
    requires Inv(w) && Unique(w, lag) && Enabled(config, w, step) && Serial(config, lag, ALL, w, step)
    ensures Unique(Take(config, w, step), lag)
  {
    if step.GcItem? {
      assert SessionOk(w.db.files, w.now, w.contents, w.db.txns, w.db.queue, w.sessions[step.session]);
      ItemKeepsUnique(config, lag, w, step.session, step.reply);
    } else if step.GcTtl? {
      TtlKeepsUnique(config, lag, w, step.session, step.expired);
    } else if step.GcFinalized? {
      FinalizedKeepsUnique(config, lag, w, step.session, step.completed);
    } else if step.GcCommit? {
      CommitKeepsUnique(lag, w, step.session);
    } else if step.GcRollback? {
      assert forall t :: t in w.sessions ==> t == step.session;
    } else if step.GcStart? || step.OrphanScan? {
      OpeningKeepsUnique(config, lag, w, step);
    } else {
      OutsideKeepsUnique(config, lag, w, step);
    }
  }

  ghost predicate SerialRun(config: Settings, lag: nat, rules: Rules, w: World, steps: seq<Step>)
    decreases steps
  {
    steps == [] || (Enabled(config, w, steps[0]) && Serial(config, lag, rules, w, steps[0])
                    && SerialRun(config, lag, rules, Take(config, w, steps[0]), steps[1..]))
  }

  lemma {:induction false} RunKeepsUnique(config: Settings, lag: nat, w: World, steps: seq<Step>, last: World)
    requires Inv(w) && Unique(w, lag)
    requires EnabledRun(config, w, steps, last) && DisciplinedRun(config, w, steps)
    requires SerialRun(config, lag, ALL, w, steps)
    ensures Unique(last, lag)
    decreases steps
  {
    if steps != [] {
      StepKeepsInv(config, w, steps[0]);
      StepKeepsUnique(config, lag, w, steps[0]);
      RunKeepsUnique(config, lag, Take(config, w, steps[0]), steps[1..], last);
    }
  }

  /** Over every run that keeps the four rules, no two pending rows name the same file and element. */
  lemma PendingUniquenessEver(config: Settings, lag: nat, w: World, steps: seq<Step>, last: World)
    requires Initial(w)
    requires EnabledRun(config, w, steps, last) && DisciplinedRun(config, w, steps)
    requires SerialRun(config, lag, ALL, w, steps)
    ensures UniquePending(last.db.queue)
  {
    RunKeepsUnique(config, lag, w, steps, last);
  }
}
