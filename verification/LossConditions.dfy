/**
What one undisciplined step costs. For each rule of `Disciplined` that a caller may break, the exact condition under
which some disciplined continuation loses the file afterwards.
*/
module LossConditions {
  import opened Wrappers
  import opened FileRegistry
  import opened Cleanup
  import opened FileLifecycle
  import opened NoDataLoss
  import opened LossCriterion
  import opened LossWitness

  predicate Usable(config: Settings) {
    0 < config.batchSize && 0 < config.maxRetry
  }

  // ---------- Promotion in place ----------

  const PROMOTE: UpdateRequest := NO_CHANGE.(retention := Some(Permanent))

  /** The row can still be picked. */
  predicate CanBePicked(config: Settings, item: QueueItem) {
    item.Pending() && item.retryCount < config.maxRetry
  }

  /** A delete of the file is queued with retries left, picked and not yet done, or going to be written by a session. */
  ghost predicate DeletePlanned(config: Settings, w: World, f: FileId) {
    || (exists i :: 0 <= i < |w.db.queue| && w.db.queue[i].fileId == f && CanBePicked(config, w.db.queue[i]))
    || (exists s: nat, k: nat :: CanStillDelete(w, s, k) && w.db.queue[w.sessions[s].picked[k]].fileId == f)
    || (exists s, item :: s in w.sessions && WillWrite(w.db.queue, w.sessions[s], item) && item.fileId == f
                       && CanBePicked(config, item))
  }

  /** Every row that names a temporary file names it on its own element. */
  lemma RowsNameOwnPlace(w: World, f: FileId)
    requires Inv(w) && f in w.db.files && w.db.files[f].retention == Temporary
    ensures forall i :: 0 <= i < |w.db.queue| && w.db.queue[i].fileId == f ==> w.db.queue[i].seId == w.db.files[f].seId
    ensures forall s, item :: s in w.sessions && WillWrite(w.db.queue, w.sessions[s], item) && item.fileId == f ==>
      item.seId == w.db.files[f].seId
  {
    forall i | 0 <= i < |w.db.queue| ensures Target(w.db.files, w.now, w.db.queue[i]) {
    }
    forall s, item | s in w.sessions && WillWrite(w.db.queue, w.sessions[s], item) && item.fileId == f
      ensures item.seId == w.db.files[f].seId
    {
      var x := w.sessions[s];
      assert SessionOk(w.db.files, w.now, w.contents, w.db.txns, w.db.queue, x);
      if item !in x.added {
        var i :| 0 <= i < |w.db.queue| && i < |x.loaded| && Outcome(x, i) == item;
        OutcomeTarget(w.db.queue, x, i);
      }
    }
  }

  /** For a permanent file that all rows name on its own element, planned deletes are what dooms it. */
  lemma PlannedIsDoomed(config: Settings, v: World, f: FileId)
    requires f in v.db.files && v.db.files[f].retention == Permanent
    requires forall i :: 0 <= i < |v.db.queue| && v.db.queue[i].fileId == f ==> v.db.queue[i].seId == v.db.files[f].seId
    requires forall s, item :: s in v.sessions && WillWrite(v.db.queue, v.sessions[s], item) && item.fileId == f ==>
      item.seId == v.db.files[f].seId
    ensures DeletePlanned(config, v, f) <==> RowDooms(config, v, f) || PickDooms(v, f) || SessionDooms(config, v, f)
  {
    forall item: QueueItem | item.fileId == f && item.seId == v.db.files[f].seId
      ensures Dangerous(config, v, f, item) <==> CanBePicked(config, item)
    {
    }
    forall s: nat, k: nat
      ensures PickHits(v, f, s, k) <==> CanStillDelete(v, s, k) && v.db.queue[v.sessions[s].picked[k]].fileId == f
    {
    }
    if DeletePlanned(config, v, f) {
      PlannedDooms(config, v, f);
    }
  }

  lemma PlannedDooms(config: Settings, v: World, f: FileId)
    requires f in v.db.files && DeletePlanned(config, v, f)
    requires forall item: QueueItem | item.fileId == f && item.seId == v.db.files[f].seId ::
      Dangerous(config, v, f, item) <==> CanBePicked(config, item)
    requires forall i :: 0 <= i < |v.db.queue| && v.db.queue[i].fileId == f ==> v.db.queue[i].seId == v.db.files[f].seId
    requires forall s, item :: s in v.sessions && WillWrite(v.db.queue, v.sessions[s], item) && item.fileId == f ==>
      item.seId == v.db.files[f].seId
    requires forall s: nat, k: nat ::
      PickHits(v, f, s, k) <==> CanStillDelete(v, s, k) && v.db.queue[v.sessions[s].picked[k]].fileId == f
    ensures RowDooms(config, v, f) || PickDooms(v, f) || SessionDooms(config, v, f)
  {
    if i :| 0 <= i < |v.db.queue| && v.db.queue[i].fileId == f && CanBePicked(config, v.db.queue[i]) {
      assert Dangerous(config, v, f, v.db.queue[i]);
    } else if s: nat, k: nat :| CanStillDelete(v, s, k) && v.db.queue[v.sessions[s].picked[k]].fileId == f {
      assert PickHits(v, f, s, k);
    } else {
      var s, item :| s in v.sessions && WillWrite(v.db.queue, v.sessions[s], item) && item.fileId == f
          && CanBePicked(config, item);
      assert Dangerous(config, v, f, item);
    }
  }

  /** A temporary file has no completed transaction; the others stay fitting when it is promoted in place. */
  lemma PromotedFits(config: Settings, w: World, f: FileId)
    requires Inv(w) && f in w.db.files && w.db.files[f].retention == Temporary
    ensures
      var v := Take(config, w, EditFile(f, PROMOTE));
      FileTxns(v, f) && !Stale(config, v, f)
  {
    var v := Take(config, w, EditFile(f, PROMOTE));
    InvFits(w, f);
    forall t | 0 <= t < |v.db.txns| && v.db.txns[t].fileId == f
      ensures TxnFits(v, f, v.db.txns[t]) && v.db.txns[t].status != Completed
    {
      assert TxnFits(w, f, w.db.txns[t]) && Copy(w.db.files, w.contents, w.db.txns[t]);
    }
  }

  /** What is planned depends on queue and sessions only. */
  lemma SamePlans(config: Settings, w: World, v: World, f: FileId)
    requires v.db.queue == w.db.queue && v.sessions == w.sessions
    ensures DeletePlanned(config, v, f) <==> DeletePlanned(config, w, f)
  {
    assert forall s: nat, k: nat :: CanStillDelete(v, s, k) <==> CanStillDelete(w, s, k);
  }

  /**
  `update_file` may promote a temporary file where it is. The file can be lost afterwards iff its bytes are missing
  already or a delete of it is planned.
  */
  lemma PromotionInPlaceLosesIff(config: Settings, w: World, f: FileId)
    requires Usable(config) && Inv(w) && Wf(w) && f in w.db.files && w.db.files[f].retention == Temporary
    ensures CanBeLost(config, Take(config, w, EditFile(f, PROMOTE)), f) <==>
      (w.db.files[f].seId, f) !in w.contents || DeletePlanned(config, w, f)
  {
    var v := Take(config, w, EditFile(f, PROMOTE));
    StepKeepsWf(config, w, EditFile(f, PROMOTE));
    PromotedFits(config, w, f);
    RowsNameOwnPlace(w, f);
    PlannedIsDoomed(config, v, f);
    FileCanBeLostIff(config, v, f);
    SamePlans(config, w, v, f);
    assert Lost(v, f) <==> (w.db.files[f].seId, f) !in w.contents;
  }

  // ---------- A registry update that did not take effect ----------

  /**
  The driver marks a transaction COMPLETED even when its registry update was answered with an error. The file can be
  lost afterwards iff the update has not taken effect and the file will still be protected when the safety margin
  has passed.
  */
  lemma SwallowedUpdateLosesIff(config: Settings, w: World, t: TxnId, at: Time)
    requires Usable(config) && Inv(w) && Wf(w) && Enabled(config, w, MarkCompleted(t, at))
    ensures
      var txn := w.db.txns[t];
      && txn.fileId in w.db.files
      && (CanBeLost(config, Take(config, w, MarkCompleted(t, at)), txn.fileId) <==>
            !TookEffect(w, txn) && Protected(w.db.files[txn.fileId], Later(w.now, at + config.safetyMargin)))
  {
    var txn := w.db.txns[t];
    var f := txn.fileId;
    var v := Take(config, w, MarkCompleted(t, at));
    assert Copy(w.db.files, w.contents, txn);
    InvIsSafe(config, w, f);
    StepKeepsWf(config, w, MarkCompleted(t, at));
    if TookEffect(w, txn) {
      StepSafe(config, w, MarkCompleted(t, at), f);
      SafeIsNeverLost(config, v, f);
    } else if Protected(w.db.files[f], Later(w.now, at + config.safetyMargin)) {
      assert IsStale(config, v, f, v.db.txns[t]);
      forall i: ItemId ensures !NamesPlace(v, f, i) {
        if i < |w.db.queue| {
          assert Target(w.db.files, w.now, w.db.queue[i]);
        }
      }
      StaleLoses(config, v, f);
    } else {
      StaysSafe(config, w, t, at);
      SafeIsNeverLost(config, v, f);
    }
  }

  /** Once the file expires before the margin ends, the early mark does no harm. */
  lemma StaysSafe(config: Settings, w: World, t: TxnId, at: Time)
    requires Enabled(config, w, MarkCompleted(t, at)) && Safe(config, w, w.db.txns[t].fileId)
    requires !Protected(w.db.files[w.db.txns[t].fileId], Later(w.now, at + config.safetyMargin))
    ensures Safe(config, Take(config, w, MarkCompleted(t, at)), w.db.txns[t].fileId)
  {
    var f := w.db.txns[t].fileId;
    var v := Take(config, w, MarkCompleted(t, at));
    forall seId, after | Exposed(v, f, seId, after) ensures Exposed(w, f, seId, after) {
      if u :| 0 <= u < |v.db.txns| && Aims(v, f, seId, v.db.txns[u]) {
        assert Aims(w, f, seId, w.db.txns[u]);
      }
    }
    forall u | 0 <= u < |v.db.txns| && v.db.txns[u].fileId == f ensures TxnFits(v, f, v.db.txns[u]) {
      assert TxnFits(w, f, w.db.txns[u]);
    }
    if Stale(config, v, f) {
      var u :| 0 <= u < |v.db.txns| && IsStale(config, v, f, v.db.txns[u]);
      assert u != t && IsStale(config, w, f, w.db.txns[u]);
    }
    SafeOutside(config, w, v, f);
  }

  // ---------- A roll-back that takes the copy back ----------

  /** Taking back the copy of a failed transaction costs the file iff somebody counts on that copy. */
  lemma RollBackLosesIff(config: Settings, w: World, t: TxnId)
    requires Inv(w) && Wf(w) && Enabled(config, w, RollBackFinalize(t, true))
    ensures
      var txn := w.db.txns[t];
      CanBeLost(config, Take(config, w, RollBackFinalize(t, true)), txn.fileId) <==> Relied(w, txn.targetSe, txn.fileId)
  {
    var txn := w.db.txns[t];
    var f := txn.fileId;
    var v := Take(config, w, RollBackFinalize(t, true));
    assert Copy(w.db.files, w.contents, txn);
    if !Relied(w, txn.targetSe, f) {
      InvIsSafe(config, w, f);
      StepSafe(config, w, RollBackFinalize(t, true), f);
      SafeIsNeverLost(config, v, f);
    } else if w.db.files[f].seId == txn.targetSe {
      Here(config, v);
      assert Lost(v, f);
    } else {
      var u: TxnId :| u < |w.db.txns| && Vouched(w.db.txns[u]) && w.db.txns[u].fileId == f
          && w.db.txns[u].targetSe == txn.targetSe;
      assert v.db.txns[u] == w.db.txns[u];
      var last := MoveVouched(config, v, f, u);
      Settled(config, v, last);
      assert Lost(last, f);
    }
  }

  /** A disciplined run, during which the transaction stays FAILED, then its deleting roll-back, then a loss. */
  ghost predicate LateRollBackCanLose(config: Settings, w: World, t: TxnId, f: FileId) {
    exists u :: CanReach(config, w, u) && t < |w.db.txns| && t < |u.db.txns| && u.db.txns[t] == w.db.txns[t]
             && Enabled(config, u, RollBackFinalize(t, true))
             && CanBeLost(config, Take(config, u, RollBackFinalize(t, true)), f)
  }

  /**
  A failed transaction whose roll-back is still to come and deletes the copy: it can cost the file iff the file is on
  its target, or may still be brought there, by a finalization yet to begin or by another transaction.
  */
  lemma LateRollBackLosesIff(config: Settings, w: World, t: TxnId)
    requires Inv(w) && Wf(w) && t < |w.db.txns| && w.db.txns[t].status == Failed
    ensures
      var txn := w.db.txns[t];
      var f := txn.fileId;
      && f in w.db.files
      && (LateRollBackCanLose(config, w, t, f) <==>
            w.db.files[f].seId == txn.targetSe || Movable(w.db.files[f]) || TargetOf(w, f, txn.targetSe))
  {
    var txn := w.db.txns[t];
    var f := txn.fileId;
    assert Copy(w.db.files, w.contents, txn);
    assert Exposed(w, f, txn.targetSe, w.now) <==>
      w.db.files[f].seId == txn.targetSe || Movable(w.db.files[f]) || TargetOf(w, f, txn.targetSe);
    if Exposed(w, f, txn.targetSe, w.now) {
      var u := BringTo(config, w, f, txn.targetSe, w.now);
      var v := Take(config, u, RollBackFinalize(t, true));
      Here(config, v);
      assert Lost(v, f);
    }
    forall u | CanReach(config, w, u) && t < |u.db.txns| && u.db.txns[t] == txn
             && CanBeLost(config, Take(config, u, RollBackFinalize(t, true)), f)
      ensures Exposed(w, f, txn.targetSe, w.now)
    {
      LateIsExposed(config, w, u, t);
    }
  }

  lemma LateIsExposed(config: Settings, w: World, u: World, t: TxnId)
    requires Inv(w) && Wf(w) && t < |w.db.txns| && w.db.txns[t].status == Failed
    requires CanReach(config, w, u) && t < |u.db.txns| && u.db.txns[t] == w.db.txns[t]
    requires CanBeLost(config, Take(config, u, RollBackFinalize(t, true)), w.db.txns[t].fileId)
    ensures w.db.txns[t].fileId in w.db.files && Exposed(w, w.db.txns[t].fileId, w.db.txns[t].targetSe, w.now)
  {
    var txn := w.db.txns[t];
    var f := txn.fileId;
    assert Copy(w.db.files, w.contents, txn);
    Reached(config, w, u, f);
    RollBackLosesIff(config, u, t);
    ReliedIsExposed(u, t);
    ExposedEarlier(w, f, txn.targetSe, u.now, w.now);
  }

  lemma Reached(config: Settings, w: World, u: World, f: FileId)
    requires Inv(w) && Wf(w) && f in w.db.files && CanReach(config, w, u)
    ensures Inv(u) && Wf(u) && Shrinks(w, u, f)
  {
    InvIsSafe(config, w, f);
    var steps :| EnabledRun(config, w, steps, u) && DisciplinedRun(config, w, steps);
    RunKeepsInv(config, w, steps, u);
    SafeRun(config, w, steps, u, f);
  }

  lemma ReliedIsExposed(u: World, t: TxnId)
    requires Inv(u) && t < |u.db.txns| && Relied(u, u.db.txns[t].targetSe, u.db.txns[t].fileId)
    ensures u.db.txns[t].fileId in u.db.files && Exposed(u, u.db.txns[t].fileId, u.db.txns[t].targetSe, u.now)
  {
    var txn := u.db.txns[t];
    assert Copy(u.db.files, u.contents, txn);
    if u.db.files[txn.fileId].seId != txn.targetSe {
      var o :| 0 <= o < |u.db.txns| && Vouched(u.db.txns[o]) && u.db.txns[o].fileId == txn.fileId
            && u.db.txns[o].targetSe == txn.targetSe;
      assert Aims(u, txn.fileId, txn.targetSe, u.db.txns[o]);
    }
  }

  // ---------- A finalization beside a failed one ----------

  /** The file is on this element, or a transaction under way can bring it there. */
  predicate Aimed(w: World, f: FileId, seId: SeId) {
    f in w.db.files && (w.db.files[f].seId == seId || TargetOf(w, f, seId))
  }

  /** Rows keep their element and bytes only go, or stay: nothing new is aimed at. */
  lemma FewerAims(w: World, v: World, f: FileId, seId: SeId)
    requires f in w.db.files && Aimed(v, f, seId) && v.db.txns == w.db.txns
    requires f in v.db.files ==>
      v.db.files[f].seId == w.db.files[f].seId && v.db.files[f].checksum == w.db.files[f].checksum
    requires forall key :: key in v.contents && key.1 == f ==> key in w.contents && v.contents[key] == w.contents[key]
    ensures Aimed(w, f, seId)
  {
    if v.db.files[f].seId != seId {
      var u :| 0 <= u < |v.db.txns| && Aims(v, f, seId, v.db.txns[u]);
      assert Aims(w, f, seId, w.db.txns[u]);
    }
  }

  lemma WriteAims(w: World, t: TxnId, written: Checksum, f: FileId, seId: SeId)
    requires f in w.db.files && t < |w.db.txns| && w.db.txns[t].status == Copying
    requires Aimed(w.(contents := w.contents[(w.db.txns[t].targetSe, w.db.txns[t].fileId) := written]), f, seId)
    ensures Aimed(w, f, seId)
  {
    var v := w.(contents := w.contents[(w.db.txns[t].targetSe, w.db.txns[t].fileId) := written]);
    if w.db.files[f].seId != seId {
      var u :| 0 <= u < |v.db.txns| && Aims(v, f, seId, v.db.txns[u]);
      if w.db.txns[t].fileId == f && w.db.txns[t].targetSe == seId {
        assert Aims(w, f, seId, w.db.txns[t]);
      } else {
        assert Aims(w, f, seId, w.db.txns[u]);
      }
    }
  }

  lemma TxnAims(w: World, t: TxnId, txn: Txn, f: FileId, seId: SeId)
    requires f in w.db.files && t < |w.db.txns| && Aimed(WithTxn(w, t, txn), f, seId)
    requires Aims(w, f, seId, txn) ==> Aims(w, f, seId, w.db.txns[t])
    ensures Aimed(w, f, seId)
  {
    var v := WithTxn(w, t, txn);
    if w.db.files[f].seId != seId {
      var u :| 0 <= u < |v.db.txns| && Aims(v, f, seId, v.db.txns[u]);
      assert Aims(w, f, seId, v.db.txns[u]);
      assert Aims(w, f, seId, w.db.txns[u]);
    }
  }

  lemma PutAims(w: World, t: TxnId, row: File, f: FileId, seId: SeId)
    requires f in w.db.files && t < |w.db.txns| && Vouched(w.db.txns[t]) && w.db.txns[t].fileId in w.db.files
    requires row.seId == w.db.txns[t].targetSe && row.checksum == w.db.files[w.db.txns[t].fileId].checksum
    requires Aimed(WithFile(w, w.db.txns[t].fileId, row), f, seId)
    ensures Aimed(w, f, seId)
  {
    var v := WithFile(w, w.db.txns[t].fileId, row);
    if v.db.files[f].seId == seId {
      if w.db.txns[t].fileId == f {
        assert Aims(w, f, seId, w.db.txns[t]);
      }
    } else {
      var u :| 0 <= u < |v.db.txns| && Aims(v, f, seId, v.db.txns[u]);
      assert Aims(w, f, seId, w.db.txns[u]);
    }
  }

  lemma DriverStepAims(config: Settings, w: World, step: Step, f: FileId, seId: SeId)
    requires f in w.db.files && FileTxns(w, f) && Enabled(config, w, step)
    requires DriverStep(step) && !step.BeginFinalize? && Aimed(Take(config, w, step), f, seId)
    ensures Aimed(w, f, seId)
  {
    var t := step.txn;
    var txn := w.db.txns[t];
    assert txn.fileId == f ==> TxnFits(w, f, txn);
    if step.CopyWrite? {
      WriteAims(w, t, step.written, f, seId);
    } else if step.RegistryPut? {
      PutAims(w, t, Updated(w.db.files[txn.fileId], PromotionRequest(txn, step.path, step.finalizedAt), w.now), f,
              seId);
    } else if step.RollBackFinalize? {
      var v := w.(contents := if step.deletes then Strike(w.contents, txn.targetSe, txn.fileId) else w.contents);
      TxnAims(v, t, txn.(status := RolledBack), f, seId);
      FewerAims(w, v, f, seId);
    } else {
      TxnAims(w, t, Take(config, w, step).db.txns[t], f, seId);
    }
  }

  lemma OtherStepAims(config: Settings, w: World, step: Step, f: FileId, seId: SeId)
    requires f in w.db.files && Enabled(config, w, step) && Disciplined(w, step)
    requires !DriverStep(step) && Aimed(Take(config, w, step), f, seId)
    ensures Aimed(w, f, seId)
  {
    FewerAims(w, Take(config, w, step), f, seId);
  }

  lemma {:induction false} SettlingAims(config: Settings, w: World, steps: seq<Step>, last: World, f: FileId,
                                        seId: SeId)
    requires Inv(w) && Wf(w) && f in w.db.files
    requires EnabledRun(config, w, steps, last) && DisciplinedRun(config, w, steps) && NoBegin(steps)
    ensures Inv(last) && Wf(last) && f in last.db.files && (Aimed(last, f, seId) ==> Aimed(w, f, seId))
    decreases |steps|
  {
    if steps != [] {
      var v := Take(config, w, steps[0]);
      assert steps[0] in steps && NoBegin(steps[1..]);
      StepKeepsInv(config, w, steps[0]);
      StepKeepsWf(config, w, steps[0]);
      SettlingAims(config, v, steps[1..], last, f, seId);
      if Aimed(v, f, seId) {
        InvFits(w, f);
        if DriverStep(steps[0]) {
          DriverStepAims(config, w, steps[0], f, seId);
        } else {
          OtherStepAims(config, w, steps[0], f, seId);
        }
      }
    }
  }

  /** The late roll-back can lose the file with no finalization begun in the meantime. */
  ghost predicate LateRollBackLosesAlone(config: Settings, w: World, t: TxnId, f: FileId) {
    exists u :: CanSettle(config, w, u) && t < |w.db.txns| && t < |u.db.txns| && u.db.txns[t] == w.db.txns[t]
             && Enabled(config, u, RollBackFinalize(t, true))
             && CanBeLost(config, Take(config, u, RollBackFinalize(t, true)), f)
  }

  /**
  Beginning a finalization beside a failed one whose deleting roll-back is still to come: without a further one, that
  roll-back can cost the file afterwards iff the targets are the same, or it already could.
  */
  lemma BeginBesideFailedIff(config: Settings, w: World, t: TxnId, targetSe: SeId)
    requires Inv(w) && Wf(w) && t < |w.db.txns| && w.db.txns[t].status == Failed
    requires
      var f := w.db.txns[t].fileId;
      f in w.db.files && Movable(w.db.files[f]) && targetSe != w.db.files[f].seId
    ensures
      var txn := w.db.txns[t];
      var f := txn.fileId;
      var v := Take(config, w, BeginFinalize(f, w.db.files[f].seId, targetSe));
      LateRollBackLosesAlone(config, v, t, f) <==>
        targetSe == txn.targetSe || LateRollBackLosesAlone(config, w, t, f)
  {
    var txn := w.db.txns[t];
    var f := txn.fileId;
    var begin := BeginFinalize(f, w.db.files[f].seId, targetSe);
    var v := Take(config, w, begin);
    StepKeepsInv(config, w, begin);
    StepKeepsWf(config, w, begin);
    assert v.db.txns[t] == txn;
    LosesAloneIff(config, w, t);
    LosesAloneIff(config, v, t);
    BeginAims(w, v, f, targetSe, txn.targetSe);
  }

  lemma BeginAims(w: World, v: World, f: FileId, targetSe: SeId, seId: SeId)
    requires f in w.db.files
    requires v == w.(db := w.db.(txns := w.db.txns + [Txn(f, w.db.files[f].seId, targetSe, Copying, None, None, None)]))
    ensures Aimed(v, f, seId) <==> Aimed(w, f, seId) || targetSe == seId
  {
    var n := |w.db.txns|;
    if targetSe == seId {
      assert Aims(v, f, seId, v.db.txns[n]);
    }
    if u :| 0 <= u < n && Aims(w, f, seId, w.db.txns[u]) {
      assert Aims(v, f, seId, v.db.txns[u]);
    }
    if u :| 0 <= u < |v.db.txns| && Aims(v, f, seId, v.db.txns[u]) {
      assert u < n ==> Aims(w, f, seId, w.db.txns[u]);
    }
  }

  lemma LosesAloneIff(config: Settings, w: World, t: TxnId)
    requires Inv(w) && Wf(w) && t < |w.db.txns| && w.db.txns[t].status == Failed && w.db.txns[t].fileId in w.db.files
    ensures
      var txn := w.db.txns[t];
      LateRollBackLosesAlone(config, w, t, txn.fileId) <==> Aimed(w, txn.fileId, txn.targetSe)
  {
    var txn := w.db.txns[t];
    var f := txn.fileId;
    if Aimed(w, f, txn.targetSe) {
      var u := w;
      Here(config, w);
      if w.db.files[f].seId != txn.targetSe {
        u := FinishTxn(config, w, f, txn.targetSe);
      }
      assert u.db.txns[t] == txn && Relied(u, txn.targetSe, f);
      StrikeLoses(config, w, u, t, f);
    }
    forall u | CanSettle(config, w, u) && t < |u.db.txns| && u.db.txns[t] == txn
            && CanBeLost(config, Take(config, u, RollBackFinalize(t, true)), f)
      ensures Aimed(w, f, txn.targetSe)
    {
      StrikeAims(config, w, u, t, f);
    }
  }

  lemma StrikeLoses(config: Settings, w: World, u: World, t: TxnId, f: FileId)
    requires Inv(w) && Wf(w) && f in w.db.files && CanSettle(config, w, u)
    requires t < |w.db.txns| && t < |u.db.txns| && u.db.txns[t] == w.db.txns[t]
    requires u.db.txns[t].status == Failed && u.db.txns[t].fileId == f && Relied(u, u.db.txns[t].targetSe, f)
    ensures LateRollBackLosesAlone(config, w, t, f)
  {
    var steps :| EnabledRun(config, w, steps, u) && DisciplinedRun(config, w, steps) && NoBegin(steps);
    SettlingAims(config, w, steps, u, f, u.db.txns[t].targetSe);
    RollBackLosesIff(config, u, t);
  }

  lemma StrikeAims(config: Settings, w: World, u: World, t: TxnId, f: FileId)
    requires Inv(w) && Wf(w) && f in w.db.files && CanSettle(config, w, u)
    requires t < |u.db.txns| && u.db.txns[t].status == Failed && u.db.txns[t].fileId == f
    requires CanBeLost(config, Take(config, u, RollBackFinalize(t, true)), f)
    ensures Aimed(w, f, u.db.txns[t].targetSe)
  {
    var seId := u.db.txns[t].targetSe;
    var steps :| EnabledRun(config, w, steps, u) && DisciplinedRun(config, w, steps) && NoBegin(steps);
    SettlingAims(config, w, steps, u, f, seId);
    RollBackLosesIff(config, u, t);
    if u.db.files[f].seId != seId {
      var o :| 0 <= o < |u.db.txns| && Vouched(u.db.txns[o]) && u.db.txns[o].fileId == f
          && u.db.txns[o].targetSe == seId;
      assert Aims(u, f, seId, u.db.txns[o]);
    }
  }

  // ---------- Registering beside a queued row ----------

  /** A delete of this row, due then, would hit the new registration: on its element, or on one it may still move to. */
  predicate Threatens(row: File, item: QueueItem, due: Time) {
    if item.seId == row.seId then Protected(row, due) else Movable(row)
  }

  /**
  A row queued with retries left, picked and not yet done, or going to be written by a session threatens the
  registration.
  */
  ghost predicate Threatened(config: Settings, w: World, f: FileId, row: File) {
    || (exists i :: 0 <= i < |w.db.queue| && w.db.queue[i].fileId == f && CanBePicked(config, w.db.queue[i])
                 && Threatens(row, w.db.queue[i], Later(w.now, w.db.queue[i].scheduledAt)))
    || (exists s: nat, k: nat :: CanStillDelete(w, s, k) && w.db.queue[w.sessions[s].picked[k]].fileId == f
                              && Threatens(row, w.db.queue[w.sessions[s].picked[k]], w.now))
    || (exists s, item :: s in w.sessions && WillWrite(w.db.queue, w.sessions[s], item) && item.fileId == f
                       && CanBePicked(config, item) && Threatens(row, item, Later(w.now, item.scheduledAt)))
  }

  /**
  Registering an id: the new file can be lost iff it is protected and its registered bytes are not there, or a row
  left by an earlier orphan scan threatens it.
  */
  lemma RegistrationLosesIff(config: Settings, w: World, f: FileId, register: RegisterRequest)
    requires Usable(config) && Wf(w) && f !in w.db.files
    requires forall t :: 0 <= t < |w.db.txns| ==> w.db.txns[t].fileId != f
    ensures
      var row := NewRow(register, w.now);
      CanBeLost(config, Take(config, w, RegisterFile(f, register)), f) <==>
        (Protected(row, w.now) && !Intact(w.contents, f, row)) || Threatened(config, w, f, row)
  {
    var v := Take(config, w, RegisterFile(f, register));
    var row := NewRow(register, w.now);
    StepKeepsWf(config, w, RegisterFile(f, register));
    FileCanBeLostIff(config, v, f);
    forall seId ensures IsPlain(v, f, row, seId) {
    }
    ThreatsAreDooms(config, w, v, f, row);
  }

  /** A copy there is exposed as a copy of a file without transactions is. */
  ghost predicate IsPlain(v: World, f: FileId, row: File, seId: SeId)
    requires f in v.db.files
  {
    forall at :: Exposed(v, f, seId, at) <==> if seId == row.seId then Protected(row, at) else Movable(row)
  }

  lemma ThreatsAreDooms(config: Settings, w: World, v: World, f: FileId, row: File)
    requires f in v.db.files && v.db.files[f] == row
    requires v.db.queue == w.db.queue && v.sessions == w.sessions && v.now == w.now
    requires forall i :: 0 <= i < |w.db.queue| && w.db.queue[i].fileId == f ==> IsPlain(v, f, row, w.db.queue[i].seId)
    requires forall s, item :: s in w.sessions && WillWrite(w.db.queue, w.sessions[s], item) && item.fileId == f ==>
      IsPlain(v, f, row, item.seId)
    ensures Threatened(config, w, f, row) <==> RowDooms(config, v, f) || PickDooms(v, f) || SessionDooms(config, v, f)
  {
    forall item: QueueItem | item.fileId == f && IsPlain(v, f, row, item.seId)
      ensures Dangerous(config, v, f, item) <==>
        CanBePicked(config, item) && Threatens(row, item, Later(w.now, item.scheduledAt))
    {
    }
    forall s: nat, k: nat
      ensures PickHits(v, f, s, k) <==>
        CanStillDelete(w, s, k) && w.db.queue[w.sessions[s].picked[k]].fileId == f
        && Threatens(row, w.db.queue[w.sessions[s].picked[k]], w.now)
    {
      if CanStillDelete(w, s, k) && w.db.queue[w.sessions[s].picked[k]].fileId == f {
        assert IsPlain(v, f, row, w.db.queue[w.sessions[s].picked[k]].seId);
      }
    }
    DoomsThreaten(config, w, v, f, row);
  }

  lemma DoomsThreaten(config: Settings, w: World, v: World, f: FileId, row: File)
    requires f in v.db.files && v.db.files[f] == row
    requires v.db.queue == w.db.queue && v.sessions == w.sessions && v.now == w.now
    requires forall i :: 0 <= i < |w.db.queue| && w.db.queue[i].fileId == f ==> IsPlain(v, f, row, w.db.queue[i].seId)
    requires forall s, item :: s in w.sessions && WillWrite(w.db.queue, w.sessions[s], item) && item.fileId == f ==>
      IsPlain(v, f, row, item.seId)
    requires forall item: QueueItem | item.fileId == f && IsPlain(v, f, row, item.seId) ::
      Dangerous(config, v, f, item) <==>
        CanBePicked(config, item) && Threatens(row, item, Later(w.now, item.scheduledAt))
    ensures RowDooms(config, v, f) ==> Threatened(config, w, f, row)
    ensures SessionDooms(config, v, f) ==> Threatened(config, w, f, row)
  {
    if i :| 0 <= i < |v.db.queue| && Dangerous(config, v, f, v.db.queue[i]) {
      assert IsPlain(v, f, row, w.db.queue[i].seId);
    }
    if s, item :| s in v.sessions && WillWrite(v.db.queue, v.sessions[s], item) && Dangerous(config, v, f, item) {
      assert IsPlain(v, f, row, item.seId);
    }
  }

  // ---------- Edits of the registry ----------

  /** The transactions of the file still fit the edited row, or there are none. */
  ghost predicate StaysFitting(w: World, f: FileId, row: File)
    requires f in w.db.files
  {
    || row.retention == Permanent || row.seId == w.db.files[f].seId
    || forall t :: 0 <= t < |w.db.txns| ==> w.db.txns[t].fileId != f
  }

  /**
  Any edit through `update_file`, promotion and relocation included. The file can be lost afterwards iff it is
  protected and the element its row names now does not hold its bytes, or a row threatens it, or a COMPLETED
  transaction starts from that element and no pending row holds the producer.
  */
  lemma EditLosesIff(config: Settings, w: World, f: FileId, update: UpdateRequest)
    requires Usable(config) && Inv(w) && Wf(w) && Enabled(config, w, EditFile(f, update))
    requires StaysFitting(w, f, Updated(w.db.files[f], update, w.now))
    ensures
      var row := Updated(w.db.files[f], update, w.now);
      var v := Take(config, w, EditFile(f, update));
      CanBeLost(config, v, f) <==>
        || (Protected(row, w.now) && !Intact(w.contents, f, row))
        || Threatened(config, w, f, row)
        || (Stale(config, v, f) && !Blocked(v, f))
  {
    var row := Updated(w.db.files[f], update, w.now);
    var v := Take(config, w, EditFile(f, update));
    StepKeepsWf(config, w, EditFile(f, update));
    InvFits(w, f);
    forall t | 0 <= t < |v.db.txns| && v.db.txns[t].fileId == f ensures TxnFits(v, f, v.db.txns[t]) {
      assert TxnFits(w, f, w.db.txns[t]);
    }
    RowsArePlain(w, v, f, row);
    ThreatsAreDooms(config, w, v, f, row);
    FileCanBeLostIff(config, v, f);
  }

  /** Queued deletes of a file with transactions name the element these start from, which none of them aims at. */
  lemma RowsArePlain(w: World, v: World, f: FileId, row: File)
    requires Inv(w) && f in w.db.files && v == WithFile(w, f, row)
    ensures forall i :: 0 <= i < |w.db.queue| && w.db.queue[i].fileId == f ==> IsPlain(v, f, row, w.db.queue[i].seId)
    ensures forall s, item :: s in w.sessions && WillWrite(w.db.queue, w.sessions[s], item) && item.fileId == f ==>
      IsPlain(v, f, row, item.seId)
  {
    forall i | 0 <= i < |w.db.queue| && w.db.queue[i].fileId == f ensures IsPlain(v, f, row, w.db.queue[i].seId) {
      SourceIsPlain(w, v, f, row, w.db.queue[i].seId);
    }
    forall s, item | s in w.sessions && WillWrite(w.db.queue, w.sessions[s], item) && item.fileId == f
      ensures IsPlain(v, f, row, item.seId)
    {
      var x := w.sessions[s];
      assert SessionOk(w.db.files, w.now, w.contents, w.db.txns, w.db.queue, x);
      if item !in x.added {
        var i :| 0 <= i < |w.db.queue| && i < |x.loaded| && Outcome(x, i) == item;
        OutcomeTarget(w.db.queue, x, i);
      }
      SourceIsPlain(w, v, f, row, item.seId);
    }
  }

  lemma SourceIsPlain(w: World, v: World, f: FileId, row: File, seId: SeId)
    requires Inv(w) && f in w.db.files && v == WithFile(w, f, row)
    requires forall t :: 0 <= t < |w.db.txns| && w.db.txns[t].fileId == f ==> w.db.txns[t].sourceSe == seId
    ensures IsPlain(v, f, row, seId)
  {
    forall t | 0 <= t < |v.db.txns| ensures !Aims(v, f, seId, v.db.txns[t]) {
    }
  }

  // ---------- Writes over a copy ----------

  /** Writing the copy of a transaction costs the file iff somebody counts on that copy and the bytes are other ones. */
  lemma OverwriteLosesIff(config: Settings, w: World, t: TxnId, written: Checksum)
    requires Inv(w) && Wf(w) && Enabled(config, w, CopyWrite(t, written))
    ensures
      var txn := w.db.txns[t];
      && txn.fileId in w.db.files
      && (CanBeLost(config, Take(config, w, CopyWrite(t, written)), txn.fileId) <==>
            Relied(w, txn.targetSe, txn.fileId) && written != w.db.files[txn.fileId].checksum)
  {
    var txn := w.db.txns[t];
    var f := txn.fileId;
    var v := Take(config, w, CopyWrite(t, written));
    assert Copy(w.db.files, w.contents, txn);
    if !(Relied(w, txn.targetSe, f) && written != w.db.files[f].checksum) {
      InvIsSafe(config, w, f);
      StepSafe(config, w, CopyWrite(t, written), f);
      SafeIsNeverLost(config, v, f);
    } else if w.db.files[f].seId == txn.targetSe {
      Here(config, v);
      assert Lost(v, f);
    } else {
      var u: TxnId :| u < |w.db.txns| && Vouched(w.db.txns[u]) && w.db.txns[u].fileId == f
                   && w.db.txns[u].targetSe == txn.targetSe;
      assert v.db.txns[u] == w.db.txns[u];
      assert Copy(w.db.files, w.contents, w.db.txns[u]);
      var last := MoveVouched(config, v, f, u);
      Settled(config, v, last);
      assert Lost(last, f);
    }
  }

  /**
  Uploading under an id that rows name already loses no registered file; it makes a recorded delete untrue iff a row
  records the delete of that very copy.
  */
  lemma ReusedIdLosesNothing(config: Settings, w: World, id: FileId, seId: SeId, checksum: Checksum, f: FileId)
    requires Inv(w) && Wf(w) && Enabled(config, w, Upload(id, seId, checksum)) && f in w.db.files
    ensures !CanBeLost(config, Take(config, w, Upload(id, seId, checksum)), f)
    ensures SuccessMeansAbsent(Take(config, w, Upload(id, seId, checksum))) <==>
      forall i :: 0 <= i < |w.db.queue| && w.db.queue[i].fileId == id && w.db.queue[i].seId == seId ==>
        w.db.queue[i].success != Some(true)
  {
    var v := Take(config, w, Upload(id, seId, checksum));
    InvIsSafe(config, w, f);
    WriteSafe(config, w, v, f, (seId, id));
    StepKeepsWf(config, w, Upload(id, seId, checksum));
    SafeIsNeverLost(config, v, f);
    forall i | 0 <= i < |w.db.queue|
      ensures GoneIfDone(v.contents, w.db.queue[i]) <==>
        !(w.db.queue[i].success == Some(true) && w.db.queue[i].fileId == id && w.db.queue[i].seId == seId)
    {
      assert GoneIfDone(w.contents, w.db.queue[i]);
    }
  }
}
