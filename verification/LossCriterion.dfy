/**
When can a file still be lost? For one file at a time: what in the queue, in the open collector sessions and in the
finalize transactions endangers it. The criterion is kept by every disciplined step, so a file that does not meet it
is never lost; LossWitness shows that one that does meet it can be.
*/
module LossCriterion {
  import opened Wrappers
  import opened FileRegistry
  import opened Cleanup
  import opened FileLifecycle
  import opened NoDataLoss

  /** The registered bytes are gone although the file is protected. */
  predicate Lost(w: World, f: FileId) {
    f in w.db.files && Protected(w.db.files[f], w.now) && !Intact(w.contents, f, w.db.files[f])
  }

  // ---------- Well-formed sessions ----------

  /** What every session is like, whatever its callers do. */
  ghost predicate SessionWf(queue: seq<QueueItem>, now: Time, s: Session) {
    && s.done <= |s.picked| && s.queueNow <= now && Distinct(s.picked)
    && |s.loaded| <= |queue| && (forall i :: 0 <= i < |s.loaded| ==> SameTarget(s.loaded[i], queue[i]))
    && (forall k :: 0 <= k < |s.picked| ==> s.picked[k] < |s.loaded| && s.loaded[s.picked[k]].Pending())
    && (forall i :: i in s.dirty ==> i < |s.loaded| && SameTarget(s.dirty[i], queue[i]) && i in s.picked[..s.done])
    && (forall j :: 0 <= j < |s.added| ==>
          s.added[j].Pending() && s.added[j].retryCount == 0 && (s.picked != [] ==> s.added[j].scheduledAt <= now))
  }

  ghost predicate Wf(w: World) {
    forall s :: s in w.sessions ==> SessionWf(w.db.queue, w.now, w.sessions[s])
  }

  // ---------- What endangers a file ----------

  /**
  The transaction can still move the file to this element: it may write the right bytes, it has written them, or it
  has vouched for them and its registry update may still arrive.
  */
  predicate Aims(w: World, f: FileId, seId: SeId, txn: Txn)
    requires f in w.db.files
  {
    && txn.fileId == f && txn.targetSe == seId
    && (|| txn.status == Copying
        || (txn.status == Copied && (seId, f) in w.contents && w.contents[(seId, f)] == w.db.files[f].checksum)
        || Vouched(txn))
  }

  predicate TargetOf(w: World, f: FileId, seId: SeId)
    requires f in w.db.files
  {
    exists t :: 0 <= t < |w.db.txns| && Aims(w, f, seId, w.db.txns[t])
  }

  /** A delete of this copy at time `at` would cost the file: it is the registered one, or it may become that. */
  predicate Exposed(w: World, f: FileId, seId: SeId, at: Time)
    requires f in w.db.files
  {
    var row := w.db.files[f];
    if seId == row.seId then Protected(row, at) else Movable(row) || TargetOf(w, f, seId)
  }

  function Later(a: Time, b: Time): Time {
    if a < b then b else a
  }

  /** A cleanup row with retries left that can be worked off while the copy it names is exposed. */
  predicate Dangerous(config: Settings, w: World, f: FileId, item: QueueItem)
    requires f in w.db.files
  {
    && item.fileId == f && item.Pending() && item.retryCount < config.maxRetry
    && Exposed(w, f, item.seId, Later(w.now, item.scheduledAt))
  }

  predicate RowDooms(config: Settings, w: World, f: FileId)
    requires f in w.db.files
  {
    exists i :: 0 <= i < |w.db.queue| && Dangerous(config, w, f, w.db.queue[i])
  }

  /** The session still has this row ahead of it and holds its element for online. */
  predicate CanStillDelete(w: World, s: nat, k: nat) {
    && s in w.sessions && w.sessions[s].stage == QueueStage
    && w.sessions[s].done <= k < |w.sessions[s].picked| && w.sessions[s].picked[k] < |w.db.queue|
    && Reachable(w.sessions[s].elements, w.db.queue[w.sessions[s].picked[k]].seId)
  }

  predicate PickHits(w: World, f: FileId, s: nat, k: nat)
    requires f in w.db.files
  {
    && CanStillDelete(w, s, k)
    && var item := w.db.queue[w.sessions[s].picked[k]];
       item.fileId == f && Exposed(w, f, item.seId, w.now)
  }

  ghost predicate PickDooms(w: World, f: FileId)
    requires f in w.db.files
  {
    exists s: nat, k: nat :: PickHits(w, f, s, k)
  }

  /** The request that gets lost. */
  const SILENCE := Reply(Timeout, false, false, 0)

  /** The session has changed the row, or still has it ahead of it. */
  predicate Touches(s: Session, i: ItemId) {
    i in s.dirty || (s.stage == QueueStage && s.done <= |s.picked| && i in s.picked[s.done..])
  }

  /** What the session has made of the row, or will make of it if no delete is answered. */
  function Outcome(s: Session, i: ItemId): QueueItem
    requires i < |s.loaded|
  {
    if i in s.dirty then s.dirty[i] else Process(s.loaded[i], s.elements, SILENCE, s.queueNow)
  }

  /** The commit of the session adds this row, or leaves it pending in the queue with these retries. */
  predicate WillWrite(queue: seq<QueueItem>, s: Session, item: QueueItem) {
    || item in s.added
    || exists i :: 0 <= i < |queue| && i < |s.loaded| && Touches(s, i) && queue[i].Pending() && Outcome(s, i) == item
  }

  ghost predicate SessionDooms(config: Settings, w: World, f: FileId)
    requires f in w.db.files
  {
    exists s, item :: s in w.sessions && WillWrite(w.db.queue, w.sessions[s], item) && Dangerous(config, w, f, item)
  }

  /** A COMPLETED transaction whose registry update did not take effect, due while the file is protected. */
  predicate IsStale(config: Settings, w: World, f: FileId, txn: Txn)
    requires f in w.db.files
  {
    && txn.fileId == f && txn.status == Completed && txn.sourceSe == w.db.files[f].seId && txn.completedAt.Some?
    && Protected(w.db.files[f], Later(w.now, txn.completedAt.value + config.safetyMargin))
  }

  predicate Stale(config: Settings, w: World, f: FileId)
    requires f in w.db.files
  {
    exists t :: 0 <= t < |w.db.txns| && IsStale(config, w, f, w.db.txns[t])
  }

  /** The commit of the session can leave the row processed. */
  predicate Finishes(s: Session, i: ItemId) {
    i < |s.loaded| && Touches(s, i) && !Outcome(s, i).Pending()
  }

  predicate Unfinished(w: World, i: ItemId) {
    forall s :: s in w.sessions ==> !Finishes(w.sessions[s], i)
  }

  predicate NamesPlace(w: World, f: FileId, i: ItemId)
    requires f in w.db.files
  {
    i < |w.db.queue| && w.db.queue[i].Pending() && w.db.queue[i].fileId == f && w.db.queue[i].seId == w.db.files[f].seId
  }

  /** A pending row of the registered copy that no open session finishes: it keeps the producers from adding another. */
  ghost predicate Blocked(w: World, f: FileId)
    requires f in w.db.files
  {
    exists i :: NamesPlace(w, f, i) && Unfinished(w, i)
  }

  /**
  The criterion: the bytes are missing; or a row with retries left, a picked row not yet done or a row that a session
  is going to write names an exposed copy; or a stale COMPLETED transaction is there and no pending row blocks the
  producer.
  */
  ghost predicate Doomed(config: Settings, w: World, f: FileId)
    requires f in w.db.files
  {
    || Lost(w, f)
    || RowDooms(config, w, f) || PickDooms(w, f) || SessionDooms(config, w, f)
    || (Stale(config, w, f) && !Blocked(w, f))
  }

  // ---------- The transactions of one file ----------

  predicate TxnFits(w: World, f: FileId, txn: Txn)
    requires f in w.db.files
  {
    var row := w.db.files[f];
    && txn.sourceSe != txn.targetSe
    && (row.retention == Temporary ==> row.seId == txn.sourceSe)
    && (Vouched(txn) ==>
          txn.checksumSource == Some(row.checksum)
          && (txn.targetSe, f) in w.contents && w.contents[(txn.targetSe, f)] == row.checksum)
    && (txn.status == Completed ==> Vouched(txn))
  }

  ghost predicate FileTxns(w: World, f: FileId)
    requires f in w.db.files
  {
    && (forall t :: 0 <= t < |w.db.txns| && w.db.txns[t].fileId == f ==> TxnFits(w, f, w.db.txns[t]))
    && (forall t, u | 0 <= t < |w.db.txns| && 0 <= u < |w.db.txns| ::
          w.db.txns[t].fileId == f && w.db.txns[u].fileId == f ==> w.db.txns[t].sourceSe == w.db.txns[u].sourceSe)
  }

  ghost predicate Safe(config: Settings, w: World, f: FileId) {
    f in w.db.files && FileTxns(w, f) && !Doomed(config, w, f)
  }

  // ---------- Comparing two worlds ----------

  ghost predicate Shrinks(w: World, v: World, f: FileId) {
    && f in w.db.files && f in v.db.files && w.now <= v.now
    && forall seId, at :: Exposed(v, f, seId, at) ==> Exposed(w, f, seId, at)
  }

  lemma ExposedEarlier(w: World, f: FileId, seId: SeId, at: Time, earlier: Time)
    requires f in w.db.files && Exposed(w, f, seId, at) && earlier <= at
    ensures Exposed(w, f, seId, earlier)
  {
  }

  lemma DangerousBefore(config: Settings, w: World, v: World, f: FileId, item: QueueItem)
    requires Shrinks(w, v, f) && Dangerous(config, v, f, item)
    ensures Dangerous(config, w, f, item)
  {
    ExposedEarlier(v, f, item.seId, Later(v.now, item.scheduledAt), Later(w.now, item.scheduledAt));
  }

  lemma HitBefore(w: World, v: World, f: FileId, s: nat, k: nat)
    requires Shrinks(w, v, f) && PickHits(v, f, s, k) && CanStillDelete(w, s, k)
    requires SameTarget(w.db.queue[w.sessions[s].picked[k]], v.db.queue[v.sessions[s].picked[k]])
    ensures PickHits(w, f, s, k)
  {
    ExposedEarlier(v, f, v.db.queue[v.sessions[s].picked[k]].seId, v.now, w.now);
  }

  /** Nothing that endangers the file is new in `v`. */
  ghost predicate NoNewDanger(config: Settings, w: World, v: World, f: FileId)
    requires f in w.db.files && f in v.db.files
  {
    && (RowDooms(config, v, f) ==> RowDooms(config, w, f) || SessionDooms(config, w, f))
    && (PickDooms(v, f) ==> PickDooms(w, f) || RowDooms(config, w, f))
    && (SessionDooms(config, v, f) ==> SessionDooms(config, w, f) || RowDooms(config, w, f))
  }

  lemma QuietDanger(config: Settings, w: World, v: World, f: FileId)
    requires Shrinks(w, v, f) && v.db.queue == w.db.queue && v.sessions == w.sessions
    ensures NoNewDanger(config, w, v, f)
  {
    if i :| 0 <= i < |v.db.queue| && Dangerous(config, v, f, v.db.queue[i]) {
      DangerousBefore(config, w, v, f, w.db.queue[i]);
    }
    if s: nat, k: nat :| PickHits(v, f, s, k) {
      HitBefore(w, v, f, s, k);
    }
    if s, item :| s in v.sessions && WillWrite(v.db.queue, v.sessions[s], item) && Dangerous(config, v, f, item) {
      DangerousBefore(config, w, v, f, item);
    }
  }

  /**
  The columns of the row that matter, the transactions and the bytes they wrote are the same, or some bytes are gone.
  */
  predicate SameFacts(w: World, v: World, f: FileId) {
    && f in w.db.files && f in v.db.files && w.now <= v.now && v.db.txns == w.db.txns
    && SameCore(v.db.files[f], w.db.files[f])
    && (Movable(v.db.files[f]) ==> Movable(w.db.files[f]))
    && (forall key :: key in v.contents ==> key in w.contents && v.contents[key] == w.contents[key])
  }

  lemma SameFactsShrink(config: Settings, w: World, v: World, f: FileId)
    requires SameFacts(w, v, f)
    ensures Shrinks(w, v, f)
    ensures Stale(config, v, f) ==> Stale(config, w, f)
  {
    forall seId, at | Exposed(v, f, seId, at) ensures Exposed(w, f, seId, at) {
      if t :| 0 <= t < |v.db.txns| && Aims(v, f, seId, v.db.txns[t]) {
        assert Aims(w, f, seId, w.db.txns[t]);
      }
    }
    if t :| 0 <= t < |v.db.txns| && IsStale(config, v, f, v.db.txns[t]) {
      assert IsStale(config, w, f, w.db.txns[t]);
    }
  }

  lemma SafeAgain(config: Settings, w: World, v: World, f: FileId)
    requires Safe(config, w, f) && f in v.db.files
    requires NoNewDanger(config, w, v, f) && FileTxns(v, f) && !Lost(v, f)
    requires Stale(config, v, f) ==> Blocked(v, f)
    ensures Safe(config, v, f)
  {
  }

  /** Queue and sessions are the same, and whatever is stale was so before. */
  lemma SafeOutside(config: Settings, w: World, v: World, f: FileId)
    requires Safe(config, w, f) && Shrinks(w, v, f) && v.db.queue == w.db.queue && v.sessions == w.sessions
    requires FileTxns(v, f) && !Lost(v, f)
    requires Stale(config, v, f) ==> Stale(config, w, f) && v.db.files[f].seId == w.db.files[f].seId
    ensures Safe(config, v, f)
  {
    QuietDanger(config, w, v, f);
    if Stale(config, v, f) {
      var i :| NamesPlace(w, f, i) && Unfinished(w, i);
      assert NamesPlace(v, f, i) && Unfinished(v, i);
    }
    SafeAgain(config, w, v, f);
  }

  // ---------- Steps outside the collector ----------

  lemma SameFactsSafe(config: Settings, w: World, v: World, f: FileId)
    requires Safe(config, w, f) && SameFacts(w, v, f)
    requires v.db.queue == w.db.queue && v.sessions == w.sessions && v.contents == w.contents
    ensures Safe(config, v, f)
  {
    SameFactsShrink(config, w, v, f);
    SafeOutside(config, w, v, f);
  }

  /** The bytes at one place change; bytes of the file are only written where a transaction is copying to. */
  ghost predicate OneWrite(w: World, v: World, f: FileId, key: (SeId, FileId))
    requires f in w.db.files
  {
    && v == w.(contents := v.contents)
    && (forall k | k != key ::
          && (k in v.contents <==> k in w.contents)
          && (k in v.contents ==> v.contents[k] == w.contents[k]))
    && (key.1 == f && key in v.contents ==> TargetOf(w, f, key.0))
  }

  lemma OneWriteSafe(config: Settings, w: World, v: World, f: FileId, key: (SeId, FileId))
    requires Safe(config, w, f) && OneWrite(w, v, f, key) && FileTxns(v, f) && !Lost(v, f)
    ensures Shrinks(w, v, f) && Safe(config, v, f)
  {
    forall seId, at | Exposed(v, f, seId, at) ensures Exposed(w, f, seId, at) {
      if t :| 0 <= t < |v.db.txns| && Aims(v, f, seId, v.db.txns[t]) {
        assert (seId, f) != key ==> Aims(w, f, seId, w.db.txns[t]);
      }
    }
    if Stale(config, v, f) {
      var t :| 0 <= t < |v.db.txns| && IsStale(config, v, f, v.db.txns[t]);
      assert IsStale(config, w, f, w.db.txns[t]);
    }
    SafeOutside(config, w, v, f);
  }

  /** Copies somebody counts on keep the registered bytes. */
  lemma WriteSafe(config: Settings, w: World, v: World, f: FileId, key: (SeId, FileId))
    requires Safe(config, w, f) && OneWrite(w, v, f, key)
    requires key.1 == f && Relied(w, key.0, f) ==> key in v.contents && v.contents[key] == w.db.files[f].checksum
    ensures Shrinks(w, v, f) && Safe(config, v, f)
  {
    forall t | 0 <= t < |v.db.txns| && v.db.txns[t].fileId == f ensures TxnFits(v, f, v.db.txns[t]) {
      assert TxnFits(w, f, w.db.txns[t]);
    }
    OneWriteSafe(config, w, v, f, key);
  }

  /** A delete of a copy that is not exposed. */
  lemma DeleteSafe(config: Settings, w: World, seId: SeId, id: FileId, f: FileId)
    requires Safe(config, w, f) && (id == f ==> !Exposed(w, f, seId, w.now))
    ensures
      var v := w.(contents := Strike(w.contents, seId, id));
      Shrinks(w, v, f) && Safe(config, v, f)
  {
    var v := w.(contents := Strike(w.contents, seId, id));
    forall t | 0 <= t < |v.db.txns| && v.db.txns[t].fileId == f ensures TxnFits(v, f, v.db.txns[t]) {
      assert TxnFits(w, f, w.db.txns[t]);
      assert Vouched(w.db.txns[t]) ==> Aims(w, f, w.db.txns[t].targetSe, w.db.txns[t]);
    }
    OneWriteSafe(config, w, v, f, (seId, id));
  }

  /** One transaction of some file moves along its workflow. */
  lemma TxnSafe(config: Settings, w: World, t: TxnId, txn: Txn, f: FileId)
    requires Safe(config, w, f) && t < |w.db.txns|
    requires txn.fileId == w.db.txns[t].fileId && txn.sourceSe == w.db.txns[t].sourceSe
    requires Aims(w, f, txn.targetSe, txn) ==> Aims(w, f, txn.targetSe, w.db.txns[t])
    requires txn.fileId == f ==> TxnFits(w, f, txn)
    requires txn.fileId == f && txn.status == Completed ==> w.db.files[f].seId != txn.sourceSe
    ensures Shrinks(w, WithTxn(w, t, txn), f) && Safe(config, WithTxn(w, t, txn), f)
  {
    var v := WithTxn(w, t, txn);
    forall seId, at | Exposed(v, f, seId, at) ensures Exposed(w, f, seId, at) {
      if u :| 0 <= u < |v.db.txns| && Aims(v, f, seId, v.db.txns[u]) {
        assert Aims(w, f, seId, v.db.txns[u]);
        assert Aims(w, f, seId, w.db.txns[u]);
      }
    }
    if Stale(config, v, f) {
      var u :| 0 <= u < |v.db.txns| && IsStale(config, v, f, v.db.txns[u]);
      assert u != t;
      assert IsStale(config, w, f, w.db.txns[u]);
    }
    SafeOutside(config, w, v, f);
  }

  lemma BeginSafe(config: Settings, w: World, txn: Txn, f: FileId)
    requires Safe(config, w, f) && txn.fileId in w.db.files && Movable(w.db.files[txn.fileId])
    requires txn.sourceSe == w.db.files[txn.fileId].seId && txn.targetSe != txn.sourceSe && txn.status == Copying
    ensures
      var v := w.(db := w.db.(txns := w.db.txns + [txn]));
      Shrinks(w, v, f) && Safe(config, v, f)
  {
    var v := w.(db := w.db.(txns := w.db.txns + [txn]));
    forall seId, at | Exposed(v, f, seId, at) ensures Exposed(w, f, seId, at) {
      if u :| 0 <= u < |v.db.txns| && Aims(v, f, seId, v.db.txns[u]) {
        assert u < |w.db.txns| ==> Aims(w, f, seId, w.db.txns[u]);
      }
    }
    forall t | 0 <= t < |v.db.txns| && v.db.txns[t].fileId == f ensures TxnFits(v, f, v.db.txns[t]) {
      assert t < |w.db.txns| ==> TxnFits(w, f, w.db.txns[t]);
    }
    if Stale(config, v, f) {
      var u :| 0 <= u < |v.db.txns| && IsStale(config, v, f, v.db.txns[u]);
      assert IsStale(config, w, f, w.db.txns[u]);
    }
    SafeOutside(config, w, v, f);
  }

  /** The registry update moves the file to a copy that nothing endangers. */
  lemma PutSafe(config: Settings, w: World, t: TxnId, path: string, at: Time, f: FileId)
    requires Safe(config, w, f) && t < |w.db.txns| && Vouched(w.db.txns[t]) && w.db.txns[t].fileId in w.db.files
    ensures
      var txn := w.db.txns[t];
      var v := WithFile(w, txn.fileId, Updated(w.db.files[txn.fileId], PromotionRequest(txn, path, at), w.now));
      Shrinks(w, v, f) && Safe(config, v, f)
  {
    var txn := w.db.txns[t];
    var v := WithFile(w, txn.fileId, Updated(w.db.files[txn.fileId], PromotionRequest(txn, path, at), w.now));
    if txn.fileId != f {
      SameFactsSafe(config, w, v, f);
      SameFactsShrink(config, w, v, f);
    } else {
      assert TxnFits(w, f, txn);
      forall seId, at | Exposed(v, f, seId, at) ensures Exposed(w, f, seId, at) {
        PutExposes(w, v, t, f, seId, at);
      }
      forall u | 0 <= u < |v.db.txns| && v.db.txns[u].fileId == f ensures TxnFits(v, f, v.db.txns[u]) {
        assert TxnFits(w, f, w.db.txns[u]);
      }
      forall u | 0 <= u < |v.db.txns| && v.db.txns[u].fileId == f ensures !IsStale(config, v, f, v.db.txns[u]) {
        assert w.db.txns[u].sourceSe == txn.sourceSe;
      }
      SafeOutside(config, w, v, f);
    }
  }

  lemma PutExposes(w: World, v: World, t: TxnId, f: FileId, seId: SeId, at: Time)
    requires f in w.db.files && FileTxns(w, f) && t < |w.db.txns| && Vouched(w.db.txns[t]) && w.db.txns[t].fileId == f
    requires f in v.db.files && v.db.txns == w.db.txns && v.contents == w.contents
    requires v.db.files[f].retention == Permanent && v.db.files[f].seId == w.db.txns[t].targetSe
    requires v.db.files[f].checksum == w.db.files[f].checksum
    requires Exposed(v, f, seId, at)
    ensures Exposed(w, f, seId, at)
  {
    assert TxnFits(w, f, w.db.txns[t]);
    assert Aims(w, f, w.db.txns[t].targetSe, w.db.txns[t]);
    if seId != v.db.files[f].seId {
      var u :| 0 <= u < |v.db.txns| && Aims(v, f, seId, v.db.txns[u]);
      assert Aims(w, f, seId, w.db.txns[u]) && TxnFits(w, f, w.db.txns[u]);
    }
  }

  /** The steps that only rewrite one transaction. */
  lemma WorkflowStepSafe(config: Settings, w: World, step: Step, f: FileId)
    requires Safe(config, w, f) && Enabled(config, w, step) && Disciplined(w, step)
    requires step.CopyDone? || step.Verify? || step.MarkCompleted? || step.FailFinalize?
    ensures Shrinks(w, Take(config, w, step), f) && Safe(config, Take(config, w, step), f)
  {
    assert w.db.txns[step.txn].fileId == f ==> TxnFits(w, f, w.db.txns[step.txn]);
    TxnSafe(config, w, step.txn, Take(config, w, step).db.txns[step.txn], f);
  }

  lemma RollBackSafe(config: Settings, w: World, t: TxnId, deletes: bool, f: FileId)
    requires Safe(config, w, f) && Enabled(config, w, RollBackFinalize(t, deletes))
    requires Disciplined(w, RollBackFinalize(t, deletes))
    ensures
      var v := Take(config, w, RollBackFinalize(t, deletes));
      Shrinks(w, v, f) && Safe(config, v, f)
  {
    var txn := w.db.txns[t];
    var v := w.(contents := if deletes then Strike(w.contents, txn.targetSe, txn.fileId) else w.contents);
    assert txn.fileId == f ==> TxnFits(w, f, txn);
    if deletes {
      WriteSafe(config, w, v, f, (txn.targetSe, txn.fileId));
    }
    TxnSafe(config, v, t, txn.(status := RolledBack), f);
  }

  lemma CopyWriteSafe(config: Settings, w: World, t: TxnId, written: Checksum, f: FileId)
    requires Safe(config, w, f) && Enabled(config, w, CopyWrite(t, written)) && Disciplined(w, CopyWrite(t, written))
    ensures
      var v := Take(config, w, CopyWrite(t, written));
      Shrinks(w, v, f) && Safe(config, v, f)
  {
    var txn := w.db.txns[t];
    assert txn.fileId == f ==> Aims(w, f, txn.targetSe, txn);
    WriteSafe(config, w, Take(config, w, CopyWrite(t, written)), f, (txn.targetSe, txn.fileId));
  }

  lemma DriverStepSafe(config: Settings, w: World, step: Step, f: FileId)
    requires Safe(config, w, f) && Enabled(config, w, step) && Disciplined(w, step) && DriverStep(step)
    ensures Shrinks(w, Take(config, w, step), f) && Safe(config, Take(config, w, step), f)
  {
    if step.BeginFinalize? {
      BeginSafe(config, w, Txn(step.id, step.sourceSe, step.targetSe, Copying, None, None, None), f);
    } else if step.CopyWrite? {
      CopyWriteSafe(config, w, step.txn, step.written, f);
    } else if step.RegistryPut? {
      PutSafe(config, w, step.txn, step.path, step.finalizedAt, f);
    } else if step.RollBackFinalize? {
      RollBackSafe(config, w, step.txn, step.deletes, f);
    } else {
      WorkflowStepSafe(config, w, step, f);
    }
  }

  lemma RegistryStepSafe(config: Settings, w: World, step: Step, f: FileId)
    requires Safe(config, w, f) && Enabled(config, w, step) && Disciplined(w, step) && RegistryStep(step)
    ensures Shrinks(w, Take(config, w, step), f) && Safe(config, Take(config, w, step), f)
  {
    var v := Take(config, w, step);
    if step.Upload? {
      WriteSafe(config, w, v, f, (step.seId, step.id));
    } else {
      SameFactsShrink(config, w, v, f);
      SameFactsSafe(config, w, v, f);
    }
  }

  // ---------- Collector sessions ----------

  /** The session endangers nothing, and leaves alone the row that blocks the producer. */
  ghost predicate Harmless(config: Settings, w: World, f: FileId, s: nat, x: Session)
    requires f in w.db.files
  {
    && (forall item :: WillWrite(w.db.queue, x, item) ==> !Dangerous(config, w, f, item))
    && (forall k: nat :: !PickHits(WithSession(w, s, x), f, s, k))
    && (Stale(config, w, f) ==> forall i :: NamesPlace(w, f, i) && Unfinished(w, i) ==> !Finishes(x, i))
  }

  lemma SessionSafe(config: Settings, w: World, s: nat, x: Session, f: FileId)
    requires Safe(config, w, f) && Harmless(config, w, f, s, x)
    ensures Safe(config, WithSession(w, s, x), f)
  {
    var v := WithSession(w, s, x);
    SameFactsShrink(config, w, v, f);
    assert forall item :: Dangerous(config, v, f, item) <==> Dangerous(config, w, f, item);
    forall i | 0 <= i < |v.db.queue| ensures !Dangerous(config, v, f, v.db.queue[i]) {
      assert !Dangerous(config, w, f, w.db.queue[i]);
    }
    forall r: nat, k: nat ensures !PickHits(v, f, r, k) {
      assert r != s ==> !PickHits(w, f, r, k);
    }
    forall r, item | r in v.sessions && WillWrite(v.db.queue, v.sessions[r], item)
      ensures !Dangerous(config, v, f, item)
    {
      assert r != s ==> r in w.sessions && WillWrite(w.db.queue, w.sessions[r], item);
    }
    if Stale(config, v, f) {
      var i :| NamesPlace(w, f, i) && Unfinished(w, i);
      assert NamesPlace(v, f, i) && Unfinished(v, i);
    }
    SafeAgain(config, w, v, f);
  }

  /** A session that was there holds nothing dangerous. */
  lemma SafeSession(config: Settings, w: World, s: nat, f: FileId)
    requires Safe(config, w, f) && s in w.sessions
    ensures Harmless(config, w, f, s, w.sessions[s])
  {
    assert WithSession(w, s, w.sessions[s]) == w;
    forall item | WillWrite(w.db.queue, w.sessions[s], item) ensures !Dangerous(config, w, f, item) {
    }
  }

  lemma StartSafe(config: Settings, w: World, s: nat, picked: seq<ItemId>, f: FileId)
    requires Safe(config, w, f) && Enabled(config, w, GcStart(s, picked))
    ensures Safe(config, Take(config, w, GcStart(s, picked)), f)
  {
    var x := Session(QueueStage, picked, w.db.queue, 0, w.now, w.db.elements, map[], map[], []);
    assert picked[0..] == picked;
    forall item | WillWrite(w.db.queue, x, item) ensures !Dangerous(config, w, f, item) {
      var i :| 0 <= i < |w.db.queue| && Touches(x, i) && Outcome(x, i) == item;
      if Dangerous(config, w, f, item) {
        ProcessedDanger(config, w, f, w.db.queue[i], x.elements, SILENCE, x.queueNow);
      }
    }
    forall k | 0 <= k < |picked| && w.db.queue[picked[k]].fileId == f
      ensures !Exposed(w, f, w.db.queue[picked[k]].seId, w.now)
    {
      assert !Dangerous(config, w, f, w.db.queue[picked[k]]);
    }
    forall k: nat ensures !PickHits(WithSession(w, s, x), f, s, k) {
      SameFactsShrink(config, w, WithSession(w, s, x), f);
    }
    forall i: ItemId | Stale(config, w, f) && NamesPlace(w, f, i) ensures !Finishes(x, i) {
      var t :| 0 <= t < |w.db.txns| && IsStale(config, w, f, w.db.txns[t]);
      assert !Dangerous(config, w, f, w.db.queue[i]);
    }
    SessionSafe(config, w, s, x, f);
  }

  /** What a turn leaves behind was dangerous before, if it is now. */
  lemma ProcessedDanger(config: Settings, w: World, f: FileId, item: QueueItem, elements: Elements, reply: Reply,
                        now: Time)
    requires f in w.db.files && Dangerous(config, w, f, Process(item, elements, reply, now))
    ensures Dangerous(config, w, f, item)
  {
  }

  /** A turn leaves what the session was going to write, or a processed row; it finishes nothing it would not have. */
  lemma TurnOutcome(w: World, s: nat, reply: Reply, j: ItemId)
    requires s in w.sessions && CanTurn(w.sessions[s]) && SessionWf(w.db.queue, w.now, w.sessions[s])
    requires w.sessions[s].stage == QueueStage && j < |w.sessions[s].loaded|
    requires Touches(AfterItem(w, s, reply).sessions[s], j)
    ensures Touches(w.sessions[s], j)
    ensures
      var before, after := w.sessions[s], AfterItem(w, s, reply).sessions[s];
      Outcome(after, j) == Outcome(before, j) || (!Outcome(after, j).Pending() && !Outcome(before, j).Pending())
  {
    var before, after := w.sessions[s], AfterItem(w, s, reply).sessions[s];
    var i := before.picked[before.done];
    assert before.picked[before.done..][0] == i;
    assert before.picked[before.done..][1..] == after.picked[after.done..];
    if j == i {
      assert i !in before.picked[..before.done];
    }
  }

  /** The rows still ahead of the session were ahead of it before. */
  lemma TurnPicks(config: Settings, w: World, v: World, s: nat, reply: Reply, f: FileId)
    requires f in v.db.files && Enabled(config, w, GcItem(s, reply)) && v == w.(contents := v.contents, sent := v.sent)
    requires forall k: nat :: !PickHits(v, f, s, k)
    ensures forall k: nat :: !PickHits(WithSession(v, s, AfterItem(w, s, reply).sessions[s]), f, s, k)
  {
    var u := WithSession(v, s, AfterItem(w, s, reply).sessions[s]);
    SameFactsShrink(config, v, u, f);
    forall k: nat ensures !PickHits(u, f, s, k) {
      assert !PickHits(v, f, s, k);
    }
  }

  lemma TurnHarmless(config: Settings, w: World, v: World, s: nat, reply: Reply, f: FileId)
    requires Safe(config, w, f) && Safe(config, v, f) && Wf(w) && Enabled(config, w, GcItem(s, reply))
    requires v == w.(contents := v.contents, sent := v.sent) && Shrinks(w, v, f)
    ensures Harmless(config, v, f, s, AfterItem(w, s, reply).sessions[s])
  {
    var before := w.sessions[s];
    var x := AfterItem(w, s, reply).sessions[s];
    assert SessionWf(w.db.queue, w.now, before);
    SafeSession(config, v, s, f);
    forall item | WillWrite(v.db.queue, x, item) ensures !Dangerous(config, v, f, item) {
      if item !in x.added {
        var i :| 0 <= i < |v.db.queue| && i < |x.loaded| && Touches(x, i) && v.db.queue[i].Pending()
            && Outcome(x, i) == item;
        TurnOutcome(w, s, reply, i);
      }
    }
    TurnPicks(config, w, v, s, reply, f);
    forall j | Finishes(x, j) ensures Finishes(before, j) {
      TurnOutcome(w, s, reply, j);
    }
  }

  lemma ItemSafe(config: Settings, w: World, s: nat, reply: Reply, f: FileId)
    requires Safe(config, w, f) && Wf(w) && Enabled(config, w, GcItem(s, reply))
    ensures Shrinks(w, AfterItem(w, s, reply), f) && Safe(config, AfterItem(w, s, reply), f)
  {
    var before := w.sessions[s];
    var item := before.loaded[before.picked[before.done]];
    assert SessionWf(w.db.queue, w.now, before);
    var after := AfterItem(w, s, reply);
    var v := w.(contents := after.contents);
    if Removes(item, before.elements, reply) {
      assert !PickHits(w, f, s, before.done);
      DeleteSafe(config, w, item.seId, item.fileId, f);
    }
    var u := v.(sent := after.sent);
    SameFactsSafe(config, v, u, f);
    SameFactsShrink(config, v, u, f);
    TurnHarmless(config, w, u, s, reply, f);
    SessionSafe(config, u, s, after.sessions[s], f);
    SameFactsShrink(config, w, after, f);
  }

  /** New rows of this kind are not dangerous. */
  ghost predicate NoneDangerous(config: Settings, w: World, f: FileId, items: seq<QueueItem>)
    requires f in w.db.files
  {
    forall item :: item in items ==> !Dangerous(config, w, f, item)
  }

  lemma {:induction false} TtlItemsHarmless(config: Settings, w: World, marks: map<FileId, Mark>, ids: seq<FileId>,
                                            f: FileId)
    requires f in w.db.files
    requires forall k :: 0 <= k < |ids| ==>
      ids[k] in Seen(w.db.files, marks) && TtlExpiredRow(Seen(w.db.files, marks)[ids[k]], w.now)
    ensures NoneDangerous(config, w, f, TtlItems(w.db.queue, Seen(w.db.files, marks), ids, w.now))
  {
    if ids != [] {
      TtlItemsHarmless(config, w, marks, ids[..|ids| - 1], f);
      assert ids[|ids| - 1] in Seen(w.db.files, marks);
    }
  }

  /** A completed transaction brings back no copy of its own source, and a stale one finds its row blocked. */
  lemma FinalizedItemHarmless(config: Settings, w: World, seen: map<FileId, File>, t: TxnId, f: FileId)
    requires Safe(config, w, f) && t < |w.db.txns| && FinalizedTxn(w.db.txns[t], w.now - config.safetyMargin)
    ensures NoneDangerous(config, w, f, FinalizedItem(w.db.queue, seen, w.db.txns[t], w.now))
  {
    var txn := w.db.txns[t];
    var row := w.db.files[f];
    if txn.fileId == f {
      assert TxnFits(w, f, txn);
      if txn.sourceSe == row.seId {
        if Protected(row, w.now) {
          assert IsStale(config, w, f, txn);
          var i :| NamesPlace(w, f, i) && Unfinished(w, i);
          assert i in PendingOf(w.db.queue, f, Some(row.seId));
        }
      } else {
        assert !Movable(row);
        forall u | 0 <= u < |w.db.txns| ensures !Aims(w, f, txn.sourceSe, w.db.txns[u]) {
          assert w.db.txns[u].fileId == f ==> TxnFits(w, f, w.db.txns[u]);
        }
      }
    }
  }

  lemma {:induction false} FinalizedItemsHarmless(config: Settings, w: World, seen: map<FileId, File>, ids: seq<TxnId>,
                                                  f: FileId)
    requires Safe(config, w, f)
    requires forall k :: 0 <= k < |ids| ==>
      ids[k] < |w.db.txns| && FinalizedTxn(w.db.txns[ids[k]], w.now - config.safetyMargin)
    ensures NoneDangerous(config, w, f, FinalizedItems(w.db.queue, seen, w.db.txns, ids, w.now))
  {
    if ids != [] {
      FinalizedItemsHarmless(config, w, seen, ids[..|ids| - 1], f);
      FinalizedItemHarmless(config, w, seen, ids[|ids| - 1], f);
    }
  }

  lemma {:induction false} OrphanItemsHarmless(config: Settings, w: World, seId: SeId, listing: seq<FileId>, f: FileId)
    requires f in w.db.files
    ensures NoneDangerous(config, w, f, OrphanItems(w.db.queue, w.db.files, seId, listing, config.orphanGrace, w.now))
  {
    if listing != [] {
      OrphanItemsHarmless(config, w, seId, listing[..|listing| - 1], f);
    }
  }

  /** A session gets new rows and leaves the queue stage behind. */
  lemma GrowSafe(config: Settings, w: World, s: nat, stage: Stage, items: seq<QueueItem>, f: FileId)
    requires Safe(config, w, f) && s in w.sessions && stage != QueueStage && NoneDangerous(config, w, f, items)
    ensures Safe(config, WithSession(w, s, w.sessions[s].(stage := stage, added := w.sessions[s].added + items)), f)
  {
    var x := w.sessions[s].(stage := stage, added := w.sessions[s].added + items);
    SafeSession(config, w, s, f);
    forall item | WillWrite(w.db.queue, x, item) ensures !Dangerous(config, w, f, item) {
      assert WillWrite(w.db.queue, w.sessions[s], item) || item in items;
    }
    SessionSafe(config, w, s, x, f);
  }

  lemma ScanSafe(config: Settings, w: World, s: nat, seId: SeId, listing: seq<FileId>, f: FileId)
    requires Safe(config, w, f) && Enabled(config, w, OrphanScan(s, seId, listing))
    ensures Safe(config, Take(config, w, OrphanScan(s, seId, listing)), f)
  {
    var v := w.(scans := Take(config, w, OrphanScan(s, seId, listing)).scans);
    SameFactsSafe(config, w, v, f);
    OrphanItemsHarmless(config, w, seId, listing, f);
    var x := Take(config, w, OrphanScan(s, seId, listing)).sessions[s];
    forall item | WillWrite(v.db.queue, x, item) ensures !Dangerous(config, v, f, item) {
      assert !Dangerous(config, w, f, item);
    }
    SessionSafe(config, v, s, x, f);
  }

  lemma ProducerSafe(config: Settings, w: World, step: Step, f: FileId)
    requires Safe(config, w, f) && Enabled(config, w, step) && (step.GcTtl? || step.GcFinalized?)
    ensures Safe(config, Take(config, w, step), f)
  {
    var marks := w.sessions[step.session].marks;
    if step.GcTtl? {
      TtlItemsHarmless(config, w, marks, step.expired, f);
      GrowSafe(config, w, step.session, TtlDone, TtlItems(w.db.queue, Seen(w.db.files, marks), step.expired, w.now), f);
    } else {
      var items := FinalizedItems(w.db.queue, Seen(w.db.files, marks), w.db.txns, step.completed, w.now);
      FinalizedItemsHarmless(config, w, Seen(w.db.files, marks), step.completed, f);
      GrowSafe(config, w, step.session, ReadyToCommit, items, f);
    }
  }

  /** Ending a session lets go of what it held. */
  lemma CloseSafe(config: Settings, w: World, s: nat, f: FileId)
    requires Safe(config, w, f)
    ensures Safe(config, w.(sessions := w.sessions - {s}), f)
  {
    var v := w.(sessions := w.sessions - {s});
    SameFactsShrink(config, w, v, f);
    forall i | 0 <= i < |v.db.queue| ensures !Dangerous(config, v, f, v.db.queue[i]) {
      assert !Dangerous(config, w, f, w.db.queue[i]);
    }
    forall r: nat, k: nat ensures !PickHits(v, f, r, k) {
      assert r != s ==> !PickHits(w, f, r, k);
    }
    forall r, item | r in v.sessions && WillWrite(v.db.queue, v.sessions[r], item)
      ensures !Dangerous(config, v, f, item)
    {
      assert r in w.sessions && WillWrite(w.db.queue, w.sessions[r], item) && !Dangerous(config, w, f, item);
    }
    if Stale(config, v, f) {
      var i :| NamesPlace(w, f, i) && Unfinished(w, i);
      assert NamesPlace(v, f, i) && Unfinished(v, i);
    }
    SafeAgain(config, w, v, f);
  }

  /** What the commit of a session leaves in the queue. */
  function Merged(w: World, s: nat): seq<QueueItem>
    requires s in w.sessions
  {
    Merge(w.db.queue, w.sessions[s].dirty) + w.sessions[s].added
  }

  lemma WriteBackDanger(config: Settings, w: World, f: FileId, committed: QueueItem, changed: QueueItem)
    requires f in w.db.files && SameTarget(changed, committed) && Dangerous(config, w, f, WriteBack(committed, changed))
    ensures committed.Pending() && Dangerous(config, w, f, changed)
  {
  }

  /** A dangerous row after the commit is one the session was going to write, or was there before. */
  lemma MergedRowHarmless(config: Settings, w: World, s: nat, f: FileId, i: ItemId)
    requires Safe(config, w, f) && Wf(w) && s in w.sessions && i < |Merged(w, s)|
    ensures !Dangerous(config, w, f, Merged(w, s)[i])
  {
    var x := w.sessions[s];
    var row := Merged(w, s)[i];
    assert SessionWf(w.db.queue, w.now, x);
    if i < |w.db.queue| && i in x.dirty {
      if Dangerous(config, w, f, row) {
        WriteBackDanger(config, w, f, w.db.queue[i], x.dirty[i]);
        assert WillWrite(w.db.queue, x, Outcome(x, i));
      }
    } else if i < |w.db.queue| {
      assert row == w.db.queue[i];
    } else {
      assert WillWrite(w.db.queue, x, row);
    }
  }

  /** Rows stay, with what they name, and processed rows stay processed. */
  predicate KeepsRows(queue: seq<QueueItem>, queue': seq<QueueItem>) {
    && |queue| <= |queue'|
    && forall i :: 0 <= i < |queue| ==> SameTarget(queue'[i], queue[i]) && (queue'[i].Pending() ==> queue[i].Pending())
  }

  lemma MergeKeepsRows(w: World, s: nat)
    requires s in w.sessions
    ensures KeepsRows(w.db.queue, Merged(w, s))
  {
  }

  /** The other sessions write what they were going to write, or less. */
  lemma PlansStay(queue: seq<QueueItem>, queue': seq<QueueItem>, x: Session, item: QueueItem)
    requires KeepsRows(queue, queue') && |x.loaded| <= |queue| && WillWrite(queue', x, item)
    ensures WillWrite(queue, x, item)
  {
  }

  lemma PicksStay(config: Settings, w: World, queue': seq<QueueItem>, f: FileId, r: nat, k: nat)
    requires f in w.db.files && Wf(w) && KeepsRows(w.db.queue, queue') && !PickHits(w, f, r, k)
    ensures !PickHits(w.(db := w.db.(queue := queue')), f, r, k)
  {
    SameFactsShrink(config, w, w.(db := w.db.(queue := queue')), f);
    if r in w.sessions && k < |w.sessions[r].picked| {
      assert SessionWf(w.db.queue, w.now, w.sessions[r]);
    }
  }

  /** A row that no session finishes stays pending when one of them commits. */
  lemma BlockStays(w: World, s: nat, f: FileId)
    requires f in w.db.files && s in w.sessions && SessionWf(w.db.queue, w.now, w.sessions[s]) && Blocked(w, f)
    ensures Blocked(w.(db := w.db.(queue := Merged(w, s))), f)
  {
    var x := w.sessions[s];
    var v := w.(db := w.db.(queue := Merged(w, s)));
    var i: ItemId :| NamesPlace(w, f, i) && Unfinished(w, i);
    assert !Finishes(x, i);
    assert NamesPlace(v, f, i) && Unfinished(v, i);
  }

  /** The queue takes over a session's harmless rows; a row that blocks the producer stays pending. */
  lemma FlushSafe(config: Settings, w: World, s: nat, f: FileId)
    requires Safe(config, w, f) && Wf(w) && s in w.sessions
    ensures Safe(config, w.(db := w.db.(queue := Merged(w, s))), f)
  {
    var x := w.sessions[s];
    var queue := Merged(w, s);
    var v := w.(db := w.db.(queue := queue));
    SameFactsShrink(config, w, v, f);
    assert SessionWf(w.db.queue, w.now, x);
    forall i | 0 <= i < |queue| ensures !Dangerous(config, v, f, queue[i]) {
      MergedRowHarmless(config, w, s, f, i);
      assert !Dangerous(config, w, f, queue[i]);
    }
    MergeKeepsRows(w, s);
    forall r: nat, k: nat ensures !PickHits(v, f, r, k) {
      assert !PickHits(w, f, r, k);
      PicksStay(config, w, queue, f, r, k);
    }
    forall r, item | r in v.sessions && WillWrite(v.db.queue, v.sessions[r], item)
      ensures !Dangerous(config, v, f, item)
    {
      assert SessionWf(w.db.queue, w.now, w.sessions[r]);
      PlansStay(w.db.queue, queue, w.sessions[r], item);
      assert !Dangerous(config, w, f, item);
    }
    if Stale(config, v, f) {
      BlockStays(w, s, f);
    }
    SafeAgain(config, w, v, f);
  }

  lemma CommitSafe(config: Settings, w: World, s: nat, f: FileId)
    requires Safe(config, w, f) && Wf(w) && s in w.sessions
    ensures Safe(config, AfterCommit(w, s), f)
  {
    var x := w.sessions[s];
    var v := w.(db := w.db.(queue := Merge(w.db.queue, x.dirty) + x.added));
    FlushSafe(config, w, s, f);
    var u := v.(db := v.db.(files := Seen(w.db.files, x.marks)));
    SameFactsSafe(config, v, u, f);
    CloseSafe(config, u, s, f);
  }

  lemma CollectorStepSafe(config: Settings, w: World, step: Step, f: FileId)
    requires Safe(config, w, f) && Wf(w) && Enabled(config, w, step) && !DriverStep(step) && !RegistryStep(step)
    ensures Shrinks(w, Take(config, w, step), f) && Safe(config, Take(config, w, step), f)
  {
    if step.GcStart? {
      StartSafe(config, w, step.session, step.picked, f);
    } else if step.GcItem? {
      ItemSafe(config, w, step.session, step.reply, f);
    } else if step.GcTtl? || step.GcFinalized? {
      ProducerSafe(config, w, step, f);
    } else if step.OrphanScan? {
      ScanSafe(config, w, step.session, step.seId, step.listing, f);
    } else if step.GcCommit? {
      CommitSafe(config, w, step.session, f);
    } else {
      CloseSafe(config, w, step.session, f);
    }
    SameFactsShrink(config, w, Take(config, w, step), f);
  }

  // ---------- Whole runs ----------

  lemma SessionStaysWf(queue: seq<QueueItem>, now: Time, queue': seq<QueueItem>, now': Time, x: Session)
    requires SessionWf(queue, now, x) && now <= now' && |queue| <= |queue'|
    requires forall i :: 0 <= i < |queue| ==> SameTarget(queue'[i], queue[i])
    ensures SessionWf(queue', now', x)
  {
  }

  lemma WfOtherSessions(w: World, v: World, s: nat)
    requires Wf(w) && w.now <= v.now && |w.db.queue| <= |v.db.queue|
    requires forall i :: 0 <= i < |w.db.queue| ==> SameTarget(v.db.queue[i], w.db.queue[i])
    requires forall r :: r in v.sessions && r != s ==> r in w.sessions && v.sessions[r] == w.sessions[r]
    requires s in v.sessions ==> SessionWf(v.db.queue, v.now, v.sessions[s])
    ensures Wf(v)
  {
    forall r | r in v.sessions ensures SessionWf(v.db.queue, v.now, v.sessions[r]) {
      if r != s {
        SessionStaysWf(w.db.queue, w.now, v.db.queue, v.now, w.sessions[r]);
      }
    }
  }

  lemma TurnKeepsWf(config: Settings, w: World, s: nat, reply: Reply)
    requires Enabled(config, w, GcItem(s, reply)) && SessionWf(w.db.queue, w.now, w.sessions[s])
    ensures SessionWf(w.db.queue, w.now, AfterItem(w, s, reply).sessions[s])
  {
    var before := w.sessions[s];
    var after := AfterItem(w, s, reply).sessions[s];
    forall j | j in after.dirty
      ensures j < |after.loaded| && SameTarget(after.dirty[j], w.db.queue[j]) && j in after.picked[..after.done]
    {
      assert after.picked[..after.done] == before.picked[..before.done] + [before.picked[before.done]];
    }
  }

  lemma ItemKeepsWf(config: Settings, w: World, s: nat, reply: Reply)
    requires Wf(w) && Enabled(config, w, GcItem(s, reply))
    ensures Wf(AfterItem(w, s, reply))
  {
    TurnKeepsWf(config, w, s, reply);
    WfOtherSessions(w, AfterItem(w, s, reply), s);
  }

  lemma {:induction false} TtlItemsAreNew(queue: seq<QueueItem>, files: map<FileId, File>, ids: seq<FileId>, now: Time)
    ensures AreNew(TtlItems(queue, files, ids, now)) && AreDue(TtlItems(queue, files, ids, now), now)
  {
    if ids != [] {
      TtlItemsAreNew(queue, files, ids[..|ids| - 1], now);
    }
  }

  predicate AreDue(items: seq<QueueItem>, now: Time) {
    forall j :: 0 <= j < |items| ==> items[j].scheduledAt <= now
  }

  predicate AreNew(items: seq<QueueItem>) {
    forall j :: 0 <= j < |items| ==> items[j].Pending() && items[j].retryCount == 0
  }

  lemma {:induction false} FinalizedItemsAreNew(queue: seq<QueueItem>, files: map<FileId, File>, txns: seq<Txn>,
                                                ids: seq<TxnId>, now: Time)
    requires forall k :: 0 <= k < |ids| ==> ids[k] < |txns|
    ensures AreNew(FinalizedItems(queue, files, txns, ids, now))
    ensures AreDue(FinalizedItems(queue, files, txns, ids, now), now)
  {
    if ids != [] {
      FinalizedItemsAreNew(queue, files, txns, ids[..|ids| - 1], now);
    }
  }

  lemma {:induction false} OrphanItemsAreNew(queue: seq<QueueItem>, files: map<FileId, File>, seId: SeId,
                                             listing: seq<FileId>,
                                             grace: nat, now: Time)
    ensures AreNew(OrphanItems(queue, files, seId, listing, grace, now))
  {
    if listing != [] {
      OrphanItemsAreNew(queue, files, seId, listing[..|listing| - 1], grace, now);
    }
  }

  lemma GrownIsWf(w: World, s: nat, stage: Stage, items: seq<QueueItem>)
    requires Wf(w) && s in w.sessions && AreNew(items) && AreDue(items, w.now)
    ensures Wf(WithSession(w, s, w.sessions[s].(stage := stage, added := w.sessions[s].added + items)))
  {
    assert SessionWf(w.db.queue, w.now, w.sessions[s]);
    WfOtherSessions(w, WithSession(w, s, w.sessions[s].(stage := stage, added := w.sessions[s].added + items)), s);
  }

  lemma ProducerKeepsWf(config: Settings, w: World, step: Step)
    requires Wf(w) && Enabled(config, w, step) && (step.GcTtl? || step.GcFinalized? || step.OrphanScan?)
    ensures Wf(Take(config, w, step))
  {
    var s := step.session;
    if step.OrphanScan? {
      OrphanItemsAreNew(w.db.queue, w.db.files, step.seId, step.listing, config.orphanGrace, w.now);
      WfOtherSessions(w, Take(config, w, step), s);
    } else {
      var x := w.sessions[s];
      var seen := Seen(w.db.files, x.marks);
      var stage := if step.GcTtl? then TtlDone else ReadyToCommit;
      var items := if step.GcTtl? then TtlItems(w.db.queue, seen, step.expired, w.now)
                   else FinalizedItems(w.db.queue, seen, w.db.txns, step.completed, w.now);
      if step.GcTtl? {
        TtlItemsAreNew(w.db.queue, seen, step.expired, w.now);
      } else {
        FinalizedItemsAreNew(w.db.queue, seen, w.db.txns, step.completed, w.now);
      }
      GrownIsWf(w, s, stage, items);
    }
  }

  lemma CommitKeepsWf(w: World, s: nat)
    requires Wf(w) && s in w.sessions
    ensures Wf(AfterCommit(w, s))
  {
    MergeKeepsRows(w, s);
    assert AfterCommit(w, s).db.queue == Merged(w, s);
    WfOtherSessions(w, AfterCommit(w, s), s);
  }

  lemma BracketKeepsWf(config: Settings, w: World, step: Step)
    requires Wf(w) && Enabled(config, w, step) && (step.GcStart? || step.GcCommit? || step.GcRollback?)
    ensures Wf(Take(config, w, step))
  {
    if step.GcCommit? {
      CommitKeepsWf(w, step.session);
    } else {
      WfOtherSessions(w, Take(config, w, step), step.session);
    }
  }

  /** Sessions stay well-formed whatever happens. */
  lemma StepKeepsWf(config: Settings, w: World, step: Step)
    requires Wf(w) && Enabled(config, w, step)
    ensures Wf(Take(config, w, step))
  {
    if step.GcItem? {
      ItemKeepsWf(config, w, step.session, step.reply);
    } else if step.GcTtl? || step.GcFinalized? || step.OrphanScan? {
      ProducerKeepsWf(config, w, step);
    } else if step.GcStart? || step.GcCommit? || step.GcRollback? {
      BracketKeepsWf(config, w, step);
    } else {
      WfOtherSessions(w, Take(config, w, step), 0);
    }
  }

  lemma StepSafe(config: Settings, w: World, step: Step, f: FileId)
    requires Safe(config, w, f) && Wf(w) && Enabled(config, w, step) && Disciplined(w, step)
    ensures Shrinks(w, Take(config, w, step), f) && Safe(config, Take(config, w, step), f) && Wf(Take(config, w, step))
  {
    StepKeepsWf(config, w, step);
    if DriverStep(step) {
      DriverStepSafe(config, w, step, f);
    } else if RegistryStep(step) {
      RegistryStepSafe(config, w, step, f);
    } else {
      CollectorStepSafe(config, w, step, f);
    }
  }

  /** No disciplined run loses a file that the criterion calls safe, and nothing more becomes exposed. */
  lemma {:induction false} SafeRun(config: Settings, w: World, steps: seq<Step>, last: World, f: FileId)
    requires Safe(config, w, f) && Wf(w) && EnabledRun(config, w, steps, last) && DisciplinedRun(config, w, steps)
    ensures Safe(config, last, f) && Wf(last) && Shrinks(w, last, f)
    decreases |steps|
  {
    if steps != [] {
      StepSafe(config, w, steps[0], f);
      SafeRun(config, Take(config, w, steps[0]), steps[1..], last, f);
    }
  }

  // ---------- The invariant is enough ----------

  lemma InvFits(w: World, f: FileId)
    requires Inv(w) && f in w.db.files
    ensures FileTxns(w, f)
  {
    forall t | 0 <= t < |w.db.txns| && w.db.txns[t].fileId == f ensures TxnFits(w, f, w.db.txns[t]) {
      assert Copy(w.db.files, w.contents, w.db.txns[t]);
    }
  }

  lemma QueuedIsUnexposed(w: World, f: FileId, item: QueueItem, at: Time)
    requires Inv(w) && f in w.db.files && item.fileId == f && w.now <= at
    requires Target(w.db.files, w.now, item) && Sourced(w.db.txns, [item])
    ensures !Exposed(w, f, item.seId, at)
  {
    forall t | 0 <= t < |w.db.txns| ensures !Aims(w, f, item.seId, w.db.txns[t]) {
      assert [item][0] == item;
    }
  }

  lemma RowsAreUnexposed(w: World, f: FileId, i: ItemId, at: Time)
    requires Inv(w) && f in w.db.files && i < |w.db.queue| && w.db.queue[i].fileId == f && w.now <= at
    ensures !Exposed(w, f, w.db.queue[i].seId, at)
  {
    assert Sourced(w.db.txns, [w.db.queue[i]]);
    QueuedIsUnexposed(w, f, w.db.queue[i], at);
  }

  /** A turn never changes what a row names. */
  lemma OutcomeTarget(queue: seq<QueueItem>, x: Session, i: ItemId)
    requires i < |queue| && i < |x.loaded| && SameTarget(x.loaded[i], queue[i])
    requires i in x.dirty ==> SameTarget(x.dirty[i], queue[i])
    ensures SameTarget(Outcome(x, i), queue[i])
  {
    var item := Process(x.loaded[i], x.elements, SILENCE, x.queueNow);
    assert item.fileId == x.loaded[i].fileId && item.seId == x.loaded[i].seId;
  }

  lemma SessionsAreHarmless(config: Settings, w: World, s: nat, item: QueueItem, f: FileId)
    requires Inv(w) && f in w.db.files && s in w.sessions && WillWrite(w.db.queue, w.sessions[s], item)
    ensures !Dangerous(config, w, f, item)
  {
    var x := w.sessions[s];
    assert SessionOk(w.db.files, w.now, w.contents, w.db.txns, w.db.queue, x);
    if item.fileId == f {
      if item in x.added {
        assert Sourced(w.db.txns, [item]);
        QueuedIsUnexposed(w, f, item, Later(w.now, item.scheduledAt));
      } else {
        var i :| 0 <= i < |w.db.queue| && i < |x.loaded| && Outcome(x, i) == item;
        OutcomeTarget(w.db.queue, x, i);
        RowsAreUnexposed(w, f, i, Later(w.now, item.scheduledAt));
      }
    }
  }

  /** From a state of a disciplined run, no file can be lost. */
  lemma InvIsSafe(config: Settings, w: World, f: FileId)
    requires Inv(w) && f in w.db.files
    ensures Safe(config, w, f)
  {
    InvFits(w, f);
    forall i | 0 <= i < |w.db.queue| ensures !Dangerous(config, w, f, w.db.queue[i]) {
      if w.db.queue[i].fileId == f {
        RowsAreUnexposed(w, f, i, Later(w.now, w.db.queue[i].scheduledAt));
      }
    }
    forall s: nat, k: nat ensures !PickHits(w, f, s, k) {
      if CanStillDelete(w, s, k) && w.db.queue[w.sessions[s].picked[k]].fileId == f {
        RowsAreUnexposed(w, f, w.sessions[s].picked[k], w.now);
      }
    }
    forall s, item | s in w.sessions && WillWrite(w.db.queue, w.sessions[s], item)
      ensures !Dangerous(config, w, f, item)
    {
      SessionsAreHarmless(config, w, s, item, f);
    }
    forall t | 0 <= t < |w.db.txns| ensures !IsStale(config, w, f, w.db.txns[t]) {
      assert Copy(w.db.files, w.contents, w.db.txns[t]);
    }
  }
}
