/**
Where the discipline of the callers is needed: runs from the empty system that the code allows, each of which breaks
one rule only and loses a protected file. LossConditions says exactly when such a step costs a file.
*/
module LifecycleLimits {
  import opened Wrappers
  import opened FileRegistry
  import opened Cleanup
  import opened FileLifecycle
  import opened NoDataLoss
  import opened LossCriterion
  import opened LossWitness

  const CONFIG := Settings(100, 24, 168, 3)
  const EMPTY := World(0, Tables(map[], [], [], map[]), map[], map[], [], [])
  const REQUEST := RegisterRequest(SAMPLE_DETAILS, 1, "c", Some("text/plain"), Some("sa"), None, None,
                                   Temporary, Some(40), Some(1), "edit", "/a.txt")

  /** A run grows by one allowed step, to a world given in full. */
  lemma Go(steps: seq<Step>, w: World, step: Step, next: World) returns (more: seq<Step>)
    requires EnabledRun(CONFIG, EMPTY, steps, w) && Enabled(CONFIG, w, step) && next == Take(CONFIG, w, step)
    ensures more == steps + [step] && EnabledRun(CONFIG, EMPTY, more, next)
  {
    Extend(CONFIG, EMPTY, steps, w, step);
    more := steps + [step];
  }

  const FILES: map<FileId, File> := map[1 := NewRow(REQUEST, 0)]
  const COPY: Contents := map[("edit", 1) := "c"]
  const ONLINE: Elements := map["edit" := Online]
  const TTL_ROW := NewItem(1, "edit", Some("/a.txt"), 40, PRIORITY_NORMAL, TtlExpired, 40)
  const NO_TXNS: seq<Txn> := []
  const UPLOADED := World(0, Tables(map[], [], [], ONLINE), COPY, map[], [], [])
  const REGISTERED := World(0, Tables(FILES, NO_TXNS, [], ONLINE), COPY, map[], [], [])
  const EXPIRED := World(40, Tables(FILES, NO_TXNS, [], ONLINE), COPY, map[], [], [])
  const TTL_SESSION := Session(QueueStage, [], [], 0, 40, ONLINE, map[], map[], [])
  const QUEUED := World(40, Tables(FILES, NO_TXNS, [TTL_ROW], ONLINE), COPY, map[], [], [])

  lemma UploadedRun() returns (steps: seq<Step>)
    ensures EnabledRun(CONFIG, EMPTY, steps, UPLOADED)
  {
    var w1 := EMPTY.(db := EMPTY.db.(elements := ONLINE));
    assert map[]["edit" := Online] == ONLINE;
    steps := Go([], EMPTY, SetStatus("edit", Online), w1);
    assert map[][("edit", 1) := "c"] == COPY;
    steps := Go(steps, w1, Upload(1, "edit", "c"), UPLOADED);
  }

  lemma RegisteredRun() returns (steps: seq<Step>)
    ensures EnabledRun(CONFIG, EMPTY, steps, REGISTERED)
  {
    steps := UploadedRun();
    assert map[][1 := NewRow(REQUEST, 0)] == FILES;
    steps := Go(steps, UPLOADED, RegisterFile(1, REQUEST), REGISTERED);
  }

  lemma ExpiredRun() returns (steps: seq<Step>)
    ensures EnabledRun(CONFIG, EMPTY, steps, EXPIRED)
  {
    steps := RegisteredRun();
    steps := Go(steps, REGISTERED, Tick(40), EXPIRED);
  }

  lemma OneTtlItem()
    ensures TtlItems([], FILES, [1], 40) == [TTL_ROW]
  {
  }

  lemma TtlStep(w: World, v: World)
    requires w == WithSession(EXPIRED, 0, TTL_SESSION)
    requires v == WithSession(EXPIRED, 0, TTL_SESSION.(stage := TtlDone, added := [TTL_ROW]))
    ensures Enabled(CONFIG, w, GcTtl(0, [1])) && Take(CONFIG, w, GcTtl(0, [1])) == v
  {
    assert Seen(FILES, map[]) == FILES && w.sessions[0] == TTL_SESSION;
    OneTtlItem();
  }

  /** The TTL producer queues the expired file: all of it by the book. */
  lemma QueuedRun() returns (steps: seq<Step>)
    ensures EnabledRun(CONFIG, EMPTY, steps, QUEUED)
  {
    steps := ExpiredRun();
    var w1 := WithSession(EXPIRED, 0, TTL_SESSION);
    steps := Go(steps, EXPIRED, GcStart(0, []), w1);
    var w2 := WithSession(EXPIRED, 0, TTL_SESSION.(stage := TtlDone, added := [TTL_ROW]));
    TtlStep(w1, w2);
    steps := Go(steps, w1, GcTtl(0, [1]), w2);
    CommitTtl(steps, w2);
    steps := steps + [GcFinalized(0, []), GcCommit(0)];
  }

  lemma CommitTtl(steps: seq<Step>, w: World)
    requires w == EXPIRED.(sessions := map[0 := TTL_SESSION.(stage := TtlDone, added := [TTL_ROW])])
    requires EnabledRun(CONFIG, EMPTY, steps, w)
    ensures EnabledRun(CONFIG, EMPTY, steps + [GcFinalized(0, []), GcCommit(0)], QUEUED)
  {
    var v := WithSession(w, 0, w.sessions[0].(stage := ReadyToCommit));
    assert [TTL_ROW] + [] == [TTL_ROW];
    var more := Go(steps, w, GcFinalized(0, []), v);
    assert Seen(FILES, map[]) == FILES;
    assert Merge([], map[]) + [TTL_ROW] == [TTL_ROW];
    assert v.sessions - {0} == map[];
    more := Go(more, v, GcCommit(0), QUEUED);
    assert steps + [GcFinalized(0, [])] + [GcCommit(0)] == steps + [GcFinalized(0, []), GcCommit(0)];
  }

  /** A world from which the file can be lost is brought to a loss. */
  lemma Lose(steps: seq<Step>, w: World) returns (more: seq<Step>, last: World)
    requires EnabledRun(CONFIG, EMPTY, steps, w) && CanBeLost(CONFIG, w, 1)
    ensures EnabledRun(CONFIG, EMPTY, steps + more, last) && DisciplinedRun(CONFIG, w, more)
    ensures Lost(last, 1) && !NoLoss(last)
  {
    last :| CanReach(CONFIG, w, last) && Lost(last, 1);
    more :| EnabledRun(CONFIG, w, more, last) && DisciplinedRun(CONFIG, w, more);
    RunsJoin(CONFIG, EMPTY, steps, w, more, last);
  }

  /** `update_file` may promote in place; the row queued for the expired temporary file then deletes a permanent one. */
  lemma PromotionInPlaceLosesBytes() returns (steps: seq<Step>, more: seq<Step>, last: World)
    ensures EnabledRun(CONFIG, EMPTY, steps + [EditFile(1, NO_CHANGE.(retention := Some(Permanent)))] + more, last)
    ensures Lost(last, 1) && !NoLoss(last)
  {
    steps := QueuedRun();
    var row := NewRow(REQUEST, 0).(retention := Permanent, ttlExpiresAt := None, ttlDays := None, updatedAt := 40);
    var promote := NO_CHANGE.(retention := Some(Permanent));
    assert Updated(FILES[1], promote, 40) == row;
    var w := WithFile(QUEUED, 1, row);
    var promoted := Go(steps, QUEUED, EditFile(1, promote), w);
    assert Dangerous(CONFIG, w, 1, w.db.queue[0]);
    RowLoses(CONFIG, w, 1);
    more, last := Lose(promoted, w);
  }

  const PERMANENT := REQUEST.(retention := Permanent, ttlExpiresAt := None, ttlDays := None)
  const ORPHAN := NewItem(1, "edit", None, 168, PRIORITY_LOW, Orphaned, 0)
  const SCANS := [Scan(0, "edit", [1])]
  const SCANNED := UPLOADED.(db := UPLOADED.db.(queue := [ORPHAN]), scans := SCANS)

  lemma OneOrphan()
    ensures OrphanItems([], map[], "edit", [1], 168, 0) == [ORPHAN]
  {
    assert [1][..0] == [] && OrphanItems([], map[], "edit", [], 168, 0) == [];
    assert PendingOf([], 1, Some("edit")) == {};
    assert OrphanItems([], map[], "edit", [1], 168, 0) == [] + OrphanItem([], 1, "edit", 168, 0);
  }

  lemma ScannedRun() returns (steps: seq<Step>)
    ensures EnabledRun(CONFIG, EMPTY, steps + [OrphanScan(0, "edit", [1])] + [GcCommit(0)], SCANNED)
  {
    steps := UploadedRun();
    OneOrphan();
    var w1 := WithSession(UPLOADED.(scans := SCANS), 0,
                          Session(ReadyToCommit, [], [], 0, 0, ONLINE, map[], map[], [ORPHAN]));
    assert [] + SCANS == SCANS;
    var more := Go(steps, UPLOADED, OrphanScan(0, "edit", [1]), w1);
    assert Seen(map[], map[]) == map[] && Merge([], map[]) + [ORPHAN] == [ORPHAN] && w1.sessions - {0} == map[];
    more := Go(more, w1, GcCommit(0), SCANNED);
  }

  /** An upload scanned before it is registered is queued as an orphan and deleted after the grace period. */
  lemma OrphanScanRaceLosesBytes() returns (steps: seq<Step>, more: seq<Step>, last: World)
    ensures EnabledRun(CONFIG, EMPTY,
                       steps + [OrphanScan(0, "edit", [1])] + [GcCommit(0)] + [RegisterFile(1, PERMANENT)] + more, last)
    ensures Lost(last, 1) && !NoLoss(last)
  {
    steps := ScannedRun();
    var w := WithFile(SCANNED, 1, NewRow(PERMANENT, 0));
    var registered := Go(steps + [OrphanScan(0, "edit", [1])] + [GcCommit(0)], SCANNED, RegisterFile(1, PERMANENT), w);
    assert Dangerous(CONFIG, w, 1, w.db.queue[0]);
    RowLoses(CONFIG, w, 1);
    more, last := Lose(registered, w);
  }

  // ---------- Finalization ----------

  const BEGUN := Txn(1, "edit", "rw", Copying, None, None, None)
  const VERIFIED := BEGUN.(status := Verifying, checksumSource := Some("c"), checksumTarget := Some("c"))
  const BOTH: Contents := map[("edit", 1) := "c", ("rw", 1) := "c"]

  /** Beside other transactions, a new one copies and verifies the file. */
  lemma CopyAndVerify(before: seq<Step>, txns: seq<Txn>) returns (steps: seq<Step>, w: World)
    requires EnabledRun(CONFIG, EMPTY, before, REGISTERED.(db := REGISTERED.db.(txns := txns)))
    ensures w == REGISTERED.(db := REGISTERED.db.(txns := txns + [VERIFIED]), contents := BOTH)
    ensures EnabledRun(CONFIG, EMPTY, steps, w)
  {
    var w0 := REGISTERED.(db := REGISTERED.db.(txns := txns));
    var t := |txns|;
    var w1 := w0.(db := w0.db.(txns := txns + [BEGUN]));
    steps := Go(before, w0, BeginFinalize(1, "edit", "rw"), w1);
    assert COPY[("rw", 1) := "c"] == BOTH;
    var w2 := w1.(contents := BOTH);
    steps := Go(steps, w1, CopyWrite(t, "c"), w2);
    var copied := BEGUN.(status := Copied);
    assert (txns + [BEGUN])[t := copied] == txns + [copied];
    var w3 := w2.(db := w0.db.(txns := txns + [copied]));
    steps := Go(steps, w2, CopyDone(t), w3);
    assert (txns + [copied])[t := VERIFIED] == txns + [VERIFIED];
    w := w2.(db := w0.db.(txns := txns + [VERIFIED]));
    steps := Go(steps, w3, Verify(t), w);
  }

  /**
  The driver logs a failed registry update and marks the transaction COMPLETED all the same. After the safety margin
  the collector queues and deletes the only registered copy of a file that is far from expired.
  */
  lemma SwallowedUpdateLosesBytes() returns (steps: seq<Step>, more: seq<Step>, last: World)
    ensures EnabledRun(CONFIG, EMPTY, steps + [MarkCompleted(0, 0)] + more, last)
    ensures Lost(last, 1) && !NoLoss(last)
  {
    var registered := RegisteredRun();
    var w: World;
    steps, w := CopyAndVerify(registered, []);
    var completed := VERIFIED.(status := Completed, completedAt := Some(0));
    assert [VERIFIED][0 := completed] == [completed];
    var v := w.(db := w.db.(txns := [completed]));
    var marked := Go(steps, w, MarkCompleted(0, 0), v);
    assert IsStale(CONFIG, v, 1, v.db.txns[0]);
    StaleLoses(CONFIG, v, 1);
    more, last := Lose(marked, v);
  }

  /** One pending transaction at a time, as `is_pending` counts them. */
  ghost predicate OnePending(txns: seq<Txn>) {
    forall t, u :: 0 <= t < u < |txns| && txns[t].fileId == txns[u].fileId ==>
      !(txns[t].IsPending() && txns[u].IsPending())
  }

  /**
  `is_pending` leaves out failed transactions that still have their roll-back ahead. Allowing a new transaction next to
  one of those is not enough once the roll-back deletes the copy, as its comment announces: a late one deletes the copy
  the new transaction committed.
  */
  lemma LateRollBackLosesBytes() returns (steps: seq<Step>, last: World)
    ensures EnabledRun(CONFIG, EMPTY, steps + [RollBackFinalize(0, true)], last) && OnePending(last.db.txns)
    ensures 1 in last.db.files && last.db.files[1].retention == Permanent && last.db.files[1].seId == "rw"
    ensures Lost(last, 1) && !NoLoss(last)
  {
    var failed := BEGUN.(status := Failed, completedAt := Some(0));
    steps := RegisteredRun();
    var w1 := REGISTERED.(db := REGISTERED.db.(txns := [BEGUN]));
    steps := Go(steps, REGISTERED, BeginFinalize(1, "edit", "rw"), w1);
    var w2 := REGISTERED.(db := REGISTERED.db.(txns := [failed]));
    assert [BEGUN][0 := failed] == [failed];
    steps := Go(steps, w1, FailFinalize(0), w2);
    var w3: World;
    steps, w3 := CopyAndVerify(steps, [failed]);
    steps, last := PutThenRollBack(steps, w3, failed);
  }

  lemma PutThenRollBack(before: seq<Step>, w: World, failed: Txn) returns (steps: seq<Step>, last: World)
    requires failed == BEGUN.(status := Failed, completedAt := Some(0))
    requires w == REGISTERED.(db := REGISTERED.db.(txns := [failed] + [VERIFIED]), contents := BOTH)
    requires EnabledRun(CONFIG, EMPTY, before, w)
    ensures EnabledRun(CONFIG, EMPTY, steps + [RollBackFinalize(0, true)], last) && OnePending(last.db.txns)
    ensures 1 in last.db.files && last.db.files[1].retention == Permanent && last.db.files[1].seId == "rw"
    ensures Lost(last, 1) && !NoLoss(last)
  {
    var row := Updated(FILES[1], PromotionRequest(VERIFIED, "/rw/a.txt", 0), 0);
    var files: map<FileId, File> := map[1 := row];
    assert FILES[1 := row] == files;
    var w1 := w.(db := w.db.(files := files));
    steps := Go(before, w, RegistryPut(1, "/rw/a.txt", 0), w1);
    steps, last := MarkThenRollBack(steps, w1, failed, row);
  }

  lemma MarkThenRollBack(before: seq<Step>, w1: World, failed: Txn, row: File) returns (steps: seq<Step>, last: World)
    requires failed == BEGUN.(status := Failed, completedAt := Some(0))
    requires row.retention == Permanent && row.seId == "rw"
    requires w1 == REGISTERED.(db := REGISTERED.db.(files := map[1 := row], txns := [failed] + [VERIFIED]),
                               contents := BOTH)
    requires EnabledRun(CONFIG, EMPTY, before, w1)
    ensures EnabledRun(CONFIG, EMPTY, steps + [RollBackFinalize(0, true)], last) && OnePending(last.db.txns)
    ensures 1 in last.db.files && last.db.files[1].retention == Permanent && last.db.files[1].seId == "rw"
    ensures Lost(last, 1) && !NoLoss(last)
  {
    var completed := VERIFIED.(status := Completed, completedAt := Some(0));
    assert ([failed] + [VERIFIED])[1 := completed] == [failed, completed];
    var w2 := w1.(db := w1.db.(txns := [failed, completed]));
    steps := Go(before, w1, MarkCompleted(1, 0), w2);
    var rolledBack := failed.(status := RolledBack);
    assert [failed, completed][0 := rolledBack] == [rolledBack, completed];
    last := w2.(db := w2.db.(txns := [rolledBack, completed]), contents := Strike(w2.contents, "rw", 1));
    var more := Go(steps, w2, RollBackFinalize(0, true), last);
    assert Protected(last.db.files[1], last.now) && !Intact(last.contents, 1, last.db.files[1]);
  }
}
