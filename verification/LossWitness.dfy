/**
The other half of the loss criterion: a file that meets it can be lost. Each lemma drives the system by disciplined
steps only: transactions run to their end, elements go offline until the rows ahead of the fatal one have used up
their retries, sessions are worked off and committed, and the collector deletes the registered copy.
*/
module LossWitness {
  import opened Wrappers
  import opened FileRegistry
  import opened Cleanup
  import opened FileLifecycle
  import opened NoDataLoss
  import opened LossCriterion
  import opened GcQueue
  import opened GcRefinement

  // ---------- Disciplined continuations ----------

  ghost predicate CanReach(config: Settings, w: World, v: World) {
    exists steps :: EnabledRun(config, w, steps, v) && DisciplinedRun(config, w, steps)
  }

  predicate NoBegin(steps: seq<Step>) {
    forall step :: step in steps ==> !step.BeginFinalize?
  }

  /** The same without a new finalization. */
  ghost predicate CanSettle(config: Settings, w: World, v: World) {
    exists steps :: EnabledRun(config, w, steps, v) && DisciplinedRun(config, w, steps) && NoBegin(steps)
  }

  /** Some disciplined run from here ends with the file lost. */
  ghost predicate CanBeLost(config: Settings, w: World, f: FileId) {
    exists last :: CanReach(config, w, last) && Lost(last, f)
  }

  lemma Here(config: Settings, w: World)
    ensures CanReach(config, w, w) && CanSettle(config, w, w)
  {
    assert EnabledRun(config, w, [], w) && DisciplinedRun(config, w, []) && NoBegin([]);
  }

  lemma {:induction false} RunsJoin(config: Settings, w: World, steps: seq<Step>, v: World, more: seq<Step>,
                                    last: World)
    requires EnabledRun(config, w, steps, v) && EnabledRun(config, v, more, last)
    ensures EnabledRun(config, w, steps + more, last)
    ensures DisciplinedRun(config, w, steps) && DisciplinedRun(config, v, more) ==>
      DisciplinedRun(config, w, steps + more)
    decreases |steps|
  {
    if steps == [] {
      assert [] + more == more;
    } else {
      RunsJoin(config, Take(config, w, steps[0]), steps[1..], v, more, last);
      assert (steps + more)[1..] == steps[1..] + more;
    }
  }

  lemma Through(config: Settings, w: World, v: World, last: World)
    requires CanReach(config, w, v) && CanReach(config, v, last)
    ensures CanReach(config, w, last)
  {
    var steps :| EnabledRun(config, w, steps, v) && DisciplinedRun(config, w, steps);
    var more :| EnabledRun(config, v, more, last) && DisciplinedRun(config, v, more);
    RunsJoin(config, w, steps, v, more, last);
  }

  lemma SettleThrough(config: Settings, w: World, v: World, last: World)
    requires CanSettle(config, w, v) && CanSettle(config, v, last)
    ensures CanSettle(config, w, last)
  {
    var steps :| EnabledRun(config, w, steps, v) && DisciplinedRun(config, w, steps) && NoBegin(steps);
    var more :| EnabledRun(config, v, more, last) && DisciplinedRun(config, v, more) && NoBegin(more);
    RunsJoin(config, w, steps, v, more, last);
    assert NoBegin(steps + more);
  }

  lemma Settled(config: Settings, w: World, v: World)
    requires CanSettle(config, w, v)
    ensures CanReach(config, w, v)
  {
  }

  lemma One(config: Settings, v: World, step: Step)
    requires Enabled(config, v, step) && Disciplined(v, step)
    ensures CanReach(config, v, Take(config, v, step))
    ensures !step.BeginFinalize? ==> CanSettle(config, v, Take(config, v, step))
  {
    var next := Take(config, v, step);
    assert !step.BeginFinalize? ==> NoBegin([step]);
    assert EnabledRun(config, next, [step][1..], next) && DisciplinedRun(config, next, [step][1..]);
    assert EnabledRun(config, v, [step], next) && DisciplinedRun(config, v, [step]);
  }

  lemma Then(config: Settings, w: World, v: World, step: Step)
    requires CanReach(config, w, v) && Enabled(config, v, step) && Disciplined(v, step)
    ensures CanReach(config, w, Take(config, v, step))
  {
    One(config, v, step);
    Through(config, w, v, Take(config, v, step));
  }

  lemma LostLater(config: Settings, w: World, v: World, f: FileId)
    requires CanReach(config, w, v) && CanBeLost(config, v, f)
    ensures CanBeLost(config, w, f)
  {
    var last :| CanReach(config, v, last) && Lost(last, f);
    Through(config, w, v, last);
  }

  // ---------- A picked row reaches its turn ----------

  /** The request that is served. */
  const SERVED := Reply(Status(204), true, false, 0)

  lemma {:induction false} HitLoses(config: Settings, w: World, f: FileId, s: nat, k: nat)
    requires f in w.db.files && PickHits(w, f, s, k) && SessionWf(w.db.queue, w.now, w.sessions[s])
    requires w.db.queue[w.sessions[s].picked[k]].seId == w.db.files[f].seId
    ensures CanBeLost(config, w, f)
    decreases k - w.sessions[s].done
  {
    if k == w.sessions[s].done {
      One(config, w, GcItem(s, SERVED));
      assert Lost(AfterItem(w, s, SERVED), f);
    } else {
      var v := AfterItem(w, s, SILENCE);
      One(config, w, GcItem(s, SILENCE));
      TurnKeepsWf(config, w, s, SILENCE);
      HitLoses(config, v, f, s, k);
      LostLater(config, w, v, f);
    }
  }

  // ---------- The file moves to the element a row names ----------

  /** Failed transactions keep their place. */
  predicate FailedStay(txns: seq<Txn>, txns': seq<Txn>) {
    forall t :: 0 <= t < |txns| && txns[t].status == Failed ==> t < |txns'| && txns'[t] == txns[t]
  }

  lemma OthersStay(txns: seq<Txn>, t: TxnId, txns': seq<Txn>)
    requires t < |txns| && txns[t].status != Failed && |txns'| == |txns| && txns' == txns[t := txns'[t]]
    ensures FailedStay(txns, txns')
  {
  }

  lemma StayLonger(txns: seq<Txn>, txns': seq<Txn>, txns'': seq<Txn>)
    requires FailedStay(txns, txns') && FailedStay(txns', txns'')
    ensures FailedStay(txns, txns'')
  {
    forall t | 0 <= t < |txns| && txns[t].status == Failed ensures t < |txns''| && txns''[t] == txns[t] {
      assert txns'[t] == txns[t];
    }
  }

  /** Permanent on that element; queue, sessions and clock are the same. */
  predicate Moved(w: World, v: World, f: FileId, seId: SeId) {
    && v.db.queue == w.db.queue && v.sessions == w.sessions && v.now == w.now
    && f in v.db.files && v.db.files[f].retention == Permanent && v.db.files[f].seId == seId
    && FailedStay(w.db.txns, v.db.txns)
  }

  lemma MoveVouched(config: Settings, w: World, f: FileId, t: TxnId) returns (v: World)
    requires f in w.db.files && t < |w.db.txns| && w.db.txns[t].fileId == f && Vouched(w.db.txns[t])
    ensures CanSettle(config, w, v) && Moved(w, v, f, w.db.txns[t].targetSe) && v.contents == w.contents
    ensures v.db.files[f].checksum == w.db.files[f].checksum
  {
    One(config, w, RegistryPut(t, "", w.now));
    v := Take(config, w, RegistryPut(t, "", w.now));
  }

  lemma MoveCopied(config: Settings, w: World, f: FileId, t: TxnId) returns (v: World)
    requires f in w.db.files && t < |w.db.txns| && w.db.txns[t].fileId == f && w.db.txns[t].status == Copied
    requires (w.db.txns[t].targetSe, f) in w.contents
    requires w.contents[(w.db.txns[t].targetSe, f)] == w.db.files[f].checksum
    ensures CanSettle(config, w, v) && Moved(w, v, f, w.db.txns[t].targetSe)
  {
    One(config, w, Verify(t));
    var u := Take(config, w, Verify(t));
    OthersStay(w.db.txns, t, u.db.txns);
    v := MoveVouched(config, u, f, t);
    StayLonger(w.db.txns, u.db.txns, v.db.txns);
    SettleThrough(config, w, u, v);
  }

  lemma MoveCopying(config: Settings, w: World, f: FileId, t: TxnId) returns (v: World)
    requires f in w.db.files && t < |w.db.txns| && w.db.txns[t].fileId == f && w.db.txns[t].status == Copying
    ensures CanSettle(config, w, v) && Moved(w, v, f, w.db.txns[t].targetSe)
  {
    var write := CopyWrite(t, w.db.files[f].checksum);
    One(config, w, write);
    var u := Take(config, w, write);
    One(config, u, CopyDone(t));
    var x := Take(config, u, CopyDone(t));
    SettleThrough(config, w, u, x);
    OthersStay(w.db.txns, t, x.db.txns);
    v := MoveCopied(config, x, f, t);
    StayLonger(w.db.txns, x.db.txns, v.db.txns);
    SettleThrough(config, w, x, v);
  }

  /** A transaction that aims at the element brings the file there. */
  lemma FinishTxn(config: Settings, w: World, f: FileId, seId: SeId) returns (v: World)
    requires f in w.db.files && TargetOf(w, f, seId)
    ensures CanSettle(config, w, v) && Moved(w, v, f, seId)
  {
    var t: TxnId :| t < |w.db.txns| && Aims(w, f, seId, w.db.txns[t]);
    if w.db.txns[t].status == Copying {
      v := MoveCopying(config, w, f, t);
    } else if Vouched(w.db.txns[t]) {
      v := MoveVouched(config, w, f, t);
    } else {
      v := MoveCopied(config, w, f, t);
    }
  }

  lemma MoveTo(config: Settings, w: World, f: FileId, seId: SeId) returns (v: World)
    requires f in w.db.files && seId != w.db.files[f].seId && (Movable(w.db.files[f]) || TargetOf(w, f, seId))
    ensures CanReach(config, w, v) && Moved(w, v, f, seId)
  {
    if Movable(w.db.files[f]) {
      var begin := BeginFinalize(f, w.db.files[f].seId, seId);
      One(config, w, begin);
      var u := Take(config, w, begin);
      assert forall t :: 0 <= t < |w.db.txns| ==> u.db.txns[t] == w.db.txns[t];
      v := MoveCopying(config, u, f, |w.db.txns|);
      StayLonger(w.db.txns, u.db.txns, v.db.txns);
      Settled(config, u, v);
      Through(config, w, u, v);
    } else {
      v := FinishTxn(config, w, f, seId);
      Settled(config, w, v);
    }
  }

  /** Wherever the exposed copy is, the file can be brought there and is protected there. */
  lemma BringTo(config: Settings, w: World, f: FileId, seId: SeId, at: Time) returns (v: World)
    requires f in w.db.files && Exposed(w, f, seId, at)
    ensures CanReach(config, w, v) && v.db.queue == w.db.queue && v.sessions == w.sessions && v.now == w.now
    ensures f in v.db.files && v.db.files[f].seId == seId && Protected(v.db.files[f], at)
    ensures FailedStay(w.db.txns, v.db.txns)
  {
    if seId == w.db.files[f].seId {
      v := w;
      Here(config, w);
    } else {
      v := MoveTo(config, w, f, seId);
    }
  }

  lemma PickLoses(config: Settings, w: World, f: FileId)
    requires Wf(w) && f in w.db.files && PickDooms(w, f)
    ensures CanBeLost(config, w, f)
  {
    var s: nat, k: nat :| PickHits(w, f, s, k);
    var v := BringTo(config, w, f, w.db.queue[w.sessions[s].picked[k]].seId, w.now);
    HitLoses(config, v, f, s, k);
    LostLater(config, w, v, f);
  }

  // ---------- SELECTs always have an answer ----------

  lemma {:induction false} SomeOf<T>(matching: set<T>, limit: nat) returns (rows: seq<T>)
    ensures Distinct(rows) && |rows| <= limit && (forall k :: 0 <= k < |rows| ==> rows[k] in matching)
    ensures matching <= Elems(rows) || |rows| == limit
    decreases limit
  {
    if limit == 0 || matching == {} {
      rows := [];
    } else {
      var x :| x in matching;
      var rest := SomeOf(matching - {x}, limit - 1);
      rows := [x] + rest;
      forall y | y in matching && |rows| != limit ensures y in Elems(rows) {
        assert y != x ==> y in Elems(rest);
      }
    }
  }

  lemma TtlAnswer(files: map<FileId, File>, now: Time, batch: nat) returns (ids: seq<FileId>)
    ensures IsTtlSelection(files, ids, now, batch)
  {
    var matching := set id | id in files && TtlExpiredRow(files[id], now);
    ids := SomeOf(matching, batch);
    forall id | id in files && TtlExpiredRow(files[id], now) && id !in ids ensures |ids| == batch {
      assert id in matching;
    }
  }

  lemma FinalizedAnswer(txns: seq<Txn>, cutoff: Time, batch: nat) returns (ids: seq<TxnId>)
    ensures IsFinalizedSelection(txns, ids, cutoff, batch)
  {
    var matching := set t: TxnId | 0 <= t < |txns| && FinalizedTxn(txns[t], cutoff);
    ids := SomeOf(matching, batch);
    forall t | 0 <= t < |txns| && FinalizedTxn(txns[t], cutoff) && t !in ids ensures |ids| == batch {
      assert t in matching;
    }
  }

  /** The answer may hold any matching transaction. */
  lemma FinalizedAnswerWith(txns: seq<Txn>, cutoff: Time, batch: nat, t: TxnId) returns (ids: seq<TxnId>)
    requires 0 < batch && t < |txns| && FinalizedTxn(txns[t], cutoff)
    ensures IsFinalizedSelection(txns, ids, cutoff, batch) && t in ids
  {
    var matching := set u: TxnId | 0 <= u < |txns| && FinalizedTxn(txns[u], cutoff);
    var rest := SomeOf(matching - {t}, batch - 1);
    ids := [t] + rest;
    forall u | 0 <= u < |txns| && FinalizedTxn(txns[u], cutoff) && u !in ids ensures |ids| == batch {
      assert u in matching - {t} && u !in Elems(rest);
    }
  }

  /** The rows left over, one that may come first. */
  lemma {:induction false} FirstOf(queue: seq<QueueItem>, rows: set<ItemId>) returns (i: ItemId)
    requires rows != {} && forall j :: j in rows ==> j < |queue|
    ensures i in rows && forall j :: j in rows ==> Before(queue[i], queue[j])
    decreases |rows|
  {
    var x :| x in rows;
    if rows == {x} {
      i := x;
    } else {
      var y := FirstOf(queue, rows - {x});
      i := if Before(queue[x], queue[y]) then x else y;
      forall j | j in rows ensures Before(queue[i], queue[j]) {
        assert j != x ==> j in rows - {x};
      }
    }
  }

  lemma {:induction false} PickAnswer(queue: seq<QueueItem>, now: Time, maxRetry: nat, batch: nat)
    returns (ids: seq<ItemId>)
    ensures IsPick(queue, ids, now, maxRetry, batch)
    decreases batch
  {
    if batch == 0 {
      ids := [];
    } else {
      var first := PickAnswer(queue, now, maxRetry, batch - 1);
      var left := EligibleIds(queue, now, maxRetry) - Elems(first);
      if left == {} {
        ids := first;
        forall i | 0 <= i < |queue| && queue[i].Eligible(now, maxRetry) ensures i in ids {
          assert i !in left;
        }
      } else {
        ids := NextPick(queue, first, left, now, maxRetry, batch);
      }
    }
  }

  lemma NextPick(queue: seq<QueueItem>, first: seq<ItemId>, left: set<ItemId>, now: Time, maxRetry: nat, batch: nat)
    returns (ids: seq<ItemId>)
    requires 0 < batch && IsPick(queue, first, now, maxRetry, batch - 1)
    requires left == EligibleIds(queue, now, maxRetry) - Elems(first) && left != {}
    ensures IsPick(queue, ids, now, maxRetry, batch)
  {
    var x := FirstOf(queue, left);
    ids := first + [x];
    assert x !in first;
    forall i | 0 <= i < |queue| && queue[i].Eligible(now, maxRetry) && i !in ids
      ensures |ids| == batch && forall k :: 0 <= k < |ids| ==> Before(queue[ids[k]], queue[i])
    {
      assert i !in first && i in left;
    }
  }

  lemma {:induction false} AboveAll(keys: set<nat>) returns (s: nat)
    ensures forall k :: k in keys ==> k < s
    decreases |keys|
  {
    if keys == {} {
      s := 0;
    } else {
      var k :| k in keys;
      var t := AboveAll(keys - {k});
      s := if t <= k then k + 1 else t;
      forall j | j in keys ensures j < s {
        assert j != k ==> j in keys - {k};
      }
    }
  }

  lemma FreshSession(w: World) returns (s: nat)
    ensures s !in w.sessions
  {
    s := AboveAll(w.sessions.Keys);
  }

  // ---------- A session is worked off ----------

  /** The bytes, the transactions and what matters of the rows are the same. */
  ghost predicate SameState(w: World, v: World) {
    && v.now == w.now && v.contents == w.contents && v.db.txns == w.db.txns
    && v.db.files.Keys == w.db.files.Keys
    && forall id :: id in w.db.files ==>
         SameCore(v.db.files[id], w.db.files[id]) && Movable(v.db.files[id]) == Movable(w.db.files[id])
  }

  /** No pending row of the queue stands where this row goes. */
  predicate IsNewFor(queue: seq<QueueItem>, item: QueueItem) {
    PendingOf(queue, item.fileId, Some(item.seId)) == {}
  }

  lemma {:induction false} TtlItemsAreNewFor(queue: seq<QueueItem>, files: map<FileId, File>, ids: seq<FileId>,
                                             now: Time)
    ensures forall item :: item in TtlItems(queue, files, ids, now) ==> IsNewFor(queue, item)
  {
    if ids != [] {
      var id := ids[|ids| - 1];
      TtlItemsAreNewFor(queue, files, ids[..|ids| - 1], now);
      assert forall seId :: PendingOf(queue, id, Some(seId)) <= PendingOf(queue, id, None);
    }
  }

  lemma {:induction false} FinalizedItemsAreNewFor(queue: seq<QueueItem>, files: map<FileId, File>, txns: seq<Txn>,
                                                   ids: seq<TxnId>, now: Time)
    requires forall k :: 0 <= k < |ids| ==> ids[k] < |txns|
    ensures forall item :: item in FinalizedItems(queue, files, txns, ids, now) ==> IsNewFor(queue, item)
  {
    if ids != [] {
      FinalizedItemsAreNewFor(queue, files, txns, ids[..|ids| - 1], now);
    }
  }

  /** The session has gone on: it makes the same of its rows, and has added rows of its producers only. */
  ghost predicate Keeps(queue: seq<QueueItem>, x: Session, y: Session) {
    && y.loaded == x.loaded
    && (forall i :: 0 <= i < |x.loaded| ==> Touches(y, i) == Touches(x, i))
    && (forall i :: 0 <= i < |x.loaded| && Touches(x, i) ==> Outcome(y, i) == Outcome(x, i))
    && (forall item :: item in x.added ==> item in y.added)
    && (forall item :: item in y.added ==> item in x.added || IsNewFor(queue, item))
  }

  /** The same tables and other sessions; this one has gone on. */
  ghost predicate WentOn(w: World, v: World, s: nat) {
    && SameState(w, v) && v.db == w.db && s in w.sessions && s in v.sessions
    && v.sessions == w.sessions[s := v.sessions[s]] && Keeps(w.db.queue, w.sessions[s], v.sessions[s])
  }

  lemma SilentTurn(w: World, s: nat)
    requires s in w.sessions && w.sessions[s].stage == QueueStage && CanTurn(w.sessions[s])
    requires SessionWf(w.db.queue, w.now, w.sessions[s])
    ensures WentOn(w, AfterItem(w, s, SILENCE), s)
  {
    var x, y := w.sessions[s], AfterItem(w, s, SILENCE).sessions[s];
    var i := x.picked[x.done];
    assert x.picked[x.done..][0] == i && x.picked[x.done..][1..] == y.picked[y.done..];
    assert i !in x.picked[..x.done];
  }

  lemma WentOnTwice(w: World, u: World, v: World, s: nat)
    requires WentOn(w, u, s) && WentOn(u, v, s)
    ensures WentOn(w, v, s)
  {
    assert v.sessions == w.sessions[s := v.sessions[s]];
  }

  /** The rest of the pick meets silence. */
  lemma {:induction false} FinishQueue(config: Settings, w: World, s: nat) returns (v: World)
    requires Wf(w) && s in w.sessions && w.sessions[s].stage == QueueStage
    ensures CanReach(config, w, v) && Wf(v) && WentOn(w, v, s)
    ensures v.sessions[s].stage == QueueStage && v.sessions[s].done == |v.sessions[s].picked|
    decreases |w.sessions[s].picked| - w.sessions[s].done
  {
    var x := w.sessions[s];
    assert SessionWf(w.db.queue, w.now, x);
    if x.done == |x.picked| {
      v := w;
      Here(config, w);
      assert v.sessions == w.sessions[s := v.sessions[s]];
    } else {
      var u := AfterItem(w, s, SILENCE);
      One(config, w, GcItem(s, SILENCE));
      ItemKeepsWf(config, w, s, SILENCE);
      SilentTurn(w, s);
      v := FinishQueue(config, u, s);
      Through(config, w, u, v);
      WentOnTwice(w, u, v, s);
    }
  }

  lemma ProducerGoesOn(config: Settings, w: World, step: Step)
    requires (step.GcTtl? || step.GcFinalized?) && Enabled(config, w, step)
    ensures WentOn(w, Take(config, w, step), step.session)
  {
    var x := w.sessions[step.session];
    var seen := Seen(w.db.files, x.marks);
    if step.GcTtl? {
      TtlItemsAreNewFor(w.db.queue, seen, step.expired, w.now);
      assert x.picked[x.done..] == [];
    } else {
      FinalizedItemsAreNewFor(w.db.queue, seen, w.db.txns, step.completed, w.now);
    }
  }

  /** The TTL producer has its turn. */
  lemma FinishTtl(config: Settings, w: World, s: nat) returns (v: World)
    requires Wf(w) && s in w.sessions && w.sessions[s].stage != ReadyToCommit
    ensures CanReach(config, w, v) && Wf(v) && WentOn(w, v, s) && v.sessions[s].stage == TtlDone
  {
    if w.sessions[s].stage == TtlDone {
      v := w;
      Here(config, w);
      assert v.sessions == w.sessions[s := v.sessions[s]];
    } else {
      var u := FinishQueue(config, w, s);
      var expired := TtlAnswer(Seen(u.db.files, u.sessions[s].marks), u.now, config.batchSize);
      v := Take(config, u, GcTtl(s, expired));
      Then(config, w, u, GcTtl(s, expired));
      StepKeepsWf(config, u, GcTtl(s, expired));
      ProducerGoesOn(config, u, GcTtl(s, expired));
      WentOnTwice(w, u, v, s);
    }
  }

  lemma FinishFinalized(config: Settings, w: World, s: nat) returns (v: World)
    requires Wf(w) && s in w.sessions
    ensures CanReach(config, w, v) && Wf(v) && WentOn(w, v, s) && v.sessions[s].stage == ReadyToCommit
  {
    if w.sessions[s].stage == ReadyToCommit {
      v := w;
      Here(config, w);
      assert v.sessions == w.sessions[s := v.sessions[s]];
    } else {
      var u := FinishTtl(config, w, s);
      var completed := FinalizedAnswer(u.db.txns, u.now - config.safetyMargin, config.batchSize);
      v := Take(config, u, GcFinalized(s, completed));
      Then(config, w, u, GcFinalized(s, completed));
      StepKeepsWf(config, u, GcFinalized(s, completed));
      ProducerGoesOn(config, u, GcFinalized(s, completed));
      WentOnTwice(w, u, v, s);
    }
  }

  /** The row after the commit of the session. */
  function RowAfter(item: QueueItem, x: Session, i: ItemId): QueueItem {
    if i < |x.loaded| && Touches(x, i) then WriteBack(item, Outcome(x, i)) else item
  }

  /** What the queue is when the session has been brought to its commit. */
  ghost predicate Driven(queue: seq<QueueItem>, queue': seq<QueueItem>, x: Session) {
    && |queue| <= |queue'|
    && (forall i :: 0 <= i < |queue| ==> queue'[i] == RowAfter(queue[i], x, i))
    && (forall j :: |queue| <= j < |queue'| ==> queue'[j] in x.added || IsNewFor(queue, queue'[j]))
    && (forall item :: item in x.added ==> item in queue')
  }

  /** Every open session can be brought to its commit, and the queue then holds what it was going to write. */
  lemma DriveToCommit(config: Settings, w: World, s: nat) returns (v: World)
    requires Wf(w) && s in w.sessions
    ensures CanReach(config, w, v) && Wf(v) && SameState(w, v) && v.sessions == w.sessions - {s}
    ensures Driven(w.db.queue, v.db.queue, w.sessions[s])
  {
    var u := FinishFinalized(config, w, s);
    v := AfterCommit(u, s);
    Then(config, w, u, GcCommit(s));
    StepKeepsWf(config, u, GcCommit(s));
    CommitDrives(w, u, s);
  }

  lemma MergeDrives(queue: seq<QueueItem>, x: Session, y: Session)
    requires Keeps(queue, x, y) && y.stage == ReadyToCommit && forall i :: i in y.dirty ==> i < |y.loaded|
    ensures Driven(queue, Merge(queue, y.dirty) + y.added, x)
  {
    var queue' := Merge(queue, y.dirty) + y.added;
    forall i | 0 <= i < |queue| ensures queue'[i] == RowAfter(queue[i], x, i) {
      assert queue'[i] == Merge(queue, y.dirty)[i];
      assert i < |y.loaded| ==> Touches(y, i) == Touches(x, i);
    }
    forall j | |queue| <= j < |queue'| ensures queue'[j] in x.added || IsNewFor(queue, queue'[j]) {
      assert queue'[j] == y.added[j - |queue|];
    }
    forall item | item in x.added ensures item in queue' {
      var j :| 0 <= j < |y.added| && y.added[j] == item;
      assert queue'[|queue| + j] == item;
    }
  }

  lemma CommitDrives(w: World, u: World, s: nat)
    requires Wf(u) && WentOn(w, u, s) && u.sessions[s].stage == ReadyToCommit
    ensures
      var v := AfterCommit(u, s);
      SameState(w, v) && v.sessions == w.sessions - {s} && Driven(w.db.queue, v.db.queue, w.sessions[s])
  {
    assert SessionWf(u.db.queue, u.now, u.sessions[s]);
    MergeDrives(w.db.queue, w.sessions[s], u.sessions[s]);
    assert u.sessions - {s} == w.sessions - {s};
  }

  // ---------- Offline elements: retries are used up, nothing is deleted ----------

  function Places(d: Tables): set<SeId> {
    (set i | 0 <= i < |d.queue| :: d.queue[i].seId)
    + (set id | id in d.files :: d.files[id].seId)
    + (set t | 0 <= t < |d.txns| :: d.txns[t].sourceSe)
  }

  /** Every element that is, or may come to be, named by a cleanup row is registered and not online. */
  ghost predicate AllOff(d: Tables) {
    forall seId :: seId in Places(d) ==> seId in d.elements && d.elements[seId] != Online
  }

  lemma {:induction false} SwitchOff(config: Settings, w: World, places: set<SeId>) returns (elements: Elements)
    ensures CanReach(config, w, w.(db := w.db.(elements := elements)))
    ensures forall seId :: seId in places ==> seId in elements && elements[seId] != Online
    decreases |places|
  {
    if places == {} {
      elements := w.db.elements;
      Here(config, w);
    } else {
      var seId :| seId in places;
      var before := SwitchOff(config, w, places - {seId});
      Then(config, w, w.(db := w.db.(elements := before)), SetStatus(seId, Offline));
      elements := before[seId := Offline];
    }
  }

  /** One round in which every delete fails for want of an element. */
  predicate Deaf(d: Tables, input: RunInput) {
    && InputFits(d.queue, input)
    && (forall k :: 0 <= k < |input.picked| ==>
          d.queue[input.picked[k]].seId in d.elements && d.elements[d.queue[input.picked[k]].seId] != Online)
  }

  lemma {:induction false} DeafPass(d: Tables, contents: Contents, input: RunInput, n: nat)
    requires Deaf(d, input) && n <= |input.picked|
    ensures
      var p := ProcessFirst(Start(d, contents), d.elements, input, n);
      && p.files == d.files && p.contents == contents
      && forall j :: 0 <= j < |d.queue| ==>
           SameTarget(p.queue[j], d.queue[j]) && p.queue[j].Pending() == d.queue[j].Pending()
  {
    if n > 0 {
      DeafPass(d, contents, input, n - 1);
    }
  }

  // ---------- What the producers can still add ----------

  function UncoveredFiles(d: Tables): set<FileId> {
    set id | id in d.files && PendingOf(d.queue, id, None) == {}
  }

  function UncoveredTxns(d: Tables): set<TxnId> {
    set t: TxnId | 0 <= t < |d.txns| && PendingOf(d.queue, d.txns[t].fileId, Some(d.txns[t].sourceSe)) == {}
  }

  /** A row a producer adds covers a file or a transaction that no pending row covered. */
  predicate Covers(d: Tables, item: QueueItem) {
    && item.Pending() && item.seId in Places(d)
    && (|| item.fileId in UncoveredFiles(d)
        || exists t :: t in UncoveredTxns(d) && d.txns[t].fileId == item.fileId && d.txns[t].sourceSe == item.seId)
  }

  lemma {:induction false} TtlItemsCover(d: Tables, ids: seq<FileId>, now: Time)
    ensures forall item :: item in TtlItems(d.queue, d.files, ids, now) ==> Covers(d, item)
  {
    if ids != [] {
      TtlItemsCover(d, ids[..|ids| - 1], now);
    }
  }

  lemma {:induction false} FinalizedItemsCover(d: Tables, ids: seq<TxnId>, now: Time)
    requires forall k :: 0 <= k < |ids| ==> ids[k] < |d.txns|
    ensures forall item :: item in FinalizedItems(d.queue, d.files, d.txns, ids, now) ==> Covers(d, item)
  {
    if ids != [] {
      FinalizedItemsCover(d, ids[..|ids| - 1], now);
      var t := ids[|ids| - 1];
      assert PendingOf(d.queue, d.txns[t].fileId, Some(d.txns[t].sourceSe)) == {} ==> t in UncoveredTxns(d);
    }
  }

  /** Pending rows stay where they are. */
  predicate KeepsPending(queue: seq<QueueItem>, queue': seq<QueueItem>) {
    && |queue| <= |queue'|
    && forall j :: 0 <= j < |queue| ==> SameTarget(queue'[j], queue[j]) && queue'[j].Pending() == queue[j].Pending()
  }

  lemma CoveredStays(d: Tables, d': Tables)
    requires d'.files == d.files && d'.txns == d.txns && KeepsPending(d.queue, d'.queue)
    ensures UncoveredFiles(d') <= UncoveredFiles(d) && UncoveredTxns(d') <= UncoveredTxns(d)
  {
    forall id, seId, i | i in PendingOf(d.queue, id, seId) ensures i in PendingOf(d'.queue, id, seId) {
    }
  }

  function Uncovered(d: Tables): nat {
    |UncoveredFiles(d)| + |UncoveredTxns(d)|
  }

  /** Whenever a row is added, less is left to add. */
  lemma AddingCovers(d: Tables, d': Tables)
    requires d'.files == d.files && d'.txns == d.txns && KeepsPending(d.queue, d'.queue)
    requires forall j :: |d.queue| <= j < |d'.queue| ==> Covers(d, d'.queue[j])
    ensures Uncovered(d') <= Uncovered(d)
    ensures |d.queue| < |d'.queue| ==> Uncovered(d') < Uncovered(d)
  {
    CoveredStays(d, d');
    SubsetSize(UncoveredFiles(d'), UncoveredFiles(d));
    SubsetSize(UncoveredTxns(d'), UncoveredTxns(d));
    if |d.queue| < |d'.queue| {
      var n := |d.queue|;
      var item := d'.queue[n];
      if item.fileId in UncoveredFiles(d) {
        assert n in PendingOf(d'.queue, item.fileId, None);
        SubsetSize(UncoveredFiles(d'), UncoveredFiles(d) - {item.fileId});
      } else {
        var t :| t in UncoveredTxns(d) && d.txns[t].fileId == item.fileId && d.txns[t].sourceSe == item.seId;
        assert n in PendingOf(d'.queue, item.fileId, Some(item.seId));
        SubsetSize(UncoveredTxns(d'), UncoveredTxns(d) - {t});
      }
    }
  }

  // ---------- Rounds without an element ----------

  /** The tables after a round in which no element is online. */
  ghost predicate AfterRound(config: Settings, d: Tables, d': Tables, picked: seq<ItemId>) {
    && d'.files == d.files && d'.txns == d.txns && d'.elements == d.elements && KeepsPending(d.queue, d'.queue)
    && (forall j :: |d.queue| <= j < |d'.queue| ==> Covers(d, d'.queue[j]))
    && (forall j :: 0 <= j < |d.queue| && j !in picked ==> d'.queue[j] == d.queue[j])
    && (|d'.queue| == |d.queue| ==> Weight(d'.queue, config.maxRetry) + |picked| <= Weight(d.queue, config.maxRetry))
  }

  /** The queue pass alone. */
  lemma PassUsesRetries(config: Settings, d: Tables, contents: Contents, input: RunInput)
    requires AllOff(d) && InputFits(d.queue, input) && Distinct(input.picked)
    requires forall k :: 0 <= k < |input.picked| ==> d.queue[input.picked[k]].Eligible(input.queueNow, config.maxRetry)
    ensures
      var done := ProcessFirst(Start(d, contents), d.elements, input, |input.picked|);
      && done.files == d.files && done.contents == contents && KeepsPending(d.queue, done.queue)
      && |done.queue| == |d.queue|
      && (forall j :: 0 <= j < |d.queue| && j !in input.picked ==> done.queue[j] == d.queue[j])
      && Weight(done.queue, config.maxRetry) + |input.picked| <= Weight(d.queue, config.maxRetry)
  {
    DeafPass(d, contents, input, |input.picked|);
    PickLowersWeight(Start(d, contents), d.elements, input, |input.picked|, config.maxRetry);
    assert input.picked[..|input.picked|] == input.picked;
    forall j | 0 <= j < |d.queue| && j !in input.picked
      ensures ProcessFirst(Start(d, contents), d.elements, input, |input.picked|).queue[j] == d.queue[j]
    {
      ProcessFirstRow(Start(d, contents), d.elements, input, |input.picked|, j);
    }
  }

  lemma AdditionsCover(d: Tables, done: Progress, input: RunInput)
    requires done.files == d.files && forall k :: 0 <= k < |input.completed| ==> input.completed[k] < |d.txns|
    ensures forall item :: item in Additions(d, done, input) ==> Covers(d, item)
  {
    TtlItemsCover(d, input.expired, input.ttlNow);
    FinalizedItemsCover(d, input.completed, input.finalizedNow);
  }

  lemma RoundTables(config: Settings, d: Tables, contents: Contents, input: RunInput)
    requires AllOff(d) && ValidInput(config, d, contents, input) && InputFits(d.queue, input)
    ensures
      var (d', contents') := Committed(config, d, contents, input);
      AfterRound(config, d, d', input.picked) && contents' == contents
  {
    var done := ProcessFirst(Start(d, contents), d.elements, input, |input.picked|);
    PassUsesRetries(config, d, contents, input);
    AdditionsCover(d, done, input);
    AppendKeepsRound(config, d, done.queue, Additions(d, done, input), input.picked);
  }

  lemma AppendKeepsRound(config: Settings, d: Tables, queue: seq<QueueItem>, added: seq<QueueItem>, picked: seq<ItemId>)
    requires KeepsPending(d.queue, queue) && |queue| == |d.queue|
    requires forall j :: 0 <= j < |d.queue| && j !in picked ==> queue[j] == d.queue[j]
    requires Weight(queue, config.maxRetry) + |picked| <= Weight(d.queue, config.maxRetry)
    requires forall item :: item in added ==> Covers(d, item)
    ensures AfterRound(config, d, d.(queue := queue + added), picked)
  {
    forall j | |queue| <= j < |queue + added| ensures Covers(d, (queue + added)[j]) {
      assert (queue + added)[j] == added[j - |queue|];
    }
    assert added == [] ==> queue + added == queue;
  }

  /** One whole session, undisturbed, with the given pick. */
  lemma DeafRound(config: Settings, w: World, picked: seq<ItemId>) returns (v: World)
    requires AllOff(w.db) && IsPick(w.db.queue, picked, w.now, config.maxRetry, config.batchSize)
    ensures CanReach(config, w, v) && AfterRound(config, w.db, v.db, picked)
    ensures v.contents == w.contents && v.sessions == w.sessions && v.now == w.now
  {
    var s := FreshSession(w);
    var expired := TtlAnswer(w.db.files, w.now, config.batchSize);
    var completed := FinalizedAnswer(w.db.txns, w.now - config.safetyMargin, config.batchSize);
    var replies := seq(|picked|, i => SILENCE);
    var input := RunInput(picked, replies, w.now, expired, w.now, completed, w.now);
    DeafPass(w.db, w.contents, input, |picked|);
    assert HonestReplies(w.db, w.contents, input);
    v := UndisturbedSessionCommits(config, w, s, input);
    RoundTables(config, w.db, w.contents, input);
    var steps :| EnabledRun(config, w, steps, v) && CollectorSteps(steps);
    CollectorStepsAreDisciplined(config, w, steps, v);
  }

  lemma StaysOff(config: Settings, d: Tables, d': Tables, picked: seq<ItemId>)
    requires AllOff(d) && AfterRound(config, d, d', picked)
    ensures AllOff(d')
  {
    forall seId | seId in Places(d') ensures seId in Places(d) {
      if j :| 0 <= j < |d'.queue| && d'.queue[j].seId == seId {
        assert j < |d.queue| ==> SameTarget(d'.queue[j], d.queue[j]);
      }
    }
  }

  /** The row stays as it is until the SELECT can return it: the rows ahead of it use up their retries. */
  lemma {:induction false} Drain(config: Settings, w: World, i: ItemId) returns (v: World, picked: seq<ItemId>)
    requires 0 < config.batchSize && AllOff(w.db)
    requires i < |w.db.queue| && w.db.queue[i].Eligible(w.now, config.maxRetry)
    ensures CanReach(config, w, v)
    ensures v.db.files == w.db.files && v.contents == w.contents && v.now == w.now
    ensures IsPick(v.db.queue, picked, v.now, config.maxRetry, config.batchSize) && i in picked
    ensures i < |v.db.queue| && v.db.queue[i] == w.db.queue[i]
    decreases Uncovered(w.db), Weight(w.db.queue, config.maxRetry)
  {
    picked := PickAnswer(w.db.queue, w.now, config.maxRetry, config.batchSize);
    if i in picked {
      v := w;
      Here(config, w);
    } else {
      var u := DeafRound(config, w, picked);
      AddingCovers(w.db, u.db);
      StaysOff(config, w.db, u.db, picked);
      v, picked := Drain(config, u, i);
      Through(config, w, u, v);
    }
  }

  // ---------- A dangerous row costs the file ----------

  lemma DueRowLoses(config: Settings, w: World, f: FileId, i: ItemId)
    requires 0 < config.batchSize && f in w.db.files && i < |w.db.queue|
    requires w.db.queue[i].fileId == f && w.db.queue[i].Eligible(w.now, config.maxRetry)
    requires w.db.queue[i].seId == w.db.files[f].seId && Protected(w.db.files[f], w.now)
    ensures CanBeLost(config, w, f)
  {
    var elements := SwitchOff(config, w, Places(w.db));
    var off := w.(db := w.db.(elements := elements));
    var u, picked := Drain(config, off, i);
    Through(config, w, off, u);
    PickedNowLoses(config, u, f, i, picked);
    LostLater(config, w, u, f);
  }

  /** The element comes back, and a session starts with a pick that holds the row. */
  lemma PickedNowLoses(config: Settings, w: World, f: FileId, i: ItemId, picked: seq<ItemId>)
    requires f in w.db.files && i < |w.db.queue| && w.db.queue[i].fileId == f
    requires w.db.queue[i].seId == w.db.files[f].seId && Protected(w.db.files[f], w.now)
    requires IsPick(w.db.queue, picked, w.now, config.maxRetry, config.batchSize) && i in picked
    ensures CanBeLost(config, w, f)
  {
    var online := SetStatus(w.db.queue[i].seId, Online);
    One(config, w, online);
    var on := Take(config, w, online);
    var s := FreshSession(on);
    Then(config, w, on, GcStart(s, picked));
    var x := Take(config, on, GcStart(s, picked));
    var k :| 0 <= k < |picked| && picked[k] == i;
    assert PickHits(x, f, s, k);
    HitLoses(config, x, f, s, k);
    LostLater(config, w, x, f);
  }

  lemma RowLoses(config: Settings, w: World, f: FileId)
    requires 0 < config.batchSize && f in w.db.files && RowDooms(config, w, f)
    ensures CanBeLost(config, w, f)
  {
    var i: ItemId :| i < |w.db.queue| && Dangerous(config, w, f, w.db.queue[i]);
    var due := Later(w.now, w.db.queue[i].scheduledAt);
    var v := BringTo(config, w, f, w.db.queue[i].seId, due);
    var wait := Tick(due - v.now);
    Then(config, w, v, wait);
    var u := Take(config, v, wait);
    DueRowLoses(config, u, f, i);
    LostLater(config, w, u, f);
  }

  /** The same rows are dangerous in both. */
  lemma DangerCarriesOver(config: Settings, w: World, v: World, f: FileId, item: QueueItem)
    requires SameState(w, v) && f in w.db.files && Dangerous(config, w, f, item)
    ensures Dangerous(config, v, f, item)
  {
    SameFactsShrink(config, v, w, f);
  }

  /** What the session was going to write is in the queue, as dangerous as it was. */
  lemma WrittenIsDangerous(config: Settings, w: World, queue': seq<QueueItem>, s: nat, f: FileId, item: QueueItem)
    requires f in w.db.files && s in w.sessions && SessionWf(w.db.queue, w.now, w.sessions[s])
    requires Driven(w.db.queue, queue', w.sessions[s])
    requires WillWrite(w.db.queue, w.sessions[s], item) && Dangerous(config, w, f, item)
    ensures exists i :: 0 <= i < |queue'| && Dangerous(config, w, f, queue'[i])
  {
    var x := w.sessions[s];
    if item in x.added {
      var j :| 0 <= j < |queue'| && queue'[j] == item;
    } else {
      var i :| 0 <= i < |w.db.queue| && i < |x.loaded| && Touches(x, i) && w.db.queue[i].Pending()
          && Outcome(x, i) == item;
      OutcomeTarget(w.db.queue, x, i);
      assert queue'[i] == WriteBack(w.db.queue[i], item);
      assert Dangerous(config, w, f, queue'[i]);
    }
  }

  lemma SessionLoses(config: Settings, w: World, f: FileId)
    requires Wf(w) && 0 < config.batchSize && f in w.db.files && SessionDooms(config, w, f)
    ensures CanBeLost(config, w, f)
  {
    var s, item :| s in w.sessions && WillWrite(w.db.queue, w.sessions[s], item) && Dangerous(config, w, f, item);
    var v := DriveToCommit(config, w, s);
    WrittenIsDangerous(config, w, v.db.queue, s, f, item);
    var i :| 0 <= i < |v.db.queue| && Dangerous(config, w, f, v.db.queue[i]);
    DangerCarriesOver(config, w, v, f, v.db.queue[i]);
    RowLoses(config, v, f);
    LostLater(config, w, v, f);
  }

  // ---------- A stale transaction costs the file ----------

  lemma {:induction false} FinalizedItemIsAmong(queue: seq<QueueItem>, files: map<FileId, File>, txns: seq<Txn>,
                                                ids: seq<TxnId>,
                                                now: Time, t: TxnId)
    requires t in ids && forall k :: 0 <= k < |ids| ==> ids[k] < |txns|
    requires PendingOf(queue, txns[t].fileId, Some(txns[t].sourceSe)) == {}
    ensures FinalizedItem(queue, files, txns[t], now)[0] in FinalizedItems(queue, files, txns, ids, now)
  {
    var n := |ids| - 1;
    if ids[n] != t {
      assert ids == ids[..n] + [ids[n]];
      FinalizedItemIsAmong(queue, files, txns, ids[..n], now, t);
    }
  }

  /** A session opens and gets as far as the finalized producer. */
  lemma OpenToTtlDone(config: Settings, w: World) returns (v: World, s: nat)
    requires Wf(w)
    ensures CanReach(config, w, v) && Wf(v) && v.db == w.db && v.now == w.now && v.contents == w.contents
    ensures s in v.sessions && v.sessions[s].stage == TtlDone
  {
    s := FreshSession(w);
    var picked := PickAnswer(w.db.queue, w.now, config.maxRetry, config.batchSize);
    var begun := Take(config, w, GcStart(s, picked));
    One(config, w, GcStart(s, picked));
    StepKeepsWf(config, w, GcStart(s, picked));
    v := FinishTtl(config, begun, s);
    Through(config, w, begun, v);
  }

  /** The finalized producer queues the source of the transaction. */
  lemma StaleIsQueued(config: Settings, w: World, s: nat, f: FileId, t: TxnId) returns (v: World)
    requires Wf(w) && s in w.sessions && w.sessions[s].stage == TtlDone
    requires 0 < config.batchSize && 0 < config.maxRetry && f in w.db.files && t < |w.db.txns|
    requires IsStale(config, w, f, w.db.txns[t]) && FinalizedTxn(w.db.txns[t], w.now - config.safetyMargin)
    requires PendingOf(w.db.queue, f, Some(w.db.files[f].seId)) == {}
    ensures CanReach(config, w, v) && Wf(v) && f in v.db.files && SessionDooms(config, v, f)
  {
    var completed := FinalizedAnswerWith(w.db.txns, w.now - config.safetyMargin, config.batchSize, t);
    One(config, w, GcFinalized(s, completed));
    StepKeepsWf(config, w, GcFinalized(s, completed));
    v := Take(config, w, GcFinalized(s, completed));
    var seen := Seen(w.db.files, w.sessions[s].marks);
    FinalizedItemIsAmong(w.db.queue, seen, w.db.txns, completed, w.now, t);
    var item := FinalizedItem(w.db.queue, seen, w.db.txns[t], w.now)[0];
    assert item in v.sessions[s].added;
    assert Dangerous(config, v, f, item);
    assert WillWrite(v.db.queue, v.sessions[s], item);
  }

  /** A row for the registered copy. */
  predicate AtPlace(w: World, f: FileId, item: QueueItem)
    requires f in w.db.files
  {
    item.fileId == f && item.seId == w.db.files[f].seId
  }

  function RowsAtPlace(w: World, f: FileId): set<ItemId>
    requires f in w.db.files
  {
    PendingOf(w.db.queue, f, Some(w.db.files[f].seId))
  }

  /** Each pending row of the copy is finished by an open session, and none of these sessions adds another. */
  ghost predicate Clearable(w: World, f: FileId)
    requires f in w.db.files
  {
    && (forall i :: i in RowsAtPlace(w, f) ==> exists s :: s in w.sessions && Finishes(w.sessions[s], i))
    && (forall s :: s in w.sessions && w.sessions[s].picked != [] ==>
          forall item :: item in w.sessions[s].added ==> !AtPlace(w, f, item))
  }

  lemma RowAfterStays(item: QueueItem, x: Session, i: ItemId)
    requires RowAfter(item, x, i).Pending()
    ensures item.Pending() && !Finishes(x, i)
    ensures RowAfter(item, x, i).fileId == item.fileId && RowAfter(item, x, i).seId == item.seId
  {
  }

  /** A row of the copy that is pending after the commit was there before, and the session does not finish it. */
  lemma PlaceRowStays(w: World, v: World, f: FileId, s: nat, i: ItemId, j: ItemId)
    requires f in w.db.files && SameState(w, v) && s in w.sessions
    requires Driven(w.db.queue, v.db.queue, w.sessions[s]) && Clearable(w, f)
    requires w.sessions[s].picked != [] && i in RowsAtPlace(w, f) && j in RowsAtPlace(v, f)
    ensures j in RowsAtPlace(w, f) && !Finishes(w.sessions[s], j)
  {
    var row := v.db.queue[j];
    assert AtPlace(w, f, row);
    if j < |w.db.queue| {
      RowAfterStays(w.db.queue[j], w.sessions[s], j);
    }
  }

  /** Fewer rows, and the sessions that finish them are still there. */
  lemma FewerRowsClearable(w: World, v: World, f: FileId, s: nat)
    requires f in w.db.files && f in v.db.files && v.db.files[f].seId == w.db.files[f].seId
    requires s in w.sessions && v.sessions == w.sessions - {s} && Clearable(w, f)
    requires forall j :: j in RowsAtPlace(v, f) ==> j in RowsAtPlace(w, f) && !Finishes(w.sessions[s], j)
    ensures Clearable(v, f)
  {
    forall j | j in RowsAtPlace(v, f) ensures exists r :: r in v.sessions && Finishes(v.sessions[r], j) {
      var r :| r in w.sessions && Finishes(w.sessions[r], j);
      assert r in v.sessions && v.sessions[r] == w.sessions[r];
    }
    forall r, item | r in v.sessions && v.sessions[r].picked != [] && item in v.sessions[r].added
      ensures !AtPlace(v, f, item)
    {
      assert r in w.sessions && v.sessions[r] == w.sessions[r] && !AtPlace(w, f, item);
    }
  }

  lemma FinisherPicked(queue: seq<QueueItem>, now: Time, x: Session, i: ItemId)
    requires SessionWf(queue, now, x) && Finishes(x, i)
    ensures x.picked != []
  {
  }

  /** Committing a session that finishes one of the rows takes that row away and brings none. */
  lemma DrivenClears(w: World, v: World, f: FileId, s: nat, i: ItemId)
    requires Wf(w) && f in w.db.files && SameState(w, v) && s in w.sessions && v.sessions == w.sessions - {s}
    requires Driven(w.db.queue, v.db.queue, w.sessions[s])
    requires Clearable(w, f) && i in RowsAtPlace(w, f) && Finishes(w.sessions[s], i)
    ensures RowsAtPlace(v, f) <= RowsAtPlace(w, f) - {i} && Clearable(v, f)
  {
    FinisherPicked(w.db.queue, w.now, w.sessions[s], i);
    forall j | j in RowsAtPlace(v, f) ensures j in RowsAtPlace(w, f) && !Finishes(w.sessions[s], j) {
      PlaceRowStays(w, v, f, s, i, j);
    }
    FewerRowsClearable(w, v, f, s);
  }

  lemma Finisher(w: World, f: FileId) returns (s: nat, i: ItemId)
    requires f in w.db.files && Clearable(w, f) && RowsAtPlace(w, f) != {}
    ensures s in w.sessions && i in RowsAtPlace(w, f) && Finishes(w.sessions[s], i)
  {
    i :| i in RowsAtPlace(w, f);
    s :| s in w.sessions && Finishes(w.sessions[s], i);
  }

  lemma OneLess<T>(a: set<T>, b: set<T>, x: T)
    requires x in b && a <= b - {x}
    ensures |a| < |b|
  {
    SubsetSize(a, b - {x});
  }

  lemma ClearOne(config: Settings, w: World, f: FileId) returns (v: World)
    requires Wf(w) && f in w.db.files && Clearable(w, f) && RowsAtPlace(w, f) != {}
    ensures CanReach(config, w, v) && Wf(v) && SameState(w, v) && Clearable(v, f)
    ensures |RowsAtPlace(v, f)| < |RowsAtPlace(w, f)|
  {
    var s, i := Finisher(w, f);
    v := DriveToCommit(config, w, s);
    DrivenClears(w, v, f, s, i);
    OneLess(RowsAtPlace(v, f), RowsAtPlace(w, f), i);
  }

  /** The sessions that finish the rows of the copy commit, one after the other. */
  lemma {:induction false} ClearPlace(config: Settings, w: World, f: FileId) returns (v: World)
    requires Wf(w) && f in w.db.files && Clearable(w, f)
    ensures CanReach(config, w, v) && Wf(v) && SameState(w, v) && RowsAtPlace(v, f) == {}
    decreases |RowsAtPlace(w, f)|
  {
    if RowsAtPlace(w, f) == {} {
      v := w;
      Here(config, w);
    } else {
      var u := ClearOne(config, w, f);
      v := ClearPlace(config, u, f);
      Through(config, w, u, v);
    }
  }

  /** With no pending row of the copy a new session queues it as soon as the margin has passed. */
  lemma OpenPlaceLoses(config: Settings, w: World, f: FileId)
    requires Wf(w) && 0 < config.batchSize && 0 < config.maxRetry && f in w.db.files
    requires Stale(config, w, f) && RowsAtPlace(w, f) == {}
    ensures CanBeLost(config, w, f)
  {
    var t: TxnId :| t < |w.db.txns| && IsStale(config, w, f, w.db.txns[t]);
    var due := Later(w.now, w.db.txns[t].completedAt.value + config.safetyMargin);
    var wait := Tick(due - w.now);
    One(config, w, wait);
    StepKeepsWf(config, w, wait);
    var v := Take(config, w, wait);
    var x, s := OpenToTtlDone(config, v);
    Through(config, w, v, x);
    var u := StaleIsQueued(config, x, s, f, t);
    Through(config, w, x, u);
    SessionLoses(config, u, f);
    LostLater(config, w, u, f);
  }

  lemma StaleIsClearable(config: Settings, w: World, f: FileId)
    requires Wf(w) && 0 < config.maxRetry && f in w.db.files
    requires Stale(config, w, f) && !Blocked(w, f) && !SessionDooms(config, w, f)
    ensures Clearable(w, f)
  {
    var t: TxnId :| t < |w.db.txns| && IsStale(config, w, f, w.db.txns[t]);
    forall i | i in RowsAtPlace(w, f) ensures exists s :: s in w.sessions && Finishes(w.sessions[s], i) {
      assert NamesPlace(w, f, i) && !Unfinished(w, i);
    }
    forall s, item | s in w.sessions && w.sessions[s].picked != [] && item in w.sessions[s].added
      ensures !AtPlace(w, f, item)
    {
      assert SessionWf(w.db.queue, w.now, w.sessions[s]);
      assert WillWrite(w.db.queue, w.sessions[s], item);
      assert !Dangerous(config, w, f, item);
    }
  }

  lemma StaleLoses(config: Settings, w: World, f: FileId)
    requires Wf(w) && 0 < config.batchSize && 0 < config.maxRetry && f in w.db.files
    requires Stale(config, w, f) && !Blocked(w, f)
    ensures CanBeLost(config, w, f)
  {
    if SessionDooms(config, w, f) {
      SessionLoses(config, w, f);
    } else {
      StaleIsClearable(config, w, f);
      var v := ClearPlace(config, w, f);
      var t: TxnId :| t < |w.db.txns| && IsStale(config, w, f, w.db.txns[t]);
      assert IsStale(config, v, f, v.db.txns[t]);
      OpenPlaceLoses(config, v, f);
      LostLater(config, w, v, f);
    }
  }

  // ---------- The criterion is exact ----------

  lemma DoomedLoses(config: Settings, w: World, f: FileId)
    requires Wf(w) && 0 < config.batchSize && 0 < config.maxRetry && f in w.db.files && Doomed(config, w, f)
    ensures CanBeLost(config, w, f)
  {
    if Lost(w, f) {
      Here(config, w);
    } else if RowDooms(config, w, f) {
      RowLoses(config, w, f);
    } else if PickDooms(w, f) {
      PickLoses(config, w, f);
    } else if SessionDooms(config, w, f) {
      SessionLoses(config, w, f);
    } else {
      StaleLoses(config, w, f);
    }
  }

  /**
  When a registered file can still be lost. Some disciplined run from here ends without its registered bytes while
  the file is protected iff they are missing now, or a pending row with retries left, a picked row not yet done or a
  row that a session is going to write names an exposed copy and is due while it is, or a COMPLETED transaction whose
  registry update did not take effect falls due while the file is protected and every pending row that keeps the
  producer from queueing the copy is one that an open session finishes.
  */
  lemma FileCanBeLostIff(config: Settings, w: World, f: FileId)
    requires 0 < config.batchSize && 0 < config.maxRetry
    requires Wf(w) && f in w.db.files && FileTxns(w, f)
    ensures CanBeLost(config, w, f) <==> Doomed(config, w, f)
  {
    if Doomed(config, w, f) {
      DoomedLoses(config, w, f);
    } else {
      SafeIsNeverLost(config, w, f);
    }
  }

  lemma SafeIsNeverLost(config: Settings, w: World, f: FileId)
    requires Wf(w) && Safe(config, w, f)
    ensures !CanBeLost(config, w, f)
  {
    forall last | CanReach(config, w, last) ensures !Lost(last, f) {
      var steps :| EnabledRun(config, w, steps, last) && DisciplinedRun(config, w, steps);
      SafeRun(config, w, steps, last, f);
    }
  }
}
