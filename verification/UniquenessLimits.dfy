/**
Each rule of PendingUniqueness is needed: four runs from the empty system, disciplined throughout, each of which breaks
one rule and ends with two pending rows for the same copy.
*/
module UniquenessLimits {
  import opened Wrappers
  import opened FileRegistry
  import opened Cleanup
  import opened FileLifecycle
  import opened NoDataLoss
  import opened PendingUniqueness
  import opened LifecycleLimits

  /** Reached from the empty system by a disciplined run that keeps these rules. */
  ghost predicate Arrives(rules: Rules, w: World) {
    exists steps :: EnabledRun(CONFIG, EMPTY, steps, w) && DisciplinedRun(CONFIG, EMPTY, steps)
                 && SerialRun(CONFIG, 0, rules, EMPTY, steps)
  }

  lemma {:induction false} RulesExtend(rules: Rules, w: World, steps: seq<Step>, v: World, step: Step)
    requires EnabledRun(CONFIG, w, steps, v) && DisciplinedRun(CONFIG, w, steps)
    requires SerialRun(CONFIG, 0, rules, w, steps)
    requires Enabled(CONFIG, v, step) && Disciplined(v, step) && Serial(CONFIG, 0, rules, v, step)
    ensures DisciplinedRun(CONFIG, w, steps + [step]) && SerialRun(CONFIG, 0, rules, w, steps + [step])
    decreases |steps|
  {
    if steps == [] {
      assert [step][1..] == [];
    } else {
      assert (steps + [step])[1..] == steps[1..] + [step];
      RulesExtend(rules, Take(CONFIG, w, steps[0]), steps[1..], v, step);
    }
  }

  lemma Next(rules: Rules, w: World, step: Step, next: World)
    requires Arrives(rules, w) && Enabled(CONFIG, w, step) && next == Take(CONFIG, w, step)
    requires Disciplined(w, step) && Serial(CONFIG, 0, rules, w, step)
    ensures Arrives(rules, next)
  {
    var steps :| EnabledRun(CONFIG, EMPTY, steps, w) && DisciplinedRun(CONFIG, EMPTY, steps)
              && SerialRun(CONFIG, 0, rules, EMPTY, steps);
    Extend(CONFIG, EMPTY, steps, w, step);
    RulesExtend(rules, EMPTY, steps, w, step);
  }

  lemma ArrivesRegistered(rules: Rules)
    ensures Arrives(rules, REGISTERED)
  {
    assert EnabledRun(CONFIG, EMPTY, [], EMPTY) && DisciplinedRun(CONFIG, EMPTY, [])
        && SerialRun(CONFIG, 0, rules, EMPTY, []);
    var w1 := EMPTY.(db := EMPTY.db.(elements := ONLINE));
    assert map[]["edit" := Online] == ONLINE;
    Next(rules, EMPTY, SetStatus("edit", Online), w1);
    assert map[][("edit", 1) := "c"] == COPY;
    Next(rules, w1, Upload(1, "edit", "c"), UPLOADED);
    assert map[][1 := NewRow(REQUEST, 0)] == FILES;
    Next(rules, UPLOADED, RegisterFile(1, REQUEST), REGISTERED);
  }

  lemma ArrivesExpired(rules: Rules)
    ensures Arrives(rules, EXPIRED)
  {
    ArrivesRegistered(rules);
    Next(rules, REGISTERED, Tick(40), EXPIRED);
  }

  // ---------- Turns of a session ----------

  const ADDING := TTL_SESSION.(stage := TtlDone, added := [TTL_ROW])

  /** A session opens over the empty queue. */
  lemma StartTurn(rules: Rules, w: World, s: nat) returns (v: World)
    requires Arrives(rules, w) && w.db.queue == [] && w.db.elements == ONLINE && w.now == 40
    requires s !in w.sessions && (rules.alone ==> w.sessions == map[])
    ensures v == WithSession(w, s, TTL_SESSION) && Arrives(rules, v)
  {
    v := WithSession(w, s, TTL_SESSION);
    Next(rules, w, GcStart(s, []), v);
  }

  /** The session queues the expired file. */
  lemma TtlTurn(rules: Rules, w: World, s: nat) returns (v: World)
    requires Arrives(rules, w) && w.db.files == FILES && w.db.queue == [] && w.now == 40
    requires s in w.sessions && w.sessions[s] == TTL_SESSION
    ensures v == WithSession(w, s, ADDING) && Arrives(rules, v)
  {
    assert Seen(FILES, map[]) == FILES;
    OneTtlItem();
    v := WithSession(w, s, ADDING);
    Next(rules, w, GcTtl(s, [1]), v);
  }

  /** The finalized producer returns from its turn. */
  lemma FinalizedTurn(rules: Rules, w: World, s: nat, completed: seq<TxnId>, items: seq<QueueItem>) returns (v: World)
    requires Arrives(rules, w) && Enabled(CONFIG, w, GcFinalized(s, completed))
    requires Serial(CONFIG, 0, rules, w, GcFinalized(s, completed))
    requires items == w.sessions[s].added
                    + FinalizedItems(w.db.queue, Seen(w.db.files, w.sessions[s].marks), w.db.txns, completed, w.now)
    ensures v == WithSession(w, s, w.sessions[s].(stage := ReadyToCommit, added := items)) && Arrives(rules, v)
  {
    v := WithSession(w, s, w.sessions[s].(stage := ReadyToCommit, added := items));
    Next(rules, w, GcFinalized(s, completed), v);
  }

  lemma CommitTurn(rules: Rules, w: World, s: nat) returns (v: World)
    requires Arrives(rules, w) && s in w.sessions && w.sessions[s].stage == ReadyToCommit
    requires w.sessions[s].dirty == map[] && w.sessions[s].marks == map[]
    ensures v == w.(db := w.db.(queue := w.db.queue + w.sessions[s].added), sessions := w.sessions - {s})
    ensures Arrives(rules, v)
  {
    assert Seen(w.db.files, map[]) == w.db.files && Merge(w.db.queue, map[]) == w.db.queue;
    v := AfterCommit(w, s);
    Next(rules, w, GcCommit(s), v);
  }

  // ---------- Turns of the finalize driver ----------

  lemma CopiedAndVerified(rules: Rules, w: World) returns (v: World)
    requires Arrives(rules, w) && w.db.files == FILES && w.contents[("rw", 1) := "c"] == BOTH
    ensures v == w.(db := w.db.(txns := w.db.txns + [VERIFIED]), contents := BOTH) && Arrives(rules, v)
  {
    var txns := w.db.txns;
    var t := |txns|;
    var w1 := w.(db := w.db.(txns := txns + [BEGUN]));
    Next(rules, w, BeginFinalize(1, "edit", "rw"), w1);
    var w2 := w1.(contents := BOTH);
    Next(rules, w1, CopyWrite(t, "c"), w2);
    var copied := BEGUN.(status := Copied);
    assert (txns + [BEGUN])[t := copied] == txns + [copied];
    var w3 := w2.(db := w.db.(txns := txns + [copied]));
    Next(rules, w2, CopyDone(t), w3);
    assert (txns + [copied])[t := VERIFIED] == txns + [VERIFIED];
    v := w2.(db := w.db.(txns := txns + [VERIFIED]));
    Next(rules, w3, Verify(t), v);
  }

  function Promoted(now: Time): map<FileId, File> {
    map[1 := Updated(FILES[1], PromotionRequest(VERIFIED, "/rw/a.txt", now), now)]
  }

  lemma Put(rules: Rules, w: World, t: TxnId) returns (v: World)
    requires Arrives(rules, w) && w.db.files == FILES && t < |w.db.txns| && w.db.txns[t] == VERIFIED
    ensures v == w.(db := w.db.(files := Promoted(w.now))) && Arrives(rules, v)
  {
    v := w.(db := w.db.(files := Promoted(w.now)));
    assert FILES[1 := Promoted(w.now)[1]] == Promoted(w.now);
    Next(rules, w, RegistryPut(t, "/rw/a.txt", w.now), v);
  }

  function Done(at: Time): Txn {
    VERIFIED.(status := Completed, completedAt := Some(at))
  }

  lemma Mark(rules: Rules, w: World, t: TxnId, at: Time) returns (v: World)
    requires Arrives(rules, w) && w.db.files == Promoted(w.now) && t < |w.db.txns| && w.db.txns[t] == VERIFIED
    requires at <= w.now
    requires Serial(CONFIG, 0, rules, w, MarkCompleted(t, at))
    ensures v == w.(db := w.db.(txns := w.db.txns[t := Done(at)])) && Arrives(rules, v)
  {
    v := w.(db := w.db.(txns := w.db.txns[t := Done(at)]));
    Next(rules, w, MarkCompleted(t, at), v);
  }

  // ---------- The four runs ----------

  ghost predicate Duplicates(rules: Rules) {
    exists last :: Arrives(rules, last) && !UniquePending(last.db.queue)
  }

  lemma TwoAlike(rules: Rules, w: World)
    requires Arrives(rules, w) && |w.db.queue| == 2 && w.db.queue[0].Pending() && w.db.queue[1].Pending()
    requires SamePlace(w.db.queue[0], w.db.queue[1])
    ensures Duplicates(rules)
  {
  }

  lemma BothAdd(rules: Rules) returns (w: World)
    requires !rules.alone
    ensures w == EXPIRED.(sessions := map[0 := ADDING, 1 := ADDING]) && Arrives(rules, w)
  {
    ArrivesExpired(rules);
    w := StartTurn(rules, EXPIRED, 0);
    w := StartTurn(rules, w, 1);
    w := TtlTurn(rules, w, 0);
    w := TtlTurn(rules, w, 1);
    assert w.sessions == map[0 := ADDING, 1 := ADDING];
  }

  /** What a session has added reaches the queue, nothing being finalized. */
  lemma Ends(rules: Rules, w: World, s: nat) returns (v: World)
    requires Arrives(rules, w) && s in w.sessions && w.sessions[s] == ADDING && w.db.txns == []
    requires w.now == 40
    ensures v == w.(db := w.db.(queue := w.db.queue + [TTL_ROW]), sessions := w.sessions - {s}) && Arrives(rules, v)
  {
    assert [TTL_ROW] + [] == [TTL_ROW];
    v := FinalizedTurn(rules, w, s, [], [TTL_ROW]);
    v := CommitTurn(rules, v, s);
    assert v.sessions == w.sessions - {s};
  }

  /** Two sessions open at once: both find no pending row, and both queue the expired file. */
  lemma ConcurrentSessionsDuplicate()
    ensures Duplicates(ALL.(alone := false))
  {
    var rules := ALL.(alone := false);
    var w := BothAdd(rules);
    w := Ends(rules, w, 0);
    w := Ends(rules, w, 1);
    TwoAlike(rules, w);
  }

  const FINAL_ROW := NewItem(1, "edit", Some("/rw/a.txt"), 40, PRIORITY_NORMAL, Finalized, 40)

  lemma OneAdds(rules: Rules) returns (w: World)
    ensures w == EXPIRED.(sessions := map[0 := ADDING]) && Arrives(rules, w)
  {
    ArrivesExpired(rules);
    w := StartTurn(rules, EXPIRED, 0);
    w := TtlTurn(rules, w, 0);
  }

  /** A session has queued the expired file when it is finalized after all. */
  lemma FinalizedDuringSession(rules: Rules, at: Time) returns (w: World)
    requires at <= 40 && (rules.prompt ==> at == 40)
    ensures Arrives(rules, w)
    ensures w == World(40, Tables(Promoted(40), [Done(at)], [], ONLINE), BOTH, map[0 := ADDING], [], [])
  {
    w := OneAdds(rules);
    assert COPY[("rw", 1) := "c"] == BOTH;
    w := CopiedAndVerified(rules, w);
    assert [] + [VERIFIED] == [VERIFIED];
    w := Put(rules, w, 0);
    assert [VERIFIED][0 := Done(at)] == [Done(at)];
    w := Mark(rules, w, 0, at);
  }

  lemma OneFinalizedItem(at: Time, now: Time)
    ensures FinalizedItems([], Promoted(40), [Done(at)], [0], now) == [FINAL_ROW.(scheduledAt := now, createdAt := now)]
  {
    assert [0][..0] == [];
    assert FinalizedItems([], Promoted(40), [Done(at)], [0], now)
        == [] + FinalizedItem([], Promoted(40), Done(at), now);
    assert PendingOf([], 1, Some("edit")) == {};
  }

  lemma SecondRow(before: World, at: Time)
    requires before == World(before.now, Tables(Promoted(40), [Done(at)], [], ONLINE), BOTH,
                             map[0 := ADDING], [], [])
    requires at + CONFIG.safetyMargin <= before.now
    ensures Enabled(CONFIG, before, GcFinalized(0, [0]))
    ensures [TTL_ROW, FINAL_ROW.(scheduledAt := before.now, createdAt := before.now)]
         == ADDING.added + FinalizedItems([], Seen(Promoted(40), ADDING.marks), [Done(at)], [0], before.now)
  {
    assert Seen(Promoted(40), map[]) == Promoted(40);
    OneFinalizedItem(at, before.now);
  }

  /** That session now queues the source a second time. */
  lemma QueuedTwice(rules: Rules, before: World, at: Time)
    requires Arrives(rules, before) && before.now >= 40
    requires before == World(before.now, Tables(Promoted(40), [Done(at)], [], ONLINE), BOTH,
                             map[0 := ADDING], [], [])
    requires at + CONFIG.safetyMargin <= before.now && (rules.inMargin ==> before.now < 40 + CONFIG.safetyMargin)
    ensures Duplicates(rules)
  {
    var row := FINAL_ROW.(scheduledAt := before.now, createdAt := before.now);
    SecondRow(before, at);
    var w := FinalizedTurn(rules, before, 0, [0], [TTL_ROW, row]);
    w := CommitTurn(rules, w, 0);
    assert [] + [TTL_ROW, row] == [TTL_ROW, row];
    TwoAlike(rules, w);
  }

  /** The session reaches its finalized producer only when the safety margin has passed. */
  lemma SlowSessionDuplicates()
    ensures Duplicates(ALL.(inMargin := false))
  {
    var rules := ALL.(inMargin := false);
    var w := FinalizedDuringSession(rules, 40);
    Next(rules, w, Tick(24), w.(now := 64));
    QueuedTwice(rules, w.(now := 64), 40);
  }

  /** The completion is recorded as a day old, at once. */
  lemma LateCompletionDuplicates()
    ensures Duplicates(ALL.(prompt := false))
  {
    var rules := ALL.(prompt := false);
    var w := FinalizedDuringSession(rules, 16);
    QueuedTwice(rules, w, 16);
  }

  /** Two finalizations of one file run side by side and are both COMPLETED. */
  lemma TwoCompleted(rules: Rules) returns (w: World)
    requires !rules.once
    ensures Arrives(rules, w)
    ensures w == World(24, Tables(Promoted(0), [Done(0), Done(0)], [], ONLINE), BOTH, map[], [], [])
  {
    ArrivesRegistered(rules);
    assert COPY[("rw", 1) := "c"] == BOTH && BOTH[("rw", 1) := "c"] == BOTH;
    w := CopiedAndVerified(rules, REGISTERED);
    w := CopiedAndVerified(rules, w);
    assert [] + [VERIFIED] + [VERIFIED] == [VERIFIED, VERIFIED];
    w := Put(rules, w, 0);
    w := Mark(rules, w, 0, 0);
    w := Mark(rules, w, 1, 0);
    assert [VERIFIED, VERIFIED][0 := Done(0)][1 := Done(0)] == [Done(0), Done(0)];
    Next(rules, w, Tick(24), w.(now := 24));
    w := w.(now := 24);
  }

  lemma TwoFinalizedItems()
    ensures
      var row := FINAL_ROW.(scheduledAt := 24, createdAt := 24);
      FinalizedItems([], Promoted(0), [Done(0), Done(0)], [0, 1], 24) == [row, row]
  {
    var txns, row := [Done(0), Done(0)], FINAL_ROW.(scheduledAt := 24, createdAt := 24);
    assert PendingOf([], 1, Some("edit")) == {};
    assert FinalizedItem([], Promoted(0), Done(0), 24) == [row];
    assert [0][..0] == [] && FinalizedItems([], Promoted(0), txns, [], 24) == [];
    assert FinalizedItems([], Promoted(0), txns, [0], 24) == [] + [row];
    assert [0, 1][..1] == [0];
    assert FinalizedItems([], Promoted(0), txns, [0, 1], 24) == ([] + [row]) + [row];
  }

  const IDLE := Session(QueueStage, [], [], 0, 24, ONLINE, map[], map[], [])

  lemma OpenIdle(rules: Rules, w: World) returns (v: World)
    requires Arrives(rules, w) && w.now == 24 && w.sessions == map[] && w.db.queue == [] && w.db.elements == ONLINE
    ensures v == w.(sessions := map[0 := IDLE]) && Arrives(rules, v)
  {
    v := w.(sessions := map[0 := IDLE]);
    assert w.sessions[0 := IDLE] == map[0 := IDLE];
    Next(rules, w, GcStart(0, []), v);
  }

  lemma NothingExpired(now: Time)
    ensures IsTtlSelection(Seen(Promoted(0), map[]), [], now, CONFIG.batchSize)
  {
    assert Seen(Promoted(0), map[]) == Promoted(0);
  }

  /** Nothing is queued and nothing expired: the session comes to its finalized producer with empty hands. */
  lemma IdleUntilFinalized(rules: Rules, w: World) returns (v: World)
    requires Arrives(rules, w) && w.now == 24 && w.sessions == map[0 := IDLE] && w.db.queue == []
    requires w.db.files == Promoted(0)
    ensures v == w.(sessions := map[0 := IDLE.(stage := TtlDone)]) && Arrives(rules, v)
  {
    NothingExpired(24);
    var seen := Seen(w.db.files, IDLE.marks);
    assert TtlItems([], seen, [], 24) == [] && IDLE.added + [] == IDLE.added;
    v := w.(sessions := map[0 := IDLE.(stage := TtlDone)]);
    assert w.sessions[0 := IDLE.(stage := TtlDone)] == v.sessions;
    Next(rules, w, GcTtl(0, []), v);
  }

  lemma EndsAlike(rules: Rules, w: World, row: QueueItem)
    requires Arrives(rules, w) && w.db.queue == [] && row.Pending()
    requires w.sessions == map[0 := IDLE.(stage := ReadyToCommit, added := [row, row])]
    ensures Duplicates(rules)
  {
    assert [] + [row, row] == [row, row];
    var v := CommitTurn(rules, w, 0);
    TwoAlike(rules, v);
  }

  const TWICE := FINAL_ROW.(scheduledAt := 24, createdAt := 24)

  lemma BothAreSelected(w: World)
    requires w == World(24, Tables(Promoted(0), [Done(0), Done(0)], [], ONLINE), BOTH,
                        map[0 := IDLE.(stage := TtlDone)], [], [])
    ensures Enabled(CONFIG, w, GcFinalized(0, [0, 1]))
    ensures [TWICE, TWICE] == [] + FinalizedItems([], Seen(Promoted(0), map[]), [Done(0), Done(0)], [0, 1], 24)
  {
    assert Seen(Promoted(0), map[]) == Promoted(0);
    TwoFinalizedItems();
  }

  /** Both transactions are selected, and each adds a row. */
  lemma SelectBoth(rules: Rules, w: World)
    requires Arrives(rules, w) && rules.inMargin
    requires w == World(24, Tables(Promoted(0), [Done(0), Done(0)], [], ONLINE), BOTH,
                        map[0 := IDLE.(stage := TtlDone)], [], [])
    ensures Duplicates(rules)
  {
    BothAreSelected(w);
    var v := FinalizedTurn(rules, w, 0, [0, 1], [TWICE, TWICE]);
    EndsAlike(rules, v, TWICE);
  }

  /** Both COMPLETED transactions of one file are selected, and each adds a row for the same source. */
  lemma TwoCompletedDuplicate()
    ensures Duplicates(ALL.(once := false))
  {
    var rules := ALL.(once := false);
    var w := TwoCompleted(rules);
    w := OpenIdle(rules, w);
    w := IdleUntilFinalized(rules, w);
    SelectBoth(rules, w);
  }

  // ---------- The rules together ----------

  /** Keeping these rules is enough, for every configuration and delay. */
  ghost predicate Suffices(rules: Rules) {
    forall config, lag, w, steps, last ::
      (Initial(w) && EnabledRun(config, w, steps, last) && DisciplinedRun(config, w, steps)
       && SerialRun(config, lag, rules, w, steps)) ==> UniquePending(last.db.queue)
  }

  predicate Weaker(rules: Rules, other: Rules) {
    && (rules.alone ==> other.alone) && (rules.inMargin ==> other.inMargin)
    && (rules.prompt ==> other.prompt) && (rules.once ==> other.once)
  }

  lemma {:induction false} WeakerRulesHold(rules: Rules, other: Rules, w: World, steps: seq<Step>)
    requires Weaker(rules, other) && SerialRun(CONFIG, 0, other, w, steps)
    ensures SerialRun(CONFIG, 0, rules, w, steps)
    decreases |steps|
  {
    if steps != [] {
      WeakerRulesHold(rules, other, Take(CONFIG, w, steps[0]), steps[1..]);
    }
  }

  lemma WeakerDuplicates(rules: Rules, other: Rules)
    requires Weaker(rules, other) && Duplicates(other)
    ensures !Suffices(rules)
  {
    var last :| Arrives(other, last) && !UniquePending(last.db.queue);
    var steps :| EnabledRun(CONFIG, EMPTY, steps, last) && DisciplinedRun(CONFIG, EMPTY, steps)
              && SerialRun(CONFIG, 0, other, EMPTY, steps);
    WeakerRulesHold(rules, other, EMPTY, steps);
  }

  /** A set of rules rules out duplicate pending rows iff it is all four. */
  lemma AllRulesIff(rules: Rules)
    ensures Suffices(rules) <==> rules == ALL
  {
    if rules == ALL {
      forall config, lag, w, steps, last |
        Initial(w) && EnabledRun(config, w, steps, last) && DisciplinedRun(config, w, steps)
        && SerialRun(config, lag, rules, w, steps)
        ensures UniquePending(last.db.queue)
      {
        PendingUniquenessEver(config, lag, w, steps, last);
      }
    } else if !rules.alone {
      ConcurrentSessionsDuplicate();
      WeakerDuplicates(rules, ALL.(alone := false));
    } else if !rules.inMargin {
      SlowSessionDuplicates();
      WeakerDuplicates(rules, ALL.(inMargin := false));
    } else if !rules.prompt {
      LateCompletionDuplicates();
      WeakerDuplicates(rules, ALL.(prompt := false));
    } else {
      TwoCompletedDuplicate();
      WeakerDuplicates(rules, ALL.(once := false));
    }
  }
}
