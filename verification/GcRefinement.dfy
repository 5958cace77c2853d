/**
The serial collector inside the interleaved system: a session that nobody disturbs commits exactly what the serial
run commits, and one that is rolled back leaves exactly what a crashed serial run leaves. So the safety of every
interleaving is also the safety of `run_garbage_collection`.
*/
module GcRefinement {
  import opened FileRegistry
  import opened Cleanup
  import opened FileLifecycle
  import opened NoDataLoss
  import opened GcQueue
  import opened GcRecovery

  // ---------- One turn ----------

  lemma FlushTurn(queue: seq<QueueItem>, dirty: map<ItemId, QueueItem>, i: ItemId, item: QueueItem)
    requires i < |queue|
    ensures Flush(queue, dirty[i := item]) == Flush(queue, dirty)[i := item]
  {
  }

  lemma SeenTurn(files: map<FileId, File>, marks: map<FileId, Mark>, id: FileId, reason: Reason, at: Time)
    ensures Seen(files, marks[id := Mark(reason, at)]) == Stamp(Seen(files, marks), id, reason, at)
  {
  }

  /** The session after the first `n` picked rows had their turn. */
  function AfterTurns(w: World, s: nat, input: RunInput, n: nat): (v: World)
    requires InputFits(w.db.queue, input) && n <= |input.picked|
    ensures s in v.sessions && v.db == w.db && v.now == w.now && v.sessions == w.sessions[s := v.sessions[s]]
    ensures
      var x := v.sessions[s];
      && x.stage == QueueStage && x.picked == input.picked && x.loaded == w.db.queue && x.done == n
      && x.queueNow == w.now && x.elements == w.db.elements && x.added == []
  {
    if n == 0
    then WithSession(w, s, Session(QueueStage, input.picked, w.db.queue, 0, w.now, w.db.elements, map[], map[], []))
    else AfterItem(AfterTurns(w, s, input, n - 1), s, input.replies[n - 1])
  }

  /** What the session holds, written back, is what the serial run has computed. */
  ghost predicate Follows(w: World, v: World, s: nat, p: Progress)
    requires s in v.sessions
  {
    && v.contents == p.contents
    && Seen(w.db.files, v.sessions[s].marks) == p.files
    && Flush(w.db.queue, v.sessions[s].dirty) == p.queue
  }

  lemma TurnFollows(w: World, v: World, s: nat, p: Progress, i: ItemId, reply: Reply)
    requires s in v.sessions && v.db == w.db && Follows(w, v, s, p)
    requires v.sessions[s].done < |v.sessions[s].picked| && v.sessions[s].picked[v.sessions[s].done] == i
    requires i < |w.db.queue| && p.queue[i] == w.db.queue[i]
    requires v.sessions[s].elements == w.db.elements && v.sessions[s].loaded == w.db.queue
    ensures Follows(w, AfterItem(v, s, reply), s, ProcessOne(p, w.db.elements, i, reply, v.sessions[s].queueNow))
  {
    var x := v.sessions[s];
    var item := w.db.queue[i];
    FlushTurn(w.db.queue, x.dirty, i, Process(item, x.elements, reply, x.queueNow));
    SeenTurn(w.db.files, x.marks, item.fileId, item.reason, reply.markAt);
  }

  /** The picked rows are there and pending. */
  predicate AllPending(queue: seq<QueueItem>, input: RunInput) {
    InputFits(queue, input) && forall k :: 0 <= k < |input.picked| ==> queue[input.picked[k]].Pending()
  }

  lemma {:induction false} TurnsFollow(w: World, s: nat, input: RunInput, n: nat)
    requires InputFits(w.db.queue, input) && Distinct(input.picked) && n <= |input.picked| && input.queueNow == w.now
    ensures Follows(w, AfterTurns(w, s, input, n), s, ProcessFirst(Start(w.db, w.contents), w.db.elements, input, n))
  {
    if n == 0 {
      assert Seen(w.db.files, map[]) == w.db.files && Flush(w.db.queue, map[]) == w.db.queue;
    } else {
      TurnsFollow(w, s, input, n - 1);
      RowAtItsTurn(w.db, w.contents, input, n - 1);
      TurnFollows(w, AfterTurns(w, s, input, n - 1), s,
                  ProcessFirst(Start(w.db, w.contents), w.db.elements, input, n - 1),
                  input.picked[n - 1], input.replies[n - 1]);
    }
  }

  /** What the session changed is what its UPDATEs will leave, nobody else having touched the rows. */
  ghost predicate Alone(queue: seq<QueueItem>, dirty: map<ItemId, QueueItem>) {
    forall i :: i in dirty ==> i < |queue| && WriteBack(queue[i], dirty[i]) == dirty[i]
  }

  lemma TurnAlone(v: World, s: nat, reply: Reply)
    requires s in v.sessions && CanTurn(v.sessions[s]) && Alone(v.sessions[s].loaded, v.sessions[s].dirty)
    requires v.sessions[s].loaded[v.sessions[s].picked[v.sessions[s].done]].Pending()
    ensures Alone(v.sessions[s].loaded, AfterItem(v, s, reply).sessions[s].dirty)
  {
    var x := v.sessions[s];
    WriteBackIsProcess(x.loaded[x.picked[x.done]], x.elements, reply, x.queueNow);
  }

  lemma {:induction false} TurnsAlone(w: World, s: nat, input: RunInput, n: nat)
    requires AllPending(w.db.queue, input) && n <= |input.picked|
    ensures Alone(w.db.queue, AfterTurns(w, s, input, n).sessions[s].dirty)
  {
    if n > 0 {
      TurnsAlone(w, s, input, n - 1);
      TurnAlone(AfterTurns(w, s, input, n - 1), s, input.replies[n - 1]);
    }
  }

  lemma MergeIsFlush(queue: seq<QueueItem>, dirty: map<ItemId, QueueItem>)
    requires Alone(queue, dirty)
    ensures Merge(queue, dirty) == Flush(queue, dirty)
  {
  }

  lemma SameBytes(w: World, s: nat, input: RunInput, n: nat)
    requires InputFits(w.db.queue, input) && Distinct(input.picked) && n <= |input.picked| && input.queueNow == w.now
    ensures AfterTurns(w, s, input, n).contents
         == ProcessFirst(Start(w.db, w.contents), w.db.elements, input, n).contents
  {
    TurnsFollow(w, s, input, n);
  }

  // ---------- Whole sessions ----------

  /** Runs of collector steps and clock ticks only. */
  predicate CollectorSteps(steps: seq<Step>) {
    forall step :: step in steps ==>
      || step.Tick? || step.GcStart? || step.GcItem? || step.GcTtl? || step.GcFinalized?
      || step.GcCommit? || step.GcRollback?
  }

  ghost predicate Reaches(config: Settings, w: World, last: World) {
    exists steps :: EnabledRun(config, w, steps, last) && CollectorSteps(steps)
  }

  lemma Start0(config: Settings, w: World)
    ensures Reaches(config, w, w)
  {
    assert EnabledRun(config, w, [], w) && CollectorSteps([]);
  }

  lemma Next(config: Settings, w: World, v: World, step: Step, last: World)
    requires Reaches(config, w, v) && Enabled(config, v, step) && Take(config, v, step) == last
    requires CollectorSteps([step])
    ensures Reaches(config, w, last)
  {
    var steps :| EnabledRun(config, w, steps, v) && CollectorSteps(steps);
    Extend(config, w, steps, v, step);
    assert step in [step];
    assert CollectorSteps(steps + [step]);
  }

  lemma OpeningStep(config: Settings, w: World, s: nat, input: RunInput)
    requires s !in w.sessions && ValidInput(config, w.db, w.contents, input) && input.queueNow == w.now
    ensures Enabled(config, w, GcStart(s, input.picked))
    ensures Take(config, w, GcStart(s, input.picked)) == AfterTurns(w, s, input, 0)
  {
  }

  lemma CanTakeTurn(config: Settings, v: World, s: nat, reply: Reply)
    requires s in v.sessions && v.sessions[s].stage == QueueStage && CanTurn(v.sessions[s])
    requires
      var item := v.sessions[s].loaded[v.sessions[s].picked[v.sessions[s].done]];
      reply.Honest((item.seId, item.fileId) in v.contents)
    ensures Enabled(config, v, GcItem(s, reply)) && Take(config, v, GcItem(s, reply)) == AfterItem(v, s, reply)
  {
  }

  lemma TurnStep(config: Settings, w: World, s: nat, input: RunInput, n: nat)
    requires input.queueNow == w.now && 0 < n <= |input.picked| && Distinct(input.picked)
    requires AllPending(w.db.queue, input) && HonestReplies(w.db, w.contents, input)
    ensures Enabled(config, AfterTurns(w, s, input, n - 1), GcItem(s, input.replies[n - 1]))
    ensures Take(config, AfterTurns(w, s, input, n - 1), GcItem(s, input.replies[n - 1])) == AfterTurns(w, s, input, n)
  {
    var v := AfterTurns(w, s, input, n - 1);
    SameBytes(w, s, input, n - 1);
    assert HonestAt(w.db, w.contents, input, n - 1);
    CanTakeTurn(config, v, s, input.replies[n - 1]);
  }

  lemma OpeningReaches(config: Settings, w: World, s: nat, input: RunInput)
    requires s !in w.sessions && ValidInput(config, w.db, w.contents, input) && input.queueNow == w.now
    ensures Reaches(config, w, AfterTurns(w, s, input, 0))
  {
    Start0(config, w);
    OpeningStep(config, w, s, input);
    Next(config, w, w, GcStart(s, input.picked), AfterTurns(w, s, input, 0));
  }

  lemma TurnReaches(config: Settings, w: World, s: nat, input: RunInput, n: nat)
    requires input.queueNow == w.now && 0 < n <= |input.picked| && Distinct(input.picked)
    requires AllPending(w.db.queue, input) && HonestReplies(w.db, w.contents, input)
    requires Reaches(config, w, AfterTurns(w, s, input, n - 1))
    ensures Reaches(config, w, AfterTurns(w, s, input, n))
  {
    TurnStep(config, w, s, input, n);
    Next(config, w, AfterTurns(w, s, input, n - 1), GcItem(s, input.replies[n - 1]), AfterTurns(w, s, input, n));
  }

  lemma {:induction false} TurnsRun(config: Settings, w: World, s: nat, input: RunInput, n: nat)
    requires s !in w.sessions && input.queueNow == w.now && n <= |input.picked|
    requires ValidInput(config, w.db, w.contents, input) && HonestReplies(w.db, w.contents, input)
    ensures Reaches(config, w, AfterTurns(w, s, input, n))
  {
    if n == 0 {
      OpeningReaches(config, w, s, input);
    } else {
      TurnsRun(config, w, s, input, n - 1);
      TurnReaches(config, w, s, input, n);
    }
  }

  /** What the whole queue pass has computed. */
  function Done(w: World, input: RunInput): Progress
    requires InputFits(w.db.queue, input)
  {
    ProcessFirst(Start(w.db, w.contents), w.db.elements, input, |input.picked|)
  }

  function AfterTtl(w: World, s: nat, input: RunInput): World
    requires InputFits(w.db.queue, input)
  {
    var v := AfterTurns(w, s, input, |input.picked|);
    WithSession(v.(now := input.ttlNow), s, v.sessions[s].(
      stage := TtlDone, added := TtlItems(w.db.queue, Done(w, input).files, input.expired, input.ttlNow)))
  }

  function AfterFinalized(w: World, s: nat, input: RunInput): World
    requires InputFits(w.db.queue, input)
    requires forall k :: 0 <= k < |input.completed| ==> input.completed[k] < |w.db.txns|
  {
    var v := AfterTtl(w, s, input);
    WithSession(v.(now := input.finalizedNow), s, v.sessions[s].(
      stage := ReadyToCommit, added := Additions(w.db, Done(w, input), input)))
  }

  /** The TTL producer sees the session's own stamps, and the clock of its phase. */
  lemma TtlStep(config: Settings, w: World, s: nat, input: RunInput)
    requires ValidInput(config, w.db, w.contents, input) && input.queueNow == w.now
    ensures
      var v := AfterTurns(w, s, input, |input.picked|).(now := input.ttlNow);
      && Enabled(config, v, GcTtl(s, input.expired))
      && Take(config, v, GcTtl(s, input.expired)) == AfterTtl(w, s, input)
  {
    TurnsFollow(w, s, input, |input.picked|);
    var first := TtlItems(w.db.queue, Done(w, input).files, input.expired, input.ttlNow);
    assert [] + first == first;
  }

  lemma FinalizedStep(config: Settings, w: World, s: nat, input: RunInput)
    requires ValidInput(config, w.db, w.contents, input) && input.queueNow == w.now
    ensures
      var v := AfterTtl(w, s, input).(now := input.finalizedNow);
      && Enabled(config, v, GcFinalized(s, input.completed))
      && Take(config, v, GcFinalized(s, input.completed)) == AfterFinalized(w, s, input)
  {
    TurnsFollow(w, s, input, |input.picked|);
  }

  lemma CommitWrites(w: World, v: World, s: nat, p: Progress)
    requires s in v.sessions && v.db == w.db && Follows(w, v, s, p) && Alone(w.db.queue, v.sessions[s].dirty)
    ensures AfterCommit(v, s).db == w.db.(files := p.files, queue := p.queue + v.sessions[s].added)
    ensures AfterCommit(v, s).contents == p.contents
  {
    MergeIsFlush(w.db.queue, v.sessions[s].dirty);
  }

  /** At its commit the session holds what the serial run has computed. */
  lemma ReadyFollows(config: Settings, w: World, s: nat, input: RunInput)
    requires input.queueNow == w.now && ValidInput(config, w.db, w.contents, input)
    ensures
      var v := AfterFinalized(w, s, input);
      Follows(w, v, s, Done(w, input)) && Alone(w.db.queue, v.sessions[s].dirty)
  {
    TurnsFollow(w, s, input, |input.picked|);
    TurnsAlone(w, s, input, |input.picked|);
  }

  /** The session `v` has come to its commit with what the serial run has computed. */
  ghost predicate Ready(w: World, v: World, s: nat, input: RunInput)
    requires InputFits(w.db.queue, input)
    requires forall k :: 0 <= k < |input.completed| ==> input.completed[k] < |w.db.txns|
  {
    && s in v.sessions && v.sessions == w.sessions[s := v.sessions[s]] && v.db == w.db && v.now == input.finalizedNow
    && v.sessions[s].stage == ReadyToCommit && v.sessions[s].added == Additions(w.db, Done(w, input), input)
    && Follows(w, v, s, Done(w, input)) && Alone(w.db.queue, v.sessions[s].dirty)
  }

  lemma FinalizedShape(w: World, s: nat, input: RunInput)
    requires InputFits(w.db.queue, input)
    requires forall k :: 0 <= k < |input.completed| ==> input.completed[k] < |w.db.txns|
    ensures
      var v := AfterFinalized(w, s, input);
      && s in v.sessions && v.sessions == w.sessions[s := v.sessions[s]] && v.db == w.db && v.now == input.finalizedNow
      && v.sessions[s].stage == ReadyToCommit && v.sessions[s].added == Additions(w.db, Done(w, input), input)
  {
  }

  lemma FinalizedIsReady(config: Settings, w: World, s: nat, input: RunInput)
    requires input.queueNow == w.now && ValidInput(config, w.db, w.contents, input)
    ensures Ready(w, AfterFinalized(w, s, input), s, input)
  {
    FinalizedShape(w, s, input);
    ReadyFollows(config, w, s, input);
  }

  lemma CommitStep(config: Settings, w: World, v: World, s: nat, input: RunInput)
    requires s !in w.sessions && ValidInput(config, w.db, w.contents, input) && Ready(w, v, s, input)
    ensures Enabled(config, v, GcCommit(s))
    ensures (AfterCommit(v, s).db, AfterCommit(v, s).contents) == Committed(config, w.db, w.contents, input)
    ensures AfterCommit(v, s).sessions == w.sessions && AfterCommit(v, s).now == input.finalizedNow
  {
    CommitWrites(w, v, s, Done(w, input));
    assert v.sessions - {s} == w.sessions;
  }

  /** The clock moves on while the session is open. */
  lemma TickTo(config: Settings, w: World, v: World, now: Time)
    requires Reaches(config, w, v) && v.now <= now
    ensures Reaches(config, w, v.(now := now))
  {
    Next(config, w, v, Tick(now - v.now), v.(now := now));
  }

  /** An undisturbed session commits what the serial run commits. */
  lemma UndisturbedSessionCommits(config: Settings, w: World, s: nat, input: RunInput) returns (last: World)
    requires s !in w.sessions && input.queueNow == w.now
    requires ValidInput(config, w.db, w.contents, input) && HonestReplies(w.db, w.contents, input)
    ensures Reaches(config, w, last)
    ensures (last.db, last.contents) == Committed(config, w.db, w.contents, input)
    ensures last.sessions == w.sessions && last.now == input.finalizedNow
  {
    var turned := AfterTurns(w, s, input, |input.picked|);
    TurnsRun(config, w, s, input, |input.picked|);
    TickTo(config, w, turned, input.ttlNow);
    TtlStep(config, w, s, input);
    Next(config, w, turned.(now := input.ttlNow), GcTtl(s, input.expired), AfterTtl(w, s, input));
    TickTo(config, w, AfterTtl(w, s, input), input.finalizedNow);
    FinalizedStep(config, w, s, input);
    Next(config, w, AfterTtl(w, s, input).(now := input.finalizedNow), GcFinalized(s, input.completed),
         AfterFinalized(w, s, input));
    FinalizedIsReady(config, w, s, input);
    CommitStep(config, w, AfterFinalized(w, s, input), s, input);
    last := AfterCommit(AfterFinalized(w, s, input), s);
    Next(config, w, AfterFinalized(w, s, input), GcCommit(s), last);
  }

  /** A session rolled back after `n` turns leaves the tables, and the bytes as a run that crashed there. */
  lemma UndisturbedSessionRollsBack(config: Settings, w: World, s: nat, input: RunInput, n: nat) returns (last: World)
    requires s !in w.sessions && input.queueNow == w.now && n <= |input.picked|
    requires ValidInput(config, w.db, w.contents, input) && HonestReplies(w.db, w.contents, input)
    ensures Reaches(config, w, last)
    ensures last.db == w.db && last.sessions == w.sessions && last.now == w.now
    ensures last.contents == ProcessFirst(Start(w.db, w.contents), w.db.elements, input, n).contents
  {
    TurnsRun(config, w, s, input, n);
    SameBytes(w, s, input, n);
    last := AfterTurns(w, s, input, n).(sessions := w.sessions);
    RollBackReaches(config, w, AfterTurns(w, s, input, n), s);
  }

  lemma RollBackReaches(config: Settings, w: World, v: World, s: nat)
    requires Reaches(config, w, v) && s !in w.sessions && s in v.sessions
    requires v.sessions == w.sessions[s := v.sessions[s]]
    ensures Reaches(config, w, v.(sessions := w.sessions))
  {
    assert v.sessions - {s} == w.sessions;
    Next(config, w, v, GcRollback(s), v.(sessions := w.sessions));
  }

  lemma {:induction false} CollectorStepsAreDisciplined(config: Settings, w: World, steps: seq<Step>, last: World)
    requires EnabledRun(config, w, steps, last) && CollectorSteps(steps)
    ensures DisciplinedRun(config, w, steps)
    decreases |steps|
  {
    if steps != [] {
      assert steps[0] in steps;
      CollectorStepsAreDisciplined(config, Take(config, w, steps[0]), steps[1..], last);
    }
  }

  lemma ReachedIsSafe(config: Settings, w: World, last: World)
    requires Inv(w) && Reaches(config, w, last)
    ensures Inv(last) && NoLoss(last)
  {
    var steps :| EnabledRun(config, w, steps, last) && CollectorSteps(steps);
    CollectorStepsAreDisciplined(config, w, steps, last);
    RunKeepsInv(config, w, steps, last);
  }

  /** From every safe state of the interleaved system a serial run, committed or crashed anywhere, loses no bytes. */
  lemma SerialRunLosesNothing(config: Settings, w: World, input: RunInput, n: nat)
    requires Inv(w) && w.sessions == map[] && input.queueNow == w.now && n <= |input.picked|
    requires ValidInput(config, w.db, w.contents, input) && HonestReplies(w.db, w.contents, input)
    ensures
      var (d', contents') := Committed(config, w.db, w.contents, input);
      NoLoss(w.(db := d', contents := contents', now := input.finalizedNow))
    ensures NoLoss(w.(contents := ProcessFirst(Start(w.db, w.contents), w.db.elements, input, n).contents))
  {
    var last := UndisturbedSessionCommits(config, w, 0, input);
    ReachedIsSafe(config, w, last);
    var left := UndisturbedSessionRollsBack(config, w, 0, input, n);
    ReachedIsSafe(config, w, left);
  }
}
