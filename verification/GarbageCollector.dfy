/**
The garbage collector service over one database session.

Sessions run without autoflush: changed and added queue rows wait in `dirty` and `added` until the commit, and the
SELECTs of the same run do not see them. The UPDATE of `files` is direct and is seen. Remote deletes happen at
once and are not undone by a roll-back.
*/
module GarbageCollector {
  import opened Wrappers
  import opened FileRegistry
  import opened Cleanup
  import opened GcQueue
  import opened RunEffects

  /** Where a run raises, if it does. */
  datatype Crash = NoCrash | InQueue(after: nat) | AfterQueue | AfterTtl | AtCommit

  lemma FlushUpdate(queue: seq<QueueItem>, dirty: map<ItemId, QueueItem>, i: ItemId, item: QueueItem)
    requires i < |queue|
    ensures Flush(queue, dirty[i := item]) == Flush(queue, dirty)[i := item]
  {
  }

  class GarbageCollectorService {
    const settings: Settings
    var files: map<FileId, File>
    var txns: seq<Txn>
    var queue: seq<QueueItem>
    var elements: Elements
    // the open session
    var savedFiles: map<FileId, File>
    var dirty: map<ItemId, QueueItem>
    var added: seq<QueueItem>
    // the Storage Elements
    var contents: Contents

    /** Missing and zero arguments both fall back to the default. */
    constructor (batchSize: Option<nat>, safetyMargin: Option<nat>, orphanGrace: Option<nat>, maxRetry: Option<nat>,
                 hour: nat, db: Tables, contents: Contents)
      ensures settings == Settings(
        if batchSize.Some? && batchSize.value > 0 then batchSize.value else 100,
        if safetyMargin.Some? && safetyMargin.value > 0 then safetyMargin.value else 24 * hour,
        if orphanGrace.Some? && orphanGrace.value > 0 then orphanGrace.value else 168 * hour,
        if maxRetry.Some? && maxRetry.value > 0 then maxRetry.value else 3)
      ensures Db() == db && this.contents == contents && Idle()
    {
      settings := Settings(
        OrDefault(batchSize, 100), OrDefault(safetyMargin, 24 * hour),
        OrDefault(orphanGrace, 168 * hour), OrDefault(maxRetry, 3));
      files, txns, queue, elements := db.files, db.txns, db.queue, db.elements;
      savedFiles, dirty, added := db.files, map[], [];
      this.contents := contents;
    }

    static function OrDefault(value: Option<nat>, default_: nat): nat {
      if value.Some? && value.value > 0 then value.value else default_
    }

    ghost function Db(): Tables
      reads this`files, this`txns, this`queue, this`elements
    {
      Tables(files, txns, queue, elements)
    }

    /** No open changes. */
    ghost predicate Idle()
      reads this`files, this`savedFiles, this`dirty, this`added
    {
      savedFiles == files && dirty == map[] && added == []
    }

    method Commit()
      modifies this`queue, this`savedFiles, this`dirty, this`added
      ensures Idle() && queue == Flush(old(queue), old(dirty)) + old(added)
    {
      queue := Flush(queue, dirty) + added;
      savedFiles, dirty, added := files, map[], [];
    }

    method Rollback()
      modifies this`files, this`dirty, this`added
      ensures Idle() && files == old(savedFiles)
    {
      files, dirty, added := savedFiles, map[], [];
    }

    /** The DELETE request; every transport error is an unsuccessful reply, never an exception. */
    method DeleteFileFromStorage(item: QueueItem, reply: Reply) returns (success: bool)
      modifies this`contents
      ensures success == reply.Succeeded()
      ensures success <==> reply.response in {Status(200), Status(204), Status(404)}
      ensures contents == if reply.removed then Strike(old(contents), item.seId, item.fileId) else old(contents)
    {
      if reply.removed {
        contents := contents - {(item.seId, item.fileId)};
      }
      match reply.response
      case Status(code) => success := code in {200, 204, 404};
      case _ => success := false;
    }

    method MarkFileAsDeleted(fileId: FileId, reason: Reason, at: Time)
      modifies this`files
      ensures files == Stamp(old(files), fileId, reason, at) && files.Keys == old(files).Keys
      ensures fileId in files ==> !files[fileId].Live() && files[fileId].deletedAt == Some(at)
      ensures forall id :: id in files && id != fileId ==> files[id] == old(files)[id]
    {
      if fileId in files {
        files := files[fileId := files[fileId].(deletedAt := Some(at), deletionReason := Some(ReasonText(reason)))];
      }
    }

    /** One turn of the queue loop. */
    method ProcessItem(id: ItemId, reply: Reply, now: Time) returns (cleaned: nat, failed: nat)
      requires id < |queue|
      modifies this`files, this`dirty, this`contents
      ensures dirty == old(dirty)[id := Process(queue[id], elements, reply, now)]
      ensures files == if Marks(queue[id], elements, reply)
                       then Stamp(old(files), queue[id].fileId, queue[id].reason, reply.markAt) else old(files)
      ensures contents == if Removes(queue[id], elements, reply)
                          then Strike(old(contents), queue[id].seId, queue[id].fileId) else old(contents)
      ensures cleaned == if CountsClean(queue[id], elements, reply) then 1 else 0
      ensures failed == if CountsFailed(queue[id], elements, reply) then 1 else 0
      ensures failed == dirty[id].retryCount - queue[id].retryCount
      ensures cleaned + failed == 1 || dirty[id].error == Some(Raised)
      ensures queue[id].Pending() ==>
        (cleaned == 1 <==> !dirty[id].Pending() && (dirty[id].success == Some(true) || dirty[id].error == Some(Raised)))
    {
      cleaned, failed := 0, 0;
      var item := queue[id];
      if item.seId !in elements {
        item := item.(processedAt := Some(now), success := Some(false), error := Some(SeNotFound));
        item := item.(retryCount := item.retryCount + 1);
        failed := 1;
      } else if elements[item.seId] != Online {
        item := item.(retryCount := item.retryCount + 1, error := Some(SeUnavailable(elements[item.seId])));
        failed := 1;
      } else {
        var success := DeleteFileFromStorage(item, reply);
        item := item.(processedAt := Some(now), success := Some(success));
        if success {
          cleaned := 1;
          if reply.markRaises {
            item := item.(success := Some(false), error := Some(Raised), retryCount := item.retryCount + 1);
            failed := 1;
          } else {
            MarkFileAsDeleted(item.fileId, item.reason, reply.markAt);
          }
        } else {
          item := item.(error := Some(DeleteFailed(reply.response)), retryCount := item.retryCount + 1);
          failed := 1;
        }
      }
      dirty := dirty[id := item];
    }

    /** `_process_cleanup_queue`, stopped after `upTo` rows when the run raises there. */
    method ProcessCleanupQueue(input: RunInput, upTo: nat) returns (cleaned: nat, failed: nat)
      requires InputFits(queue, input) && Distinct(input.picked) && upTo <= |input.picked| && dirty == map[]
      modifies this`files, this`dirty, this`contents
      ensures Progress(Flush(queue, dirty), files, contents)
           == ProcessFirst(Progress(queue, old(files), old(contents)), elements, input, upTo)
      ensures cleaned == CleanCount(queue, elements, input, upTo) && failed == FailCount(queue, elements, input, upTo)
      ensures cleaned == AnsweredTurns(old(Db()), input, upTo) && failed == FailedTurns(old(Db()), input, upTo)
      ensures files.Keys == old(files).Keys
    {
      cleaned, failed := 0, 0;
      CountsAreTurns(Db(), input, upTo);
      ghost var start := Progress(queue, files, contents);
      assert Flush(queue, dirty) == queue;
      var i := 0;
      while i < upTo
        invariant 0 <= i <= upTo
        invariant Progress(Flush(queue, dirty), files, contents) == ProcessFirst(start, elements, input, i)
        invariant cleaned == CleanCount(queue, elements, input, i) && failed == FailCount(queue, elements, input, i)
        invariant files.Keys == old(files).Keys
      {
        var id := input.picked[i];
        ProcessFirstRow(start, elements, input, i, id);
        assert id !in input.picked[..i];
        FlushUpdate(queue, dirty, id, Process(queue[id], elements, input.replies[i], input.queueNow));
        var c, f := ProcessItem(id, input.replies[i], input.queueNow);
        cleaned, failed := cleaned + c, failed + f;
        i := i + 1;
      }
    }

    /** `_cleanup_expired_ttl`. */
    method CleanupExpiredTtl(expired: seq<FileId>, now: Time) returns (added': nat, failed: nat)
      requires forall k :: 0 <= k < |expired| ==> expired[k] in files
      modifies this`added
      ensures added == old(added) + TtlItems(queue, files, expired, now)
      ensures added' == |TtlItems(queue, files, expired, now)| && failed == TtlFailures(queue, expired)
      ensures forall r :: r in added[|old(added)|..] <==> IsTtlRow(r, queue, files, expired, now)
      ensures added' == LoadCount(queue, ExpiredNames(expired), NoRow)
      ensures failed == LoadCount(queue, ExpiredNames(expired), SeveralRows)
    {
      added', failed := 0, 0;
      ghost var before := added;
      var i := 0;
      while i < |expired|
        invariant 0 <= i <= |expired|
        invariant added == before + TtlItems(queue, files, expired[..i], now)
        invariant added' == |TtlItems(queue, files, expired[..i], now)| && failed == TtlFailures(queue, expired[..i])
      {
        var id := expired[i];
        assert expired[..i + 1][..i] == expired[..i];
        var existing := PendingOf(queue, id, None);
        if |existing| > 1 {
          failed := failed + 1; // MultipleResultsFound
        } else if existing == {} {
          added := added + [NewItem(id, files[id].seId, Some(files[id].storagePath), now, PRIORITY_NORMAL, TtlExpired,
                                    now)];
          added' := added' + 1;
        }
        i := i + 1;
      }
      assert expired[..i] == expired;
      TtlProducerMeans(queue, files, expired, now);
    }

    /** `_cleanup_finalized_files`. */
    method CleanupFinalizedFiles(completed: seq<TxnId>, now: Time) returns (added': nat, failed: nat)
      requires forall k :: 0 <= k < |completed| ==> completed[k] < |txns|
      modifies this`added
      ensures added == old(added) + FinalizedItems(queue, files, txns, completed, now)
      ensures added' == |FinalizedItems(queue, files, txns, completed, now)|
      ensures failed == FinalizedFailures(queue, txns, completed)
      ensures forall r :: r in added[|old(added)|..] <==> IsSourceRow(r, queue, files, txns, completed, now)
      ensures added' == LoadCount(queue, SourceNames(txns, completed), NoRow)
      ensures failed == LoadCount(queue, SourceNames(txns, completed), SeveralRows)
    {
      added', failed := 0, 0;
      ghost var before := added;
      var i := 0;
      while i < |completed|
        invariant 0 <= i <= |completed|
        invariant added == before + FinalizedItems(queue, files, txns, completed[..i], now)
        invariant added' == |FinalizedItems(queue, files, txns, completed[..i], now)|
        invariant failed == FinalizedFailures(queue, txns, completed[..i])
      {
        var txn := txns[completed[i]];
        assert completed[..i + 1][..i] == completed[..i];
        var existing := PendingOf(queue, txn.fileId, Some(txn.sourceSe));
        if |existing| > 1 {
          failed := failed + 1;
        } else if existing == {} {
          var path := if txn.fileId in files then Some(files[txn.fileId].storagePath) else None;
          added := added + [NewItem(txn.fileId, txn.sourceSe, path, now, PRIORITY_NORMAL, Finalized, now)];
          added' := added' + 1;
        }
        i := i + 1;
      }
      assert completed[..i] == completed;
      FinalizedProducerMeans(queue, files, txns, completed, now);
    }

    /** `cleanup_orphaned_files`; the caller commits. */
    method CleanupOrphanedFiles(seId: SeId, listing: seq<FileId>, now: Time) returns (added': nat)
      modifies this`added
      ensures added == old(added) + OrphanItems(queue, files, seId, listing, settings.orphanGrace, now)
      ensures added' == |OrphanItems(queue, files, seId, listing, settings.orphanGrace, now)|
      ensures forall r :: r in added[|old(added)|..] <==>
        IsOrphanRow(r, queue, files, seId, listing, settings.orphanGrace, now)
    {
      added' := 0;
      ghost var before := added;
      var i := 0;
      while i < |listing|
        invariant 0 <= i <= |listing|
        invariant added == before + OrphanItems(queue, files, seId, listing[..i], settings.orphanGrace, now)
        invariant added' == |OrphanItems(queue, files, seId, listing[..i], settings.orphanGrace, now)|
      {
        var id := listing[i];
        assert listing[..i + 1][..i] == listing[..i];
        if id !in files && PendingOf(queue, id, Some(seId)) == {} {
          added := added + [NewItem(id, seId, None, now + settings.orphanGrace, PRIORITY_LOW, Orphaned, now)];
          added' := added' + 1;
        }
        i := i + 1;
      }
      assert listing[..i] == listing;
      forall r ensures r in OrphanItems(queue, files, seId, listing, settings.orphanGrace, now) <==>
                       IsOrphanRow(r, queue, files, seId, listing, settings.orphanGrace, now)
      {
        OrphanProducerMeans(queue, files, seId, listing, settings.orphanGrace, now, r);
      }
    }

    /** `add_to_cleanup_queue`: flushes at once and checks for no duplicate. */
    method AddToCleanupQueue(fileId: FileId, seId: SeId, reason: Reason, priority: int, scheduledAt: Option<Time>,
                             path: Option<string>, now: Time)
      modifies this`queue
      ensures queue == old(queue) + [NewItem(fileId, seId, path, if scheduledAt.Some? then scheduledAt.value else now,
                                             priority, reason, now)]
    {
      var at := if scheduledAt.Some? then scheduledAt.value else now;
      queue := queue + [NewItem(fileId, seId, path, at, priority, reason, now)];
    }

    /** Rows that had their turn before the run raised, or all of them. */
    static function Cut(input: RunInput, crash: Crash): nat {
      if crash.InQueue? then crash.after else |input.picked|
    }

    /** The two producers. */
    method RunProducers(input: RunInput, crash: Crash, counts: RunResult) returns (result: RunResult, raised: bool)
      requires forall k :: 0 <= k < |input.expired| ==> input.expired[k] in files
      requires forall k :: 0 <= k < |input.completed| ==> input.completed[k] < |txns|
      modifies this`added
      ensures raised <==> crash.AfterTtl? || crash.AtCommit?
      ensures !raised ==>
        added == old(added) + (TtlItems(queue, files, input.expired, input.ttlNow)
                               + FinalizedItems(queue, files, txns, input.completed, input.finalizedNow))
      ensures !raised ==> result == counts.(
        ttlCleaned := |TtlItems(queue, files, input.expired, input.ttlNow)|,
        ttlFailed := TtlFailures(queue, input.expired),
        finalizedCleaned := |FinalizedItems(queue, files, txns, input.completed, input.finalizedNow)|,
        finalizedFailed := FinalizedFailures(queue, txns, input.completed))
    {
      result := counts;
      var cleaned, failed := CleanupExpiredTtl(input.expired, input.ttlNow);
      result := result.(ttlCleaned := cleaned, ttlFailed := failed);
      if crash.AfterTtl? {
        return result, true;
      }
      cleaned, failed := CleanupFinalizedFiles(input.completed, input.finalizedNow);
      result := result.(finalizedCleaned := cleaned, finalizedFailed := failed);
      raised := crash.AtCommit?;
    }

    /** The three phases inside the `try` block. */
    method RunPhases(input: RunInput, crash: Crash) returns (result: RunResult, raised: bool)
      requires InputFits(queue, input) && Distinct(input.picked) && Cut(input, crash) <= |input.picked|
      requires dirty == map[] && added == []
      requires forall k :: 0 <= k < |input.expired| ==> input.expired[k] in files
      requires forall k :: 0 <= k < |input.completed| ==> input.completed[k] < |txns|
      modifies this`files, this`dirty, this`added, this`contents
      ensures raised <==> !crash.NoCrash?
      ensures contents == ProcessFirst(Start(old(Db()), old(contents)), elements, input, Cut(input, crash)).contents
      ensures !raised ==>
        var done := ProcessFirst(Start(old(Db()), old(contents)), elements, input, |input.picked|);
        && Flush(queue, dirty) == done.queue && files == done.files && added == Additions(old(Db()), done, input)
        && result == Counters(old(Db()), done, input)
    {
      result := RunResult(0, 0, 0, 0, 0, 0);
      var cleaned, failed := ProcessCleanupQueue(input, Cut(input, crash));
      if crash.InQueue? {
        return result, true;
      }
      result := result.(queueProcessed := cleaned, queueFailed := failed);
      if crash.AfterQueue? {
        return result, true;
      }
      result, raised := RunProducers(input, crash, result);
    }

    /**
    `run_garbage_collection`: either the whole run is committed, or the tables are as before; the remote deletes of
    the rows that had their turn stay either way.
    */
    method RunGarbageCollection(input: RunInput, crash: Crash) returns (result: RunResult)
      requires Idle() && ValidInput(settings, Db(), contents, input) && Cut(input, crash) <= |input.picked|
      modifies this`files, this`queue, this`savedFiles, this`dirty, this`added, this`contents
      ensures Idle()
      ensures crash.NoCrash? ==>
        && (Db(), contents) == Committed(settings, old(Db()), old(contents), input)
        && result == Counters(old(Db()),
                              ProcessFirst(Start(old(Db()), old(contents)), elements, input, |input.picked|), input)
        && RunMeans(old(Db()), old(contents), input, Db(), contents, result)
      ensures !crash.NoCrash? ==>
        && Db() == old(Db())
        && contents == ProcessFirst(Start(old(Db()), old(contents)), elements, input, Cut(input, crash)).contents
    {
      ghost var d, c := Db(), contents;
      SelectionIsRegistered(settings, d, c, input);
      var raised;
      result, raised := RunPhases(input, crash);
      if raised {
        Rollback();
      } else {
        Commit();
        PhasesMakeARun(settings, d, c, input, Db(), contents, result);
      }
    }
  }

  lemma SelectionIsRegistered(s: Settings, d: Tables, contents: Contents, input: RunInput)
    requires ValidInput(s, d, contents, input)
    ensures forall k :: 0 <= k < |input.expired| ==> input.expired[k] in d.files
  {
    ProcessFirstMonotone(Start(d, contents), d.elements, input, 0, |input.picked|);
  }
}
