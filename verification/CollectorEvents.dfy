/**
The collector stamps `files` rows itself and sends no event for it: when do the caches folded from the event stream
still agree with the table after a run?
*/
module CollectorEvents {
  import opened FileRegistry
  import opened Cleanup
  import opened GcQueue

  /** The k-th picked row makes the run stamp this file. */
  predicate StampsAt(d: Tables, input: RunInput, k: nat, id: FileId)
    requires InputFits(d.queue, input) && k < |input.picked|
  {
    var item := d.queue[input.picked[k]];
    item.fileId == id && Marks(item, d.elements, input.replies[k])
  }

  ghost predicate Stamped(d: Tables, input: RunInput, n: nat, id: FileId)
    requires InputFits(d.queue, input) && n <= |input.picked|
  {
    exists k :: 0 <= k < n && StampsAt(d, input, k, id)
  }

  lemma OneMoreTurn(d: Tables, input: RunInput, n: nat, id: FileId)
    requires InputFits(d.queue, input) && 0 < n <= |input.picked|
    ensures Stamped(d, input, n, id) <==> Stamped(d, input, n - 1, id) || StampsAt(d, input, n - 1, id)
  {
  }

  /** A pass over the queue changes a file iff it stamps it, and marks it deleted then. */
  lemma {:induction false} PassStamps(d: Tables, contents: Contents, input: RunInput, n: nat, id: FileId)
    requires InputFits(d.queue, input) && Distinct(input.picked) && n <= |input.picked|
    ensures
      var files := ProcessFirst(Start(d, contents), d.elements, input, n).files;
      && (id in files <==> id in d.files)
      && (id in d.files ==> if Stamped(d, input, n, id) then !files[id].Live() else files[id] == d.files[id])
  {
    if n > 0 {
      var p := Start(d, contents);
      var i := input.picked[n - 1];
      PassStamps(d, contents, input, n - 1, id);
      ProcessFirstRow(p, d.elements, input, n - 1, i);
      assert i !in input.picked[..n - 1];
      var before := ProcessFirst(p, d.elements, input, n - 1);
      OneMoreTurn(d, input, n, id);
      TurnStamps(before, d.elements, i, input.replies[n - 1], input.queueNow, id);
    }
  }

  lemma TurnStamps(p: Progress, elements: Elements, i: ItemId, reply: Reply, now: Time, id: FileId)
    requires i < |p.queue|
    ensures
      var files := ProcessOne(p, elements, i, reply, now).files;
      && (id in files <==> id in p.files)
      && (id in p.files ==>
            if p.queue[i].fileId == id && Marks(p.queue[i], elements, reply) then !files[id].Live()
            else files[id] == p.files[id])
  {
  }

  /**
  A committed run keeps the fold of the event stream equal to the live rows iff it stamps no row that was live: each
  file it deletes stays in the consumers' caches.
  */
  lemma CollectorKeepsAgreementIff(s: Settings, d: Tables, contents: Contents, input: RunInput, log: seq<Event>)
    requires ValidInput(s, d, contents, input) && InputFits(d.queue, input) && Agrees(Snapshot(d.files, log))
    ensures
      var d' := Committed(s, d, contents, input).0;
      Agrees(Snapshot(d'.files, log)) <==>
        forall k, id :: 0 <= k < |input.picked| && id in d.files && StampsAt(d, input, k, id) ==> !d.files[id].Live()
  {
    var d' := Committed(s, d, contents, input).0;
    forall id ensures id in d'.files <==> id in d.files
              ensures id in d.files ==> if Stamped(d, input, |input.picked|, id) then !d'.files[id].Live()
                                        else d'.files[id] == d.files[id]
    {
      PassStamps(d, contents, input, |input.picked|, id);
    }
    var cache := Replay(log);
    if k, id :| 0 <= k < |input.picked| && id in d.files && StampsAt(d, input, k, id) && d.files[id].Live() {
      assert AgreesAt(d.files, cache, id);
      assert Stamped(d, input, |input.picked|, id);
      assert !AgreesAt(d'.files, cache, id);
    } else {
      forall id ensures AgreesAt(d'.files, cache, id) {
        assert AgreesAt(d.files, cache, id);
      }
    }
  }
}
