/**
The sync and publication services of the Admin Module and the configuration reload of an Ingester, each proved
against the functions and predicates of ServiceDiscovery.
*/
module StorageSync {
  import opened Wrappers
  import opened Cleanup
  import opened ServiceDiscovery

  datatype SyncError = SyncNotFound | SyncRaised

  datatype SyncResult = SyncResult(id: nat, name: string, success: bool, changes: seq<Change>)

  /** The order of the seven tests. */
  function Turn(f: Field): nat {
    match f
    case ModeField => 0
    case StatusField => 1
    case CapacityField => 2
    case UsedField => 3
    case FileCountField => 4
    case PriorityField => 5
    case ElementIdField => 6
  }

  /** What `_collect_changes` has noted after the first `n` of its seven tests. */
  predicate DiffUpTo(changes: seq<Change>, before: Row, after: Row, n: nat) {
    && (forall c :: c in changes ==>
          && Turn(c.field) < n && c.before == Get(before, c.field) && c.after == Get(after, c.field)
          && c.before != c.after)
    && (forall f :: Turn(f) < n && Get(before, f) != Get(after, f) ==>
          Change(f, Get(before, f), Get(after, f)) in changes)
    && (forall i, j :: 0 <= i < j < |changes| ==> changes[i].field != changes[j].field)
  }

  class StorageSyncService {
    var rows: Table
    var config: Option<Config>
    /** The class-level counter of the publish service. */
    var version: nat

    constructor (rows: Table, config: Option<Config>, version: nat)
      ensures State() == Registry(rows, config, version)
    {
      this.rows, this.config, this.version := rows, config, version;
    }

    function State(): Registry
      reads this
    {
      Registry(rows, config, version)
    }

    static method Note(changes: seq<Change>, before: Row, after: Row, f: Field) returns (more: seq<Change>)
      requires DiffUpTo(changes, before, after, Turn(f))
      ensures DiffUpTo(more, before, after, Turn(f) + 1)
    {
      more := changes;
      if Get(before, f) != Get(after, f) {
        more := changes + [Change(f, Get(before, f), Get(after, f))];
      }
    }

    method CollectChanges(row: Row, info: Info, now: Instant) returns (changes: seq<Change>)
      ensures IsDiff(changes, row, Applied(row, info, now))
      ensures changes == [] <==> Timeless(row) == Timeless(Applied(row, info, now))
      ensures RowAsReported(row, info, now, Applied(row, info, now))
      ensures forall c :: c in changes ==> ChangeMeans(c, row, Applied(row, info, now))
    {
      changes := CollectStates(row, Applied(row, info, now));
      changes := CollectSizes(changes, row, Applied(row, info, now));
      changes := CollectNames(changes, row, Applied(row, info, now));
      Collected(changes, row, info, now);
    }

    static method CollectStates(row: Row, after: Row) returns (changes: seq<Change>)
      ensures DiffUpTo(changes, row, after, 2)
    {
      changes := Note([], row, after, ModeField);
      changes := Note(changes, row, after, StatusField);
    }

    static method CollectSizes(earlier: seq<Change>, row: Row, after: Row) returns (changes: seq<Change>)
      requires DiffUpTo(earlier, row, after, 2)
      ensures DiffUpTo(changes, row, after, 5)
    {
      changes := Note(earlier, row, after, CapacityField);
      changes := Note(changes, row, after, UsedField);
      changes := Note(changes, row, after, FileCountField);
    }

    static method CollectNames(earlier: seq<Change>, row: Row, after: Row) returns (changes: seq<Change>)
      requires DiffUpTo(earlier, row, after, 5)
      ensures DiffUpTo(changes, row, after, 7)
    {
      changes := Note(earlier, row, after, PriorityField);
      changes := Note(changes, row, after, ElementIdField);
    }

    method BuildConfig(elements: Table, now: Instant) returns (built: Config)
      modifies this`version
      ensures version == old(version) + 1 == built.version
      ensures BuiltFrom(built, elements) && built == ConfigOf(elements, version, now)
      ensures built.count == |elements| == |built.elements| && built.timestamp == now
      ensures forall i :: 0 <= i < |elements| ==>
        && built.elements[i].row == elements[i]
        && (built.elements[i].isAvailable <==> elements[i].status == Online)
        && (built.elements[i].isWritable <==> elements[i].status == Online && elements[i].mode in {Edit, Rw})
    {
      version := version + 1;
      var data: seq<Entry> := [];
      for i := 0 to |elements|
        invariant |data| == i
        invariant forall k :: 0 <= k < i ==> data[k] == EntryOf(elements[k])
      {
        var se := elements[i];
        var isAvailable := se.status == Online;
        var isWritable := se.mode in {Edit, Rw} && isAvailable;
        data := data + [Entry(se, isWritable, isAvailable)];
      }
      built := Config(version, now, |data|, data);
      assert data == ConfigOf(elements, version, now).elements;
    }

    /** Publication errors are swallowed and answered with zero subscribers. */
    method PublishAll(p: Publication, now: Instant) returns (subscribers: nat)
      modifies this`config, this`version
      ensures State() == Published(old(State()), p, now)
      ensures subscribers == if p.Stored? then p.subscribers else 0
      ensures p.Reaches() ==> Agrees(config, rows)
    {
      if p.Unread? {
        return 0;
      }
      var built := BuildConfig(rows, now);
      ConfigIsBuilt(rows, version, now);
      if p.Unstored? {
        return 0;
      }
      config := Some(built);
      subscribers := if p.Stored? then p.subscribers else 0;
    }

    /** A failed discovery reports "offline" as the old value too: the row was overwritten before it was read. */
    method SyncStorageElement(id: nat, x: SyncInput) returns (result: Result<SyncResult, SyncError>)
      requires Valid(rows)
      modifies this
      ensures State() == Next(old(State()), Sync(id, x)) && Valid(rows)
      ensures result == Err(SyncNotFound) <==> Position(old(rows), id).None?
      ensures result == Err(SyncRaised) <==>
                Position(old(rows), id).Some? && x.discovery.DiscoveryError? && x.commitFails
      ensures result.Ok? && result.value.success <==>
                && Position(old(rows), id).Some? && x.discovery.Found? && !x.commitFails
                && forall i :: 0 <= i < |old(rows)| && old(rows)[i].elementId == Some(x.discovery.info.elementId) ==>
                     old(rows)[i].id == id
      ensures result.Ok? ==> result.value.id == id
      ensures result.Ok? && result.value.success ==>
                && |rows| == |old(rows)| && Position(old(rows), id).Some? && x.discovery.Found?
                && var k := Position(old(rows), id).value;
                   && RowAsReported(old(rows)[k], x.discovery.info, x.now, rows[k])
                   && forall i :: 0 <= i < |rows| && i != k ==> rows[i] == old(rows)[i]
      ensures result.Ok? && x.discovery.DiscoveryError? ==>
                && |rows| == |old(rows)| && Position(old(rows), id).Some?
                && var k := Position(old(rows), id).value;
                   && rows[k] == old(rows)[k].(status := Offline, lastHealthCheck := Some(x.now))
                   && forall i :: 0 <= i < |rows| && i != k ==> rows[i] == old(rows)[i]
      ensures result.Ok? && result.value.success ==>
                && x.discovery.Found? && Position(old(rows), id).Some?
                && IsDiff(result.value.changes, old(rows)[Position(old(rows), id).value],
                          rows[Position(old(rows), id).value])
      ensures result.Ok? && x.discovery.DiscoveryError? ==>
                && !result.value.success
                && result.value.changes == [Change(StatusField, OfStatus(Offline), OfStatus(Offline))]
      ensures result.Ok? && !result.value.success && !x.discovery.DiscoveryError? ==>
                State() == old(State()) && result.value.changes == []
      ensures result.Err? ==> State() == old(State())
    {
      var position := Position(rows, id);
      if position.None? {
        return Err(SyncNotFound);
      }
      var k := position.value;
      var row := rows[k];
      match x.discovery {
        case Found(info) =>
          var changes := CollectChanges(row, info, x.now);
          var after := Applied(row, info, x.now);
          if x.commitFails || Collides(rows, k, after) {
            return Ok(SyncResult(id, row.name, false, []));
          }
          ChangesAnnounce(changes, row, x);
          SyncKeepsValid(State(), k, x);
          rows := rows[k := after];
          if changes != [] {
            var _ := PublishAll(x.publication, x.now);
          }
          return Ok(SyncResult(id, row.name, true, changes));
        case DiscoveryError =>
          if x.commitFails {
            return Err(SyncRaised);
          }
          SyncKeepsValid(State(), k, x);
          rows := rows[k := row.(status := Offline, lastHealthCheck := Some(x.now))];
          var change := Change(StatusField, Get(rows[k], StatusField), OfStatus(Offline));
          var _ := PublishAll(x.publication, x.now);
          return Ok(SyncResult(id, row.name, false, [change]));
        case OtherError =>
          return Ok(SyncResult(id, row.name, false, []));
      }
    }

    /** One step of the mass sync, seen as one event of a run that began in `start`. */
    method SyncNext(ids: seq<nat>, inputs: seq<SyncInput>, n: nat, ghost start: Registry)
      returns (result: Option<SyncResult>)
      requires Valid(rows) && n < |ids| == |inputs|
      requires State() == ServiceDiscovery.After(start, SyncEvents(ids, inputs, n))
      modifies this
      ensures Valid(rows)
      ensures State() == ServiceDiscovery.After(start, SyncEvents(ids, inputs, if result.Some? then n + 1 else n))
      ensures result.Some? ==> result.value.id == ids[n]
    {
      assert SyncEvents(ids, inputs, n + 1)[..n] == SyncEvents(ids, inputs, n);
      var outcome := SyncStorageElement(ids[n], inputs[n]);
      result := if outcome.Ok? then Some(outcome.value) else None;
    }

    /** The ids are read once; an escaping error ends the loop and leaves the rows synced so far. */
    method SyncAll(onlyOnline: bool, inputs: seq<SyncInput>) returns (results: seq<SyncResult>, raised: bool)
      requires Valid(rows) && |inputs| == |Selected(rows, onlyOnline)|
      modifies this
      ensures Valid(rows)
      ensures |results| <= |inputs| && (!raised ==> |results| == |inputs|)
      ensures State() == ServiceDiscovery.After(old(State()),
                                                SyncEvents(Selected(old(rows), onlyOnline), inputs, |results|))
      ensures forall k :: 0 <= k < |results| ==> results[k].id == Selected(old(rows), onlyOnline)[k]
      ensures forall x :: x in results ==> x.id in IdsToVisit(old(rows), onlyOnline)
      ensures !raised ==>
                forall id :: id in IdsToVisit(old(rows), onlyOnline) ==> exists x :: x in results && x.id == id
    {
      SelectedMeans(rows, onlyOnline);
      var ids := Selected(rows, onlyOnline);
      ghost var start := State();
      results, raised := [], false;
      var n := 0;
      while n < |ids|
        invariant 0 <= n <= |ids| && |results| == n && !raised && Valid(rows)
        invariant State() == ServiceDiscovery.After(start, SyncEvents(ids, inputs, n))
        invariant forall k :: 0 <= k < n ==> results[k].id == ids[k]
      {
        var result := SyncNext(ids, inputs, n, start);
        if result.None? {
          return results, true;
        }
        results := results + [result.value];
        n := n + 1;
      }
    }
  }

  lemma EmptyDiff(changes: seq<Change>, row: Row, info: Info, now: Instant)
    requires IsDiff(changes, row, Applied(row, info, now))
    ensures changes == [] <==> Timeless(row) == Timeless(Applied(row, info, now))
  {
    EmptyDiffIffSameProjection(row, info, now);
    if changes == [] {
      assert forall f :: Get(row, f) == Get(Applied(row, info, now), f);
    } else {
      assert changes[0] in changes;
    }
  }

  /** What all seven tests have collected. */
  lemma Collected(changes: seq<Change>, row: Row, info: Info, now: Instant)
    requires DiffUpTo(changes, row, Applied(row, info, now), 7)
    ensures IsDiff(changes, row, Applied(row, info, now))
    ensures changes == [] <==> Timeless(row) == Timeless(Applied(row, info, now))
    ensures RowAsReported(row, info, now, Applied(row, info, now))
    ensures forall c :: c in changes ==> ChangeMeans(c, row, Applied(row, info, now))
  {
    assert forall f: Field :: Turn(f) < 7;
    EmptyDiff(changes, row, info, now);
    AppliedMeans(row, info, now);
    DiffMeans(changes, row, Applied(row, info, now));
  }

  lemma ChangesAnnounce(changes: seq<Change>, row: Row, x: SyncInput)
    requires x.discovery.Found? && IsDiff(changes, row, Applied(row, x.discovery.info, x.now))
    ensures changes != [] <==> Announces(row, x)
  {
    if changes != [] {
      var c := changes[0];
      assert c in changes && Get(row, c.field) != Get(Applied(row, x.discovery.info, x.now), c.field);
    }
  }

  function Selected(rows: Table, onlyOnline: bool): seq<nat> {
    if rows == [] then []
    else
      var row := rows[|rows| - 1];
      Selected(rows[..|rows| - 1], onlyOnline) + if !onlyOnline || row.status == Online then [row.id] else []
  }

  /** The ids that a mass sync has to visit: of all rows, or of those that are online. */
  function IdsToVisit(rows: Table, onlyOnline: bool): set<nat> {
    set row | row in rows && (onlyOnline ==> row.status == Online) :: row.id
  }

  lemma IdsToVisitGrow(rows: Table, row: Row, onlyOnline: bool)
    ensures IdsToVisit(rows + [row], onlyOnline)
         == IdsToVisit(rows, onlyOnline) + if onlyOnline ==> row.status == Online then {row.id} else {}
  {
    forall x | x in rows + [row] && (onlyOnline ==> x.status == Online)
      ensures x == row || x.id in IdsToVisit(rows, onlyOnline)
    {
    }
    forall id | id in IdsToVisit(rows, onlyOnline) ensures id in IdsToVisit(rows + [row], onlyOnline) {
      var x :| x in rows && (onlyOnline ==> x.status == Online) && x.id == id;
      assert x in rows + [row];
    }
    assert row in rows + [row];
  }

  lemma {:induction false} SelectedIds(rows: Table, onlyOnline: bool, id: nat)
    ensures id in Selected(rows, onlyOnline) <==> id in IdsToVisit(rows, onlyOnline)
  {
    if rows != [] {
      var n := |rows| - 1;
      SelectedIds(rows[..n], onlyOnline, id);
      IdsToVisitGrow(rows[..n], rows[n], onlyOnline);
      assert rows == rows[..n] + [rows[n]];
    }
  }

  lemma {:induction false} SelectedBelow(rows: Table, onlyOnline: bool, bound: nat)
    requires forall row :: row in rows ==> row.id < bound
    ensures forall id :: id in Selected(rows, onlyOnline) ==> id < bound
  {
    if rows != [] {
      SelectedBelow(rows[..|rows| - 1], onlyOnline, bound);
    }
  }

  predicate Ascending(ids: seq<nat>) {
    forall j, k :: 0 <= j < k < |ids| ==> ids[j] < ids[k]
  }

  lemma AscendingSnoc(ids: seq<nat>, id: nat)
    requires Ascending(ids) && forall x :: x in ids ==> x < id
    ensures Ascending(ids + [id])
  {
    var more := ids + [id];
    forall j, k | 0 <= j < k < |more| ensures more[j] < more[k] {
      assert more[j] == ids[j] && ids[j] in ids;
    }
  }

  lemma {:induction false} SelectedAscends(rows: Table, onlyOnline: bool)
    requires Valid(rows)
    ensures Ascending(Selected(rows, onlyOnline))
  {
    if rows != [] {
      var n := |rows| - 1;
      SelectedAscends(rows[..n], onlyOnline);
      SelectedBelow(rows[..n], onlyOnline, rows[n].id);
      AscendingSnoc(Selected(rows[..n], onlyOnline), rows[n].id);
    }
  }

  /** It visits them, each once and in ascending order. */
  lemma SelectedMeans(rows: Table, onlyOnline: bool)
    requires Valid(rows)
    ensures Ascending(Selected(rows, onlyOnline))
    ensures forall id :: id in Selected(rows, onlyOnline) <==> id in IdsToVisit(rows, onlyOnline)
  {
    forall id ensures id in Selected(rows, onlyOnline) <==> id in IdsToVisit(rows, onlyOnline) {
      SelectedIds(rows, onlyOnline, id);
    }
    SelectedAscends(rows, onlyOnline);
  }

  function SyncEvents(ids: seq<nat>, inputs: seq<SyncInput>, n: nat): seq<Event>
    requires n <= |ids| == |inputs|
  {
    seq(n, i requires 0 <= i < n => Sync(ids[i], inputs[i]))
  }

  // ---------- The Ingester ----------

  class CapacityMonitor {
    var endpoints: Endpoints
    var priorities: Priorities

    constructor (endpoints: Endpoints, priorities: Priorities)
      ensures this.endpoints == endpoints && this.priorities == priorities
    {
      this.endpoints, this.priorities := endpoints, priorities;
    }

    /** Elements without a name or URL, unavailable or read-only ones are skipped. */
    static method FetchEndpointsFromRedis(config: Option<Config>, ghost rows: Table)
      returns (endpoints: Endpoints, priorities: Priorities)
      requires Agrees(config, rows) ==> Valid(rows)
      ensures Agrees(config, rows) ==> ExactlyTargets(endpoints, priorities, rows)
      ensures Agrees(config, rows) ==> EndpointsMean(endpoints, priorities, rows)
      ensures config.None? ==> endpoints == map[] && priorities == map[]
    {
      endpoints, priorities := map[], map[];
      if config.None? {
        return;
      }
      var elements := config.value.elements;
      var i := 0;
      while i < |elements|
        invariant 0 <= i <= |elements|
        invariant Agrees(config, rows) ==> ExactlyTargets(endpoints, priorities, rows[..i])
      {
        var e := elements[i];
        if Agrees(config, rows) {
          RowAt(config.value, rows, i, endpoints, priorities);
        }
        i := i + 1;
        if e.row.elementId.None? || e.row.elementId.value == "" || e.row.apiUrl == "" {
          continue;
        }
        if !e.isAvailable {
          continue;
        }
        if e.row.mode !in {Edit, Rw} {
          continue;
        }
        endpoints := endpoints[e.row.elementId.value := e.row.apiUrl];
        priorities := priorities[e.row.elementId.value := e.row.priority];
      }
      assert Agrees(config, rows) ==> rows[..i] == rows;
      if Agrees(config, rows) {
        TargetsMean(endpoints, priorities, rows);
      }
    }

    /**
    The last known endpoints are replaced only by a non-empty answer, of Redis first and else of the fallback. So
    when the last writable element goes away, the monitor goes on using it.
    */
    method Reload(config: Option<Config>, fallback: (Endpoints, Priorities), ghost rows: Table)
      requires Valid(rows)
      modifies this
      ensures Agrees(config, rows) && HasTargets(rows) ==> ExactlyTargets(endpoints, priorities, rows)
      ensures (Agrees(config, rows) && !HasTargets(rows)) || config.None? ==>
                if fallback.0 != map[] then (endpoints, priorities) == fallback
                else endpoints == old(endpoints) && priorities == old(priorities)
      ensures Agrees(config, rows) && fallback.0 == map[] ==>
                (ExactlyTargets(endpoints, priorities, rows)
                 <==> HasTargets(rows) || (old(endpoints) == map[] && old(priorities) == map[]))
    {
      var found, ranks := FetchEndpointsFromRedis(config, rows);
      if Agrees(config, rows) {
        EmptyIffNoTargets(found, ranks, rows);
      }
      if found == map[] {
        found, ranks := fallback.0, fallback.1;
      }
      if found != map[] {
        endpoints, priorities := found, ranks;
      }
      if Agrees(config, rows) && ExactlyTargets(endpoints, priorities, rows) {
        EmptyIffNoTargets(endpoints, priorities, rows);
      }
    }
  }

  /** The row is an online element of mode edit or rw, with a name and a URL. */
  predicate CanTakeFiles(row: Row) {
    && row.status == Online && row.mode in {Edit, Rw}
    && row.elementId.Some? && row.elementId.value != "" && row.apiUrl != ""
  }

  /** Each such element is there under its name, with its URL and priority, and nothing else is. */
  ghost predicate EndpointsMean(endpoints: Endpoints, priorities: Priorities, rows: Table) {
    && (forall i :: 0 <= i < |rows| && CanTakeFiles(rows[i]) ==>
          var id := rows[i].elementId.value;
          && id in endpoints && endpoints[id] == rows[i].apiUrl
          && id in priorities && priorities[id] == rows[i].priority)
    && (forall id :: id in endpoints || id in priorities ==>
          exists i :: 0 <= i < |rows| && CanTakeFiles(rows[i]) && rows[i].elementId == Some(id))
  }

  lemma TargetsMean(endpoints: Endpoints, priorities: Priorities, rows: Table)
    requires ExactlyTargets(endpoints, priorities, rows)
    ensures EndpointsMean(endpoints, priorities, rows)
  {
    forall id | id in endpoints || id in priorities
      ensures exists i :: 0 <= i < |rows| && CanTakeFiles(rows[i]) && rows[i].elementId == Some(id)
    {
      var i :| 0 <= i < |rows| && IsTarget(rows[i]) && rows[i].elementId == Some(id);
      assert CanTakeFiles(rows[i]);
    }
  }

  predicate HasTargets(rows: Table) {
    exists i :: 0 <= i < |rows| && IsTarget(rows[i])
  }

  lemma EmptyIffNoTargets(endpoints: Endpoints, priorities: Priorities, rows: Table)
    requires ExactlyTargets(endpoints, priorities, rows)
    ensures endpoints == map[] <==> !HasTargets(rows)
  {
  }

  lemma AddTarget(rows: Table, row: Row, e: Endpoints, p: Priorities)
    requires ExactlyTargets(e, p, rows) && IsTarget(row)
    requires forall j :: 0 <= j < |rows| && rows[j].elementId.Some? ==> rows[j].elementId != row.elementId
    ensures ExactlyTargets(e[row.elementId.value := row.apiUrl], p[row.elementId.value := row.priority], rows + [row])
  {
    var more := rows + [row];
    var e2 := e[row.elementId.value := row.apiUrl];
    forall id | id in e2 ensures exists j :: 0 <= j < |more| && IsTarget(more[j]) && more[j].elementId == Some(id) {
      if id == row.elementId.value {
        assert more[|rows|] == row;
      } else {
        var j :| 0 <= j < |rows| && IsTarget(rows[j]) && rows[j].elementId == Some(id);
        assert more[j] == rows[j];
      }
    }
  }

  lemma SkipRow(rows: Table, row: Row, e: Endpoints, p: Priorities)
    requires ExactlyTargets(e, p, rows) && !IsTarget(row)
    ensures ExactlyTargets(e, p, rows + [row])
  {
    var more := rows + [row];
    forall id | id in e ensures exists j :: 0 <= j < |more| && IsTarget(more[j]) && more[j].elementId == Some(id) {
      var j :| 0 <= j < |rows| && IsTarget(rows[j]) && rows[j].elementId == Some(id);
      assert more[j] == rows[j];
    }
  }

  /** What the loop does with entry `i` is what row `i` asks for. */
  lemma RowAt(config: Config, rows: Table, i: nat, e: Endpoints, p: Priorities)
    requires Valid(rows) && Agrees(Some(config), rows) && i < |rows|
    requires ExactlyTargets(e, p, rows[..i])
    ensures var x := config.elements[i];
            if x.row.elementId.Some? && x.row.elementId.value != "" && x.row.apiUrl != "" && x.isAvailable
               && x.row.mode in {Edit, Rw}
            then ExactlyTargets(e[x.row.elementId.value := x.row.apiUrl], p[x.row.elementId.value := x.row.priority],
                                rows[..i + 1])
            else ExactlyTargets(e, p, rows[..i + 1])
  {
    var x := config.elements[i];
    assert Timeless(x.row) == Timeless(rows[i]) && x.isAvailable == (rows[i].status == Online);
    assert x.row.elementId == rows[i].elementId && x.row.apiUrl == rows[i].apiUrl && x.row.mode == rows[i].mode
           && x.row.priority == rows[i].priority;
    assert rows[..i + 1] == rows[..i] + [rows[i]];
    if IsTarget(rows[i]) {
      AddTarget(rows[..i], rows[i], e, p);
    } else {
      SkipRow(rows[..i], rows[i], e, p);
    }
  }

  // ---------- From the database to the Ingester ----------

  lemma {:induction false} RunKeepsValid(r: Registry, events: seq<Event>)
    requires Valid(r.rows) && forall e :: e in events && e.Edited? ==> Valid(e.rows)
    ensures Valid(ServiceDiscovery.After(r, events).rows)
  {
    if events != [] {
      var n := |events| - 1;
      assert events[n] in events;
      RunKeepsValid(r, events[..n]);
      var before := ServiceDiscovery.After(r, events[..n]);
      if events[n].Sync? && Position(before.rows, events[n].id).Some? {
        SyncKeepsValid(before, Position(before.rows, events[n].id).value, events[n].input);
      }
    }
  }

  // ---------- Read-only and unavailable elements ----------

  /** Event `k` is a sync of this element that stored its report, and no later event stored another or edited rows. */
  ghost predicate LastReport(r: Registry, events: seq<Event>, k: nat, id: nat, info: Info) {
    && k < |events| && events[k].Sync? && events[k].id == id && events[k].input.discovery == Found(info)
    && Stores(ServiceDiscovery.After(r, events[..k]), events[k])
    && forall j :: k < j < |events| ==>
         && !events[j].Edited?
         && (events[j].Sync? && events[j].id == id && Stores(ServiceDiscovery.After(r, events[..j]), events[j]) ==>
               !events[j].input.discovery.Found?)
  }

  /** The sync commits a row. */
  predicate Stores(r: Registry, e: Event)
    requires e.Sync?
  {
    var k := Position(r.rows, e.id);
    k.Some? && CommittedRow(r.rows, k.value, e.input).Some?
  }

  predicate RowStillReported(row: Row, info: Info) {
    && row.elementId == Some(info.elementId)
    && (info.mode in {"ro", "ar"} ==> row.mode in {Ro, Ar})
    && (info.status in {"offline", "degraded", "maintenance"} ==> row.status != Online)
  }

  /** The row of the element still says what it reported, or has been marked offline since. */
  ghost predicate StillReported(rows: Table, id: nat, info: Info) {
    exists i :: 0 <= i < |rows| && rows[i].id == id && RowStillReported(rows[i], info)
  }

  lemma ReportIsStored(r: Registry, e: Event, info: Info)
    requires e.Sync? && e.input.discovery == Found(info) && Stores(r, e)
    ensures StillReported(Next(r, e).rows, e.id, info)
  {
    var k := Position(r.rows, e.id).value;
    AppliedMeans(r.rows[k], info, e.input.now);
    assert Next(r, e).rows[k] == Applied(r.rows[k], info, e.input.now);
  }

  lemma ReportStays(r: Registry, e: Event, id: nat, info: Info)
    requires Valid(r.rows) && StillReported(r.rows, id, info) && !e.Edited?
    requires e.Sync? && e.id == id && Stores(r, e) ==> !e.input.discovery.Found?
    ensures StillReported(Next(r, e).rows, id, info)
  {
    var i :| 0 <= i < |r.rows| && r.rows[i].id == id && RowStillReported(r.rows[i], info);
    var n := Next(r, e);
    assert |n.rows| == |r.rows|;
    if e.Sync? && e.id == id && Stores(r, e) {
      assert Position(r.rows, id).value == i;
      assert n.rows[i] == r.rows[i].(status := Offline, lastHealthCheck := Some(e.input.now));
    } else {
      assert n.rows[i] == r.rows[i];
    }
  }

  lemma {:induction false} LastReportStays(r: Registry, events: seq<Event>, k: nat, id: nat, info: Info)
    requires Valid(r.rows) && (forall e :: e in events && e.Edited? ==> Valid(e.rows))
    requires LastReport(r, events, k, id, info)
    ensures StillReported(ServiceDiscovery.After(r, events).rows, id, info)
    decreases |events|
  {
    var n := |events| - 1;
    var before := ServiceDiscovery.After(r, events[..n]);
    if k == n {
      ReportIsStored(before, events[n], info);
    } else {
      forall j | 0 <= j <= n - 1 ensures events[..n][..j] == events[..j] && events[..n][j] == events[j] {
      }
      RunKeepsValid(r, events[..n]);
      LastReportStays(r, events[..n], k, id, info);
      ReportStays(before, events[n], id, info);
    }
  }

  /** An element that last reported itself read-only, archived or not operational is nobody's endpoint. */
  lemma ReportedAwayIsNoEndpoint(r: Registry, events: seq<Event>, k: nat, id: nat, info: Info,
                                 endpoints: Endpoints, priorities: Priorities)
    requires Valid(r.rows) && (forall e :: e in events && e.Edited? ==> Valid(e.rows))
    requires LastReport(r, events, k, id, info)
    requires info.mode in {"ro", "ar"} || info.status in {"offline", "degraded", "maintenance"}
    requires ExactlyTargets(endpoints, priorities, ServiceDiscovery.After(r, events).rows)
    ensures info.elementId !in endpoints && info.elementId !in priorities
  {
    var rows := ServiceDiscovery.After(r, events).rows;
    LastReportStays(r, events, k, id, info);
    RunKeepsValid(r, events);
    TargetsMean(endpoints, priorities, rows);
    forall j | 0 <= j < |rows| && rows[j].elementId == Some(info.elementId) ensures !CanTakeFiles(rows[j]) {
    }
  }

  /**
  End to end: after any run of syncs, scheduled publications and edits that loses no publication, what the Ingester
  reads from Redis is exactly the writable elements of the database.
  */
  method EndpointsAfterRun(r: Registry, events: seq<Event>) returns (endpoints: Endpoints, priorities: Priorities)
    requires Valid(r.rows) && (forall e :: e in events && e.Edited? ==> Valid(e.rows))
    requires Agrees(r.config, r.rows) && NothingLost(r, events)
    ensures ExactlyTargets(endpoints, priorities, ServiceDiscovery.After(r, events).rows)
    ensures EndpointsMean(endpoints, priorities, ServiceDiscovery.After(r, events).rows)
    ensures forall k, id, info | LastReport(r, events, k, id, info) ::
      (info.mode in {"ro", "ar"} || info.status in {"offline", "degraded", "maintenance"}) ==>
        info.elementId !in endpoints
  {
    RunKeepsValid(r, events);
    ConfigAgreesOverRuns(r, events);
    var last := ServiceDiscovery.After(r, events);
    endpoints, priorities := CapacityMonitor.FetchEndpointsFromRedis(last.config, last.rows);
    forall k, id, info | LastReport(r, events, k, id, info)
                      && (info.mode in {"ro", "ar"} || info.status in {"offline", "degraded", "maintenance"})
      ensures info.elementId !in endpoints
    {
      ReportedAwayIsNoEndpoint(r, events, k, id, info, endpoints, priorities);
    }
  }
}
