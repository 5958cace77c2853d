/**
Storage Element rows, what a sync does to them, the configuration published from them, and the endpoints an
Ingester builds from that configuration.
*/
module ServiceDiscovery {
  import opened Wrappers
  import opened Cleanup

  type Instant = int

  datatype Mode = Edit | Rw | Ro | Ar

  datatype Row = Row(
    id: nat,
    name: string,
    apiUrl: string,
    mode: Mode,
    storageType: string,
    status: StorageStatus,
    basePath: string,
    capacity: Option<int>,
    used: int,
    fileCount: int,
    retentionDays: Option<int>,
    priority: int,
    elementId: Option<string>,
    lastHealthCheck: Option<Instant>)
  {
    predicate IsAvailable() {
      status == Online
    }

    predicate IsWritable() {
      mode in {Edit, Rw} && IsAvailable()
    }
  }

  type Table = seq<Row>

  /** Primary key order, and the UNIQUE constraint on `element_id`, where NULLs do not collide. */
  predicate Valid(rows: Table) {
    && (forall i, j :: 0 <= i < j < |rows| ==> rows[i].id < rows[j].id)
    && (forall i, j :: 0 <= i < j < |rows| && rows[i].elementId.Some? ==> rows[i].elementId != rows[j].elementId)
  }

  /** Tables grow from the empty one by rows with a higher key and a new element id, or none. */
  lemma GrownIsValid(rows: Table, row: Row)
    requires Valid(rows)
    requires forall i :: 0 <= i < |rows| ==> rows[i].id < row.id
    requires forall i :: 0 <= i < |rows| ==> row.elementId.None? || rows[i].elementId != row.elementId
    ensures Valid([]) && Valid(rows + [row])
  {
    var more := rows + [row];
    assert forall i :: 0 <= i < |rows| ==> more[i] == rows[i];
  }

  // ---------- Discovery and diff ----------

  /** What an element says about itself. */
  datatype Info = Info(
    mode: string, status: string, capacity: int, used: int, fileCount: int, priority: int, elementId: string)

  /** An unknown status counts as online. */
  function MapStatus(status: string): StorageStatus {
    if status == "operational" then Online
    else if status == "degraded" then Degraded
    else if status == "maintenance" then Maintenance
    else if status == "offline" then Offline
    else Online
  }

  /** An unknown mode counts as read-write. */
  function MapMode(mode: string): Mode {
    if mode == "edit" then Edit
    else if mode == "rw" then Rw
    else if mode == "ro" then Ro
    else if mode == "ar" then Ar
    else Rw
  }

  function Applied(row: Row, info: Info, now: Instant): Row {
    row.(mode := MapMode(info.mode), status := MapStatus(info.status), capacity := Some(info.capacity),
         used := info.used, fileCount := info.fileCount, priority := info.priority,
         elementId := Some(info.elementId), lastHealthCheck := Some(now))
  }

  /** The texts under which modes and statuses are stored and published. */
  function ModeText(mode: Mode): string {
    match mode
    case Edit => "edit"
    case Rw => "rw"
    case Ro => "ro"
    case Ar => "ar"
  }

  function StatusText(status: StorageStatus): string {
    match status
    case Online => "online"
    case Offline => "offline"
    case Degraded => "degraded"
    case Maintenance => "maintenance"
  }

  /** The row says what the element said, column by column; what the element does not report is as it was. */
  predicate RowAsReported(before: Row, info: Info, now: Instant, after: Row) {
    && (if info.mode in {"edit", "rw", "ro", "ar"} then ModeText(after.mode) == info.mode else after.mode == Rw)
    && (if info.status in {"offline", "degraded", "maintenance"} then StatusText(after.status) == info.status
        else after.status == Online)
    && after.capacity == Some(info.capacity) && after.used == info.used && after.fileCount == info.fileCount
    && after.priority == info.priority && after.elementId == Some(info.elementId) && after.lastHealthCheck == Some(now)
    && after.id == before.id && after.name == before.name && after.apiUrl == before.apiUrl
    && after.storageType == before.storageType && after.basePath == before.basePath
    && after.retentionDays == before.retentionDays
  }

  lemma AppliedMeans(row: Row, info: Info, now: Instant)
    ensures RowAsReported(row, info, now, Applied(row, info, now))
  {
  }

  datatype Field = ModeField | StatusField | CapacityField | UsedField | FileCountField | PriorityField | ElementIdField

  datatype Value =
    | OfMode(mode: Mode)
    | OfStatus(status: StorageStatus)
    | OfNumber(number: Option<int>)
    | OfText(text: Option<string>)

  function Get(row: Row, f: Field): Value {
    match f
    case ModeField => OfMode(row.mode)
    case StatusField => OfStatus(row.status)
    case CapacityField => OfNumber(row.capacity)
    case UsedField => OfNumber(Some(row.used))
    case FileCountField => OfNumber(Some(row.fileCount))
    case PriorityField => OfNumber(Some(row.priority))
    case ElementIdField => OfText(row.elementId)
  }

  datatype Change = Change(field: Field, before: Value, after: Value)

  /** A change names a column and has its old and its new value. */
  predicate ChangeMeans(c: Change, before: Row, after: Row) {
    match c.field
    case ModeField => c.before == OfMode(before.mode) && c.after == OfMode(after.mode)
    case StatusField => c.before == OfStatus(before.status) && c.after == OfStatus(after.status)
    case CapacityField => c.before == OfNumber(before.capacity) && c.after == OfNumber(after.capacity)
    case UsedField => c.before == OfNumber(Some(before.used)) && c.after == OfNumber(Some(after.used))
    case FileCountField => c.before == OfNumber(Some(before.fileCount)) && c.after == OfNumber(Some(after.fileCount))
    case PriorityField => c.before == OfNumber(Some(before.priority)) && c.after == OfNumber(Some(after.priority))
    case ElementIdField => c.before == OfText(before.elementId) && c.after == OfText(after.elementId)
  }

  lemma DiffMeans(changes: seq<Change>, before: Row, after: Row)
    requires IsDiff(changes, before, after)
    ensures forall c :: c in changes ==> ChangeMeans(c, before, after)
    ensures before.mode != after.mode ==> exists c :: c in changes && c.field == ModeField
    ensures before.status != after.status ==> exists c :: c in changes && c.field == StatusField
    ensures before.capacity != after.capacity ==> exists c :: c in changes && c.field == CapacityField
    ensures before.used != after.used ==> exists c :: c in changes && c.field == UsedField
    ensures before.fileCount != after.fileCount ==> exists c :: c in changes && c.field == FileCountField
    ensures before.priority != after.priority ==> exists c :: c in changes && c.field == PriorityField
    ensures before.elementId != after.elementId ==> exists c :: c in changes && c.field == ElementIdField
  {
    forall f | Get(before, f) != Get(after, f) ensures exists c :: c in changes && c.field == f {
      assert Change(f, Get(before, f), Get(after, f)) in changes;
    }
    assert before.mode != after.mode ==> Get(before, ModeField) != Get(after, ModeField);
    assert before.status != after.status ==> Get(before, StatusField) != Get(after, StatusField);
    assert before.capacity != after.capacity ==> Get(before, CapacityField) != Get(after, CapacityField);
    assert before.used != after.used ==> Get(before, UsedField) != Get(after, UsedField);
    assert before.fileCount != after.fileCount ==> Get(before, FileCountField) != Get(after, FileCountField);
    assert before.priority != after.priority ==> Get(before, PriorityField) != Get(after, PriorityField);
    assert before.elementId != after.elementId ==> Get(before, ElementIdField) != Get(after, ElementIdField);
  }

  /** `changes` lists exactly the fields in which two rows differ, each once, with both values. */
  predicate IsDiff(changes: seq<Change>, before: Row, after: Row) {
    && (forall c :: c in changes ==>
          c.before == Get(before, c.field) && c.after == Get(after, c.field) && c.before != c.after)
    && (forall f {:trigger Get(before, f)} :: Get(before, f) != Get(after, f) ==>
          Change(f, Get(before, f), Get(after, f)) in changes)
    && (forall i, j :: 0 <= i < j < |changes| ==> changes[i].field != changes[j].field)
  }

  // ---------- The published configuration ----------

  datatype Entry = Entry(row: Row, isWritable: bool, isAvailable: bool)

  datatype Config = Config(version: nat, timestamp: Instant, count: nat, elements: seq<Entry>)

  function EntryOf(row: Row): Entry {
    Entry(row, row.mode in {Edit, Rw} && row.status == Online, row.status == Online)
  }

  /** Everything but the time of the last health check. */
  function Timeless(row: Row): Row {
    row.(lastHealthCheck := None)
  }

  predicate SameButChecks(rows: Table, others: Table) {
    |rows| == |others| && forall i :: 0 <= i < |rows| ==> Timeless(rows[i]) == Timeless(others[i])
  }

  /** The configuration was built from these rows. */
  predicate BuiltFrom(config: Config, rows: Table) {
    && config.count == |rows| == |config.elements|
    && forall i :: 0 <= i < |rows| ==> config.elements[i] == EntryOf(rows[i])
  }

  /** The configuration says what the database says, up to health check times, version and timestamp. */
  predicate Agrees(config: Option<Config>, rows: Table) {
    && config.Some?
    && config.value.count == |rows| == |config.value.elements|
    && forall i :: 0 <= i < |rows| ==>
         var e := config.value.elements[i];
         Entry(Timeless(e.row), e.isWritable, e.isAvailable) == EntryOf(Timeless(rows[i]))
  }

  lemma BuiltAgreesIff(config: Config, built: Table, rows: Table)
    requires BuiltFrom(config, built)
    ensures Agrees(Some(config), rows) <==> SameButChecks(built, rows)
  {
  }

  // ---------- One sync ----------

  /** What came of the request to the element. */
  datatype Discovery = Found(info: Info) | DiscoveryError | OtherError

  /** What came of one publication: no read, no store, a store, a store followed by a failing notification. */
  datatype Publication = Unread | Unstored | Stored(subscribers: nat) | StoredThenFailed {
    predicate Reaches() {
      Stored? || StoredThenFailed?
    }
  }

  datatype Registry = Registry(rows: Table, config: Option<Config>, version: nat)

  function ConfigOf(rows: Table, version: nat, now: Instant): Config {
    Config(version, now, |rows|, seq(|rows|, i requires 0 <= i < |rows| => EntryOf(rows[i])))
  }

  function Published(r: Registry, p: Publication, now: Instant): Registry {
    if p.Unread? then r
    else
      r.(version := r.version + 1,
         config := if p.Reaches() then Some(ConfigOf(r.rows, r.version + 1, now)) else r.config)
  }

  /** The commit violates UNIQUE(element_id). */
  predicate Collides(rows: Table, k: nat, row: Row)
    requires k < |rows|
  {
    row.elementId.Some? && exists i :: 0 <= i < |rows| && i != k && rows[i].elementId == row.elementId
  }

  /** All inputs of one sync that the code does not decide. */
  datatype SyncInput = SyncInput(discovery: Discovery, commitFails: bool, publication: Publication, now: Instant)

  /** The row a sync commits, if it commits one. */
  function CommittedRow(rows: Table, k: nat, x: SyncInput): Option<Row>
    requires k < |rows|
  {
    match x.discovery
    case Found(info) =>
      var row := Applied(rows[k], info, x.now);
      if x.commitFails || Collides(rows, k, row) then None else Some(row)
    case DiscoveryError =>
      if x.commitFails then None else Some(rows[k].(status := Offline, lastHealthCheck := Some(x.now)))
    case OtherError => None
  }

  /** An empty diff is not published; a failed discovery always is. */
  predicate Announces(row: Row, x: SyncInput) {
    match x.discovery
    case Found(info) => exists f :: Get(row, f) != Get(Applied(row, info, x.now), f)
    case DiscoveryError => true
    case OtherError => false
  }

  function Synced(r: Registry, k: nat, x: SyncInput): Registry
    requires k < |r.rows|
  {
    var committed := CommittedRow(r.rows, k, x);
    if committed.None? then r
    else
      var saved := r.(rows := r.rows[k := committed.value]);
      if Announces(r.rows[k], x) then Published(saved, x.publication, x.now) else saved
  }

  /** The diff is empty exactly when nothing that is published would change. */
  lemma EmptyDiffIffSameProjection(row: Row, info: Info, now: Instant)
    ensures (forall f :: Get(row, f) == Get(Applied(row, info, now), f))
            <==> Timeless(row) == Timeless(Applied(row, info, now))
  {
    var after := Applied(row, info, now);
    if forall f :: Get(row, f) == Get(after, f) {
      assert Get(row, ModeField) == Get(after, ModeField);
      assert Get(row, StatusField) == Get(after, StatusField);
      assert Get(row, CapacityField) == Get(after, CapacityField);
      assert Get(row, UsedField) == Get(after, UsedField);
      assert Get(row, FileCountField) == Get(after, FileCountField);
      assert Get(row, PriorityField) == Get(after, PriorityField);
      assert Get(row, ElementIdField) == Get(after, ElementIdField);
    } else {
      var f :| Get(row, f) != Get(after, f);
      assert Get(Timeless(row), f) == Get(row, f) && Get(Timeless(after), f) == Get(after, f) by {
        match f
        case _ =>
      }
    }
  }

  /** A sync keeps the primary keys and the UNIQUE constraint. */
  lemma SyncKeepsValid(r: Registry, k: nat, x: SyncInput)
    requires k < |r.rows| && Valid(r.rows)
    ensures Valid(Synced(r, k, x).rows)
  {
  }

  /** Repeating a sync with the same answer changes nothing but the health check time, and publishes nothing. */
  lemma SyncIsIdempotent(r: Registry, k: nat, x: SyncInput, again: SyncInput)
    requires k < |r.rows| && x.discovery.Found? && again.discovery == x.discovery
    requires CommittedRow(r.rows, k, x).Some?
    ensures var once := Synced(r, k, x);
            var twice := Synced(once, k, again);
            && SameButChecks(once.rows, twice.rows)
            && twice.config == once.config && twice.version == once.version
  {
  }

  // ---------- Runs ----------

  datatype Event =
    | Sync(id: nat, input: SyncInput)
    | Publish(publication: Publication, at: Instant)
    | Edited(rows: Table, edit: Publication, when: Instant)

  function Position(rows: Table, id: nat): (p: Option<nat>)
    ensures p.Some? ==> p.value < |rows| && rows[p.value].id == id
    ensures p.None? ==> forall i :: 0 <= i < |rows| ==> rows[i].id != id
  {
    if rows == [] then None
    else if rows[|rows| - 1].id == id then Some(|rows| - 1)
    else
      var before := Position(rows[..|rows| - 1], id);
      assert before.None? ==> forall i :: 0 <= i < |rows| - 1 ==> rows[..|rows| - 1][i] == rows[i];
      before
  }

  /** Create, update and delete through the API publish after their commit. */
  function Next(r: Registry, e: Event): Registry {
    match e
    case Sync(id, input) =>
      if Position(r.rows, id).None? then r else Synced(r, Position(r.rows, id).value, input)
    case Publish(p, at) => Published(r, p, at)
    case Edited(rows, p, when_) => Published(r.(rows := rows), p, when_)
  }

  function After(r: Registry, events: seq<Event>): Registry {
    if events == [] then r else Next(After(r, events[..|events| - 1]), events[|events| - 1])
  }

  /** Whether the event tried to publish, and whether the configuration reached Redis. */
  function PublicationOf(r: Registry, e: Event): Option<Publication> {
    match e
    case Sync(id, input) =>
      var k := Position(r.rows, id);
      if k.Some? && CommittedRow(r.rows, k.value, input).Some? && Announces(r.rows[k.value], input)
      then Some(input.publication) else None
    case Publish(p, _) => Some(p)
    case Edited(_, p, _) => Some(p)
  }

  predicate Delivers(r: Registry, e: Event) {
    PublicationOf(r, e).Some? && PublicationOf(r, e).value.Reaches()
  }

  /** A publication that had something new to say did not reach Redis. */
  predicate Loses(r: Registry, e: Event) {
    && PublicationOf(r, e).Some? && !PublicationOf(r, e).value.Reaches()
    && !SameButChecks(r.rows, Next(r, e).rows)
  }

  lemma ConfigIsBuilt(rows: Table, version: nat, now: Instant)
    ensures BuiltFrom(ConfigOf(rows, version, now), rows)
    ensures Agrees(Some(ConfigOf(rows, version, now)), rows)
  {
  }

  lemma SilentSyncKeepsProjection(r: Registry, k: nat, x: SyncInput)
    requires k < |r.rows| && !Announces(r.rows[k], x)
    ensures SameButChecks(r.rows, Synced(r, k, x).rows)
  {
    if x.discovery.Found? {
      EmptyDiffIffSameProjection(r.rows[k], x.discovery.info, x.now);
    }
  }

  lemma AgreesUpToChecks(config: Option<Config>, rows: Table, others: Table)
    requires Agrees(config, rows) && SameButChecks(rows, others)
    ensures Agrees(config, others)
  {
  }

  /** Without a delivery the configuration stays, and without an attempt so does what it should say. */
  lemma QuietEvent(r: Registry, e: Event)
    requires !Delivers(r, e)
    ensures Next(r, e).config == r.config
    ensures PublicationOf(r, e).None? ==> SameButChecks(r.rows, Next(r, e).rows)
  {
    if e.Sync? {
      var k := Position(r.rows, e.id);
      if k.Some? && CommittedRow(r.rows, k.value, e.input).Some? && PublicationOf(r, e).None? {
        SilentSyncKeepsProjection(r, k.value, e.input);
      }
    }
  }

  /** One event: a delivered publication makes the configuration agree, and silence is sound. */
  lemma EventKeepsAgreement(r: Registry, e: Event)
    ensures Delivers(r, e) ==> Agrees(Next(r, e).config, Next(r, e).rows)
    ensures Agrees(r.config, r.rows) && !Loses(r, e) ==> Agrees(Next(r, e).config, Next(r, e).rows)
  {
    var n := Next(r, e);
    if Delivers(r, e) {
      ConfigIsBuilt(n.rows, r.version + 1, n.config.value.timestamp);
    } else if Agrees(r.config, r.rows) && !Loses(r, e) {
      QuietEvent(r, e);
      AgreesUpToChecks(r.config, r.rows, n.rows);
    }
  }

  predicate NothingLost(r: Registry, events: seq<Event>) {
    forall k :: 0 <= k < |events| ==> !Loses(After(r, events[..k]), events[k])
  }

  /**
  Over every run of syncs, scheduled publications and edits that loses no publication with something new to say, the
  Redis configuration agrees with the database, although a sync with an empty diff publishes nothing.
  */
  lemma {:induction false} ConfigAgreesOverRuns(r: Registry, events: seq<Event>)
    requires Agrees(r.config, r.rows) && NothingLost(r, events)
    ensures Agrees(After(r, events).config, After(r, events).rows)
  {
    if events != [] {
      var n := |events| - 1;
      forall k | 0 <= k < n ensures !Loses(After(r, events[..n][..k]), events[..n][k]) {
        assert events[..n][..k] == events[..k];
      }
      ConfigAgreesOverRuns(r, events[..n]);
      EventKeepsAgreement(After(r, events[..n]), events[n]);
    }
  }

  /** What the database held when a publication was last delivered. */
  function LastDelivered(r: Registry, events: seq<Event>): Option<Table> {
    if events == [] then None
    else
      var before := After(r, events[..|events| - 1]);
      var e := events[|events| - 1];
      if Delivers(before, e) then Some(Next(before, e).rows) else LastDelivered(r, events[..|events| - 1])
  }

  /** The configuration is the one last delivered, or the one from the start. */
  lemma {:induction false} ConfigIsLastDelivered(r: Registry, events: seq<Event>)
    ensures
      var config := After(r, events).config;
      match LastDelivered(r, events)
      case Some(rows) => config.Some? && BuiltFrom(config.value, rows)
      case None => config == r.config
  {
    if events != [] {
      var n := |events| - 1;
      var before := After(r, events[..n]);
      ConfigIsLastDelivered(r, events[..n]);
      if Delivers(before, events[n]) {
        ConfigIsBuilt(Next(before, events[n]).rows, before.version + 1, After(r, events).config.value.timestamp);
      } else {
        QuietEvent(before, events[n]);
      }
    }
  }

  /**
  Over every run the configuration agrees with the database iff nothing that is published has changed, on the whole,
  since a publication was last delivered, or since the start if none was and the configuration agreed then.
  */
  lemma ConfigAgreesIff(r: Registry, events: seq<Event>)
    ensures
      var after := After(r, events);
      Agrees(after.config, after.rows) <==>
        match LastDelivered(r, events)
        case Some(rows) => SameButChecks(rows, after.rows)
        case None => Agrees(r.config, after.rows)
  {
    ConfigIsLastDelivered(r, events);
    var after := After(r, events);
    if LastDelivered(r, events).Some? {
      BuiltAgreesIff(after.config.value, LastDelivered(r, events).value, after.rows);
    }
  }

  predicate SilentSyncs(r: Registry, events: seq<Event>) {
    forall k :: 0 <= k < |events| ==> events[k].Sync? && PublicationOf(After(r, events[..k]), events[k]).None?
  }

  /** Syncs that find nothing new never repair it: the publish error was swallowed and is not remembered. */
  lemma {:induction false} SilentSyncsNeverRepair(r: Registry, events: seq<Event>)
    requires SilentSyncs(r, events)
    ensures After(r, events).config == r.config
    ensures SameButChecks(r.rows, After(r, events).rows)
    ensures Agrees(After(r, events).config, After(r, events).rows) <==> Agrees(r.config, r.rows)
  {
    if events != [] {
      var n := |events| - 1;
      forall k | 0 <= k < n
        ensures events[..n][k].Sync? && PublicationOf(After(r, events[..n][..k]), events[..n][k]).None?
      {
        assert events[..n][..k] == events[..k];
      }
      SilentSyncsNeverRepair(r, events[..n]);
      var before := After(r, events[..n]);
      assert PublicationOf(before, events[n]).None?;
      var k := Position(before.rows, events[n].id);
      if k.Some? && CommittedRow(before.rows, k.value, events[n].input).Some? {
        SilentSyncKeepsProjection(before, k.value, events[n].input);
      }
    }
    if Agrees(r.config, r.rows) {
      AgreesUpToChecks(r.config, r.rows, After(r, events).rows);
    }
    if Agrees(r.config, After(r, events).rows) {
      AgreesUpToChecks(r.config, After(r, events).rows, r.rows);
    }
  }

  // ---------- Endpoints of an Ingester ----------

  type Endpoints = map<string, string>
  type Priorities = map<string, int>

  /** The elements an Ingester may write to. */
  predicate IsTarget(row: Row) {
    row.IsWritable() && row.elementId.Some? && row.elementId.value != "" && row.apiUrl != ""
  }

  /** The endpoint map is exactly the writable elements with a name and a URL. */
  predicate ExactlyTargets(endpoints: Endpoints, priorities: Priorities, rows: Table) {
    && endpoints.Keys == priorities.Keys
    && (forall i :: 0 <= i < |rows| && IsTarget(rows[i]) ==>
          var id := rows[i].elementId.value;
          id in endpoints && endpoints[id] == rows[i].apiUrl && priorities[id] == rows[i].priority)
    && (forall id :: id in endpoints ==>
          exists i :: 0 <= i < |rows| && IsTarget(rows[i]) && rows[i].elementId == Some(id))
  }

  /** Valid rows have one such map. */
  lemma TargetsUnique(e1: Endpoints, p1: Priorities, e2: Endpoints, p2: Priorities, rows: Table)
    requires ExactlyTargets(e1, p1, rows) && ExactlyTargets(e2, p2, rows)
    ensures e1 == e2 && p1 == p2
  {
    forall id | id in e1 ensures id in e2 && e1[id] == e2[id] && p1[id] == p2[id] {
      var i :| 0 <= i < |rows| && IsTarget(rows[i]) && rows[i].elementId == Some(id);
    }
    forall id | id in e2 ensures id in e1 {
      var i :| 0 <= i < |rows| && IsTarget(rows[i]) && rows[i].elementId == Some(id);
    }
  }
}
