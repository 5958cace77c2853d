/**
The central file registry and its event stream.

`FileService` registers, updates and soft-deletes rows of the `files` table and publishes one event
for every committed change. The Query Module folds the stream into its cache. The question answered
here is when the fold and the table agree.
*/
module FileRegistry {
  import opened Wrappers

  type FileId = nat
  type SeId = string
  type Time = int
  type Checksum = string

  datatype Retention = Temporary | Permanent

  /** Columns that are written once and only ever copied. */
  datatype Details = Details(
    originalFilename: string,
    storageFilename: string,
    compressed: bool,
    compressionAlgorithm: Option<string>,
    originalSize: Option<nat>,
    uploadSourceIp: Option<string>)

  datatype File = File(
    details: Details,
    size: nat,
    checksum: Checksum,
    contentType: Option<string>,
    uploadedBy: Option<string>,
    description: Option<string>,
    userMetadata: map<string, string>,
    retention: Retention,
    ttlExpiresAt: Option<Time>,
    ttlDays: Option<nat>,
    finalizedAt: Option<Time>,
    seId: SeId,
    storagePath: string,
    createdAt: Time,
    updatedAt: Time,
    deletedAt: Option<Time>,
    deletionReason: Option<string>)
  {
    predicate Live() {
      deletedAt.None?
    }

    /** The row can be turned into event metadata: `file_size > 0` and both optional columns are set. */
    predicate EventReady() {
      size > 0 && contentType.Some? && uploadedBy.Some?
    }
  }

  datatype RegisterRequest = RegisterRequest(
    details: Details,
    size: nat,
    checksum: Checksum,
    contentType: Option<string>,
    uploadedBy: Option<string>,
    description: Option<string>,
    userMetadata: Option<map<string, string>>,
    retention: Retention,
    ttlExpiresAt: Option<Time>,
    ttlDays: Option<nat>,
    seId: SeId,
    storagePath: string)
  {
    predicate EventReady() {
      size > 0 && contentType.Some? && uploadedBy.Some?
    }
  }

  datatype UpdateRequest = UpdateRequest(
    retention: Option<Retention>,
    seId: Option<SeId>,
    storagePath: Option<string>,
    finalizedAt: Option<Time>,
    description: Option<string>,
    userMetadata: Option<map<string, string>>)

  datatype RegistryError = AlreadyExists | DatabaseError | InvalidEventMetadata | RetentionDowngrade

  datatype DeleteReceipt = DeleteReceipt(deletedAt: Option<Time>, reason: string, already: bool)

  // ---------- Rows ----------

  function NewRow(request: RegisterRequest, now: Time): File {
    File(request.details, request.size, request.checksum, request.contentType, request.uploadedBy,
         request.description, if request.userMetadata.Some? then request.userMetadata.value else map[],
         request.retention, request.ttlExpiresAt, request.ttlDays, None,
         request.seId, request.storagePath, now, now, None, None)
  }

  /** The only rejected update: a permanent file cannot become temporary again. */
  predicate Downgrades(row: File, request: UpdateRequest) {
    row.retention == Permanent && request.retention == Some(Temporary)
  }

  function Or<T>(change: Option<T>, current: T): T {
    if change.Some? then change.value else current
  }

  /** Field updates of `update_file`; `now` is the `updated_at` the database reports after the commit. */
  function Updated(row: File, request: UpdateRequest, now: Time): File {
    var promoted := request.retention == Some(Permanent);
    row.(retention := Or(request.retention, row.retention),
         ttlExpiresAt := if promoted then None else row.ttlExpiresAt,
         ttlDays := if promoted then None else row.ttlDays,
         seId := Or(request.seId, row.seId),
         storagePath := Or(request.storagePath, row.storagePath),
         finalizedAt := if request.finalizedAt.Some? then request.finalizedAt else row.finalizedAt,
         description := if request.description.Some? then request.description else row.description,
         userMetadata := Or(request.userMetadata, row.userMetadata),
         updatedAt := now)
  }

  function Deleted(row: File, reason: string, now: Time): File {
    row.(deletedAt := Some(now), deletionReason := Some(reason), updatedAt := now)
  }

  // ---------- Events ----------

  datatype EventMetadata = EventMetadata(
    details: Details,
    size: nat,
    checksum: Checksum,
    contentType: string,
    uploadedBy: string,
    description: Option<string>,
    userMetadata: map<string, string>,
    retention: Retention,
    ttlExpiresAt: Option<Time>,
    ttlDays: Option<nat>,
    seId: SeId,
    storagePath: string,
    createdAt: Time,
    updatedAt: Time)

  datatype Event =
    | FileCreated(id: FileId, seId: SeId, metadata: EventMetadata)
    | FileUpdated(id: FileId, seId: SeId, metadata: EventMetadata)
    | FileDeleted(id: FileId, seId: SeId, deletedAt: Time)

  /** `_to_event_metadata`; `None` is the validation error raised when a mandatory field is missing. */
  function ToEventMetadata(row: File): Option<EventMetadata> {
    if row.EventReady() then
      Some(EventMetadata(row.details, row.size, row.checksum, row.contentType.value, row.uploadedBy.value,
                         row.description, row.userMetadata, row.retention, row.ttlExpiresAt, row.ttlDays,
                         row.seId, row.storagePath, row.createdAt, row.updatedAt))
    else None
  }

  /** What the Query Module's cache does with one event: upsert on created and updated, drop on deleted. */
  function Consume(cache: map<FileId, EventMetadata>, event: Event): map<FileId, EventMetadata> {
    match event
    case FileCreated(id, _, metadata) => cache[id := metadata]
    case FileUpdated(id, _, metadata) => cache[id := metadata]
    case FileDeleted(id, _, _) => cache - {id}
  }

  function Replay(log: seq<Event>): map<FileId, EventMetadata> {
    if log == [] then map[] else Consume(Replay(log[..|log| - 1]), log[|log| - 1])
  }

  // ---------- The service as a function of the committed table and the stream ----------

  datatype Snapshot = Snapshot(files: map<FileId, File>, log: seq<Event>)

  function Append(log: seq<Event>, event: Event, delivered: bool): seq<Event> {
    if delivered then log + [event] else log
  }

  /**
  `register_file`. A live row is found by the first lookup; a soft-deleted row is only found by the
  primary key. Metadata is validated after the commit, so a validation error leaves the row behind.
  */
  function Register(s: Snapshot, id: FileId, request: RegisterRequest, now: Time, dbOk: bool, delivered: bool)
    : (Snapshot, Result<File, RegistryError>)
  {
    if id in s.files then (s, Err(AlreadyExists))
    else if !dbOk then (s, Err(DatabaseError))
    else
      var row := NewRow(request, now);
      var committed := s.(files := s.files[id := row]);
      match ToEventMetadata(row)
      case None => (committed, Err(InvalidEventMetadata))
      case Some(metadata) =>
        (committed.(log := Append(s.log, FileCreated(id, row.seId, metadata), delivered)), Ok(row))
  }

  function Update(s: Snapshot, id: FileId, request: UpdateRequest, now: Time, dbOk: bool, delivered: bool)
    : (Snapshot, Result<Option<File>, RegistryError>)
  {
    if id !in s.files then (s, Ok(None))
    else if Downgrades(s.files[id], request) then (s, Err(RetentionDowngrade))
    else if !dbOk then (s, Err(DatabaseError))
    else
      var row := Updated(s.files[id], request, now);
      var committed := s.(files := s.files[id := row]);
      match ToEventMetadata(row)
      case None => (committed, Err(InvalidEventMetadata))
      case Some(metadata) =>
        (committed.(log := Append(s.log, FileUpdated(id, row.seId, metadata), delivered)), Ok(Some(row)))
  }

  /** `file.deletion_reason or deletion_reason`: an empty text counts as none. */
  function GivenReason(row: File, reason: string): string {
    if row.deletionReason.Some? && row.deletionReason.value != "" then row.deletionReason.value else reason
  }

  function Delete(s: Snapshot, id: FileId, reason: string, now: Time, dbOk: bool, delivered: bool)
    : (Snapshot, Result<Option<DeleteReceipt>, RegistryError>)
  {
    if id !in s.files then (s, Ok(None))
    else if !s.files[id].Live() then
      (s, Ok(Some(DeleteReceipt(s.files[id].deletedAt, GivenReason(s.files[id], reason), true))))
    else if !dbOk then (s, Err(DatabaseError))
    else
      var row := Deleted(s.files[id], reason, now);
      (Snapshot(s.files[id := row], Append(s.log, FileDeleted(id, row.seId, now), delivered)),
       Ok(Some(DeleteReceipt(Some(now), reason, false))))
  }

  // ---------- Agreement of table and stream ----------

  /** The cache holds `id` exactly when its row is live, under `_to_event_metadata`. */
  predicate AgreesAt(files: map<FileId, File>, cache: map<FileId, EventMetadata>, id: FileId) {
    if id in files && files[id].Live()
    then id in cache && ToEventMetadata(files[id]) == Some(cache[id])
    else id !in cache
  }

  ghost predicate AgreesEverywhere(files: map<FileId, File>, cache: map<FileId, EventMetadata>) {
    forall id :: AgreesAt(files, cache, id)
  }

  /** The folded stream holds exactly the live rows. */
  ghost predicate Agrees(s: Snapshot) {
    AgreesEverywhere(s.files, Replay(s.log))
  }

  datatype Call =
    | RegisterCall(id: FileId, register: RegisterRequest, now: Time, dbOk: bool)
    | UpdateCall(id: FileId, update: UpdateRequest, now: Time, dbOk: bool)
    | DeleteCall(id: FileId, reason: string, now: Time, dbOk: bool)

  /** One service call whose event, if it sends one, is delivered. */
  function Perform(s: Snapshot, call: Call): Snapshot {
    match call
    case RegisterCall(id, request, now, dbOk) => Register(s, id, request, now, dbOk, true).0
    case UpdateCall(id, request, now, dbOk) => Update(s, id, request, now, dbOk, true).0
    case DeleteCall(id, reason, now, dbOk) => Delete(s, id, reason, now, dbOk, true).0
  }

  /**
  What a caller can check before a call: a fresh registration must carry a positive size, a content
  type and an uploader; an update must not name a soft-deleted row that could still be published.
  */
  predicate Publishable(s: Snapshot, call: Call) {
    match call
    case RegisterCall(id, request, _, dbOk) => id in s.files || !dbOk || request.EventReady()
    case UpdateCall(id, request, _, dbOk) =>
      || id !in s.files || Downgrades(s.files[id], request) || !dbOk
      || s.files[id].Live() || !s.files[id].EventReady()
    case DeleteCall(_, _, _, _) => true
  }

  lemma ReplayAppend(log: seq<Event>, event: Event)
    ensures Replay(log + [event]) == Consume(Replay(log), event)
  {
  }

  /** A published row agrees exactly when it is live. */
  lemma PutAgreesIff(files: map<FileId, File>, cache: map<FileId, EventMetadata>, id: FileId, row: File)
    requires AgreesEverywhere(files, cache) && row.EventReady()
    ensures AgreesEverywhere(files[id := row], cache[id := ToEventMetadata(row).value]) <==> row.Live()
  {
    var later, cache2 := files[id := row], cache[id := ToEventMetadata(row).value];
    if row.Live() {
      forall other ensures AgreesAt(later, cache2, other) {
        assert AgreesAt(files, cache, other);
      }
    } else {
      assert !AgreesAt(later, cache2, id);
    }
  }

  /** A row stored in silence agrees exactly when it is not live and was not cached. */
  lemma SilenceAgreesIff(files: map<FileId, File>, cache: map<FileId, EventMetadata>, id: FileId, row: File)
    requires AgreesEverywhere(files, cache) && !row.EventReady()
    ensures AgreesEverywhere(files[id := row], cache) <==> !row.Live() && id !in cache
  {
    var later := files[id := row];
    if !row.Live() && id !in cache {
      forall other ensures AgreesAt(later, cache, other) {
        assert AgreesAt(files, cache, other);
      }
    } else {
      assert !AgreesAt(later, cache, id);
    }
  }

  lemma DropAgrees(files: map<FileId, File>, cache: map<FileId, EventMetadata>, id: FileId, row: File)
    requires AgreesEverywhere(files, cache) && !row.Live()
    ensures AgreesEverywhere(files[id := row], cache - {id})
  {
    var later, cache2 := files[id := row], cache - {id};
    forall other ensures AgreesAt(later, cache2, other) {
      assert AgreesAt(files, cache, other);
    }
  }

  /** One row stored, and one event about it delivered if the row can be published. */
  predicate Stores(s: Snapshot, after: Snapshot, id: FileId, row: File) {
    && after.files == s.files[id := row]
    && Replay(after.log) == if row.EventReady() then Replay(s.log)[id := ToEventMetadata(row).value] else Replay(s.log)
  }

  lemma StoreAgreesIff(s: Snapshot, after: Snapshot, id: FileId, row: File)
    requires Agrees(s) && Stores(s, after, id, row)
    ensures Agrees(after) <==> if row.EventReady() then row.Live() else !row.Live() && id !in Replay(s.log)
  {
    if row.EventReady() {
      PutAgreesIff(s.files, Replay(s.log), id, row);
    } else {
      SilenceAgreesIff(s.files, Replay(s.log), id, row);
    }
  }

  lemma RegisterStores(s: Snapshot, id: FileId, request: RegisterRequest, now: Time, dbOk: bool)
    ensures
      var after := Register(s, id, request, now, dbOk, true).0;
      if id in s.files || !dbOk then after == s else Stores(s, after, id, NewRow(request, now))
  {
  }

  lemma UpdateStores(s: Snapshot, id: FileId, request: UpdateRequest, now: Time, dbOk: bool)
    ensures
      var after := Update(s, id, request, now, dbOk, true).0;
      if id !in s.files || Downgrades(s.files[id], request) || !dbOk then after == s
      else Stores(s, after, id, Updated(s.files[id], request, now))
  {
  }

  lemma RegisterKeepsAgreementIff(s: Snapshot, id: FileId, request: RegisterRequest, now: Time, dbOk: bool)
    requires Agrees(s)
    ensures Agrees(Register(s, id, request, now, dbOk, true).0) <==> id in s.files || !dbOk || request.EventReady()
  {
    var after := Register(s, id, request, now, dbOk, true).0;
    RegisterStores(s, id, request, now, dbOk);
    if id !in s.files && dbOk {
      StoreAgreesIff(s, after, id, NewRow(request, now));
    }
  }

  lemma UpdateKeepsAgreementIff(s: Snapshot, id: FileId, request: UpdateRequest, now: Time, dbOk: bool)
    requires Agrees(s)
    ensures Agrees(Update(s, id, request, now, dbOk, true).0) <==>
            || id !in s.files || Downgrades(s.files[id], request) || !dbOk
            || s.files[id].Live() || !s.files[id].EventReady()
  {
    var after := Update(s, id, request, now, dbOk, true).0;
    UpdateStores(s, id, request, now, dbOk);
    if id in s.files && !Downgrades(s.files[id], request) && dbOk {
      assert AgreesAt(s.files, Replay(s.log), id);
      StoreAgreesIff(s, after, id, Updated(s.files[id], request, now));
    }
  }

  lemma DeleteKeepsAgreement(s: Snapshot, id: FileId, reason: string, now: Time, dbOk: bool)
    requires Agrees(s)
    ensures Agrees(Delete(s, id, reason, now, dbOk, true).0)
  {
    if id in s.files && s.files[id].Live() && dbOk {
      ReplayAppend(s.log, FileDeleted(id, s.files[id].seId, now));
      DropAgrees(s.files, Replay(s.log), id, Deleted(s.files[id], reason, now));
    }
  }

  /** A call keeps the stream and the table in agreement exactly when it is publishable. */
  lemma CallKeepsAgreementIff(s: Snapshot, call: Call)
    requires Agrees(s)
    ensures Agrees(Perform(s, call)) <==> Publishable(s, call)
  {
    match call
    case RegisterCall(id, request, now, dbOk) => RegisterKeepsAgreementIff(s, id, request, now, dbOk);
    case UpdateCall(id, request, now, dbOk) => UpdateKeepsAgreementIff(s, id, request, now, dbOk);
    case DeleteCall(id, reason, now, dbOk) => DeleteKeepsAgreement(s, id, reason, now, dbOk);
  }

  function PerformAll(s: Snapshot, calls: seq<Call>): Snapshot
    decreases calls
  {
    if calls == [] then s else PerformAll(Perform(s, calls[0]), calls[1..])
  }

  ghost predicate AllPublishable(s: Snapshot, calls: seq<Call>)
    decreases calls
  {
    calls == [] || (Publishable(s, calls[0]) && AllPublishable(Perform(s, calls[0]), calls[1..]))
  }

  /** Whole runs: as long as every call is publishable, the folded stream is exactly the live table. */
  lemma {:induction false} EventLogRefinesRegistry(s: Snapshot, calls: seq<Call>)
    requires Agrees(s) && AllPublishable(s, calls)
    ensures Agrees(PerformAll(s, calls))
    decreases calls
  {
    if calls != [] {
      CallKeepsAgreementIff(s, calls[0]);
      EventLogRefinesRegistry(Perform(s, calls[0]), calls[1..]);
    }
  }

  /** Ids are used once: no run brings a soft-deleted row back to life or lets its id be registered again. */
  lemma {:induction false} DeletedIdsStayDeleted(s: Snapshot, calls: seq<Call>, id: FileId)
    requires id in s.files && !s.files[id].Live()
    ensures
      var after := PerformAll(s, calls);
      && id in after.files && !after.files[id].Live()
      && forall request, now, dbOk, delivered ::
        Register(after, id, request, now, dbOk, delivered) == (after, Err(AlreadyExists))
    decreases calls
  {
    if calls != [] {
      DeletedIdsStayDeleted(Perform(s, calls[0]), calls[1..], id);
    }
  }

  // ---------- Column by column ----------

  /** A fresh row holds what the request says; both times are now, and nothing has happened to it. */
  predicate RowAsRequested(row: File, request: RegisterRequest, now: Time) {
    && row.details == request.details && row.size == request.size && row.checksum == request.checksum
    && row.contentType == request.contentType && row.uploadedBy == request.uploadedBy
    && row.description == request.description
    && row.userMetadata == (if request.userMetadata.Some? then request.userMetadata.value else map[])
    && row.retention == request.retention && row.ttlExpiresAt == request.ttlExpiresAt && row.ttlDays == request.ttlDays
    && row.seId == request.seId && row.storagePath == request.storagePath
    && row.createdAt == now && row.updatedAt == now
    && row.finalizedAt == None && row.deletedAt == None && row.deletionReason == None
  }

  /** Mentioned columns have the requested value, the others the old one; a promotion clears the TTL. */
  predicate RowAsUpdated(before: File, request: UpdateRequest, now: Time, after: File) {
    && (if request.retention.Some? then after.retention == request.retention.value
        else after.retention == before.retention)
    && (if request.retention == Some(Permanent) then after.ttlExpiresAt == None && after.ttlDays == None
        else after.ttlExpiresAt == before.ttlExpiresAt && after.ttlDays == before.ttlDays)
    && (if request.seId.Some? then after.seId == request.seId.value else after.seId == before.seId)
    && (if request.storagePath.Some? then after.storagePath == request.storagePath.value
        else after.storagePath == before.storagePath)
    && (if request.finalizedAt.Some? then after.finalizedAt == request.finalizedAt
        else after.finalizedAt == before.finalizedAt)
    && (if request.description.Some? then after.description == request.description
        else after.description == before.description)
    && (if request.userMetadata.Some? then after.userMetadata == request.userMetadata.value
        else after.userMetadata == before.userMetadata)
    && after.details == before.details && after.size == before.size && after.checksum == before.checksum
    && after.contentType == before.contentType && after.uploadedBy == before.uploadedBy
    && after.createdAt == before.createdAt && after.updatedAt == now
    && after.deletedAt == before.deletedAt && after.deletionReason == before.deletionReason
  }

  /** Only the three columns of the deletion change. */
  predicate RowAsDeleted(before: File, reason: string, now: Time, after: File) {
    && after.deletedAt == Some(now) && after.deletionReason == Some(reason) && after.updatedAt == now
    && before == after.(deletedAt := before.deletedAt, deletionReason := before.deletionReason,
                        updatedAt := before.updatedAt)
  }

  /** The published columns of the row. */
  predicate ShownAs(row: File, m: EventMetadata) {
    && m.details == row.details && m.size == row.size && m.checksum == row.checksum
    && Some(m.contentType) == row.contentType && Some(m.uploadedBy) == row.uploadedBy
    && m.description == row.description && m.userMetadata == row.userMetadata
    && m.retention == row.retention && m.ttlExpiresAt == row.ttlExpiresAt && m.ttlDays == row.ttlDays
    && m.seId == row.seId && m.storagePath == row.storagePath
    && m.createdAt == row.createdAt && m.updatedAt == row.updatedAt
  }

  /** After any run of publishable calls the cache shows each live row in every published column, and nothing else. */
  lemma CacheShowsLiveRows(s: Snapshot, calls: seq<Call>, id: FileId)
    requires Agrees(s) && AllPublishable(s, calls)
    ensures
      var after := PerformAll(s, calls);
      var cache := Replay(after.log);
      && (id in cache <==> id in after.files && after.files[id].deletedAt == None)
      && (id in cache ==> ShownAs(after.files[id], cache[id]))
  {
    EventLogRefinesRegistry(s, calls);
    var after := PerformAll(s, calls);
    assert AgreesAt(after.files, Replay(after.log), id);
  }

  /** A registration of a new id stores the request and announces it, or stores it only if it cannot be announced. */
  lemma RegistrationMeans(s: Snapshot, id: FileId, request: RegisterRequest, now: Time)
    requires id !in s.files
    ensures
      var (after, result) := Register(s, id, request, now, true, true);
      && id in after.files && RowAsRequested(after.files[id], request, now)
      && after.files.Keys == s.files.Keys + {id}
      && (forall other :: other in s.files ==> after.files[other] == s.files[other])
      && if request.size > 0 && request.contentType.Some? && request.uploadedBy.Some?
         then
           && result == Ok(after.files[id]) && |after.log| == |s.log| + 1 && after.log[..|s.log|] == s.log
           && var e := after.log[|s.log|];
              e.FileCreated? && e.id == id && e.seId == request.seId && ShownAs(after.files[id], e.metadata)
         else result == Err(InvalidEventMetadata) && after.log == s.log
  {
  }

  /** An accepted update changes the row as requested, announces it, and leaves the other rows alone. */
  lemma UpdateMeans(s: Snapshot, id: FileId, request: UpdateRequest, now: Time)
    requires id in s.files && !(s.files[id].retention == Permanent && request.retention == Some(Temporary))
    ensures
      var (after, result) := Update(s, id, request, now, true, true);
      && after.files.Keys == s.files.Keys && RowAsUpdated(s.files[id], request, now, after.files[id])
      && (forall other :: other in s.files && other != id ==> after.files[other] == s.files[other])
      && var row := after.files[id];
         if row.size > 0 && row.contentType.Some? && row.uploadedBy.Some?
         then
           && result == Ok(Some(row)) && |after.log| == |s.log| + 1 && after.log[..|s.log|] == s.log
           && var e := after.log[|s.log|];
              e.FileUpdated? && e.id == id && e.seId == row.seId && ShownAs(row, e.metadata)
         else result == Err(InvalidEventMetadata) && after.log == s.log
  {
  }

  /** A delete of a live row changes three columns and announces the element the file was on. */
  lemma DeleteMeans(s: Snapshot, id: FileId, reason: string, now: Time)
    requires id in s.files && s.files[id].deletedAt == None
    ensures
      var (after, result) := Delete(s, id, reason, now, true, true);
      && after.files.Keys == s.files.Keys && RowAsDeleted(s.files[id], reason, now, after.files[id])
      && (forall other :: other in s.files && other != id ==> after.files[other] == s.files[other])
      && after.log == s.log + [FileDeleted(id, s.files[id].seId, now)]
      && result == Ok(Some(DeleteReceipt(Some(now), reason, false)))
  {
  }

  // ---------- Where the stream and the table part ----------

  const SAMPLE_DETAILS := Details("a.txt", "a.txt", false, None, None, None)
  const EMPTY_FILE := RegisterRequest(SAMPLE_DETAILS, 0, "c0", Some("text/plain"), Some("sa"), None, None,
                                      Permanent, None, None, "se-1", "/a.txt")
  const NO_CHANGE := UpdateRequest(None, None, None, None, None, None)

  /** An empty file is accepted and committed, but its event is never published. */
  lemma EmptyFileIsRegisteredButNeverPublished()
    ensures
      var s := Snapshot(map[], []);
      var after := Perform(s, RegisterCall(7, EMPTY_FILE, 0, true));
      && Agrees(s) && 7 in after.files && after.files[7].Live() && after.log == [] && !Agrees(after)
  {
    var after := Perform(Snapshot(map[], []), RegisterCall(7, EMPTY_FILE, 0, true));
    assert !AgreesAt(after.files, Replay(after.log), 7);
  }

  /** An update that names a soft-deleted row puts the file back into the consumers' cache. */
  lemma UpdateAfterDeleteResurrectsInCache()
    ensures
      var calls := [RegisterCall(7, EMPTY_FILE.(size := 1), 0, true), DeleteCall(7, "manual", 1, true),
                    UpdateCall(7, NO_CHANGE, 2, true)];
      var after := PerformAll(Snapshot(map[], []), calls);
      7 in Replay(after.log) && 7 in after.files && !after.files[7].Live()
  {
    var s0 := Snapshot(map[], []);
    var c0, c1, c2 := RegisterCall(7, EMPTY_FILE.(size := 1), 0, true), DeleteCall(7, "manual", 1, true),
      UpdateCall(7, NO_CHANGE, 2, true);
    var s1 := Perform(s0, c0);
    var s2 := Perform(s1, c1);
    var s3 := Perform(s2, c2);
    assert [c0, c1, c2][1..] == [c1, c2] && [c1, c2][1..] == [c2] && [c2][1..] == [];
    assert PerformAll(s2, [c2]) == PerformAll(s3, []);
    assert PerformAll(s1, [c1, c2]) == PerformAll(s2, [c2]);
    assert PerformAll(s0, [c0, c1, c2]) == PerformAll(s1, [c1, c2]);
    ReplayAppend(s2.log, s3.log[|s2.log|]);
    assert s3.log == s2.log + [s3.log[|s2.log|]];
  }

  // ---------- The service ----------

  /** Appends to the Redis stream; an uninitialised, disabled or failing publisher drops the event silently. */
  class EventPublisher {
    const enabled: bool
    var initialized: bool
    var stream: seq<Event>

    constructor (enabled: bool)
      ensures this.enabled == enabled && !initialized && stream == []
    {
      this.enabled := enabled;
      initialized, stream := false, [];
    }

    predicate Delivers(redisAccepts: bool)
      reads this`initialized
    {
      initialized && enabled && redisAccepts
    }

    method Publish(event: Event, redisAccepts: bool) returns (eventId: Option<nat>)
      modifies this`stream
      ensures stream == Append(old(stream), event, old(Delivers(redisAccepts)))
      ensures eventId == if old(Delivers(redisAccepts)) then Some(|old(stream)|) else None
      ensures stream == if old(initialized) && enabled && redisAccepts then old(stream) + [event] else old(stream)
    {
      if !initialized || !enabled || !redisAccepts {
        return None;
      }
      eventId := Some(|stream|);
      stream := stream + [event];
    }
  }

  class FileService {
    const publisher: EventPublisher
    var files: map<FileId, File>

    constructor (publisher: EventPublisher)
      ensures this.publisher == publisher && files == map[]
    {
      this.publisher := publisher;
      files := map[];
    }

    ghost function State(): Snapshot
      reads this`files, publisher`stream
    {
      Snapshot(files, publisher.stream)
    }

    method RegisterFile(id: FileId, request: RegisterRequest, now: Time, dbOk: bool, redisAccepts: bool)
      returns (result: Result<File, RegistryError>)
      modifies this`files, publisher`stream
      ensures (State(), result)
           == Register(old(State()), id, request, now, dbOk, old(publisher.Delivers(redisAccepts)))
      ensures result == Err(AlreadyExists) <==> id in old(files)
      ensures result == Err(DatabaseError) <==> id !in old(files) && !dbOk
      ensures result == Err(InvalidEventMetadata) <==>
        id !in old(files) && dbOk && (request.size == 0 || request.contentType.None? || request.uploadedBy.None?)
      ensures result.Ok? ==> id in files && result.value == files[id] && RowAsRequested(files[id], request, now)
      ensures result == Err(InvalidEventMetadata) ==> id in files && RowAsRequested(files[id], request, now)
      ensures result in {Err(AlreadyExists), Err(DatabaseError)} ==> State() == old(State())
    {
      if id in files && files[id].Live() {
        return Err(AlreadyExists);
      }
      if id in files || !dbOk {
        return Err(if id in files then AlreadyExists else DatabaseError);
      }
      var row := NewRow(request, now);
      files := files[id := row];
      var metadata := ToEventMetadata(row);
      if metadata.None? {
        return Err(InvalidEventMetadata);
      }
      var _ := publisher.Publish(FileCreated(id, row.seId, metadata.value), redisAccepts);
      return Ok(row);
    }

    /** The fields an update mentions, one after the other; a promotion also clears the TTL. */
    static method ApplyUpdate(row: File, request: UpdateRequest) returns (file: File)
      ensures forall now :: file.(updatedAt := now) == Updated(row, request, now)
      ensures forall now :: RowAsUpdated(row, request, now, file.(updatedAt := now))
    {
      file := row;
      if request.retention.Some? {
        file := file.(retention := request.retention.value);
        if request.retention.value == Permanent {
          file := file.(ttlExpiresAt := None, ttlDays := None);
        }
      }
      if request.seId.Some? {
        file := file.(seId := request.seId.value);
      }
      if request.storagePath.Some? {
        file := file.(storagePath := request.storagePath.value);
      }
      if request.finalizedAt.Some? {
        file := file.(finalizedAt := request.finalizedAt);
      }
      if request.description.Some? {
        file := file.(description := request.description);
      }
      if request.userMetadata.Some? {
        file := file.(userMetadata := request.userMetadata.value);
      }
    }

    method UpdateFile(id: FileId, request: UpdateRequest, now: Time, dbOk: bool, redisAccepts: bool)
      returns (result: Result<Option<File>, RegistryError>)
      modifies this`files, publisher`stream
      ensures (State(), result)
           == Update(old(State()), id, request, now, dbOk, old(publisher.Delivers(redisAccepts)))
      ensures result == Ok(None) <==> id !in old(files)
      ensures result == Err(RetentionDowngrade) <==>
        id in old(files) && old(files)[id].retention == Permanent && request.retention == Some(Temporary)
      ensures result.Ok? && result.value.Some? ==>
        id in files && result.value.value == files[id] && RowAsUpdated(old(files)[id], request, now, files[id])
      ensures result == Err(InvalidEventMetadata) ==>
        id in files && RowAsUpdated(old(files)[id], request, now, files[id])
      ensures result in {Ok(None), Err(RetentionDowngrade), Err(DatabaseError)} ==> State() == old(State())
    {
      if id !in files {
        return Ok(None);
      }
      if Downgrades(files[id], request) {
        return Err(RetentionDowngrade);
      }
      var file := ApplyUpdate(files[id], request);
      if !dbOk {
        return Err(DatabaseError);
      }
      file := file.(updatedAt := now);
      files := files[id := file];
      var metadata := ToEventMetadata(file);
      if metadata.None? {
        return Err(InvalidEventMetadata);
      }
      var _ := publisher.Publish(FileUpdated(id, file.seId, metadata.value), redisAccepts);
      return Ok(Some(file));
    }

    method DeleteFile(id: FileId, reason: string, now: Time, dbOk: bool, redisAccepts: bool)
      returns (result: Result<Option<DeleteReceipt>, RegistryError>)
      modifies this`files, publisher`stream
      ensures (State(), result)
           == Delete(old(State()), id, reason, now, dbOk, old(publisher.Delivers(redisAccepts)))
      ensures result.Ok? && result.value.Some? && !result.value.value.already ==>
        id in files && RowAsDeleted(old(files)[id], reason, now, files[id])
      ensures result == Ok(None) <==> id !in old(files)
      ensures result.Ok? && result.value.Some? ==>
        var receipt, row := result.value.value, old(files)[id];
        && (receipt.already <==> row.deletedAt.Some?)
        && receipt.deletedAt == (if receipt.already then row.deletedAt else Some(now))
        && receipt.reason == if receipt.already && row.deletionReason !in {None, Some("")} then row.deletionReason.value
                             else reason
      ensures result.Err? || result.value.None? || result.value.value.already ==> State() == old(State())
    {
      if id !in files {
        return Ok(None);
      }
      var file := files[id];
      if !file.Live() {
        return Ok(Some(DeleteReceipt(file.deletedAt, GivenReason(file, reason), true)));
      }
      if !dbOk {
        return Err(DatabaseError);
      }
      file := file.(deletedAt := Some(now), deletionReason := Some(reason), updatedAt := now);
      files := files[id := file];
      var _ := publisher.Publish(FileDeleted(id, file.seId, now), redisAccepts);
      return Ok(Some(DeleteReceipt(Some(now), reason, false)));
    }
  }
}
