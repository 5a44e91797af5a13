/**
 * Task service operations: list, create, get, update and delete. Each operation
 * checks its input, then either fails with a service error and leaves the
 * store alone, or reads or changes the store. The clock and the id generator
 * are inputs: `now` is the current time in milliseconds and `freshId` the id
 * the generator produced.
 */
module TaskService {
  import opened Wrappers
  import opened Json
  import opened JsText
  import opened TaskDefaults
  import opened TaskValidation
  import opened TaskInstance
  import opened TaskOrdering

  datatype ErrorCode = ValidationError | NotFound {
    /** The code as it appears in the error envelope. */
    function Name(): string {
      match this
      case ValidationError => "VALIDATION_ERROR"
      case NotFound => "NOT_FOUND"
    }
  }

  /** A thrown service error: code, message, HTTP status and the issues found. */
  datatype ServiceError = ServiceError(code: ErrorCode, message: string, statusCode: int, details: seq<Issue>)

  /** The error for an id parameter that fails its check: a client error carrying every issue. */
  function InvalidId(issues: seq<Issue>): (e: ServiceError)
    ensures e.code.Name() == "VALIDATION_ERROR" && e.statusCode == 400 && e.details == issues
    ensures e != ValidationFailed(issues) && e != TaskNotFound()
  {
    ServiceError(ValidationError, "Invalid ID", 400, issues)
  }

  /** The error for a body that fails its check: a client error carrying every issue. */
  function ValidationFailed(issues: seq<Issue>): (e: ServiceError)
    ensures e.code.Name() == "VALIDATION_ERROR" && e.statusCode == 400 && e.details == issues
    ensures e.message == "Validation failed" && e != TaskNotFound()
  {
    ServiceError(ValidationError, "Validation failed", 400, issues)
  }

  /** The error for an id with no record: NOT_FOUND, 404, no issues. */
  function TaskNotFound(): (e: ServiceError)
    ensures e.code.Name() == "NOT_FOUND" && e.statusCode == 404 && e.details == []
  {
    ServiceError(NotFound, "Task not found", 404, [])
  }

  datatype DeleteConfirmation = DeleteConfirmation(message: string)

  const DeletedMessage: string := "Task deleted successfully"

  /** What the service keeps true of the table: keys are ids, descriptions passed the checks. */
  ghost predicate WellFormed(m: map<string, TaskRecord>) {
    forall k :: k in m ==> StoredUnder(m[k], k)
  }

  ghost predicate StoredUnder(r: TaskRecord, k: string) {
    r.id == k && ValidDescription(r.description)
  }

  /** No record was created after it was last updated, nor after `now`. */
  ghost predicate StampedBy(m: map<string, TaskRecord>, now: int) {
    forall k :: k in m ==> Stamped(m[k], now)
  }

  ghost predicate Stamped(r: TaskRecord, now: int) {
    r.createdAt <= r.updatedAt <= now
  }

  /** The patch the update passes to the table: the parsed fields and the new updatedAt. */
  function UpdatePatch(u: UpdateInput, now: int): (p: TaskPatch)
    ensures p.id.None? && p.createdAt.None?
    ensures p.description == u.description && p.status == u.status
    ensures p.updatedAt == Some(now)
  {
    TaskPatch(None, u.description, u.status, None, Some(now))
  }

  /**
   * taskList: every stored record once, newest first; records created at the
   * same instant stay in key-insertion order. The table is not changed.
   */
  method TaskList(store: TaskStore) returns (tasks: seq<TaskRecord>)
    requires store.Valid()
    ensures NewestFirst(tasks)
    ensures multiset(tasks) == multiset(store.Snapshot())
    ensures forall t :: TiesAt(tasks, t) == TiesAt(store.Snapshot(), t)
    ensures tasks == SortNewestFirst(store.Snapshot())
  {
    var all := store.GetAll();
    tasks := SortNewestFirst(all);
    forall t
      ensures TiesAt(tasks, t) == TiesAt(all, t)
    {
      SortIsStable(all, t);
    }
  }

  /**
   * taskCreate: a body failing the create check is a validation error and
   * changes nothing; otherwise a pending task with the trimmed description,
   * created and updated at `now`, is stored under `freshId` and returned.
   */
  method TaskCreate(store: TaskStore, body: Json, freshId: string, now: int)
    returns (r: Result<TaskRecord, ServiceError>)
    requires store.Valid()
    requires freshId !in store.records
    modifies store
    ensures store.Valid()
    ensures ParseCreate(body).Err? ==>
              r == Err(ValidationFailed(ParseCreate(body).error))
              && store.records == old(store.records) && store.keys == old(store.keys)
    ensures ParseCreate(body).Ok? ==>
              r == Ok(TaskRecord(freshId, ParseCreate(body).value.description, Pending, now, now))
              && store.records == old(store.records)[freshId := r.value]
              && store.keys == old(store.keys) + [freshId]
    ensures old(WellFormed(store.records)) ==> WellFormed(store.records)
    ensures old(StampedBy(store.records, now)) ==> StampedBy(store.records, now)
  {
    var validation := ParseCreate(body);
    if validation.Err? {
      return Err(ValidationFailed(validation.error));
    }
    var newTask := TaskRecord(freshId, validation.value.description, Pending, now, now);
    var _ := store.Add(newTask);
    r := Ok(newTask);
  }

  /**
   * taskGet: a malformed id is a validation error, an unknown id is not
   * found, otherwise the stored record. The table is not changed.
   */
  method TaskGet(store: TaskStore, params: Json) returns (r: Result<TaskRecord, ServiceError>)
    ensures ParseParams(params).Err? ==> r == Err(InvalidId(ParseParams(params).error))
    ensures ParseParams(params).Ok? && ParseParams(params).value.id !in store.records ==>
              r == Err(TaskNotFound())
    ensures ParseParams(params).Ok? && ParseParams(params).value.id in store.records ==>
              r == Ok(store.records[ParseParams(params).value.id])
  {
    var validation := ParseParams(params);
    if validation.Err? {
      return Err(InvalidId(validation.error));
    }
    var record := store.GetById(validation.value.id);
    if record.None? {
      return Err(TaskNotFound());
    }
    r := Ok(record.value);
  }

  /**
   * taskUpdate: the id is checked first, then the body, then existence, and
   * every failure leaves the table alone. On success the record keeps its id
   * and createdAt, takes each supplied field, and is stamped updated at `now`.
   */
  method TaskUpdate(store: TaskStore, params: Json, body: Json, now: int)
    returns (r: Result<TaskRecord, ServiceError>)
    requires store.Valid()
    modifies store
    ensures store.Valid()
    ensures r.Err? ==> store.records == old(store.records) && store.keys == old(store.keys)
    ensures ParseParams(params).Err? ==> r == Err(InvalidId(ParseParams(params).error))
    ensures ParseParams(params).Ok? && ParseUpdate(body).Err? ==>
              r == Err(ValidationFailed(ParseUpdate(body).error))
    ensures ParseParams(params).Ok? && ParseUpdate(body).Ok?
            && ParseParams(params).value.id !in old(store.records) ==>
              r == Err(TaskNotFound())
    ensures ParseParams(params).Ok? && ParseUpdate(body).Ok?
            && ParseParams(params).value.id in old(store.records) ==>
              var id := ParseParams(params).value.id;
              var u := ParseUpdate(body).value;
              var existing := old(store.records)[id];
              && r == Ok(TaskRecord(existing.id,
                                    u.description.GetOr(existing.description),
                                    u.status.GetOr(existing.status),
                                    existing.createdAt,
                                    now))
              && store.records == old(store.records)[id := r.value]
              && store.keys == old(store.keys)
    ensures old(WellFormed(store.records)) ==> WellFormed(store.records)
    ensures old(StampedBy(store.records, now)) ==> StampedBy(store.records, now)
  {
    var paramsValidation := ParseParams(params);
    if paramsValidation.Err? {
      return Err(InvalidId(paramsValidation.error));
    }
    var bodyValidation := ParseUpdate(body);
    if bodyValidation.Err? {
      return Err(ValidationFailed(bodyValidation.error));
    }
    var id := paramsValidation.value.id;
    var existing := store.GetById(id);
    if existing.None? {
      return Err(TaskNotFound());
    }
    var updated := store.Update(id, UpdatePatch(bodyValidation.value, now));
    r := Ok(updated.value);
  }

  /**
   * taskDelete: a malformed id is a validation error, an unknown id is not
   * found, and neither changes the table; otherwise the record is removed.
   */
  method TaskDelete(store: TaskStore, params: Json) returns (r: Result<DeleteConfirmation, ServiceError>)
    requires store.Valid()
    modifies store
    ensures store.Valid()
    ensures r.Err? ==> store.records == old(store.records) && store.keys == old(store.keys)
    ensures ParseParams(params).Err? ==> r == Err(InvalidId(ParseParams(params).error))
    ensures ParseParams(params).Ok? && ParseParams(params).value.id !in old(store.records) ==>
              r == Err(TaskNotFound())
    ensures ParseParams(params).Ok? && ParseParams(params).value.id in old(store.records) ==>
              r == Ok(DeleteConfirmation(DeletedMessage))
              && store.records == old(store.records) - {ParseParams(params).value.id}
              && store.keys == Without(old(store.keys), ParseParams(params).value.id)
    ensures old(WellFormed(store.records)) ==> WellFormed(store.records)
    ensures forall t :: old(StampedBy(store.records, t)) ==> StampedBy(store.records, t)
  {
    var validation := ParseParams(params);
    if validation.Err? {
      return Err(InvalidId(validation.error));
    }
    var id := validation.value.id;
    var present := store.Exists(id);
    if !present {
      return Err(TaskNotFound());
    }
    var _ := store.Delete(id);
    r := Ok(DeleteConfirmation(DeletedMessage));
  }

  newtype Byte = x: int | 0 <= x < 256

  /** Two lower-case hex digits per octet, most significant first. */
  function HexOctets(bs: seq<Byte>): (s: string)
    ensures |s| == 2 * |bs| && AllHex(s)
  {
    if bs == [] then []
    else [HexDigit(bs[0] as nat / 16), HexDigit(bs[0] as nat % 16)] + HexOctets(bs[1..])
  }

  /** The textual form randomUUID gives its 16 random octets: 8-4-4-4-12 hex digits. */
  function FormatUuid(octets: seq<Byte>): (s: string)
    requires |octets| == 16
    ensures IsUuid(s)
  {
    var a, b, c := HexOctets(octets[..4]), HexOctets(octets[4..6]), HexOctets(octets[6..8]);
    var d, e := HexOctets(octets[8..10]), HexOctets(octets[10..]);
    GroupsFormUuid(a, b, c, d, e);
    a + "-" + b + "-" + c + "-" + d + "-" + e
  }

  /** Five hex groups of 8, 4, 4, 4 and 12 digits joined by hyphens are in UUID form. */
  lemma GroupsFormUuid(a: string, b: string, c: string, d: string, e: string)
    requires |a| == 8 && |b| == 4 && |c| == 4 && |d| == 4 && |e| == 12
    requires AllHex(a) && AllHex(b) && AllHex(c) && AllHex(d) && AllHex(e)
    ensures IsUuid(a + "-" + b + "-" + c + "-" + d + "-" + e)
  {
    var s := a + "-" + b + "-" + c + "-" + d + "-" + e;
    assert s[0..8] == a;
    assert s[9..13] == b;
    assert s[14..18] == c;
    assert s[19..23] == d;
    assert s[24..36] == e;
    UuidForms(s);
  }

  /** The parameter object of a request for task `id`. */
  function IdParams(id: string): (p: Json)
    ensures IsUuid(id) ==> ParseParams(p) == Ok(ParamsInput(id))
  {
    JObject(map["id" := JString(id)])
  }

  /** An id the generator produced passes the id check, and the created task can be fetched by it. */
  method CreateThenGet(store: TaskStore, body: Json, octets: seq<Byte>, now: int)
    returns (created: Result<TaskRecord, ServiceError>, fetched: Result<TaskRecord, ServiceError>)
    requires store.Valid() && |octets| == 16 && FormatUuid(octets) !in store.records
    modifies store
    ensures created.Ok? <==> ParseCreate(body).Ok?
    ensures created.Ok? ==> fetched == created
  {
    var id := FormatUuid(octets);
    created := TaskCreate(store, body, id, now);
    fetched := TaskGet(store, IdParams(id));
  }

  /** Once a task is deleted, getting or deleting it again is not found. */
  method DeleteThenGet(store: TaskStore, id: string)
    returns (deleted: Result<DeleteConfirmation, ServiceError>,
             fetched: Result<TaskRecord, ServiceError>,
             again: Result<DeleteConfirmation, ServiceError>)
    requires store.Valid()
    modifies store
    ensures IsUuid(id) && id in old(store.records) ==> deleted == Ok(DeleteConfirmation(DeletedMessage))
    ensures IsUuid(id) ==> fetched == Err(TaskNotFound()) && again == Err(TaskNotFound())
    ensures !IsUuid(id) ==> deleted.Err? && deleted.error.code == ValidationError
  {
    deleted := TaskDelete(store, IdParams(id));
    fetched := TaskGet(store, IdParams(id));
    again := TaskDelete(store, IdParams(id));
  }

  /** Marking a pending task completed changes its status and, on a later clock, advances updatedAt. */
  method CompleteTask(store: TaskStore, id: string, now: int) returns (r: Result<TaskRecord, ServiceError>)
    requires store.Valid() && IsUuid(id) && id in store.records
    requires store.records[id].status == Pending && store.records[id].updatedAt < now
    modifies store
    ensures r.Ok? && r.value.status == Completed
    ensures r.value.updatedAt > old(store.records[id].updatedAt)
    ensures r.value.description == old(store.records[id].description)
    ensures store.records == old(store.records)[id := r.value] && store.keys == old(store.keys)
  {
    LabelRoundTrip(Completed);
    r := TaskUpdate(store, IdParams(id), JObject(map["status" := JString(Completed.Label())]), now);
  }

  /** taskCreate seen only through its result and what it does to the table. */
  method CreateAt(store: TaskStore, body: Json, freshId: string, now: int)
    returns (r: Result<TaskRecord, ServiceError>)
    requires store.Valid() && freshId !in store.records
    modifies store
    ensures store.Valid()
    ensures r.Ok? <==> ParseCreate(body).Ok?
    ensures r.Err? ==> store.records == old(store.records) && store.keys == old(store.keys)
    ensures r.Ok? ==> r.value.createdAt == now
                      && store.records == old(store.records)[freshId := r.value]
                      && store.keys == old(store.keys) + [freshId]
  {
    r := TaskCreate(store, body, freshId, now);
  }

  /**
   * When the stored tasks were created one after another, all before `now`,
   * a task created at `now` is listed first, the list is the table's
   * contents in reverse, and the table stays in creation order.
   */
  method CreateThenList(store: TaskStore, body: Json, freshId: string, now: int)
    returns (created: Result<TaskRecord, ServiceError>, tasks: seq<TaskRecord>)
    requires store.Valid() && freshId !in store.records
    requires CreatedInOrder(store.Snapshot()) && CreatedBefore(store.Snapshot(), now)
    modifies store
    ensures store.Valid()
    ensures created.Ok? <==> ParseCreate(body).Ok?
    ensures CreatedInOrder(store.Snapshot())
    ensures tasks == Reversed(store.Snapshot())
    ensures created.Ok? ==> tasks != [] && tasks[0] == created.value
  {
    ghost var before := store.Snapshot();
    created := CreateAt(store, body, freshId, now);
    if created.Ok? {
      ValuesAtAppend(old(store.keys), old(store.records), freshId, created.value);
      AppendNewest(before, created.value);
    }
    tasks := TaskList(store);
    SortReversesCreationOrder(store.Snapshot());
  }
}
