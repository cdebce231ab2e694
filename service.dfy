/** The business layer of `api/src/services/taskService.js`: cache-aside
    reads, writes followed by invalidation of the `tasks:` namespace, the
    business guards and the statistics arithmetic.

    Each operation is first stated as a pure step on a `World` (the cache
    controller's state together with the table), returning the outcome and
    the world it leaves; the methods of `TaskService` are proved to take
    exactly those steps. Whether each cache call fails is an input. */
module Service {
  import opened Js
  import opened Tasks
  import opened Redis
  import opened Repository

  // ----- cached values -----

  /** The `{ total, byStatus, completionRate }` object of `getStatistics`. */
  datatype StatsJson = StatsJson(total: nat, byStatus: map<string, nat>, completionRate: nat)

  /** A value the service stores in the cache. */
  datatype Payload =
    | TaskList(tasks: seq<TaskJson>)
    | OneTask(task: TaskJson)
    | Statistics(stats: StatsJson)

  // ----- CACHE_KEYS -----

  const AllTasksKey := "tasks:all"
  const StatsKey := "tasks:stats"

  /** `` `tasks:${id}` ``. */
  function TaskKey(id: int): string
  {
    "tasks:" + IntToString(id)
  }

  /** The pattern `'tasks:*'` every write invalidates. */
  const Namespace := PrefixWildcard("tasks:")

  /** All three kinds of key lie in the invalidated namespace. */
  lemma KeysInNamespace(id: int)
    ensures Matches(Namespace, AllTasksKey) && Matches(Namespace, StatsKey)
    ensures Matches(Namespace, TaskKey(id))
  {
  }

  /** A per-task key is never the list key or the statistics key. */
  lemma KeysDistinct(id: int)
    ensures TaskKey(id) != AllTasksKey && TaskKey(id) != StatsKey && AllTasksKey != StatsKey
  {
    var k := TaskKey(id);
    assert k[6] == IntToString(id)[0];
    assert AllTasksKey[6] == 'a' && StatsKey[6] == 's';
  }

  /** Different ids have different keys. */
  lemma TaskKeyInjective(a: int, b: int)
    requires TaskKey(a) == TaskKey(b)
    ensures a == b
  {
    assert IntToString(a) == TaskKey(a)[6..] == TaskKey(b)[6..] == IntToString(b);
    IntToStringInjective(a, b);
  }

  // ----- errors -----

  /** An `Error` carrying an HTTP `statusCode`. */
  datatype HttpError = HttpError(statusCode: nat, message: string)

  /** A resolved promise, or a thrown `HttpError`. */
  datatype Outcome<T> = Ok(value: T) | Failed(error: HttpError)

  const NotFound := HttpError(404, "Task not found")
  const DoneLocked := HttpError(400, "Cannot change status of completed task")
  const InProgressLocked := HttpError(400, "Cannot delete task that is in progress")

  // ----- the state the service works on -----

  /** The `tasks` table and its id sequence. */
  datatype Table = Table(rows: seq<Row>, nextId: int)

  datatype World = World(cache: State<Payload>, table: Table)

  /** Whether each cache call of one service operation fails. */
  datatype Faults = Faults(getFails: bool, setFails: bool, invalidateFails: bool)

  // ----- what a read computes from the table -----

  /** The `tasks:all` value: `findAll()` mapped through `toJSON`. */
  function AllTasksOf(rows: seq<Row>): Payload
  {
    TaskList(ToJsonList(FromRows(Listing(rows))))
  }

  /** The `tasks:<id>` value of an existing row. */
  function OneTaskOf(r: Row): Payload
  {
    OneTask(ToJson(FromRow(r)))
  }

  /** The statistics arithmetic: the total of the three buckets and the
      rounded percentage of DONE among them, 0 for an empty board. */
  function ComputeStats(counts: map<string, nat>): (st: StatsJson)
    requires "TODO" in counts && "IN_PROGRESS" in counts && "DONE" in counts
    ensures st.total == counts["TODO"] + counts["IN_PROGRESS"] + counts["DONE"]
    ensures st.byStatus == counts
    ensures st.completionRate <= 100
    ensures st.total == 0 ==> st.completionRate == 0
    ensures st.total > 0 ==> st.completionRate == RoundedPercent(counts["DONE"], st.total)
  {
    var total := counts["TODO"] + counts["IN_PROGRESS"] + counts["DONE"];
    StatsJson(total, counts, if total > 0 then RoundedPercent(counts["DONE"], total) else 0)
  }

  /** The completion rate is the DONE percentage rounded half up. */
  lemma CompletionRateRounds(counts: map<string, nat>)
    requires "TODO" in counts && "IN_PROGRESS" in counts && "DONE" in counts
    ensures var st := ComputeStats(counts);
      st.total > 0 ==>
        2 * st.total * st.completionRate <= 200 * counts["DONE"] + st.total < 2 * st.total * (st.completionRate + 1)
  {
  }

  /** The `tasks:stats` value. */
  function StatsOf(rows: seq<Row>): Payload
  {
    Statistics(ComputeStats(StatusCounts(rows)))
  }

  /** The statistics count the rows of each status; when every status is
      one of the three enum values, `total` is the number of tasks. */
  lemma StatisticsOfTable(rows: seq<Row>)
    ensures var st := ComputeStats(StatusCounts(rows));
      && st.total == CountOf(rows, "TODO") + CountOf(rows, "IN_PROGRESS") + CountOf(rows, "DONE")
      && st.byStatus["DONE"] == CountOf(rows, "DONE")
      && ((forall i :: 0 <= i < |rows| ==> rows[i].status in Statuses) ==> st.total == |rows|)
  {
    StatusCountsSpec(rows);
    if forall i :: 0 <= i < |rows| ==> rows[i].status in Statuses {
      CountsCoverAllRows(rows);
    }
  }

  // ----- the operations as steps -----

  /** `getAllTasks()`. */
  function GetAllTasksStep(w: World, f: Faults, redisTtl: Option<int>): (Outcome<Payload>, World)
  {
    var s1 := AfterGet(w.cache, AllTasksKey, f.getFails);
    match GetResult(w.cache, AllTasksKey, f.getFails)
    case Some(v) => (Ok(v), w.(cache := s1))
    case None =>
      var json := AllTasksOf(w.table.rows);
      (Ok(json), w.(cache := AfterSet(s1, AllTasksKey, json, 60, redisTtl, f.setFails)))
  }

  /** `getTaskById(id)`. */
  function GetTaskByIdStep(w: World, id: int, f: Faults, redisTtl: Option<int>): (Outcome<Payload>, World)
  {
    var key := TaskKey(id);
    var s1 := AfterGet(w.cache, key, f.getFails);
    match GetResult(w.cache, key, f.getFails)
    case Some(v) => (Ok(v), w.(cache := s1))
    case None =>
      match Lookup(w.table.rows, id)
      case None => (Failed(NotFound), w.(cache := s1))
      case Some(r) =>
        var json := OneTaskOf(r);
        (Ok(json), w.(cache := AfterSet(s1, key, json, 60, redisTtl, f.setFails)))
  }

  /** `createTask(taskData)`. */
  function CreateTaskStep(w: World, d: TaskData, now: Timestamp, f: Faults): (Outcome<TaskJson>, World)
  {
    var v := Validate(d);
    if !v.isValid then (Failed(HttpError(400, Join(v.errors, ", "))), w)
    else
      var r := InsertedRow(w.table.nextId, d, now);
      (Ok(ToJson(FromRow(r))),
       World(AfterInvalidate(w.cache, Namespace, f.invalidateFails), Table(w.table.rows + [r], w.table.nextId + 1)))
  }

  /** The guard of `updateTask`: the stored task is DONE and the request
      carries a truthy status other than DONE. */
  predicate ChangesDoneStatus(r: Row, d: TaskData)
  {
    FromRow(r).status == "DONE" && Truthy(d.status) && d.status.value != "DONE"
  }

  /** `updateTask(id, taskData)`; the input is not validated. */
  function UpdateTaskStep(w: World, id: int, d: TaskData, now: Timestamp, f: Faults): (Outcome<TaskJson>, World)
  {
    match Lookup(w.table.rows, id)
    case None => (Failed(NotFound), w)
    case Some(r) =>
      if ChangesDoneStatus(r, d) then (Failed(DoneLocked), w)
      else
        (Ok(ToJson(FromRow(Merged(r, d, now)))),
         World(AfterInvalidate(w.cache, Namespace, f.invalidateFails),
               w.table.(rows := UpdatedRows(w.table.rows, id, d, now))))
  }

  /** `deleteTask(id)`. */
  function DeleteTaskStep(w: World, id: int, f: Faults): (Outcome<bool>, World)
  {
    match Lookup(w.table.rows, id)
    case None => (Failed(NotFound), w)
    case Some(r) =>
      if FromRow(r).status == "IN_PROGRESS" then (Failed(InProgressLocked), w)
      else
        (Ok(true),
         World(AfterInvalidate(w.cache, Namespace, f.invalidateFails),
               w.table.(rows := Without(w.table.rows, id))))
  }

  /** `getStatistics()`. */
  function GetStatisticsStep(w: World, f: Faults, redisTtl: Option<int>): (Outcome<Payload>, World)
  {
    var s1 := AfterGet(w.cache, StatsKey, f.getFails);
    match GetResult(w.cache, StatsKey, f.getFails)
    case Some(v) => (Ok(v), w.(cache := s1))
    case None =>
      var st := StatsOf(w.table.rows);
      (Ok(st), w.(cache := AfterSet(s1, StatsKey, st, 30, redisTtl, f.setFails)))
  }

  // ----- properties of the steps -----

  /** A cache hit returns the cached value and does not consult the table:
      two worlds with the same cache give the same answer. */
  lemma HitIgnoresTable(w: World, t: Table, f: Faults, redisTtl: Option<int>)
    requires GetResult(w.cache, AllTasksKey, f.getFails).Some?
    ensures GetAllTasksStep(w, f, redisTtl).0 == Ok(w.cache.store[AllTasksKey].value)
    ensures GetAllTasksStep(w, f, redisTtl).0 == GetAllTasksStep(w.(table := t), f, redisTtl).0
    ensures GetAllTasksStep(w, f, redisTtl).1 == w.(cache := AfterGet(w.cache, AllTasksKey, f.getFails))
  {
  }

  /** On a miss the list is read from the table, and with a working client
      exactly that value is stored under `tasks:all` for 60 seconds. */
  lemma MissStoresList(w: World, f: Faults, redisTtl: Option<int>)
    requires GetResult(w.cache, AllTasksKey, f.getFails).None?
    ensures var (out, w') := GetAllTasksStep(w, f, redisTtl);
      && out == Ok(AllTasksOf(w.table.rows))
      && w'.table == w.table
      && (Ready(w.cache) && !f.getFails && !f.setFails ==>
            w'.cache.store == w.cache.store[AllTasksKey := Entry(AllTasksOf(w.table.rows), 60)])
  {
  }

  /** A `getTaskById` hit returns the cached task and only counts the hit. */
  lemma TaskByIdHit(w: World, id: int, f: Faults, redisTtl: Option<int>)
    requires GetResult(w.cache, TaskKey(id), f.getFails).Some?
    ensures GetTaskByIdStep(w, id, f, redisTtl) ==
      (Ok(w.cache.store[TaskKey(id)].value), w.(cache := AfterGet(w.cache, TaskKey(id), f.getFails)))
  {
  }

  /** A `getTaskById` miss on an existing row returns the row's JSON and
      stores it under `tasks:<id>` for 60 seconds. */
  lemma TaskByIdMissStores(w: World, id: int, f: Faults, redisTtl: Option<int>)
    requires GetResult(w.cache, TaskKey(id), f.getFails).None?
    requires Lookup(w.table.rows, id).Some?
    ensures var (out, w') := GetTaskByIdStep(w, id, f, redisTtl);
      var row := Lookup(w.table.rows, id).value;
      && out == Ok(OneTaskOf(row))
      && w'.table == w.table
      && (Ready(w.cache) && !f.getFails && !f.setFails ==>
            w'.cache.store == w.cache.store[TaskKey(id) := Entry(OneTaskOf(row), 60)])
  {
  }

  /** An id in neither the cache nor the table is a 404, and nothing is
      written to the cache. */
  lemma UnknownIdNotFound(w: World, id: int, f: Faults, redisTtl: Option<int>)
    requires GetResult(w.cache, TaskKey(id), f.getFails).None?
    requires forall i :: 0 <= i < |w.table.rows| ==> w.table.rows[i].id != id
    ensures var (out, w') := GetTaskByIdStep(w, id, f, redisTtl);
      && out == Failed(NotFound) && out.error.statusCode == 404
      && w'.cache.store == w.cache.store && w'.table == w.table
  {
  }

  /** Invalid input on create is a 400 whose message is the validation
      errors joined by `', '`; neither the table nor the cache changes. */
  lemma InvalidCreateRejected(w: World, d: TaskData, now: Timestamp, f: Faults)
    requires !Validate(d).isValid
    ensures CreateTaskStep(w, d, now, f) == (Failed(HttpError(400, Join(Validate(d).errors, ", "))), w)
  {
  }

  /** A valid create appends one row under the next id, leaves the other
      rows as they were and returns the new task. */
  lemma ValidCreateAppends(w: World, d: TaskData, now: Timestamp, f: Faults)
    requires IdsValid(w.table.rows, w.table.nextId) && Validate(d).isValid
    ensures var (out, w') := CreateTaskStep(w, d, now, f);
      && IdsValid(w'.table.rows, w'.table.nextId)
      && |w'.table.rows| == |w.table.rows| + 1
      && w'.table.rows[..|w.table.rows|] == w.table.rows
      && Lookup(w.table.rows, w.table.nextId).None?
      && Lookup(w'.table.rows, w.table.nextId) == Some(InsertedRow(w.table.nextId, d, now))
      && out == Ok(ToJson(FromRow(InsertedRow(w.table.nextId, d, now))))
  {
    var r := InsertedRow(w.table.nextId, d, now);
    assert CreateTaskStep(w, d, now, f).1.table == Table(w.table.rows + [r], w.table.nextId + 1);
    AppendFresh(w.table.rows, r, w.table.nextId);
  }

  /** A DONE task refuses a truthy status other than DONE with a 400 and
      stays as it is. */
  lemma DoneStatusLocked(w: World, id: int, d: TaskData, now: Timestamp, f: Faults)
    requires Lookup(w.table.rows, id).Some? && FromRow(Lookup(w.table.rows, id).value).status == "DONE"
    requires Truthy(d.status) && d.status.value != "DONE"
    ensures UpdateTaskStep(w, id, d, now, f) == (Failed(DoneLocked), w)
  {
  }

  /** An update that passes the guards merges the request into the row
      with the id, touches no other row and returns the merged task. This
      includes a DONE task updated without a status or with status DONE. */
  lemma UpdateMerges(w: World, id: int, d: TaskData, now: Timestamp, f: Faults)
    requires Lookup(w.table.rows, id).Some?
    requires FromRow(Lookup(w.table.rows, id).value).status != "DONE" || !Truthy(d.status) || d.status.value == "DONE"
    ensures var (out, w') := UpdateTaskStep(w, id, d, now, f);
      var r := Lookup(w.table.rows, id).value;
      && out == Ok(ToJson(FromRow(Merged(r, d, now))))
      && Lookup(w'.table.rows, id) == Some(Merged(r, d, now))
      && |w'.table.rows| == |w.table.rows|
      && (forall i :: 0 <= i < |w.table.rows| && w.table.rows[i].id != id ==> w'.table.rows[i] == w.table.rows[i])
  {
    UpdatedLookup(w.table.rows, id, d, now);
  }

  /** The guard reads the status through the constructor, so an empty
      status also passes on a DONE task: the row then stores `''` and the
      task reads back as TODO. */
  lemma EmptyStatusBypassesDoneLock(w: World, id: int, d: TaskData, now: Timestamp, f: Faults)
    requires Lookup(w.table.rows, id).Some? && Lookup(w.table.rows, id).value.status == "DONE"
    requires d.status == Some("")
    ensures var (out, w') := UpdateTaskStep(w, id, d, now, f);
      && out.Ok? && out.value.status == "TODO"
      && Lookup(w'.table.rows, id).Some? && Lookup(w'.table.rows, id).value.status == ""
  {
    UpdatedLookup(w.table.rows, id, d, now);
  }

  /** A missing id is a 404 on update and on delete, before any guard. */
  lemma MissingIdNotFound(w: World, id: int, d: TaskData, now: Timestamp, f: Faults)
    requires forall i :: 0 <= i < |w.table.rows| ==> w.table.rows[i].id != id
    ensures UpdateTaskStep(w, id, d, now, f) == (Failed(NotFound), w)
    ensures DeleteTaskStep(w, id, f) == (Failed(NotFound), w)
  {
  }

  /** An IN_PROGRESS task cannot be deleted: a 400, and the row remains. */
  lemma InProgressNotDeleted(w: World, id: int, f: Faults)
    requires Lookup(w.table.rows, id).Some? && FromRow(Lookup(w.table.rows, id).value).status == "IN_PROGRESS"
    ensures DeleteTaskStep(w, id, f) == (Failed(InProgressLocked), w)
  {
  }

  /** A delete that passes the guards removes the row with the id, keeps
      every other row and reports `true`. */
  lemma DeleteRemoves(w: World, id: int, f: Faults)
    requires Lookup(w.table.rows, id).Some? && FromRow(Lookup(w.table.rows, id).value).status != "IN_PROGRESS"
    ensures var (out, w') := DeleteTaskStep(w, id, f);
      && out == Ok(true)
      && Lookup(w'.table.rows, id).None?
      && (forall x :: x in w.table.rows && x.id != id ==> x in w'.table.rows)
  {
  }

  /** The statistics: the total of the three buckets, a completion rate in
      0..100 that is 0 on an empty board, and on a miss the value stored
      under `tasks:stats` for 30 seconds. */
  lemma StatisticsShape(w: World, f: Faults, redisTtl: Option<int>)
    requires GetResult(w.cache, StatsKey, f.getFails).None?
    ensures var (out, w') := GetStatisticsStep(w, f, redisTtl);
      var c := StatusCounts(w.table.rows);
      && out.Ok? && out.value.Statistics?
      && out.value.stats.total == c["TODO"] + c["IN_PROGRESS"] + c["DONE"]
      && out.value.stats.completionRate <= 100
      && (out.value.stats.total == 0 ==> out.value.stats.completionRate == 0)
      && (Ready(w.cache) && !f.getFails && !f.setFails ==>
            w'.cache.store == w.cache.store[StatsKey := Entry(out.value, 30)])
  {
  }

  /** A `getStatistics` hit returns the cached statistics and only counts the hit. */
  lemma StatsHit(w: World, f: Faults, redisTtl: Option<int>)
    requires GetResult(w.cache, StatsKey, f.getFails).Some?
    ensures GetStatisticsStep(w, f, redisTtl) ==
      (Ok(w.cache.store[StatsKey].value), w.(cache := AfterGet(w.cache, StatsKey, f.getFails)))
  {
  }

  /** A write that fails leaves the world exactly as it was, so it never
      invalidates. */
  lemma FailedWritesChangeNothing(w: World, id: int, d: TaskData, now: Timestamp, f: Faults)
    ensures CreateTaskStep(w, d, now, f).0.Failed? ==> CreateTaskStep(w, d, now, f).1 == w
    ensures UpdateTaskStep(w, id, d, now, f).0.Failed? ==> UpdateTaskStep(w, id, d, now, f).1 == w
    ensures DeleteTaskStep(w, id, f).0.Failed? ==> DeleteTaskStep(w, id, f).1 == w
  {
  }

  /** No key of the namespace is cached. */
  ghost predicate NamespaceEmpty(s: State<Payload>)
  {
    forall k :: k in s.store ==> !Matches(Namespace, k)
  }

  /** After a successful write with a working client no `tasks:` key is
      left, so the next `getAllTasks` is a miss that reads the table. */
  lemma SuccessfulWriteClearsNamespace(w: World, id: int, d: TaskData, now: Timestamp, f: Faults, g: Faults, redisTtl: Option<int>)
    requires Ready(w.cache) && !f.invalidateFails
    ensures CreateTaskStep(w, d, now, f).0.Ok? ==> NamespaceEmpty(CreateTaskStep(w, d, now, f).1.cache)
    ensures UpdateTaskStep(w, id, d, now, f).0.Ok? ==> NamespaceEmpty(UpdateTaskStep(w, id, d, now, f).1.cache)
    ensures DeleteTaskStep(w, id, f).0.Ok? ==> NamespaceEmpty(DeleteTaskStep(w, id, f).1.cache)
    ensures CreateTaskStep(w, d, now, f).0.Ok? ==>
      var w' := CreateTaskStep(w, d, now, f).1;
      GetAllTasksStep(w', g, redisTtl).0 == Ok(AllTasksOf(w'.table.rows))
    ensures UpdateTaskStep(w, id, d, now, f).0.Ok? ==>
      var w' := UpdateTaskStep(w, id, d, now, f).1;
      GetAllTasksStep(w', g, redisTtl).0 == Ok(AllTasksOf(w'.table.rows))
    ensures DeleteTaskStep(w, id, f).0.Ok? ==>
      var w' := DeleteTaskStep(w, id, f).1;
      GetAllTasksStep(w', g, redisTtl).0 == Ok(AllTasksOf(w'.table.rows))
  {
    KeysInNamespace(0);
  }

  /** A request body carrying only the four writable fields. */
  function Body(title: Option<string>, description: Option<string>, status: Option<string>, priority: Option<string>): TaskData
  {
    TaskData(None, title, description, status, priority, None, None, None, None)
  }

  /** The request body of the lifecycle below passes validation. */
  lemma ScenarioBodyValid()
    ensures Validate(Body(Some("Write spec"), None, None, Some("HIGH"))).isValid
  {
    var title := "Write spec";
    assert title[0] == 'W';
    TrimEmptyIffAllWhitespace(title);
    Utf16LengthOfBmp(title);
  }

  /** Created with a title and HIGH priority, a task starts as TODO under
      the next id and can then be completed. */
  lemma CreateThenComplete(w: World, t1: Timestamp, t2: Timestamp, f: Faults)
    requires IdsValid(w.table.rows, w.table.nextId)
    ensures var id := w.table.nextId;
      var (o1, w1) := CreateTaskStep(w, Body(Some("Write spec"), None, None, Some("HIGH")), t1, f);
      var (o2, w2) := UpdateTaskStep(w1, id, Body(None, None, Some("DONE"), None), t2, f);
      && o1.Ok? && o1.value.id == Some(id) && o1.value.status == "TODO" && o1.value.priority == "HIGH"
      && o1.value.createdAt == Some(t1) && o1.value.updatedAt == Some(t1)
      && o2.Ok? && o2.value.status == "DONE" && o2.value.updatedAt == Some(t2)
      && Lookup(w2.table.rows, id).Some? && FromRow(Lookup(w2.table.rows, id).value).status == "DONE"
  {
    var id := w.table.nextId;
    var d1 := Body(Some("Write spec"), None, None, Some("HIGH"));
    ScenarioBodyValid();
    ValidCreateAppends(w, d1, t1, f);
    var w1 := CreateTaskStep(w, d1, t1, f).1;
    var r := InsertedRow(id, d1, t1);
    assert Lookup(w1.table.rows, id) == Some(r);
    assert FromRow(r).status == "TODO";
    var d2 := Body(None, None, Some("DONE"), None);
    UpdateMerges(w1, id, d2, t2, f);
  }

  /** A DONE task cannot go back to TODO, and nothing changes; it can be
      deleted, after which no row has its id. */
  lemma DoneTaskReopenRefusedThenDeleted(w: World, id: int, t3: Timestamp, f: Faults)
    requires Lookup(w.table.rows, id).Some? && FromRow(Lookup(w.table.rows, id).value).status == "DONE"
    ensures var (o3, w3) := UpdateTaskStep(w, id, Body(None, None, Some("TODO"), None), t3, f);
      var (o4, w4) := DeleteTaskStep(w3, id, f);
      && o3 == Failed(DoneLocked) && w3 == w
      && o4 == Ok(true) && Lookup(w4.table.rows, id).None?
  {
    DoneStatusLocked(w, id, Body(None, None, Some("TODO"), None), t3, f);
    DeleteRemoves(w, id, f);
  }

  /** Invalidation is best effort: when it fails after a create, a cached
      task list survives, and the next read returns that list, which lacks
      the new task. */
  lemma FailedInvalidationServesStaleList(w: World, d: TaskData, now: Timestamp, f: Faults, g: Faults, redisTtl: Option<int>)
    requires Coherent(w) && Ready(w.cache) && AllTasksKey in w.cache.store
    requires Validate(d).isValid && f.invalidateFails && !g.getFails
    ensures var w1 := CreateTaskStep(w, d, now, f).1;
      var out := GetAllTasksStep(w1, g, redisTtl).0;
      && out == Ok(AllTasksOf(w.table.rows))
      && out != Ok(AllTasksOf(w1.table.rows))
  {
    CreateChangesList(w, d, now, f);
  }

  /** Degraded mode goes stale: a create made while the client is
      disconnected cannot invalidate, so once the client reconnects the
      next read serves the cached list from before the create. */
  lemma ReconnectServesStaleList(w: World, d: TaskData, now: Timestamp, f: Faults, g: Faults, redisTtl: Option<int>)
    requires Coherent(w) && !w.cache.isConnected && w.cache.hasClient && AllTasksKey in w.cache.store
    requires Validate(d).isValid && !g.getFails
    ensures var w1 := CreateTaskStep(w, d, now, f).1;
      var w2 := w1.(cache := Apply(w1.cache, ConnectEvent, redisTtl));
      var out := GetAllTasksStep(w2, g, redisTtl).0;
      && out == Ok(AllTasksOf(w.table.rows))
      && out != Ok(AllTasksOf(w2.table.rows))
  {
    var w1 := CreateTaskStep(w, d, now, f).1;
    assert w1.cache == w.cache;
    var c2 := Apply(w1.cache, ConnectEvent, redisTtl);
    assert Ready(c2) && c2.store == w.cache.store;
    assert GetResult(c2, AllTasksKey, g.getFails) == Some(AllTasksOf(w.table.rows));
    CreateChangesList(w, d, now, f);
  }

  /** A successful create lengthens the task list. */
  lemma CreateChangesList(w: World, d: TaskData, now: Timestamp, f: Faults)
    requires Validate(d).isValid
    ensures |AllTasksOf(CreateTaskStep(w, d, now, f).1.table.rows).tasks| == |AllTasksOf(w.table.rows).tasks| + 1
  {
    var r := InsertedRow(w.table.nextId, d, now);
    var rows1 := w.table.rows + [r];
    assert CreateTaskStep(w, d, now, f).1.table.rows == rows1;
    assert |multiset(rows1)| == |multiset(w.table.rows)| + 1;
    assert |Listing(rows1)| == |multiset(Listing(rows1))|;
    assert |Listing(w.table.rows)| == |multiset(Listing(w.table.rows))|;
  }

  // ----- cache coherence -----

  /** The value cached under each of the service's keys (`tasks:all`,
      `tasks:stats` and `tasks:<id>`) is what a miss would compute from the
      table now. */
  ghost predicate Coherent(w: World)
  {
    CoherentStore(w.cache.store, w.table.rows)
  }

  ghost predicate CoherentStore(store: map<string, Entry<Payload>>, rows: seq<Row>)
  {
    && (AllTasksKey in store ==> store[AllTasksKey].value == AllTasksOf(rows))
    && (StatsKey in store ==> store[StatsKey].value == StatsOf(rows))
    && (forall id :: TaskKey(id) in store ==>
          Lookup(rows, id).Some? && store[TaskKey(id)].value == OneTaskOf(Lookup(rows, id).value))
  }

  /** An empty cache is coherent with any table: the invariant holds from
      the start. */
  lemma EmptyCacheCoherent(w: World)
    requires w.cache.store == map[]
    ensures Coherent(w)
  {
  }

  /** Client events change no cached value, so they keep the cache coherent. */
  lemma EventsKeepCoherent(w: World, redisTtl: Option<int>)
    requires Coherent(w)
    ensures Coherent(w.(cache := Apply(w.cache, ClientCreated, redisTtl)))
    ensures Coherent(w.(cache := Apply(w.cache, ConnectEvent, redisTtl)))
    ensures Coherent(w.(cache := Apply(w.cache, ErrorEvent, redisTtl)))
  {
    assert Apply(w.cache, ClientCreated, redisTtl).store == w.cache.store;
    assert Apply(w.cache, ConnectEvent, redisTtl).store == w.cache.store;
    assert Apply(w.cache, ErrorEvent, redisTtl).store == w.cache.store;
  }

  /** An expired key only drops a value, so expiry keeps the cache coherent. */
  lemma ExpiryKeepsCoherent(w: World, key: string, redisTtl: Option<int>)
    requires Coherent(w)
    ensures Coherent(w.(cache := Apply(w.cache, Expired(key), redisTtl)))
  {
    var s := Apply(w.cache, Expired(key), redisTtl).store;
    assert s == w.cache.store - {key};
    assert CoherentStore(s, w.table.rows) by {
      forall id | TaskKey(id) in s
        ensures Lookup(w.table.rows, id).Some? && s[TaskKey(id)].value == OneTaskOf(Lookup(w.table.rows, id).value)
      {
        assert TaskKey(id) in w.cache.store;
      }
    }
  }

  /** In a coherent world the cache is transparent: every read answers as
      if it had gone to the table. */
  lemma CoherentReadsAreFresh(w: World, id: int, f: Faults, redisTtl: Option<int>)
    requires Coherent(w)
    ensures GetAllTasksStep(w, f, redisTtl).0 == Ok(AllTasksOf(w.table.rows))
    ensures GetStatisticsStep(w, f, redisTtl).0 == Ok(StatsOf(w.table.rows))
    ensures GetTaskByIdStep(w, id, f, redisTtl).0 ==
      match Lookup(w.table.rows, id) case None => Failed(NotFound) case Some(r) => Ok(OneTaskOf(r))
  {
  }

  /** Storing one value under a key that a coherent world finds consistent
      keeps it coherent. */
  lemma StoreKeepsCoherent(w: World, key: string, v: Payload, ttl: int)
    requires Coherent(w)
    requires key == AllTasksKey ==> v == AllTasksOf(w.table.rows)
    requires key == StatsKey ==> v == StatsOf(w.table.rows)
    requires forall id :: key == TaskKey(id) ==> Lookup(w.table.rows, id).Some? && v == OneTaskOf(Lookup(w.table.rows, id).value)
    ensures Coherent(w.(cache := w.cache.(store := w.cache.store[key := Entry(v, ttl)])))
  {
  }

  /** A per-task key is neither of the two fixed keys, for every id. */
  lemma TaskKeysNotFixed()
    ensures forall i :: TaskKey(i) != AllTasksKey && TaskKey(i) != StatsKey
  {
    forall i ensures TaskKey(i) != AllTasksKey && TaskKey(i) != StatsKey {
      KeysDistinct(i);
    }
  }

  /** `getAllTasks` keeps the cache coherent. */
  lemma GetAllTasksKeepsCoherent(w: World, f: Faults, redisTtl: Option<int>)
    requires Coherent(w)
    ensures Coherent(GetAllTasksStep(w, f, redisTtl).1)
  {
    var s1 := AfterGet(w.cache, AllTasksKey, f.getFails);
    assert s1.store == w.cache.store;
    if GetResult(w.cache, AllTasksKey, f.getFails).None? {
      TaskKeysNotFixed();
      StoreKeepsCoherent(w.(cache := s1), AllTasksKey, AllTasksOf(w.table.rows), EffectiveTtl(60, redisTtl));
    }
  }

  /** `getStatistics` keeps the cache coherent. */
  lemma GetStatisticsKeepsCoherent(w: World, f: Faults, redisTtl: Option<int>)
    requires Coherent(w)
    ensures Coherent(GetStatisticsStep(w, f, redisTtl).1)
  {
    var s1 := AfterGet(w.cache, StatsKey, f.getFails);
    assert s1.store == w.cache.store;
    if GetResult(w.cache, StatsKey, f.getFails).None? {
      TaskKeysNotFixed();
      StoreKeepsCoherent(w.(cache := s1), StatsKey, StatsOf(w.table.rows), EffectiveTtl(30, redisTtl));
    }
  }

  /** Storing the current record of an existing task under its key keeps
      the cache coherent. */
  lemma StoreTaskKeepsCoherent(w: World, id: int, ttl: int)
    requires Coherent(w) && Lookup(w.table.rows, id).Some?
    ensures Coherent(w.(cache := w.cache.(store := w.cache.store[TaskKey(id) := Entry(OneTaskOf(Lookup(w.table.rows, id).value), ttl)])))
  {
    KeysDistinct(id);
    forall i | TaskKey(id) == TaskKey(i) ensures i == id {
      TaskKeyInjective(id, i);
    }
    StoreKeepsCoherent(w, TaskKey(id), OneTaskOf(Lookup(w.table.rows, id).value), ttl);
  }

  /** `getTaskById` keeps the cache coherent. */
  lemma GetTaskByIdKeepsCoherent(w: World, id: int, f: Faults, redisTtl: Option<int>)
    requires Coherent(w)
    ensures Coherent(GetTaskByIdStep(w, id, f, redisTtl).1)
  {
    var s1 := AfterGet(w.cache, TaskKey(id), f.getFails);
    var w' := GetTaskByIdStep(w, id, f, redisTtl).1;
    assert w'.table == w.table;
    if GetResult(w.cache, TaskKey(id), f.getFails).None? && Lookup(w.table.rows, id).Some? {
      var ttl := EffectiveTtl(60, redisTtl);
      var v := OneTaskOf(Lookup(w.table.rows, id).value);
      assert w'.cache.store == w.cache.store || w'.cache.store == w.cache.store[TaskKey(id) := Entry(v, ttl)];
      StoreTaskKeepsCoherent(w, id, ttl);
    } else {
      assert w'.cache.store == w.cache.store;
    }
  }

  /** Every per-task key lies in the invalidated namespace. */
  lemma TaskKeysInNamespace()
    ensures forall i :: Matches(Namespace, TaskKey(i))
  {
    forall i ensures Matches(Namespace, TaskKey(i)) {
      KeysInNamespace(i);
    }
  }

  /** `createTask` keeps the cache coherent when it fails, and when it
      succeeds with a working client; a create whose invalidation does not
      reach Redis may leave stale entries behind. */
  lemma CreateKeepsCoherent(w: World, d: TaskData, now: Timestamp, f: Faults)
    requires Coherent(w)
    ensures var (out, w') := CreateTaskStep(w, d, now, f);
      out.Failed? || (Ready(w.cache) && !f.invalidateFails) ==> Coherent(w')
  {
    TaskKeysInNamespace();
    KeysInNamespace(0);
  }

  /** `updateTask` keeps the cache coherent on the same terms. */
  lemma UpdateKeepsCoherent(w: World, id: int, d: TaskData, now: Timestamp, f: Faults)
    requires Coherent(w)
    ensures var (out, w') := UpdateTaskStep(w, id, d, now, f);
      out.Failed? || (Ready(w.cache) && !f.invalidateFails) ==> Coherent(w')
  {
    TaskKeysInNamespace();
    KeysInNamespace(0);
  }

  /** `deleteTask` keeps the cache coherent on the same terms. */
  lemma DeleteKeepsCoherent(w: World, id: int, f: Faults)
    requires Coherent(w)
    ensures var (out, w') := DeleteTaskStep(w, id, f);
      out.Failed? || (Ready(w.cache) && !f.invalidateFails) ==> Coherent(w')
  {
    TaskKeysInNamespace();
    KeysInNamespace(0);
  }

  // ----- the service object -----

  /** The `TaskService` singleton together with the two stores it drives. */
  class TaskService {
    const cache: Cache<Payload>
    const repo: TaskRepository

    ghost predicate Valid()
      reads repo
    {
      repo.Valid()
    }

    /** The cache controller's state and the table. */
    function Current(): World
      reads cache, repo
    {
      World(cache.Snapshot(), Table(repo.rows, repo.nextId))
    }

    constructor (cache: Cache<Payload>, repo: TaskRepository)
      requires repo.Valid()
      ensures this.cache == cache && this.repo == repo && Valid()
    {
      this.cache := cache;
      this.repo := repo;
    }

    method GetAllTasks(f: Faults) returns (r: Outcome<Payload>)
      requires Valid()
      modifies cache
      ensures Valid()
      ensures (r, Current()) == GetAllTasksStep(old(Current()), f, cache.redisTtl)
    {
      var cached := cache.GetCache(AllTasksKey, f.getFails);
      if cached.Some? {
        return Ok(cached.value);
      }
      var tasks := repo.FindAll();
      var json := TaskList(ToJsonList(tasks));
      cache.SetCache(AllTasksKey, json, 60, f.setFails);
      return Ok(json);
    }

    method GetTaskById(id: int, f: Faults) returns (r: Outcome<Payload>)
      requires Valid()
      modifies cache
      ensures Valid()
      ensures (r, Current()) == GetTaskByIdStep(old(Current()), id, f, cache.redisTtl)
    {
      var cached := cache.GetCache(TaskKey(id), f.getFails);
      if cached.Some? {
        return Ok(cached.value);
      }
      var task := repo.FindById(id);
      if task.None? {
        return Failed(NotFound);
      }
      var json := OneTask(ToJson(task.value));
      cache.SetCache(TaskKey(id), json, 60, f.setFails);
      return Ok(json);
    }

    method CreateTask(d: TaskData, now: Timestamp, f: Faults) returns (r: Outcome<TaskJson>)
      requires Valid()
      modifies cache, repo
      ensures Valid()
      ensures (r, Current()) == CreateTaskStep(old(Current()), d, now, f)
    {
      var validation := Validate(d);
      if !validation.isValid {
        return Failed(HttpError(400, Join(validation.errors, ", ")));
      }
      var task := repo.Create(d, now);
      cache.InvalidateCache(Namespace, f.invalidateFails);
      return Ok(ToJson(task));
    }

    method UpdateTask(id: int, d: TaskData, now: Timestamp, f: Faults) returns (r: Outcome<TaskJson>)
      requires Valid()
      modifies cache, repo
      ensures Valid()
      ensures (r, Current()) == UpdateTaskStep(old(Current()), id, d, now, f)
    {
      var existing := repo.FindById(id);
      if existing.None? {
        return Failed(NotFound);
      }
      if existing.value.status == "DONE" && Truthy(d.status) && d.status.value != "DONE" {
        return Failed(DoneLocked);
      }
      var task := repo.Update(id, d, now);
      cache.InvalidateCache(Namespace, f.invalidateFails);
      return Ok(ToJson(task.value));
    }

    method DeleteTask(id: int, f: Faults) returns (r: Outcome<bool>)
      requires Valid()
      modifies cache, repo
      ensures Valid()
      ensures (r, Current()) == DeleteTaskStep(old(Current()), id, f)
    {
      var existing := repo.FindById(id);
      if existing.None? {
        return Failed(NotFound);
      }
      if existing.value.status == "IN_PROGRESS" {
        return Failed(InProgressLocked);
      }
      var result := repo.Delete(id);
      cache.InvalidateCache(Namespace, f.invalidateFails);
      return Ok(result);
    }

    method GetStatistics(f: Faults) returns (r: Outcome<Payload>)
      requires Valid()
      modifies cache
      ensures Valid()
      ensures (r, Current()) == GetStatisticsStep(old(Current()), f, cache.redisTtl)
    {
      var cached := cache.GetCache(StatsKey, f.getFails);
      if cached.Some? {
        return Ok(cached.value);
      }
      ghost var w := old(Current());
      assert GetResult(w.cache, StatsKey, f.getFails).None?;
      var counts := repo.CountByStatus();
      assert counts == StatusCounts(w.table.rows);
      var stats := Statistics(ComputeStats(counts));
      assert stats == StatsOf(w.table.rows);
      cache.SetCache(StatsKey, stats, 30, f.setFails);
      return Ok(stats);
    }
  }
}
