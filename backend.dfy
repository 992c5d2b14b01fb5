/**
 * The service: the `/health` verdict and the routes over tasks, which keep a
 * read-through snapshot of the list of tasks in the cache under the key
 * `tasks:all` and drop it after every write to the store.
 *
 * The store (a relational table) and the cache (a key-value server) are
 * external services.  Here they are the fields of `TaskService`; whether a
 * call to either succeeds is a parameter of each operation.
 */
module Backend {
  import opened Wrappers
  import opened Timestamps
  import opened Tasks

  /** The declared width of the `title` column, `VARCHAR(255)`. */
  const TitleMaxLength := 255
  /** The largest value of the `SERIAL` id sequence (a 32-bit `integer`). */
  const SerialMax := 0x7fff_ffff
  /** Seconds the snapshot lives in the cache, as given to `SETEX`. */
  const SnapshotTtl := 60

  /** Why a request ends in status 500. */
  datatype ErrorKind =
    | StoreUnavailable   // connecting to or querying the store failed
    | NotNullViolation   // the request had no title
    | ValueTooLong       // the title is longer than the column allows
    | NulCharacter       // the database driver refuses a string holding NUL
    | SequenceExhausted  // the id sequence has passed its largest value
    | CacheUnavailable   // a call to the cache failed

  datatype Body =
    | HealthReport(status: string, database: string, cache: string)
    | TaskList(tasks: seq<TaskJson>)
    | Created(task: TaskJson)
    | Updated(id: int, completed: bool)
    | Message(text: string)
    | Failure(error: ErrorKind)

  datatype Response = Response(code: int, body: Body)

  function Fail(kind: ErrorKind): Response
  {
    Response(500, Failure(kind))
  }

  // ---------------------------------------------------------------------
  // GET /health

  function ProbeStatus(up: bool): string
  {
    if up then "connected" else "error"
  }

  /**
   * The health verdict from the two probes: the store alone decides the
   * overall status and the status code; both probes are always reported.
   */
  function Health(dbUp: bool, cacheUp: bool): (r: Response)
    ensures r.body.HealthReport?
    ensures r.code == 200 <==> dbUp
    ensures r.code == 500 <==> !dbUp
    ensures r.body.status == "healthy" <==> dbUp
    ensures r.body.status == "unhealthy" <==> !dbUp
    ensures r.body.database in {"connected", "error"} && r.body.cache in {"connected", "error"}
    ensures r.body.database == "connected" <==> dbUp
    ensures r.body.cache == "connected" <==> cacheUp
  {
    var db := ProbeStatus(dbUp);
    Response(if db == "connected" then 200 else 500,
      HealthReport(if db == "connected" then "healthy" else "unhealthy", db, ProbeStatus(cacheUp)))
  }

  /** The cache probe never changes the status code or the overall status. */
  lemma HealthIgnoresCache(dbUp: bool, cacheUp1: bool, cacheUp2: bool)
    ensures Health(dbUp, cacheUp1).code == Health(dbUp, cacheUp2).code
    ensures Health(dbUp, cacheUp1).body.status == Health(dbUp, cacheUp2).body.status
    ensures Health(dbUp, cacheUp1).body.database == Health(dbUp, cacheUp2).body.database
  {
  }

  // ---------------------------------------------------------------------
  // Routes over the tasks table

  /** The value stored under `tasks:all`: the snapshot and the TTL it was set with. */
  datatype CacheEntry = CacheEntry(snapshot: seq<TaskJson>, ttlSeconds: int)

  /**
   * Whether a `VARCHAR(255)` column takes the value: it fits, or every
   * character past the 255th is a space.
   */
  predicate FitsColumn(t: string)
  {
    forall i :: TitleMaxLength <= i < |t| ==> t[i] == ' '
  }

  /** The value a `VARCHAR(255)` column holds: cut to 255 characters. */
  function ColumnValue(t: string): (s: string)
    requires FitsColumn(t)
    ensures |s| == if |t| <= TitleMaxLength then |t| else TitleMaxLength
    ensures s == t[..|s|]
    ensures forall i :: |s| <= i < |t| ==> t[i] == ' '
  {
    if |t| <= TitleMaxLength then t else t[..TitleMaxLength]
  }

  /** Whether the title of a create request can be stored at all. */
  predicate TitleAccepted(title: Option<string>)
  {
    title.Some? && '\0' !in title.value && FitsColumn(title.value)
  }

  /**
   * Whether `INSERT INTO tasks (title, completed)` succeeds when the id
   * sequence stands at `id`.
   */
  predicate InsertAccepted(title: Option<string>, dbUp: bool, id: int)
  {
    dbUp && TitleAccepted(title) && id <= SerialMax
  }

  /** The table after `UPDATE tasks SET completed = c WHERE id = id`. */
  function SetCompleted(store: map<int, Row>, id: int, completed: bool): (s: map<int, Row>)
    ensures s.Keys == store.Keys
    ensures id in store ==> s[id] == store[id].(completed := completed)
    ensures forall k :: k in store && k != id ==> s[k] == store[k]
  {
    if id in store then store[id := store[id].(completed := completed)] else store
  }

  /**
   * Why an insert is refused.  When several causes apply, the first in this
   * order is reported: the store is down; the driver finds NUL in the title
   * before it sends the statement; the title does not fit the column; the id
   * sequence is exhausted; the title is missing (`NOT NULL` is checked on
   * the finished row).
   */
  function InsertError(title: Option<string>, dbUp: bool, id: int): (e: ErrorKind)
    requires !InsertAccepted(title, dbUp, id)
    ensures e != CacheUnavailable
    ensures e == StoreUnavailable <==> !dbUp
    ensures e == NulCharacter <==> dbUp && title.Some? && '\0' in title.value
    ensures e == ValueTooLong <==>
      dbUp && title.Some? && '\0' !in title.value && !FitsColumn(title.value)
    ensures e == SequenceExhausted <==>
      dbUp && (title.None? || TitleAccepted(title)) && id > SerialMax
    ensures e == NotNullViolation <==> dbUp && title.None? && id <= SerialMax
  {
    if !dbUp then StoreUnavailable
    else if title.Some? && '\0' in title.value then NulCharacter
    else if title.Some? && !FitsColumn(title.value) then ValueTooLong
    else if id > SerialMax then SequenceExhausted
    else NotNullViolation
  }

  class TaskService {
    /** The `tasks` table, by id. */
    var store: map<int, Row>
    /** The next value of the table's id sequence (`SERIAL`). */
    var nextId: int
    /** The entry under `tasks:all`, if any. */
    var cache: Option<CacheEntry>

    ghost predicate Valid()
      reads this
    {
      && WellFormed(store)
      && 1 <= nextId
      && (forall k :: k in store ==> k < nextId && |store[k].title| <= TitleMaxLength)
    }

    /** The cache holds no snapshot, or the serialized listing of the current table. */
    ghost predicate Coherent()
      reads this
    {
      cache.None? || ListedFrom(store, cache.value.snapshot)
    }

    constructor ()
      ensures Valid() && Coherent()
      ensures store == map[] && nextId == 1 && cache == None
    {
      store := map[];
      nextId := 1;
      cache := None;
    }

    /**
     * GET /api/tasks.  A snapshot in the cache is returned as it is, without
     * touching the store.  Otherwise the store is listed, the listing is
     * cached for `SnapshotTtl` seconds and returned.  A failing call to the
     * cache or the store ends the request with 500.
     */
    method GetTasks(cacheUp: bool, dbUp: bool, cacheWriteUp: bool) returns (resp: Response)
      requires Valid()
      modifies this`cache
      ensures Valid()
      ensures !cacheUp ==> resp == Fail(CacheUnavailable) && cache == old(cache)
      ensures cacheUp && old(cache).Some? ==>
        resp == Response(200, TaskList(old(cache).value.snapshot)) && cache == old(cache)
      ensures cacheUp && old(cache).None? && !dbUp ==>
        resp == Fail(StoreUnavailable) && cache == old(cache)
      ensures cacheUp && old(cache).None? && dbUp && !cacheWriteUp ==>
        resp == Fail(CacheUnavailable) && cache == old(cache)
      ensures cacheUp && old(cache).None? && dbUp && cacheWriteUp ==>
        && resp.code == 200 && resp.body.TaskList?
        && ListedFrom(store, resp.body.tasks)
        && cache == Some(CacheEntry(resp.body.tasks, SnapshotTtl))
      ensures old(Coherent()) ==> Coherent()
      ensures old(Coherent()) && resp.code == 200 ==>
        resp.body.TaskList? && ListedFrom(store, resp.body.tasks)
    {
      if !cacheUp {
        return Fail(CacheUnavailable);
      }
      if cache.Some? {
        return Response(200, TaskList(cache.value.snapshot));
      }
      if !dbUp {
        return Fail(StoreUnavailable);
      }
      var rows := Query(store);
      var tasks := Serialize(rows);
      SerializedListing(store, rows);
      if !cacheWriteUp {
        return Fail(CacheUnavailable);
      }
      cache := Some(CacheEntry(tasks, SnapshotTtl));
      resp := Response(200, TaskList(tasks));
    }

    /**
     * POST /api/tasks.  Inserts a row with a fresh id, the given title (cut
     * to the column's width), `completed` false and the store's current time
     * `now` (the column's default, never null), commits, then drops the
     * snapshot.  The reply echoes the title
     * as the request gave it.  If the store refuses, nothing changes.  If
     * dropping the snapshot fails, the row stays committed and the request
     * still ends in 500.
     */
    method CreateTask(title: Option<string>, now: Timestamp, dbUp: bool, cacheUp: bool)
      returns (resp: Response)
      requires Valid() && Timestamps.Valid(now)
      modifies this
      ensures Valid()
      ensures !InsertAccepted(title, dbUp, old(nextId)) ==>
        && resp == Fail(InsertError(title, dbUp, old(nextId)))
        && store == old(store) && nextId == old(nextId) && cache == old(cache)
      ensures InsertAccepted(title, dbUp, old(nextId)) ==>
        var row := Row(old(nextId), ColumnValue(title.value), false, Some(now));
        && old(nextId) !in old(store)
        && store == old(store)[old(nextId) := row]
        && nextId == old(nextId) + 1
        && (cacheUp ==> cache == None && resp == Response(201, Created(ToJson(row).(title := title.value))))
        && (!cacheUp ==> cache == old(cache) && resp == Fail(CacheUnavailable))
      ensures resp.code == 201 <==> InsertAccepted(title, dbUp, old(nextId)) && cacheUp
      ensures resp.code == 201 ==>
        resp.body.Created? && resp.body.task.id == old(nextId) && resp.body.task.createdAt == Some(IsoFormat(now))
      ensures old(Coherent()) && (cacheUp || !InsertAccepted(title, dbUp, old(nextId))) ==> Coherent()
    {
      if !InsertAccepted(title, dbUp, nextId) {
        return Fail(InsertError(title, dbUp, nextId));
      }
      var row := Row(nextId, ColumnValue(title.value), false, Some(now));
      store := store[nextId := row];
      nextId := nextId + 1;
      if !cacheUp {
        return Fail(CacheUnavailable);
      }
      cache := None;
      resp := Response(201, Created(ToJson(row).(title := title.value)));
    }

    /**
     * PUT /api/tasks/<id>.  Sets `completed` on the row with that id, if
     * there is one, commits, then drops the snapshot.  The reply echoes the
     * id and the value whether or not a row matched.
     */
    method UpdateTask(id: int, completed: bool, dbUp: bool, cacheUp: bool) returns (resp: Response)
      requires Valid()
      modifies this
      ensures Valid() && nextId == old(nextId)
      ensures !dbUp ==> resp == Fail(StoreUnavailable) && store == old(store) && cache == old(cache)
      ensures dbUp ==>
        && store == SetCompleted(old(store), id, completed)
        && (cacheUp ==> cache == None && resp == Response(200, Updated(id, completed)))
        && (!cacheUp ==> cache == old(cache) && resp == Fail(CacheUnavailable))
      ensures old(Coherent()) && (cacheUp || !dbUp) ==> Coherent()
    {
      if !dbUp {
        return Fail(StoreUnavailable);
      }
      store := SetCompleted(store, id, completed);
      if !cacheUp {
        return Fail(CacheUnavailable);
      }
      cache := None;
      resp := Response(200, Updated(id, completed));
    }

    /**
     * DELETE /api/tasks/<id>.  Removes the row with that id, if there is
     * one, commits, then drops the snapshot; the reply is the same whether
     * or not a row matched.
     */
    method DeleteTask(id: int, dbUp: bool, cacheUp: bool) returns (resp: Response)
      requires Valid()
      modifies this
      ensures Valid() && nextId == old(nextId)
      ensures !dbUp ==> resp == Fail(StoreUnavailable) && store == old(store) && cache == old(cache)
      ensures dbUp ==>
        && store == old(store) - {id}
        && (cacheUp ==> cache == None && resp == Response(200, Message("Task deleted")))
        && (!cacheUp ==> cache == old(cache) && resp == Fail(CacheUnavailable))
      ensures old(Coherent()) && (cacheUp || !dbUp) ==> Coherent()
    {
      if !dbUp {
        return Fail(StoreUnavailable);
      }
      store := store - {id};
      if !cacheUp {
        return Fail(CacheUnavailable);
      }
      cache := None;
      resp := Response(200, Message("Task deleted"));
    }

    /** POST /api/cache/clear.  Drops the snapshot; the store is not touched. */
    method ClearCache(cacheUp: bool) returns (resp: Response)
      requires Valid()
      modifies this`cache
      ensures Valid()
      ensures cacheUp ==> cache == None && resp == Response(200, Message("Cache cleared"))
      ensures !cacheUp ==> cache == old(cache) && resp == Fail(CacheUnavailable)
      ensures old(Coherent()) ==> Coherent()
    {
      if !cacheUp {
        return Fail(CacheUnavailable);
      }
      cache := None;
      resp := Response(200, Message("Cache cleared"));
    }

    /** The cache server drops the snapshot when its TTL runs out. */
    method Expire()
      requires Valid()
      modifies this`cache
      ensures Valid() && cache == None && Coherent()
    {
      cache := None;
    }

    /** Routes one request to its handler; a TTL expiry has no response. */
    method Handle(req: Request) returns (resp: Option<Response>)
      requires Valid() && Admissible(req)
      modifies this
      ensures Valid()
      ensures resp.None? <==> req.TtlExpiry?
      ensures old(Coherent()) && !LosesInvalidation(req) ==> Coherent()
    {
      var r: Response;
      match req
      case ListTasks(cacheUp, dbUp, cacheWriteUp) =>
        r := GetTasks(cacheUp, dbUp, cacheWriteUp);
        resp := Some(r);
      case CreateTask(title, now, dbUp, cacheUp) =>
        r := CreateTask(title, now, dbUp, cacheUp);
        resp := Some(r);
      case UpdateTask(id, completed, dbUp, cacheUp) =>
        r := UpdateTask(id, completed, dbUp, cacheUp);
        resp := Some(r);
      case DeleteTask(id, dbUp, cacheUp) =>
        r := DeleteTask(id, dbUp, cacheUp);
        resp := Some(r);
      case ClearCache(cacheUp) =>
        r := ClearCache(cacheUp);
        resp := Some(r);
      case TtlExpiry =>
        Expire();
        resp := None;
    }

    /**
     * Serves requests one after another.  Unless some write committed and
     * then failed to drop the snapshot, a coherent cache stays coherent.
     */
    method Serve(reqs: seq<Request>) returns (resps: seq<Option<Response>>)
      requires Valid()
      requires forall i :: 0 <= i < |reqs| ==> Admissible(reqs[i])
      modifies this
      ensures Valid() && |resps| == |reqs|
      ensures old(Coherent()) && (forall i :: 0 <= i < |reqs| ==> !LosesInvalidation(reqs[i])) ==>
        Coherent()
    {
      resps := [];
      ghost var coherent := Coherent();
      for n := 0 to |reqs|
        invariant Valid() && |resps| == n
        invariant coherent && (forall i :: 0 <= i < n ==> !LosesInvalidation(reqs[i])) ==> Coherent()
      {
        var resp := Handle(reqs[n]);
        resps := resps + [resp];
      }
    }
  }

  /**
   * A request to the service, with the outcome of each external call it
   * makes, or the expiry of the snapshot's TTL.
   */
  datatype Request =
    | ListTasks(cacheUp: bool, dbUp: bool, cacheWriteUp: bool)
    | CreateTask(title: Option<string>, now: Timestamp, dbUp: bool, cacheUp: bool)
    | UpdateTask(id: int, completed: bool, dbUp: bool, cacheUp: bool)
    | DeleteTask(id: int, dbUp: bool, cacheUp: bool)
    | ClearCache(cacheUp: bool)
    | TtlExpiry

  predicate Admissible(req: Request)
  {
    req.CreateTask? ==> Timestamps.Valid(req.now)
  }

  /**
   * The write may reach the store but the snapshot is not dropped.  For a
   * create this leaves out the id sequence, which the request does not
   * carry: an insert refused for an exhausted sequence is counted too.
   */
  predicate LosesInvalidation(req: Request)
  {
    match req
    case CreateTask(title, _, dbUp, cacheUp) => dbUp && TitleAccepted(title) && !cacheUp
    case UpdateTask(_, _, dbUp, cacheUp) => dbUp && !cacheUp
    case DeleteTask(_, dbUp, cacheUp) => dbUp && !cacheUp
    case _ => false
  }

  // ---------------------------------------------------------------------
  // Runs

  /**
   * Create "buy milk", list, mark it done, delete it, list again, with every
   * external call succeeding: the replies the routes promise.
   */
  method BuyMilkRun(now: Timestamp)
    returns (created: Response, listed: Response, updated: Response, deleted: Response, relisted: Response)
    requires Valid(now)
    ensures created == Response(201, Created(TaskJson(1, "buy milk", false, Some(IsoFormat(now)))))
    ensures listed == Response(200, TaskList([TaskJson(1, "buy milk", false, Some(IsoFormat(now)))]))
    ensures updated == Response(200, Updated(1, true))
    ensures deleted == Response(200, Message("Task deleted"))
    ensures relisted == Response(200, TaskList([]))
  {
    var svc := new TaskService();
    created := svc.CreateTask(Some("buy milk"), now, true, true);
    var row := Row(1, "buy milk", false, Some(now));
    assert svc.store == map[1 := row];
    listed := svc.GetTasks(true, true, true);
    ListingOfOne(row, Deserialize(listed.body.tasks).value);
    updated := svc.UpdateTask(1, true, true, true);
    deleted := svc.DeleteTask(1, true, true);
    assert svc.store == map[];
    relisted := svc.GetTasks(true, true, true);
    ListingOfEmpty(Deserialize(relisted.body.tasks).value);
  }

  /**
   * A title of "buy milk" and 250 spaces is cut to 255 characters in the
   * table while the reply echoes all 258; a title holding NUL is refused and
   * takes no id.
   */
  method TitleRulesRun(now: Timestamp)
    returns (padded: Response, stored: Row, refused: Response, next: int)
    requires Valid(now)
    ensures var long := "buy milk" + seq(250, _ => ' ');
      && padded == Response(201, Created(TaskJson(1, long, false, Some(IsoFormat(now)))))
      && stored == Row(1, long[..TitleMaxLength], false, Some(now))
      && |stored.title| == TitleMaxLength
    ensures refused == Fail(NulCharacter) && next == 2
  {
    var long := "buy milk" + seq(250, _ => ' ');
    assert FitsColumn(long) by {
      forall i | TitleMaxLength <= i < |long| ensures long[i] == ' ' {
        assert long[i] == seq(250, _ => ' ')[i - 8];
      }
    }
    assert '\0' !in long by {
      forall i | 0 <= i < |long| ensures long[i] != '\0' {
        if i >= 8 { assert long[i] == seq(250, _ => ' ')[i - 8]; }
      }
    }
    var svc := new TaskService();
    padded := svc.CreateTask(Some(long), now, true, true);
    stored := svc.store[1];
    var nul := "buy\0milk";
    assert nul[3] == '\0';
    refused := svc.CreateTask(Some(nul), now, true, true);
    next := svc.nextId;
  }

  /**
   * The same start, but the cache is down while the update runs: the update
   * is committed and answered with 500, and the next listing, served from
   * the snapshot, still shows that task as not done.
   */
  method LostInvalidationRun(now: Timestamp)
    returns (updated: Response, listed: Response, stored: Row)
    requires Valid(now)
    ensures updated == Fail(CacheUnavailable)
    ensures stored == Row(1, "buy milk", true, Some(now))
    ensures listed == Response(200, TaskList([TaskJson(1, "buy milk", false, Some(IsoFormat(now)))]))
  {
    var svc := new TaskService();
    var created := svc.CreateTask(Some("buy milk"), now, true, true);
    var row := Row(1, "buy milk", false, Some(now));
    assert svc.store == map[1 := row];
    var first := svc.GetTasks(true, true, true);
    ListingOfOne(row, Deserialize(first.body.tasks).value);
    updated := svc.UpdateTask(1, true, true, false);
    stored := svc.store[1];
    listed := svc.GetTasks(true, true, true);
  }
}
