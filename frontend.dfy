/**
 * The page's state and the handlers that change it: the list of tasks, the
 * loading flag, the error banner and the three status fields.  A request the
 * page awaits is replaced by its outcome: the reply's data, or the error it
 * throws.
 */
module Frontend {
  import opened Wrappers
  import opened Tasks

  /** The three status fields: "checking", "connected" or "error". */
  datatype HealthView = HealthView(api: string, db: string, cache: string)

  const Checking := HealthView("checking", "checking", "checking")

  /** The fields of the `/health` reply the page reads. */
  datatype HealthData = HealthData(database: string, cache: string)

  /** What an awaited request gives its handler. */
  datatype Reply<T> = Received(data: T) | Thrown(message: string)

  /** The status fields after a health check. */
  function HealthShown(reply: Reply<HealthData>): (h: HealthView)
    ensures h.db in {"connected", "error"} && h.cache in {"connected", "error"}
    ensures h.api == "connected" <==> reply.Received?
    ensures reply.Thrown? ==> h == HealthView("error", "error", "error")
    ensures reply.Received? ==>
      && (h.db == "connected" <==> reply.data.database == "connected")
      && (h.cache == "connected" <==> reply.data.cache == "connected")
  {
    match reply
    case Received(data) =>
      HealthView("connected",
        if data.database == "connected" then "connected" else "error",
        if data.cache == "connected" then "connected" else "error")
    case Thrown(_) => HealthView("error", "error", "error")
  }

  /** `completed` rewritten on every task with the given id. */
  function Toggled(tasks: seq<TaskJson>, id: int, completed: bool): (r: seq<TaskJson>)
    ensures |r| == |tasks|
    ensures forall i :: 0 <= i < |tasks| ==>
      r[i] == if tasks[i].id == id then tasks[i].(completed := completed) else tasks[i]
  {
    if tasks == [] then []
    else
      var t := tasks[0];
      [if t.id == id then t.(completed := completed) else t] + Toggled(tasks[1..], id, completed)
  }

  /** Toggling twice to the same value is toggling once. */
  lemma ToggledIdempotent(tasks: seq<TaskJson>, id: int, completed: bool)
    ensures Toggled(Toggled(tasks, id, completed), id, completed) == Toggled(tasks, id, completed)
  {
  }

  /** Every task whose id differs from the given one. */
  function WithoutId(tasks: seq<TaskJson>, id: int): (r: seq<TaskJson>)
    ensures |r| <= |tasks|
    ensures forall t :: t in r <==> t in tasks && t.id != id
  {
    if tasks == [] then []
    else if tasks[0].id == id then WithoutId(tasks[1..], id)
    else [tasks[0]] + WithoutId(tasks[1..], id)
  }

  /** Filtering keeps the relative order: it distributes over concatenation. */
  lemma {:induction false} WithoutIdConcat(a: seq<TaskJson>, b: seq<TaskJson>, id: int)
    ensures WithoutId(a + b, id) == WithoutId(a, id) + WithoutId(b, id)
  {
    if a == [] {
      assert a + b == b;
    } else {
      assert (a + b)[1..] == a[1..] + b;
      WithoutIdConcat(a[1..], b, id);
    }
  }

  /** A list without the id is left as it is. */
  lemma {:induction false} WithoutAbsentId(tasks: seq<TaskJson>, id: int)
    requires forall t :: t in tasks ==> t.id != id
    ensures WithoutId(tasks, id) == tasks
  {
    if tasks != [] {
      assert tasks[0] in tasks;
      WithoutAbsentId(tasks[1..], id);
    }
  }

  /** Deleting twice is deleting once. */
  lemma WithoutIdIdempotent(tasks: seq<TaskJson>, id: int)
    ensures WithoutId(WithoutId(tasks, id), id) == WithoutId(tasks, id)
  {
    WithoutAbsentId(WithoutId(tasks, id), id);
  }

  class App {
    var tasks: seq<TaskJson>
    var loading: bool
    var error: Option<string>
    var health: HealthView

    /** The state the page starts in. */
    constructor ()
      ensures tasks == [] && loading && error == None && health == Checking
    {
      tasks := [];
      loading := true;
      error := None;
      health := Checking;
    }

    /** Shows a message in the banner (its five-second timer is not modelled). */
    method ShowError(message: string)
      modifies this`error
      ensures error == Some(message)
    {
      error := Some(message);
    }

    method CheckHealth(reply: Reply<HealthData>)
      modifies this`health, this`error
      ensures health == HealthShown(reply)
      ensures reply.Received? ==> error == old(error)
      ensures reply.Thrown? ==> error == Some("Cannot connect to backend API")
    {
      health := HealthShown(reply);
      if reply.Thrown? {
        ShowError("Cannot connect to backend API");
      }
    }

    method LoadTasks(reply: Reply<seq<TaskJson>>)
      modifies this`loading, this`tasks, this`error
      ensures !loading
      ensures reply.Received? ==> tasks == reply.data && error == old(error)
      ensures reply.Thrown? ==>
        tasks == old(tasks) && error == Some("Failed to load tasks: " + reply.message)
    {
      loading := true;
      match reply
      case Received(data) =>
        tasks := data;
        loading := false;
      case Thrown(message) =>
        error := Some("Failed to load tasks: " + message);
        loading := false;
    }

    /** `reply` is the outcome of posting the new title. */
    method AddTask(reply: Reply<TaskJson>)
      modifies this`tasks, this`error
      ensures reply.Received? ==> tasks == [reply.data] + old(tasks) && error == old(error)
      ensures reply.Thrown? ==>
        tasks == old(tasks) && error == Some("Failed to add task: " + reply.message)
    {
      match reply
      case Received(task) =>
        tasks := [task] + tasks;
      case Thrown(message) =>
        ShowError("Failed to add task: " + message);
    }

    /** `reply` is the outcome of the PUT. */
    method ToggleTask(id: int, completed: bool, reply: Reply<()>)
      modifies this`tasks, this`error
      ensures reply.Received? ==> tasks == Toggled(old(tasks), id, completed) && error == old(error)
      ensures reply.Thrown? ==>
        tasks == old(tasks) && error == Some("Failed to update task: " + reply.message)
    {
      match reply
      case Received(_) =>
        tasks := Toggled(tasks, id, completed);
      case Thrown(message) =>
        ShowError("Failed to update task: " + message);
    }

    /** `reply` is the outcome of the DELETE. */
    method DeleteTask(id: int, reply: Reply<()>)
      modifies this`tasks, this`error
      ensures reply.Received? ==> tasks == WithoutId(old(tasks), id) && error == old(error)
      ensures reply.Thrown? ==>
        tasks == old(tasks) && error == Some("Failed to delete task: " + reply.message)
    {
      match reply
      case Received(_) =>
        tasks := WithoutId(tasks, id);
      case Thrown(message) =>
        ShowError("Failed to delete task: " + message);
    }
  }
}
