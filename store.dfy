/** The in-memory task store (`tasks` and `nextTaskId`) and the route
    handlers that read and change it. */
module Store {
  import opened Tasks
  import opened Validation
  import opened Listing

  /** What a handler answers; the HTTP status code is `StatusCode`. */
  datatype Response =
    | Created(task: Task)
    | Found(task: Task)
    | Listed(tasks: seq<Task>)
    | Updated(task: Task)
    | Deleted
    | NotFound
    | BadRequest(error: ValidationError)

  function StatusCode(r: Response): int
  {
    match r
    case Created(_) => 201
    case NotFound => 404
    case BadRequest(_) => 400
    case _ => 200
  }

  /** `t.id === parseInt(req.params.id)`; an id that did not parse (NaN,
      modelled as None) equals nothing. */
  predicate Matches(t: Task, id: Option<int>)
  {
    id.Some? && t.id == id.value
  }

  /** `Array.prototype.findIndex` with the id test: the first match, or -1. */
  function FindIndex(tasks: seq<Task>, id: Option<int>): (r: int)
    ensures -1 <= r < |tasks|
    ensures r == -1 <==> forall j :: 0 <= j < |tasks| ==> !Matches(tasks[j], id)
    ensures 0 <= r ==> Matches(tasks[r], id) && forall j :: 0 <= j < r ==> !Matches(tasks[j], id)
  {
    if tasks == [] then -1
    else if Matches(tasks[0], id) then 0
    else
      var k := FindIndex(tasks[1..], id);
      if k == -1 then -1 else k + 1
  }

  /** The tasks a list request keeps before any sorting. */
  function Selected(tasks: seq<Task>, status: Option<string>): seq<Task>
  {
    if Truthy(status) then FilterByStatus(tasks, status.value) else tasks
  }

  /** What every stored task satisfies, given the next id to hand out. */
  predicate WellFormed(t: Task, nextId: int)
  {
    && 1 <= t.id < nextId
    && t.title != ""
    && t.description != ""
    && StorableStatus(t.status)
  }

  /** Removing one task keeps the others in insertion order. */
  lemma RemoveKeepsIdOrder(s: seq<Task>, i: int)
    requires IdsIncreasing(s)
    requires 0 <= i < |s|
    ensures IdsIncreasing(s[..i] + s[i + 1..])
  {
    var r := s[..i] + s[i + 1..];
    forall a, b | 0 <= a < b < |r| ensures r[a].id < r[b].id {
      var a', b' := if a < i then a else a + 1, if b < i then b else b + 1;
      assert r[a] == s[a'] && r[b] == s[b'];
    }
  }

  /** Removing the first task with an id from a store with unique ids
      removes every task with that id, and keeps the others well formed. */
  lemma RemoveDropsId(s: seq<Task>, r: seq<Task>, i: int, id: Option<int>, nextId: int)
    requires IdsIncreasing(s)
    requires forall j :: 0 <= j < |s| ==> WellFormed(s[j], nextId)
    requires 0 <= i < |s| && Matches(s[i], id)
    requires forall j :: 0 <= j < i ==> !Matches(s[j], id)
    requires r == s[..i] + s[i + 1..]
    ensures forall j :: 0 <= j < |r| ==> !Matches(r[j], id) && WellFormed(r[j], nextId)
  {
    forall j | 0 <= j < |r| ensures !Matches(r[j], id) && WellFormed(r[j], nextId) {
      var j' := if j < i then j else j + 1;
      assert r[j] == s[j'];
    }
  }

  class TaskStore {
    /** The stored tasks in insertion order. */
    var tasks: seq<Task>
    /** `nextTaskId`: the id the next created task gets. */
    var nextId: int
    /** Every id ever handed out, including those of deleted tasks. `Valid()`
        makes it exactly `1 .. nextId - 1`, so it records no more than
        `nextId`; ids are never reused because every method either leaves
        `nextId` as it was or, on a create, adds one to it. */
    ghost var issued: set<int>

    ghost predicate Valid()
      reads this
    {
      && 1 <= nextId
      && (forall k :: k in issued <==> 1 <= k < nextId)
      && IdsIncreasing(tasks)
      && (forall i :: 0 <= i < |tasks| ==> WellFormed(tasks[i], nextId))
    }

    /** The state at start-up: no tasks, and the first id is 1. */
    constructor ()
      ensures Valid()
      ensures tasks == [] && nextId == 1 && issued == {}
    {
      tasks := [];
      nextId := 1;
      issued := {};
    }

    /** The POST handler, which runs only after the middleware passed. */
    method CreateHandler(body: Body, createdAt: nat) returns (r: Response)
      requires Valid()
      requires ValidateTask(Post, body) == Pass
      modifies this
      ensures Valid()
      ensures r.Created?
      ensures r.task.id == old(nextId) && nextId == old(nextId) + 1
      ensures r.task.id !in old(issued) && issued == old(issued) + {r.task.id}
      ensures forall t :: t in old(tasks) ==> t.id < r.task.id
      ensures r.task.title == body.title.value && r.task.description == body.description.value
      ensures r.task.status == if body.status.None? then DefaultStatus else body.status.value
      ensures r.task.createdAt == createdAt
      ensures tasks == old(tasks) + [r.task]
    {
      var status := if body.status.None? then DefaultStatus else body.status.value;
      var task := Task(nextId, body.title.value, body.description.value, status, createdAt);
      nextId := nextId + 1;
      issued := issued + {task.id};
      tasks := tasks + [task];
      r := Created(task);
    }

    /** POST /tasks: the middleware, then the handler. */
    method PostTask(body: Body, createdAt: nat) returns (r: Response)
      requires Valid()
      modifies this
      ensures Valid()
      ensures r.Created? || r.BadRequest?
      ensures r.BadRequest? <==> ValidateTask(Post, body).Fail?
      ensures r.BadRequest? ==>
        && r.error == ValidateTask(Post, body).error
        && tasks == old(tasks) && nextId == old(nextId) && issued == old(issued)
      ensures r.Created? ==>
        && r.task == Task(old(nextId), body.title.value, body.description.value,
                          if body.status.None? then DefaultStatus else body.status.value, createdAt)
        && r.task.id !in old(issued) && issued == old(issued) + {r.task.id}
        && nextId == old(nextId) + 1
        && tasks == old(tasks) + [r.task]
    {
      var v := ValidateTask(Post, body);
      if v.Fail? {
        return BadRequest(v.error);
      }
      r := CreateHandler(body, createdAt);
    }

    /** GET /tasks?status=...&sort=...: a filtered, possibly sorted copy. */
    method ListTasks(q: Query) returns (r: Response)
      requires Valid()
      ensures r.Listed?
      // With a truthy status filter exactly the tasks of that status, and
      // without one every task, each as often as stored.
      ensures forall t :: t in r.tasks <==> t in tasks && (Truthy(q.status) ==> t.status == q.status.value)
      ensures Truthy(q.status) ==> forall t :: multiset(r.tasks)[t] == if t.status == q.status.value then multiset(tasks)[t] else 0
      ensures !Truthy(q.status) ==> multiset(r.tasks) == multiset(tasks)
      // Without `asc` or `desc` the store order is kept.
      ensures q.sort != Some("asc") && q.sort != Some("desc") ==>
        r.tasks == Selected(tasks, q.status) && Subsequence(r.tasks, tasks) && IdsIncreasing(r.tasks)
      ensures q.sort != Some("asc") && q.sort != Some("desc") && !Truthy(q.status) ==> r.tasks == tasks
      ensures q.sort == Some("asc") ==> Ordered(r.tasks, true)
      ensures q.sort == Some("desc") ==> Ordered(r.tasks, false)
      // The sort is stable: tasks created at the same time keep store order.
      ensures forall k: nat :: CreatedAt(r.tasks, k) == CreatedAt(Selected(tasks, q.status), k)
    {
      var result := tasks;
      if Truthy(q.status) {
        result := FilterByStatus(result, q.status.value);
        FilterKeepsIdOrder(tasks, q.status.value);
      }
      if q.sort == Some("asc") || q.sort == Some("desc") {
        ghost var filtered := result;
        result := SortByCreated(result, q.sort == Some("asc"));
        forall k: nat ensures CreatedAt(result, k) == CreatedAt(filtered, k) {
          SortStable(filtered, q.sort == Some("asc"), k);
        }
        forall t ensures t in result <==> t in filtered {
          assert t in multiset(result) <==> t in multiset(filtered);
        }
      }
      assert !Truthy(q.status) ==> Subsequence(tasks, tasks) by {
        SubsequenceReflexive(tasks);
      }
      r := Listed(result);
    }

    /** GET /tasks/:id: the first task with that id. */
    method GetTask(id: Option<int>) returns (r: Response)
      requires Valid()
      ensures r.Found? || r.NotFound?
      ensures r.NotFound? <==> forall j :: 0 <= j < |tasks| ==> !Matches(tasks[j], id)
      ensures r.Found? ==> r.task in tasks && Matches(r.task, id)
      // Ids are unique, so the first match is the only one.
      ensures r.Found? ==> forall t :: t in tasks && Matches(t, id) ==> t == r.task
    {
      var i := FindIndex(tasks, id);
      if i == -1 {
        return NotFound;
      }
      r := Found(tasks[i]);
    }

    /** Replaces the stored task at index `i` by `t`, which keeps its id and
        creation time: an assignment to a field of the found task object. */
    method Overwrite(i: int, t: Task)
      requires Valid()
      requires 0 <= i < |tasks|
      requires t.id == tasks[i].id && t.createdAt == tasks[i].createdAt && WellFormed(t, nextId)
      modifies this
      ensures Valid()
      ensures tasks == old(tasks)[i := t] && nextId == old(nextId) && issued == old(issued)
    {
      tasks := tasks[i := t];
    }

    /** The PUT handler on its own. It writes title and description before
        it checks the status, so on its own a bad status leaves those two
        written and answers 400. */
    method UpdateHandler(id: Option<int>, body: Body) returns (r: Response)
      requires Valid()
      modifies this
      ensures Valid()
      ensures nextId == old(nextId) && issued == old(issued)
      ensures r.NotFound? || r.Updated? || r == BadRequest(InvalidStatus)
      ensures r.NotFound? <==> forall j :: 0 <= j < |old(tasks)| ==> !Matches(old(tasks)[j], id)
      ensures r.NotFound? ==> tasks == old(tasks)
      ensures !r.NotFound? ==>
        var i := FindIndex(old(tasks), id);
        var was := old(tasks)[i];
        var title := if Truthy(body.title) then body.title.value else was.title;
        var description := if Truthy(body.description) then body.description.value else was.description;
        var badStatus := Truthy(body.status) && !IsStatus(body.status.value);
        var status := if Truthy(body.status) && !badStatus then body.status.value else was.status;
        && 0 <= i
        && tasks == old(tasks)[i := Task(was.id, title, description, status, was.createdAt)]
        && (r.BadRequest? <==> badStatus)
        && (r.Updated? ==> r.task == tasks[i])
    {
      var i := FindIndex(tasks, id);
      if i == -1 {
        return NotFound;
      }
      if Truthy(body.title) {
        Overwrite(i, tasks[i].(title := body.title.value));
      }
      if Truthy(body.description) {
        Overwrite(i, tasks[i].(description := body.description.value));
      }
      if Truthy(body.status) {
        if !IsStatus(body.status.value) {
          return BadRequest(InvalidStatus);
        }
        Overwrite(i, tasks[i].(status := body.status.value));
      }
      r := Updated(tasks[i]);
    }

    /** PUT /tasks/:id: the middleware, then the handler. Behind the
        middleware a 400 changes nothing, and a passing body always has a
        title and a description, which therefore are always written. */
    method PutTask(id: Option<int>, body: Body) returns (r: Response)
      requires Valid()
      modifies this
      ensures Valid()
      ensures nextId == old(nextId) && issued == old(issued)
      ensures r.BadRequest? || r.NotFound? || r.Updated?
      ensures r.BadRequest? <==> ValidateTask(Put, body).Fail?
      ensures r.BadRequest? ==> r.error == ValidateTask(Put, body).error && tasks == old(tasks)
      ensures r.NotFound? <==>
        ValidateTask(Put, body) == Pass && forall j :: 0 <= j < |old(tasks)| ==> !Matches(old(tasks)[j], id)
      ensures r.NotFound? ==> tasks == old(tasks)
      ensures r.Updated? ==>
        var i := FindIndex(old(tasks), id);
        var was := old(tasks)[i];
        && 0 <= i
        && tasks == old(tasks)[i := was.(title := body.title.value, description := body.description.value,
                                          status := if Truthy(body.status) then body.status.value else was.status)]
        && r.task == tasks[i]
    {
      var v := ValidateTask(Put, body);
      if v.Fail? {
        return BadRequest(v.error);
      }
      r := UpdateHandler(id, body);
    }

    /** DELETE /tasks/:id: `findIndex`, then `splice`. */
    method DeleteTask(id: Option<int>) returns (r: Response)
      requires Valid()
      modifies this
      ensures Valid()
      ensures nextId == old(nextId) && issued == old(issued)
      ensures r.Deleted? || r.NotFound?
      ensures r.NotFound? <==> forall j :: 0 <= j < |old(tasks)| ==> !Matches(old(tasks)[j], id)
      ensures r.NotFound? ==> tasks == old(tasks)
      ensures r.Deleted? ==>
        var i := FindIndex(old(tasks), id);
        0 <= i && tasks == old(tasks)[..i] + old(tasks)[i + 1..]
      // Afterwards no task has this id: a second get or delete is not found.
      ensures forall j :: 0 <= j < |tasks| ==> !Matches(tasks[j], id)
    {
      var i := FindIndex(tasks, id);
      if i == -1 {
        return NotFound;
      }
      RemoveKeepsIdOrder(tasks, i);
      RemoveDropsId(tasks, tasks[..i] + tasks[i + 1..], i, id, nextId);
      tasks := tasks[..i] + tasks[i + 1..];
      r := Deleted;
    }
  }
}
