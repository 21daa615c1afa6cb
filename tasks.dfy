/** The task service (src/tasks/Tasks.py): each user document of the `users`
    collection embeds an ordered list of tasks, and `add_task` appends to it
    after checking that the user exists and that no task of theirs has the
    same title. */
module TaskService {
  import opened Wrappers
  import opened TaskSchemas
  import opened TaskExceptions

  /** The detail of the response to a successful add. */
  const AddedDetail: string := "Task added successfully"

  /** A user document. The collection is keyed by email, so the email is the
      map key rather than a field. `tasks` is None when the document has no
      `tasks` field at all. */
  datatype UserRec = UserRec(name: string, password: string, tasks: Option<seq<Task>>)

  /** One `update_one({"email": email}, {"$set": {"tasks": tasks}})` call. */
  datatype Write = SetTasks(email: string, tasks: seq<Task>)

  /** The list `add_task` works on: a missing `tasks` field reads as []. */
  function CurrentTasks(u: UserRec): seq<Task> {
    match u.tasks
    case None => []
    case Some(ts) => ts
  }

  /** Some task of `ts` carries exactly this title. */
  predicate HasTitle(ts: seq<Task>, title: string) {
    exists i :: 0 <= i < |ts| && ts[i].title == title
  }

  /** No two tasks of `ts` share a title. */
  predicate TitlesDistinct(ts: seq<Task>) {
    forall i, j :: 0 <= i < j < |ts| ==> ts[i].title != ts[j].title
  }

  /** Every user's list has pairwise distinct titles. */
  predicate StoreTitlesDistinct(users: map<string, UserRec>) {
    forall e :: e in users ==> TitlesDistinct(CurrentTasks(users[e]))
  }

  /** What `add_task` decides for `req` against the collection `users`: the
      error it raises, or the full list it writes back for the user. */
  function AddedTasks(users: map<string, UserRec>, req: AddTaskRequest): (r: Result<seq<Task>, TaskError>)
    // an unknown email is reported as such, whatever the task
    ensures r == Failure(UserNotFound) <==> req.email !in users
    // a known user with a task of the same title gets a conflict
    ensures r == Failure(TaskAlreadyExists) <==>
              req.email in users && HasTitle(CurrentTasks(users[req.email]), req.task.title)
    // it succeeds exactly when the user exists and the title is new
    ensures r.Success? <==>
              req.email in users && !HasTitle(CurrentTasks(users[req.email]), req.task.title)
    // otherwise the old list, unchanged and in order, followed by the new task
    ensures r.Success? ==>
              req.email in users &&
              var was := CurrentTasks(users[req.email]);
              |r.value| == |was| + 1 && r.value[..|was|] == was && r.value[|was|] == req.task
  {
    if req.email !in users then
      Failure(UserNotFound)
    else
      var ts := CurrentTasks(users[req.email]);
      if HasTitle(ts, req.task.title) then Failure(TaskAlreadyExists)
      else Success(ts + [req.task])
  }

  /** The collection after `SetTasks(email, ts)` hits an existing document:
      only that document's `tasks` field changes. */
  function WithTasks(users: map<string, UserRec>, email: string, ts: seq<Task>): (m: map<string, UserRec>)
    requires email in users
    ensures m.Keys == users.Keys
    ensures forall e :: e in users && e != email ==> m[e] == users[e]
    ensures m[email].name == users[email].name && m[email].password == users[email].password
    ensures m[email].tasks == Some(ts)
  {
    users[email := users[email].(tasks := Some(ts))]
  }

  /** The collection after `add_task(req)`, whether it succeeded or raised. */
  function AfterAdd(users: map<string, UserRec>, req: AddTaskRequest): (m: map<string, UserRec>)
    ensures m.Keys == users.Keys
    ensures forall e :: e in users && e != req.email ==> m[e] == users[e]
    ensures req.email in users ==>
              m[req.email].name == users[req.email].name &&
              m[req.email].password == users[req.email].password
  {
    match AddedTasks(users, req)
    case Failure(_) => users
    case Success(ts) => WithTasks(users, req.email, ts)
  }

  /** Appending a task whose title is new keeps the titles pairwise distinct. */
  lemma AppendKeepsTitlesDistinct(ts: seq<Task>, t: Task)
    requires TitlesDistinct(ts) && !HasTitle(ts, t.title)
    ensures TitlesDistinct(ts + [t])
  {
  }

  /** `add_task` keeps every user's titles pairwise distinct. */
  lemma AddPreservesStoreTitlesDistinct(users: map<string, UserRec>, req: AddTaskRequest)
    requires StoreTitlesDistinct(users)
    ensures StoreTitlesDistinct(AfterAdd(users, req))
  {
  }

  /** The title scan of `add_task`: is some task of `tasks` titled `title`?
      It stops at the first match. */
  method FindTitle(tasks: seq<Task>, title: string) returns (found: bool)
    ensures found <==> HasTitle(tasks, title)
  {
    var i := 0;
    while i < |tasks|
      invariant 0 <= i <= |tasks|
      invariant forall j :: 0 <= j < i ==> tasks[j].title != title
    {
      if tasks[i].title == title {
        return true;
      }
      i := i + 1;
    }
    return false;
  }

  /** The tasks handler: a view of the `users` collection of the database. */
  class Tasks {
    /** The `users` collection: at most one document per email. */
    var users: map<string, UserRec>
    /** The `update_one` calls issued against the collection, oldest first. */
    var writes: seq<Write>

    /** The handler over an already opened collection. */
    constructor (users: map<string, UserRec>)
      ensures this.users == users && writes == []
    {
      this.users := users;
      writes := [];
    }

    /** `find_one({"email": email})`: the document with exactly this email. */
    method GetUserByEmail(email: string) returns (user: Option<UserRec>)
      ensures user.Some? <==> email in users
      ensures user.Some? ==> user.value == users[email]
    {
      if email in users {
        user := Some(users[email]);
      } else {
        user := None;
      }
    }

    /** `user.get("tasks")`: the field, or None when the document lacks it. */
    static function GetUserTasks(user: UserRec): Option<seq<Task>> {
      user.tasks
    }

    /** `update_one` setting the `tasks` field of the document with this
        email; a filter that matches no document changes nothing. */
    method UpdateTasks(email: string, tasks: seq<Task>)
      modifies this
      ensures writes == old(writes) + [SetTasks(email, tasks)]
      ensures users == if email in old(users) then WithTasks(old(users), email, tasks) else old(users)
    {
      if email in users {
        users := WithTasks(users, email, tasks);
      }
      writes := writes + [SetTasks(email, tasks)];
    }

    /** Adds `request.task` to the list of the user `request.email`. */
    method AddTask(request: AddTaskRequest) returns (r: Result<AddTaskResponse, TaskError>)
      modifies this
      ensures match AddedTasks(old(users), request)
              case Failure(e) =>
                r == Failure(e) && users == old(users) && writes == old(writes)
              case Success(ts) =>
                && r == Success(AddTaskResponse(AddedDetail))
                && users == WithTasks(old(users), request.email, ts)
                && writes == old(writes) + [SetTasks(request.email, ts)]
      ensures users == AfterAdd(old(users), request)
      ensures old(StoreTitlesDistinct(users)) ==> StoreTitlesDistinct(users)
    {
      if StoreTitlesDistinct(users) {
        AddPreservesStoreTitlesDistinct(users, request);
      }
      var user := GetUserByEmail(request.email);
      var newTask := request.task;
      if user.None? {
        return Failure(UserNotFound);
      }
      var tasks: seq<Task>;
      var field := GetUserTasks(user.value);
      if field.None? || field.value == [] {
        tasks := [];
      } else {
        tasks := field.value;
      }
      var duplicate := FindTitle(tasks, newTask.title);
      if duplicate {
        return Failure(TaskAlreadyExists);
      }
      tasks := tasks + [newTask];
      UpdateTasks(request.email, tasks);
      r := Success(AddTaskResponse(AddedDetail));
    }
  }
}
