/** Properties of `add_task` that relate several calls or several inputs. */
module TaskProperties {
  import opened Wrappers
  import opened TaskSchemas
  import opened TaskExceptions
  import opened TaskService

  /** A user whose `tasks` field is absent and one whose list is empty are
      treated alike: the add succeeds and stores a one-element list. */
  lemma MissingOrEmptyTasksStoreSingleton(users: map<string, UserRec>, req: AddTaskRequest)
    requires req.email in users
    requires users[req.email].tasks == None || users[req.email].tasks == Some([])
    ensures AddedTasks(users, req) == Success([req.task])
    ensures AfterAdd(users, req)[req.email].tasks == Some([req.task])
  {
  }

  /** Repeating a successful add is a conflict that leaves the collection as
      the first add left it. */
  lemma RepeatedAddConflicts(users: map<string, UserRec>, req: AddTaskRequest)
    requires AddedTasks(users, req).Success?
    ensures AddedTasks(AfterAdd(users, req), req) == Failure(TaskAlreadyExists)
    ensures AfterAdd(AfterAdd(users, req), req) == AfterAdd(users, req)
  {
  }

  /** After a successful add, a second add for the same user with a title
      that neither the old list nor the first task has also succeeds, and the
      list ends with both tasks in call order. */
  lemma AddAnotherTitleSucceeds(users: map<string, UserRec>, req: AddTaskRequest, req2: AddTaskRequest)
    requires AddedTasks(users, req).Success?
    requires req2.email == req.email && req2.task.title != req.task.title
    requires !HasTitle(CurrentTasks(users[req.email]), req2.task.title)
    ensures AddedTasks(AfterAdd(users, req), req2) ==
              Success(CurrentTasks(users[req.email]) + [req.task, req2.task])
  {
    var was := CurrentTasks(users[req.email]);
    var ts := AddedTasks(users, req).value;
    assert ts == was + [req.task];
    assert CurrentTasks(AfterAdd(users, req)[req.email]) == ts;
    assert ts + [req2.task] == was + [req.task, req2.task];
  }

  /** Adds for two different users do not interfere: the outcome of the second
      is the same whether or not the first ran. */
  lemma AddsForDifferentUsersIndependent(users: map<string, UserRec>, a: AddTaskRequest, b: AddTaskRequest)
    requires a.email != b.email
    ensures AddedTasks(AfterAdd(users, a), b) == AddedTasks(users, b)
  {
  }

  /** The user record and task of the test fixtures. */
  const FakeTask: Task :=
    Task("fake_title", "fake_description", "fake_status", "fake_priority", Deadline("fake_deadline"))
  const FakeRequest: AddTaskRequest := AddTaskRequest("fake_email", FakeTask)
  const OtherTask: Task :=
    Task("fake_title_different", "fake_description_different", "fake_status_different",
         "fake_priority_different", Deadline("fake_deadline_different"))

  function FakeUser(tasks: Option<seq<Task>>): UserRec {
    UserRec("fake_name", "fake_password", tasks)
  }

  /** The three add-task cases of the tests: no user, a user whose list holds
      a task of the same title, and one whose list holds another title. */
  lemma FixtureOutcomes()
    ensures AddedTasks(map[], FakeRequest) == Failure(UserNotFound)
    ensures AddedTasks(map["fake_email" := FakeUser(Some([FakeTask]))], FakeRequest)
              == Failure(TaskAlreadyExists)
    ensures AddedTasks(map["fake_email" := FakeUser(Some([OtherTask]))], FakeRequest)
              == Success([OtherTask, FakeTask])
  {
    assert HasTitle([FakeTask], FakeTask.title) by { assert [FakeTask][0].title == FakeTask.title; }
    assert |OtherTask.title| != |FakeTask.title|;
    assert !HasTitle([OtherTask], FakeTask.title);
    var m := map["fake_email" := FakeUser(Some([OtherTask]))];
    assert CurrentTasks(m["fake_email"]) == [OtherTask];
    assert AddedTasks(m, FakeRequest) == Success([OtherTask] + [FakeTask]);
    assert [OtherTask] + [FakeTask] == [OtherTask, FakeTask];
  }
}
