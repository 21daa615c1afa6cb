# Task service of task-manager-backend, in Dafny

This project models the add-task rule of the task-manager backend's task
service (`src/tasks/Tasks.py`). Each user document of the `users` collection
embeds an ordered list of tasks. A task has a title, description, status,
priority and deadline. `add_task` works in five steps:

1. It looks up the user by exact email.
2. It raises `UserNotFound` (404, "User not found") if there is no such user.
3. It reads a missing or empty `tasks` field as the empty list.
4. It raises `TaskAlreadyExists` (409, "Task already exists") at the first task with the same title.
5. Otherwise it appends the task, writes the whole list back with one `update_one` keyed by the email, and answers "Task added successfully".

Files:

- `wrappers.dfy`: `Option` and `Result`.
- `task_schemas.dfy`: `Task`, `Deadline`, `AddTaskRequest` and `AddTaskResponse`, from `src/tasks/schemas.py`.
- `task_exceptions.dfy`: the two errors with their status codes and messages, from `src/tasks/exceptions.py`.
- `tasks.dfy`: the specification functions and the class.
  - `AddedTasks` gives the error raised or the list written back.
  - `WithTasks` is the `$set` update.
  - `AfterAdd` is the collection after the call.
  - The class `Tasks` holds the collection as a field `users: map<string, UserRec>` keyed by email. A second field `writes` logs the `update_one` calls issued.
  - `Tasks.AddTask` is proved against `AddedTasks`.
  - The title loop is the method `FindTitle`, proved against the predicate `HasTitle`.
- `task_properties.dfy`: properties that relate several calls, plus the test fixtures' three cases.

## Model

| member | source | states |
|---|---|---|
| `TaskService.AddedTasks` | src/tasks/Tasks.py:44-59 | An unknown email gives `UserNotFound` whatever the task, and only an unknown email does. A known user with a same-titled task gives `TaskAlreadyExists`, and only then. Success happens exactly when the user exists and the title is new. On success the result is the old list in its order, with the new task as its one extra, last element. |
| `TaskService.WithTasks` | src/tasks/Tasks.py:61-63 | The `update_one` keyed by email with `$set` of `tasks` keeps the same set of emails. It leaves every other user's document equal to before. It keeps the target's name and password and sets its `tasks` field to the given list. |
| `TaskService.AfterAdd` | src/tasks/Tasks.py:44-63 | After `add_task`, on success or on error, the collection has the same emails. Every document other than the request email's is unchanged. The request user's other fields are unchanged. |
| `TaskService.FindTitle` | src/tasks/Tasks.py:55-57 | The title scan reports a duplicate exactly when some task in the list has a title equal to the new one. |
| `TaskService.AppendKeepsTitlesDistinct` | src/tasks/Tasks.py:55-59 | Appending a task whose title is not in a list of pairwise-distinct titles keeps the titles pairwise distinct. |
| `TaskService.AddPreservesStoreTitlesDistinct` | src/tasks/Tasks.py:55-63 | If every user's titles are pairwise distinct before `add_task`, they still are after it. |
| `TaskService.Tasks.constructor` | src/tasks/Tasks.py:22-28 | The handler starts over the given `users` collection and has issued no updates. |
| `TaskService.Tasks.GetUserByEmail` | src/tasks/Tasks.py:67-82 | `find_one` by email returns the document stored under exactly that email, or nothing when there is none. |
| `TaskService.Tasks.UpdateTasks` | src/tasks/Tasks.py:61-63 | One update is logged. If a document has that email, only its `tasks` field is replaced. If none has it, the collection is unchanged. |
| `TaskService.Tasks.AddTask` | src/tasks/Tasks.py:30-65 | On error the call returns that error, changes no document and issues no update. On success it returns "Task added successfully", stores the list `AddedTasks` gives under the request email only, and issues exactly one update with that email. The collection afterwards is `AfterAdd`. It preserves per-user title uniqueness. |
| `TaskProperties.MissingOrEmptyTasksStoreSingleton` | src/tasks/Tasks.py:50-53 | A user with no `tasks` field and a user with an empty list are treated alike. The add succeeds and stores the one-element list holding the new task. |
| `TaskProperties.RepeatedAddConflicts` | src/tasks/Tasks.py:55-63 | Repeating a successful add raises `TaskAlreadyExists` and leaves the collection as the first add left it. |
| `TaskProperties.AddAnotherTitleSucceeds` | src/tasks/Tasks.py:55-63 | After a successful add, an add for the same user with a different title, new to the old list, also succeeds. The list then ends with both tasks in call order. |
| `TaskProperties.AddsForDifferentUsersIndependent` | src/tasks/Tasks.py:61-63 | An add for one email does not change the outcome of an add for another email. |
| `TaskProperties.FixtureOutcomes` | tests/test_tasks/test_add_task.py:15-91 | On the test fixtures: no user gives `UserNotFound`. A user holding "fake_title" gives `TaskAlreadyExists`. A user holding only "fake_title_different" gets both tasks, the old one first. |

## Left out

- The database accessor (`src/database/Database.py`) is left out. Reading the connection string, opening the client and the ping are I/O, so the constructor receives the collection as a map.
- The auth service (`src/auth/`) is left out. It is password hashing, token signing and an insert done by external libraries.
- `get_tasks` is not part of this model. The service file has no such method; only its tests mention it.
- The HTTP routers and `src/main.py` are left out. They are routing only. The add-task route in `src/tasks/router.py` checks the token and returns a constant without calling the service.
- Request validation and date parsing (pydantic) are left out. A deadline is opaque text, compared only by equality.
- Concurrency is left out. Two concurrent adds for one user can lose an update because the read and the write are separate; the model is sequential.
- Several documents with one email are not modelled. The collection is a map with at most one document per email.
- A stored task without a `title` key is not modelled. The source would fail with a key error there; here every stored task is a typed record.
- The `_id` and `email` fields are not stored in a document. The email is the map key.
- `TaskService.Tasks.GetUserTasks` (`user.get("tasks")`) has no contract of its own. It returns the optional field, and `AddTask` handles the absent and the empty case.
