/** The two errors the task service raises (src/tasks/exceptions.py), each with
    the HTTP status code and detail message it carries. */
module TaskExceptions {

  datatype TaskError = UserNotFound | TaskAlreadyExists {

    function StatusCode(): int {
      match this
      case UserNotFound => 404
      case TaskAlreadyExists => 409
    }

    function Detail(): string {
      match this
      case UserNotFound => "User not found"
      case TaskAlreadyExists => "Task already exists"
    }
  }
}
