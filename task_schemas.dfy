/** The request and response bodies of the task service (src/tasks/schemas.py). */
module TaskSchemas {

  /** A task deadline. The service never inspects it; it is only stored and
      compared as a whole, so its text form stands for the parsed date. */
  datatype Deadline = Deadline(text: string)

  /** One task of a user's list. Titles are compared exactly (case-sensitive). */
  datatype Task = Task(
    title: string,
    description: string,
    status: string,
    priority: string,
    deadline: Deadline)

  /** The body of an add-task request: whose list, and what to add. */
  datatype AddTaskRequest = AddTaskRequest(email: string, task: Task)

  datatype AddTaskResponse = AddTaskResponse(detail: string)
}
