/** The create handler (server/src/handlers/create_task.ts). It is a placeholder:
    it stores nothing, always answers with id 0, copies the title verbatim,
    marks the task not completed and stamps it with the call-time clock,
    which the model receives as the parameter `now`. */
module CreateTaskHandler {
  import opened Wrappers
  import opened TaskSchema

  /** The id the placeholder handler gives every task. */
  const PlaceholderId: int := 0

  function CreateTask(input: CreateTaskInput, now: int): (t: Task)
    ensures t.id == PlaceholderId
    ensures t.title == input.title
    ensures !t.completed
    ensures t.createdAt == now
  {
    Task(PlaceholderId, input.title, false, now)
  }

  /** A clock read before the call and one read after it bracket the timestamp. */
  lemma CreatedWithinCall(input: CreateTaskInput, before: int, now: int, after: int)
    requires before <= now <= after
    ensures before <= CreateTask(input, now).createdAt <= after
  {
  }

  /** The handler validates nothing itself: even an empty title, which the schema
      refuses upstream, comes back verbatim. */
  lemma NoValidationInHandler(now: int)
    ensures CreateTask(CreateTaskInput(""), now).title == ""
  {
  }

  /** Whatever it is given, the reply is a well-formed Task record. */
  lemma CreatedTaskMatchesSchema(input: CreateTaskInput, now: int)
    ensures ParseTask(TaskObject(CreateTask(input, now))) == Success(CreateTask(input, now))
  {
    TaskRoundTrip(CreateTask(input, now));
  }

  /** Two calls always get the same id, so ids are not distinct across creates. */
  lemma PlaceholderIdsCollide(a: CreateTaskInput, b: CreateTaskInput, now1: int, now2: int)
    ensures CreateTask(a, now1).id == CreateTask(b, now2).id
  {
  }
}
