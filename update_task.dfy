/** The update handler (server/src/handlers/update_task.ts) over an in-memory
    task table keyed by id. The handler collects the supplied fields into an
    update set, reads the row when the set is empty, writes the set otherwise,
    and fails with a not-found error when no row carries the id. A failing
    database statement is the parameter `storeFault`; the handler's catch block
    re-raises whatever was thrown, so every failure reaches the caller. */
module UpdateTaskHandler {
  import opened Wrappers
  import opened TaskSchema
  import JsString

  datatype Error = NotFound(id: int) | StoreFailure(reason: string)

  /** The error text the caller sees: a store failure's own text, or the
      not-found sentence around the id's decimal text. */
  function Message(e: Error): (m: string)
    ensures e.StoreFailure? ==> m == e.reason
    ensures e.NotFound? ==> |m| >= 24 && m[..13] == "Task with id " && m[|m| - 10..] == " not found"
  {
    match e
    case NotFound(id) => "Task with id " + JsString.NumberToString(id) + " not found"
    case StoreFailure(reason) => reason
  }

  /** The not-found text is "Task with id ", the id's text, then " not found". */
  lemma NotFoundMessage(id: int)
    ensures var m := Message(NotFound(id));
      && |m| >= 24
      && m[..13] == "Task with id "
      && m[13..|m| - 10] == JsString.NumberToString(id)
      && m[|m| - 10..] == " not found"
  {
  }

  /** Different ids give different not-found messages, so the message identifies the id. */
  lemma NotFoundMessageDistinct(a: int, b: int)
    requires Message(NotFound(a)) == Message(NotFound(b))
    ensures a == b
  {
    var ma, mb := Message(NotFound(a)), Message(NotFound(b));
    NotFoundMessage(a);
    NotFoundMessage(b);
    var ra, rb := JsString.NumberToString(a), JsString.NumberToString(b);
    assert ra == ma[13..|ma| - 10] == mb[13..|mb| - 10] == rb;
  }

  /** The update set: a key is present only when the input supplied it. */
  datatype UpdateValues = UpdateValues(title: Option<string>, completed: Option<bool>) {
    /** `Object.keys(updateValues).length`. */
    function KeyCount(): (n: nat)
      ensures n <= 2
      ensures n == 0 <==> title.None? && completed.None?
    {
      (if title.Some? then 1 else 0) + (if completed.Some? then 1 else 0)
    }
  }

  /** The update set the handler builds from an input: its supplied optional fields. */
  function Requested(input: UpdateTaskInput): (v: UpdateValues)
    ensures v.title == input.title && v.completed == input.completed
  {
    UpdateValues(input.title, input.completed)
  }

  /** `SET` of the update set on one row: supplied fields are overwritten, every
      other field, `id` and `created_at` included, keeps its stored value. */
  function ApplyValues(row: Task, values: UpdateValues): (r: Task)
    ensures r.id == row.id && r.createdAt == row.createdAt
    ensures values.title.None? ==> r.title == row.title
    ensures values.title.Some? ==> r.title == values.title.value
    ensures values.completed.None? ==> r.completed == row.completed
    ensures values.completed.Some? ==> r.completed == values.completed.value
  {
    row.(title := values.title.GetOr(row.title), completed := values.completed.GetOr(row.completed))
  }

  /** An empty update set leaves the row as it was. */
  lemma EmptyValuesIdentity(row: Task, values: UpdateValues)
    requires values.KeyCount() == 0
    ensures ApplyValues(row, values) == row
  {
  }

  /** An explicit `completed: false` is applied, not taken for an absent field. */
  lemma ExplicitFalseApplied(row: Task)
    requires row.completed
    ensures !ApplyValues(row, Requested(UpdateTaskInput(row.id, Some(false), None))).completed
  {
  }

  /** Every row sits under its own id. */
  ghost predicate WellKeyed(rows: map<int, Task>) {
    forall id :: id in rows ==> rows[id].id == id
  }

  /** Every stored title is non-empty (the schemas keep it so at the boundary). */
  ghost predicate TitlesNonEmpty(rows: map<int, Task>) {
    forall id :: id in rows ==> |rows[id].title| >= 1
  }

  class TaskTable {
    var rows: map<int, Task>

    ghost predicate Valid()
      reads this
    {
      WellKeyed(rows)
    }

    constructor (initial: map<int, Task>)
      requires WellKeyed(initial)
      ensures Valid() && rows == initial
    {
      rows := initial;
    }

    method UpdateTask(input: UpdateTaskInput, storeFault: Option<string>) returns (r: Result<Task, Error>)
      requires Valid()
      modifies this
      ensures Valid()
      // a failing statement is re-raised unchanged and nothing is written
      ensures storeFault.Some? ==> r == Failure(StoreFailure(storeFault.value)) && rows == old(rows)
      // a missing id fails on either path and nothing is written
      ensures storeFault.None? && input.id !in old(rows) ==> r == Failure(NotFound(input.id)) && rows == old(rows)
      // otherwise the supplied fields are written to that row alone, and the reply is the stored row
      ensures storeFault.None? && input.id in old(rows) ==>
        && rows == old(rows)[input.id := ApplyValues(old(rows)[input.id], Requested(input))]
        && r == Success(rows[input.id])
      ensures r.Success? ==>
        input.id in old(rows) && r.value.id == input.id && r.value.createdAt == old(rows)[input.id].createdAt
      ensures input.title.None? && input.completed.None? ==> rows == old(rows)
      ensures input.title.None? && input.completed.None? && r.Success? ==> r.value == old(rows)[input.id]
      ensures rows.Keys == old(rows).Keys
      ensures forall id :: id in old(rows) && id != input.id ==> rows[id] == old(rows)[id]
      ensures TitlesNonEmpty(old(rows)) && ValidUpdateInput(input) ==> TitlesNonEmpty(rows)
    {
      var values := UpdateValues(None, None);
      if input.title.Some? {
        values := values.(title := input.title);
      }
      if input.completed.Some? {
        values := values.(completed := input.completed);
      }

      if values.KeyCount() == 0 {
        // read path: select the row and return it as stored
        if storeFault.Some? {
          return Failure(StoreFailure(storeFault.value));
        }
        if input.id !in rows {
          return Failure(NotFound(input.id));
        }
        EmptyValuesIdentity(rows[input.id], Requested(input));
        return Success(rows[input.id]);
      }

      // write path: update ... set values where id = input.id returning *
      if storeFault.Some? {
        return Failure(StoreFailure(storeFault.value));
      }
      if input.id !in rows {
        return Failure(NotFound(input.id));
      }
      rows := rows[input.id := ApplyValues(rows[input.id], values)];
      r := Success(rows[input.id]);
    }
  }
}
