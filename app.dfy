/** The client's top-level state (client/src/App.tsx): the task list, the
    loading and submitting flags, the handlers that call the server and merge
    its answer into the list, and the choice of what the list area shows.
    Each remote call is a parameter: a function from the request to either the
    server's reply or a thrown error. */
module App {
  import opened Wrappers
  import opened TaskSchema
  import UpdateTaskHandler

  /** The reply of the delete procedure. */
  datatype DeleteReply = DeleteReply(success: bool)

  /** What the list area renders. */
  datatype ListArea = LoadingSpinner | EmptyNotice | TaskList(items: seq<Task>)

  // ---- Pure list updaters ----

  /** `[newTask, ...prev]`: the new task first, then the previous list. */
  function Prepend(newTask: Task, prev: seq<Task>): (r: seq<Task>)
    ensures |r| == |prev| + 1
    ensures r[0] == newTask && r[1..] == prev
  {
    [newTask] + prev
  }

  /** `prev.map(t => t.id === id ? updated : t)`. */
  function ReplaceById(prev: seq<Task>, id: int, updated: Task): (r: seq<Task>)
    ensures |r| == |prev|
    ensures forall i :: 0 <= i < |prev| ==> r[i] == (if prev[i].id == id then updated else prev[i])
  {
    if prev == [] then []
    else [if prev[0].id == id then updated else prev[0]] + ReplaceById(prev[1..], id, updated)
  }

  /** `prev.filter(t => t.id !== id)`. */
  function RemoveId(prev: seq<Task>, id: int): (r: seq<Task>)
    ensures |r| <= |prev|
    ensures forall t :: t in r <==> t in prev && t.id != id
  {
    if prev == [] then []
    else if prev[0].id != id then [prev[0]] + RemoveId(prev[1..], id)
    else RemoveId(prev[1..], id)
  }

  /** Removal keeps the survivors in their relative order: it distributes over concatenation. */
  lemma {:induction false} RemoveIdAppend(a: seq<Task>, b: seq<Task>, id: int)
    ensures RemoveId(a + b, id) == RemoveId(a, id) + RemoveId(b, id)
  {
    if a == [] {
      assert a + b == b;
    } else {
      assert (a + b)[0] == a[0] && (a + b)[1..] == a[1..] + b;
      RemoveIdAppend(a[1..], b, id);
    }
  }

  /** Removing an id nobody carries changes nothing. */
  lemma {:induction false} RemoveIdAbsent(prev: seq<Task>, id: int)
    requires forall t :: t in prev ==> t.id != id
    ensures RemoveId(prev, id) == prev
  {
    if prev != [] {
      assert prev[0] in prev;
      RemoveIdAbsent(prev[1..], id);
    }
  }

  /** Removing the same id twice is the same as removing it once. */
  lemma RemoveIdIdempotent(prev: seq<Task>, id: int)
    ensures RemoveId(RemoveId(prev, id), id) == RemoveId(prev, id)
  {
    RemoveIdAbsent(RemoveId(prev, id), id);
  }

  /** The request a toggle sends: the task's id and the negation of its displayed flag, no title. */
  function ToggleRequest(task: Task): (u: UpdateTaskInput)
    ensures u.id == task.id && u.completed == Some(!task.completed) && u.title == None
    ensures ValidUpdateInput(u)
  {
    UpdateTaskInput(task.id, Some(!task.completed), None)
  }

  /** The toggle request passes the update schema and parses back to itself. */
  lemma ToggleRequestPassesSchema(task: Task)
    ensures ParseUpdateInput(UpdateInputObject(ToggleRequest(task))) == Success(ToggleRequest(task))
  {
    UpdateInputRoundTrip(ToggleRequest(task));
  }

  /** Applied by the server to the displayed row, the toggle request flips the flag and nothing else. */
  lemma ToggleFlipsOnlyTheFlag(row: Task)
    ensures UpdateTaskHandler.ApplyValues(row, UpdateTaskHandler.Requested(ToggleRequest(row)))
         == row.(completed := !row.completed)
  {
  }

  /** Loading wins over the empty notice, which wins over the list. */
  function ListAreaFor(isLoading: bool, tasks: seq<Task>): (v: ListArea)
    ensures isLoading <==> v == LoadingSpinner
    ensures v == EmptyNotice <==> !isLoading && tasks == []
    ensures v.TaskList? ==> !isLoading && tasks != [] && v.items == tasks
  {
    if isLoading then LoadingSpinner
    else if |tasks| == 0 then EmptyNotice
    else TaskList(tasks)
  }

  // ---- Component state ----

  class AppState {
    var tasks: seq<Task>
    var isLoading: bool
    var isSubmitting: bool

    constructor ()
      ensures tasks == [] && !isLoading && !isSubmitting
    {
      tasks := [];
      isLoading := false;
      isSubmitting := false;
    }

    /** `loadTasks`: the fetched list replaces the state; on error it stays; loading ends either way. */
    method LoadTasks(reply: Result<seq<Task>, string>)
      modifies this
      ensures tasks == (if reply.Success? then reply.value else old(tasks))
      ensures !isLoading && isSubmitting == old(isSubmitting)
    {
      isLoading := true;
      if reply.Success? {
        tasks := reply.value;
      }
      isLoading := false;
    }

    /** `handleCreateTask`: the created task goes first; on error the list stays; submitting ends either way. */
    method HandleCreateTask(input: CreateTaskInput, createTask: CreateTaskInput -> Result<Task, string>)
      modifies this
      ensures createTask(input).Success? ==> tasks == Prepend(createTask(input).value, old(tasks))
      ensures createTask(input).Failure? ==> tasks == old(tasks)
      ensures !isSubmitting && isLoading == old(isLoading)
    {
      isSubmitting := true;
      var reply := createTask(input);
      if reply.Success? {
        tasks := Prepend(reply.value, tasks);
      }
      isSubmitting := false;
    }

    /** `handleToggleTask`: sends the toggle request and puts the server's row in
        place of every element with that id; on error the list stays. */
    method HandleToggleTask(task: Task, updateTask: UpdateTaskInput -> Result<Task, string>)
      returns (sent: UpdateTaskInput)
      modifies this
      ensures sent == ToggleRequest(task)
      ensures updateTask(sent).Success? ==> tasks == ReplaceById(old(tasks), task.id, updateTask(sent).value)
      ensures updateTask(sent).Failure? ==> tasks == old(tasks)
      ensures |tasks| == |old(tasks)|
      ensures isLoading == old(isLoading) && isSubmitting == old(isSubmitting)
    {
      sent := ToggleRequest(task);
      var reply := updateTask(sent);
      if reply.Success? {
        tasks := ReplaceById(tasks, task.id, reply.value);
      }
    }

    /** `handleDeleteTask`: once the call returns, whatever its `success` flag, every
        element with that id is dropped; on error the list stays. */
    method HandleDeleteTask(taskId: int, deleteTask: DeleteTaskInput -> Result<DeleteReply, string>)
      modifies this
      ensures deleteTask(DeleteTaskInput(taskId)).Success? ==> tasks == RemoveId(old(tasks), taskId)
      ensures deleteTask(DeleteTaskInput(taskId)).Failure? ==> tasks == old(tasks)
      ensures deleteTask(DeleteTaskInput(taskId)).Success? ==> forall t :: t in tasks ==> t.id != taskId
      ensures isLoading == old(isLoading) && isSubmitting == old(isSubmitting)
    {
      var reply := deleteTask(DeleteTaskInput(taskId));
      if reply.Success? {
        tasks := RemoveId(tasks, taskId);
      }
    }
  }
}
