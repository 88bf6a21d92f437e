/** The record shapes shared by server and client (server/src/schema.ts):
    the Task record, the three request inputs, and the zod object schemas that
    validate them, modelled as parse functions over a loosely typed object. */
module TaskSchema {
  import opened Wrappers

  /** A stored task. `createdAt` is the `created_at` timestamp, an opaque instant. */
  datatype Task = Task(id: int, title: string, completed: bool, createdAt: int)

  datatype CreateTaskInput = CreateTaskInput(title: string)

  /** `None` is an absent (undefined) optional field. */
  datatype UpdateTaskInput = UpdateTaskInput(id: int, completed: Option<bool>, title: Option<string>)

  datatype DeleteTaskInput = DeleteTaskInput(id: int)

  /** A value as it arrives in a request object before validation. */
  datatype Value = Num(n: int) | Str(s: string) | Bool(b: bool) | Date(t: int)

  /** An object; a key that is not present is `undefined`. */
  type Object = map<string, Value>

  /** The first problem zod reports, by field path. */
  datatype Issue = Required(path: string) | InvalidType(path: string) | TooSmall(path: string, message: string)

  /** The message both title schemas attach to `min(1)`. */
  const TitleEmptyMessage: string := "Task title cannot be empty"

  // ---- Validity predicates on the typed records ----

  /** createTaskInputSchema: the title has at least one character; nothing is trimmed. */
  predicate ValidCreateInput(input: CreateTaskInput) {
    |input.title| >= 1
  }

  /** updateTaskInputSchema: `completed` is free; a present `title` has at least one character. */
  predicate ValidUpdateInput(input: UpdateTaskInput) {
    input.title.Some? ==> |input.title.value| >= 1
  }

  // ---- Field readers (one zod field schema each) ----

  function NumberField(obj: Object, key: string): (r: Result<int, Issue>)
    ensures r.Success? <==> key in obj && obj[key].Num?
    ensures r.Success? ==> r.value == obj[key].n
    ensures r.Failure? ==> r.error == (if key in obj then InvalidType(key) else Required(key))
  {
    if key !in obj then Failure(Required(key))
    else if obj[key].Num? then Success(obj[key].n)
    else Failure(InvalidType(key))
  }

  function StringField(obj: Object, key: string): (r: Result<string, Issue>)
    ensures r.Success? <==> key in obj && obj[key].Str?
    ensures r.Success? ==> r.value == obj[key].s
    ensures r.Failure? ==> r.error == (if key in obj then InvalidType(key) else Required(key))
  {
    if key !in obj then Failure(Required(key))
    else if obj[key].Str? then Success(obj[key].s)
    else Failure(InvalidType(key))
  }

  function BooleanField(obj: Object, key: string): (r: Result<bool, Issue>)
    ensures r.Success? <==> key in obj && obj[key].Bool?
    ensures r.Success? ==> r.value == obj[key].b
    ensures r.Failure? ==> r.error == (if key in obj then InvalidType(key) else Required(key))
  {
    if key !in obj then Failure(Required(key))
    else if obj[key].Bool? then Success(obj[key].b)
    else Failure(InvalidType(key))
  }

  function DateField(obj: Object, key: string): (r: Result<int, Issue>)
    ensures r.Success? <==> key in obj && obj[key].Date?
    ensures r.Success? ==> r.value == obj[key].t
    ensures r.Failure? ==> r.error == (if key in obj then InvalidType(key) else Required(key))
  {
    if key !in obj then Failure(Required(key))
    else if obj[key].Date? then Success(obj[key].t)
    else Failure(InvalidType(key))
  }

  /** `z.string().min(1, ...)`: a string of length at least one, taken verbatim. */
  function TitleField(obj: Object, key: string): (r: Result<string, Issue>)
    ensures r.Success? <==> key in obj && obj[key].Str? && |obj[key].s| >= 1
    ensures r.Success? ==> r.value == obj[key].s
    ensures key in obj && obj[key].Str? && obj[key].s == [] ==> r == Failure(TooSmall(key, TitleEmptyMessage))
  {
    match StringField(obj, key)
    case Failure(e) => Failure(e)
    case Success(s) => if |s| >= 1 then Success(s) else Failure(TooSmall(key, TitleEmptyMessage))
  }

  /** `.optional()`: an absent key is accepted as undefined; a present one must satisfy `field`. */
  function Optional<T>(obj: Object, key: string, field: Result<T, Issue>): (r: Result<Option<T>, Issue>)
    ensures key !in obj ==> r == Success(None)
    ensures key in obj ==> (r.Success? <==> field.Success?)
    ensures key in obj && field.Success? ==> r == Success(Some(field.value))
  {
    if key !in obj then Success(None)
    else match field
      case Success(v) => Success(Some(v))
      case Failure(e) => Failure(e)
  }

  // ---- The four object schemas ----

  /** taskSchema: four typed fields; any other key is stripped. */
  function ParseTask(obj: Object): (r: Result<Task, Issue>)
    ensures r.Success? <==>
      && "id" in obj && obj["id"].Num?
      && "title" in obj && obj["title"].Str?
      && "completed" in obj && obj["completed"].Bool?
      && "created_at" in obj && obj["created_at"].Date?
    ensures r.Success? ==>
      r.value == Task(obj["id"].n, obj["title"].s, obj["completed"].b, obj["created_at"].t)
  {
    match (NumberField(obj, "id"), StringField(obj, "title"), BooleanField(obj, "completed"), DateField(obj, "created_at"))
    case (Success(id), Success(title), Success(completed), Success(createdAt)) =>
      Success(Task(id, title, completed, createdAt))
    case (Failure(e), _, _, _) => Failure(e)
    case (_, Failure(e), _, _) => Failure(e)
    case (_, _, Failure(e), _) => Failure(e)
    case (_, _, _, Failure(e)) => Failure(e)
  }

  /** createTaskInputSchema: only a length check on the title. */
  function ParseCreateInput(obj: Object): (r: Result<CreateTaskInput, Issue>)
    ensures r.Success? <==> "title" in obj && obj["title"].Str? && |obj["title"].s| >= 1
    ensures r.Success? ==> r.value.title == obj["title"].s && ValidCreateInput(r.value)
  {
    match TitleField(obj, "title")
    case Success(title) => Success(CreateTaskInput(title))
    case Failure(e) => Failure(e)
  }

  /** updateTaskInputSchema: a numeric id, an optional boolean, an optional non-empty title. */
  function ParseUpdateInput(obj: Object): (r: Result<UpdateTaskInput, Issue>)
    ensures r.Success? <==>
      && "id" in obj && obj["id"].Num?
      && ("completed" in obj ==> obj["completed"].Bool?)
      && ("title" in obj ==> obj["title"].Str? && |obj["title"].s| >= 1)
    ensures r.Success? ==> r.value.id == obj["id"].n && ValidUpdateInput(r.value)
    ensures r.Success? ==> (r.value.completed.Some? <==> "completed" in obj)
    ensures r.Success? && r.value.completed.Some? ==> r.value.completed.value == obj["completed"].b
    ensures r.Success? ==> (r.value.title.Some? <==> "title" in obj)
    ensures r.Success? && r.value.title.Some? ==> r.value.title.value == obj["title"].s
  {
    match (NumberField(obj, "id"), Optional(obj, "completed", BooleanField(obj, "completed")),
           Optional(obj, "title", TitleField(obj, "title")))
    case (Success(id), Success(completed), Success(title)) => Success(UpdateTaskInput(id, completed, title))
    case (Failure(e), _, _) => Failure(e)
    case (_, Failure(e), _) => Failure(e)
    case (_, _, Failure(e)) => Failure(e)
  }

  /** deleteTaskInputSchema: a numeric id and nothing else. */
  function ParseDeleteInput(obj: Object): (r: Result<DeleteTaskInput, Issue>)
    ensures r.Success? <==> "id" in obj && obj["id"].Num?
    ensures r.Success? ==> r.value.id == obj["id"].n
  {
    match NumberField(obj, "id")
    case Success(id) => Success(DeleteTaskInput(id))
    case Failure(e) => Failure(e)
  }

  // ---- Encoders (the objects a well-typed caller sends) ----

  function TaskObject(t: Task): Object {
    map["id" := Num(t.id), "title" := Str(t.title), "completed" := Bool(t.completed), "created_at" := Date(t.createdAt)]
  }

  function CreateInputObject(input: CreateTaskInput): Object {
    map["title" := Str(input.title)]
  }

  function UpdateInputObject(input: UpdateTaskInput): Object {
    var withId := map["id" := Num(input.id)];
    var withCompleted := if input.completed.Some? then withId["completed" := Bool(input.completed.value)] else withId;
    if input.title.Some? then withCompleted["title" := Str(input.title.value)] else withCompleted
  }

  function DeleteInputObject(input: DeleteTaskInput): Object {
    map["id" := Num(input.id)]
  }

  // ---- Round trips ----

  /** A Task record has exactly the keys id, title, completed and created_at, and parses back to itself. */
  lemma TaskRoundTrip(t: Task)
    ensures TaskObject(t).Keys == {"id", "title", "completed", "created_at"}
    ensures ParseTask(TaskObject(t)) == Success(t)
  {
  }

  /** Keys outside the schema are stripped, never rejected. */
  lemma TaskIgnoresExtraKeys(t: Task, extra: Object)
    requires extra.Keys !! {"id", "title", "completed", "created_at"}
    ensures ParseTask(extra + TaskObject(t)) == Success(t)
  {
  }

  /** A create input passes its schema exactly when it is valid, and parses back to itself. */
  lemma CreateInputRoundTrip(input: CreateTaskInput)
    ensures ParseCreateInput(CreateInputObject(input)).Success? <==> ValidCreateInput(input)
    ensures ValidCreateInput(input) ==> ParseCreateInput(CreateInputObject(input)) == Success(input)
  {
  }

  /** An update input passes its schema exactly when it is valid, and parses back to itself;
      absent optional fields stay absent. */
  lemma UpdateInputRoundTrip(input: UpdateTaskInput)
    ensures ParseUpdateInput(UpdateInputObject(input)).Success? <==> ValidUpdateInput(input)
    ensures ValidUpdateInput(input) ==> ParseUpdateInput(UpdateInputObject(input)) == Success(input)
  {
  }

  lemma DeleteInputRoundTrip(input: DeleteTaskInput)
    ensures ParseDeleteInput(DeleteInputObject(input)) == Success(input)
  {
  }

  /** The create schema does not trim: a title of one space is accepted verbatim. */
  lemma WhitespaceTitleAccepted()
    ensures ParseCreateInput(map["title" := Str(" ")]) == Success(CreateTaskInput(" "))
  {
  }

  /** An empty title is refused with the schema's own message. */
  lemma EmptyTitleRejected()
    ensures ParseCreateInput(map["title" := Str("")]) == Failure(TooSmall("title", TitleEmptyMessage))
  {
  }

  /** An update without an id is refused, whatever else it carries. */
  lemma UpdateNeedsId(obj: Object)
    requires "id" !in obj
    ensures ParseUpdateInput(obj) == Failure(Required("id"))
  {
  }
}
