# Simple to-do app: verified model of its rules

A small to-do application: a server exposes create, list, update and delete
procedures over one task table, and a React client keeps the task list in
state, merges server replies into it and shows counters. This project models
the parts of it that follow precise rules, and proves those rules in Dafny:

- **Schemas** (`task_schema.dfy`, module `TaskSchema`): the `Task` record and the
  create, update and delete inputs. Each zod object schema is a parse function
  from a loosely typed object (`map<string, Value>`, an absent key being
  `undefined`) to a typed record or the first validation issue. Round-trip
  lemmas tie each parser to an encoder. The create schema checks length only,
  so a title of spaces passes.
- **Create handler** (`create_task.dfy`, module `CreateTaskHandler`): a placeholder
  that returns id 0, the title verbatim, `completed = false` and the clock
  reading. The clock is the parameter `now`.
- **Update handler** (`update_task.dfy`, module `UpdateTaskHandler`): class
  `TaskTable` holds the table as `map<int, Task>`. `UpdateTask` builds the update
  set field by field (`!== undefined`, so an explicit `false` counts), reads
  the row when the set is empty, writes the set otherwise, and fails with
  not-found on both paths. A failing database statement is the parameter
  `storeFault`, and the catch block re-raises it unchanged.
- **Client state** (`app.dfy`, module `App`): pure list updaters (prepend, map by
  id, filter by id), the toggle request, the choice of what the list area
  shows, and class `AppState` with the loading, create, toggle and delete
  handlers. The create, toggle and delete calls are function parameters from
  the request to a reply or a thrown error; the list fetch, which sends no
  request, is given as its reply or thrown error.
- **Form** (`task_form.dfy`, module `TaskForm`): the trim gate, the submit
  handler that hands the trimmed title to the App's create handler and then
  clears the field, the disabled condition of the button and the
  characters-remaining note.
- **Counters** (`task_stats.dfy`, module `TaskStats`): completed, total, remaining and
  the rounded percentage, with their bounds and end points.
- Support: `wrappers.dfy` (Option, Result) and `js_string.dfy` (`trim` over the
  ECMAScript whitespace and line-terminator code points, and the decimal
  rendering of an integer in a template literal).

## Model

| member | source | states |
|---|---|---|
| `TaskSchema.ParseTask` | server/src/schema.ts:4-9 | A Task parses exactly when `id` is a number, `title` a string, `completed` a boolean and `created_at` a date; the record carries those four values |
| `TaskSchema.NumberField` | server/src/schema.ts:5 | `z.number()`: accepted exactly when the key is present and holds a number, giving that number; a missing key is "required", a value of another kind an invalid type |
| `TaskSchema.StringField` | server/src/schema.ts:6 | `z.string()`: accepted exactly when the key is present and holds a string, giving that string; a missing key is "required", a value of another kind an invalid type |
| `TaskSchema.BooleanField` | server/src/schema.ts:7 | `z.boolean()`: accepted exactly when the key is present and holds a boolean, giving that boolean; a missing key is "required", a value of another kind an invalid type |
| `TaskSchema.DateField` | server/src/schema.ts:8 | `created_at`: accepted exactly when the key is present and already holds a date, giving that instant; a missing key is "required", anything else an invalid type (coercion is listed under Left out) |
| `TaskSchema.TitleField` | server/src/schema.ts:15 | `z.string().min(1, …)`: accepted exactly when the value is a string of length at least one, taken verbatim; an empty string fails with "Task title cannot be empty" |
| `TaskSchema.Optional` | server/src/schema.ts:23-24 | `.optional()`: an absent key is accepted as undefined; a present key is accepted exactly when its field schema accepts it |
| `TaskSchema.ParseCreateInput` | server/src/schema.ts:14-16 | A create input is accepted exactly when `title` is a string of length ≥ 1, with no trimming; the accepted title is the given one |
| `TaskSchema.ParseUpdateInput` | server/src/schema.ts:21-25 | An update input is accepted exactly when `id` is a number, `completed` is absent or boolean, and `title` is absent or a string of length ≥ 1; present and absent fields are kept as given |
| `TaskSchema.ParseDeleteInput` | server/src/schema.ts:30-32 | A delete input is accepted exactly when it carries a numeric `id` |
| `TaskSchema.TaskRoundTrip` | server/src/schema.ts:4-9 | A Task object has exactly the keys id, title, completed, created_at and parses back to the same Task |
| `TaskSchema.TaskIgnoresExtraKeys` | server/src/schema.ts:4-9 | Keys outside the schema are stripped, not rejected |
| `TaskSchema.CreateInputRoundTrip` | server/src/schema.ts:14-16 | A create input passes its schema iff its title is non-empty, and then parses back to itself |
| `TaskSchema.UpdateInputRoundTrip` | server/src/schema.ts:21-25 | An update input passes iff a present title is non-empty, and then parses back to itself with absent fields still absent |
| `TaskSchema.DeleteInputRoundTrip` | server/src/schema.ts:30-32 | A delete input parses back to itself |
| `TaskSchema.WhitespaceTitleAccepted` | server/src/schema.ts:15 | The create schema accepts a title of one space verbatim |
| `TaskSchema.EmptyTitleRejected` | server/src/schema.ts:15 | The create schema refuses an empty title with its own message |
| `TaskSchema.UpdateNeedsId` | server/src/schema.ts:22 | An update object without `id` is refused whatever else it holds |
| `CreateTaskHandler.CreateTask` | server/src/handlers/create_task.ts:3-13 | The created task has id 0, the input title character for character, `completed = false` and `created_at` equal to the call-time clock |
| `CreateTaskHandler.CreatedWithinCall` | server/src/handlers/create_task.ts:11 | The timestamp lies between a clock reading before the call and one after it |
| `CreateTaskHandler.NoValidationInHandler` | server/src/handlers/create_task.ts:3-13 | The handler itself validates nothing: an empty title comes back verbatim |
| `CreateTaskHandler.CreatedTaskMatchesSchema` | server/src/handlers/create_task.ts:7-12 | The reply is a well-formed Task record under `taskSchema` |
| `CreateTaskHandler.PlaceholderIdsCollide` | server/src/handlers/create_task.ts:8 | Any two creates answer with the same id |
| `UpdateTaskHandler.UpdateValues.KeyCount` | server/src/handlers/update_task.ts:20 | The key count of the update set is at most 2 and is 0 exactly when neither field is present |
| `UpdateTaskHandler.Requested` | server/src/handlers/update_task.ts:9-17 | The update set holds a field exactly when the input supplied it (not `undefined`), with the supplied value |
| `UpdateTaskHandler.ApplyValues` | server/src/handlers/update_task.ts:34-38 | Writing the update set to a row keeps `id` and `created_at`, overwrites each supplied field, and keeps each omitted field |
| `UpdateTaskHandler.EmptyValuesIdentity` | server/src/handlers/update_task.ts:19-31 | An empty update set leaves the row as it was |
| `UpdateTaskHandler.ExplicitFalseApplied` | server/src/handlers/update_task.ts:15-17 | An explicit `completed: false` clears the flag of a completed row instead of being treated as absent |
| `UpdateTaskHandler.Message` | server/src/handlers/update_task.ts:27 | A store failure reaches the caller with its own text; a not-found error reads "Task with id ", then at least one character, then " not found" |
| `UpdateTaskHandler.NotFoundMessage` | server/src/handlers/update_task.ts:27 | The not-found message is exactly "Task with id ", the id's `NumberToString` text, then " not found" |
| `UpdateTaskHandler.NotFoundMessageDistinct` | server/src/handlers/update_task.ts:27 | Two ids with the same not-found message are the same id, so the message identifies the id |
| `UpdateTaskHandler.TaskTable.UpdateTask` | server/src/handlers/update_task.ts:6-50 | A store failure is re-raised unchanged; a missing id fails with not-found on either path; both leave the table as it was. Otherwise only the row with that id changes, by the supplied fields; `id` and `created_at` are kept; the reply is the row now stored; an empty update returns the stored row and writes nothing; non-empty titles stay non-empty under a schema-valid input |
| `UpdateTaskHandler.TaskTable.constructor` | server/src/handlers/update_task.ts:34-38 | A table starts from a map whose every row sits under its own id |
| `JsString.Trim` | client/src/components/TaskForm.tsx:18-20 | `trim` gives a contiguous slice of the input, flanked only by whitespace, that neither starts nor ends with whitespace |
| `JsString.TrimEmptyIffAllWhitespace` | client/src/components/TaskForm.tsx:18 | The trimmed title is empty exactly when every character is whitespace |
| `JsString.TrimIdempotent` | client/src/components/TaskForm.tsx:20 | Trimming twice is the same as trimming once |
| `JsString.NumberToString` | server/src/handlers/update_task.ts:27 | An id is rendered as decimal digits whose value is the id, with no leading zero except for 0 itself, preceded by `-` exactly when negative |
| `TaskForm.SubmissionFor` | client/src/components/TaskForm.tsx:18-20 | Nothing is submitted exactly when the title is all whitespace; otherwise the submitted title is the trimmed title |
| `TaskForm.SubmissionPassesSchema` | client/src/components/TaskForm.tsx:20 | Whatever the form submits is non-empty, has no whitespace at either end, and passes the create schema |
| `TaskForm.SubmitDisabled` | client/src/components/TaskForm.tsx:46 | The button is disabled exactly when submitting or when the title is all whitespace |
| `TaskForm.EnabledButtonSubmits` | client/src/components/TaskForm.tsx:46 | When the button is enabled, pressing it submits a title |
| `TaskForm.RemainingNote` | client/src/components/TaskForm.tsx:59-61 | The note appears exactly when the title is longer than 180 and shows 200 minus the length, which lies in 0..19 when the title respects `maxLength` 200 |
| `TaskForm.FormState.OnChange` | client/src/components/TaskForm.tsx:37-39 | The title state takes the field's value |
| `TaskForm.FormState.HandleSubmit` | client/src/components/TaskForm.tsx:16-22 | A blank title submits nothing and changes neither the form nor the App; otherwise the trimmed title goes to the App's create handler, whose list update and `isSubmitting` reset follow, and the title becomes empty |
| `TaskForm.FormState.constructor` | client/src/components/TaskForm.tsx:14 | The form starts with an empty title |
| `App.Prepend` | client/src/App.tsx:36 | After a create, the list is one longer, its head is the new task and its tail is the previous list |
| `App.ReplaceById` | client/src/App.tsx:51-53 | The list keeps its length; each element with the toggled id becomes the server's row, every other element stays in place |
| `App.RemoveId` | client/src/App.tsx:63 | No remaining element has the id, and an element remains exactly when it was there with another id |
| `App.RemoveIdAppend` | client/src/App.tsx:63 | Removal distributes over concatenation, so survivors keep their relative order |
| `App.RemoveIdAbsent` | client/src/App.tsx:63 | Removing an id nobody carries leaves the list unchanged |
| `App.RemoveIdIdempotent` | client/src/App.tsx:63 | Removing the same id twice equals removing it once |
| `App.ToggleRequest` | client/src/App.tsx:47-50 | The toggle sends only the task's id and the negation of its displayed flag, and passes the update schema's rules |
| `App.ToggleRequestPassesSchema` | client/src/App.tsx:47-50 | The toggle request object parses under the update schema back to itself |
| `App.ToggleFlipsOnlyTheFlag` | client/src/App.tsx:47-50 | Applied by the update handler to the displayed row, the toggle request flips `completed` and changes nothing else |
| `App.ListAreaFor` | client/src/App.tsx:85-111 | The spinner shows exactly when loading; the empty notice exactly when not loading and the list is empty; otherwise the list itself |
| `App.AppState.constructor` | client/src/App.tsx:10-12 | The App starts with an empty list, not loading and not submitting |
| `App.AppState.LoadTasks` | client/src/App.tsx:15-25 | The fetched list replaces the state, a failed fetch keeps it, and `isLoading` is false afterwards either way |
| `App.AppState.HandleCreateTask` | client/src/App.tsx:32-42 | A created task is put first, a failed call keeps the list, and `isSubmitting` is false afterwards either way |
| `App.AppState.HandleToggleTask` | client/src/App.tsx:45-57 | Sends the toggle request; on success elements with that id become the reply, on failure the list is unchanged; the length never changes |
| `App.AppState.HandleDeleteTask` | client/src/App.tsx:60-67 | Once the call returns, whatever its `success` flag, no element has that id and the rest keep their order; a failed call keeps the list |
| `TaskStats.CompletedTasks` | client/src/components/TaskStats.tsx:9 | The filter keeps exactly the completed tasks and is no longer than the list |
| `TaskStats.CompletionPercentage` | client/src/components/TaskStats.tsx:12 | 0 for an empty list; within 0..100 when completed ≤ total; 100 when all are completed; 0 when none are |
| `TaskStats.PercentageIsNearest` | client/src/components/TaskStats.tsx:12 | For a non-empty list the percentage is the nearest integer to 100·completed/total, halves rounded up |
| `TaskStats.Summarize` | client/src/components/TaskStats.tsx:9-12 | completed is the length of the completed-tasks filter, total the list length, percentage the rounded completion percentage of those two; completed ≤ total, remaining = total − completed ≥ 0, completed + remaining = total, percentage in 0..100 and 0 for an empty list |
| `TaskStats.ShowsPercentageBadge` | client/src/components/TaskStats.tsx:25 | The percentage badge, shown when the summary's total is positive, appears exactly when the task list is non-empty |
| `TaskStats.AllCompletedKept` | client/src/components/TaskStats.tsx:9 | When every task is completed the filter keeps the whole list |
| `TaskStats.NoneCompletedDropped` | client/src/components/TaskStats.tsx:9 | When no task is completed the filter keeps nothing |
| `TaskStats.AllCompletedIsHundred` | client/src/components/TaskStats.tsx:11-12 | All tasks completed: remaining is 0 and the percentage 100 |
| `TaskStats.NoneCompletedIsZero` | client/src/components/TaskStats.tsx:9-12 | No task completed: completed and percentage are 0 and remaining is the whole list |
| `TaskStats.CompletedTasksAppend` | client/src/components/TaskStats.tsx:9 | Filtering distributes over concatenation |

## Left out

- Database access: the drizzle queries and the connection are replaced by the in-memory map of `TaskTable`; only what the update handler does with their results is modelled.
- The list and delete handlers: their implementations are not part of this model; only what the client does with their replies is modelled, so neither the newest-first order nor the meaning of delete's `success` flag is claimed.
- Distinct ids across creates: the create handler is a placeholder that always answers id 0 (`PlaceholderIdsCollide`), so the distinct-ids expectation of its test is not claimed.
- Transport and asynchrony: tRPC, promises, scheduling and React's batching of state setters. Each handler is one sequential step, and each remote call is a parameter that either answers or throws.
- Logging (`console.error`) and test scaffolding.
- Rendering: JSX, CSS classes, icons, date formatting and `TaskItem`, which only renders and forwards its callbacks.
- `App.AppState.LoadTasks`: the moment during the fetch when `isLoading` is true is set but not observable in this sequential model; only the final state is stated.
- `TaskStats.CompletionPercentage`: computed with integer round-half-up `(200·c + t) / (2·t)`, not with JavaScript's floating-point `Math.round((c / t) * 100)`; agreement at exact .5 ties is not claimed.
- `TaskSchema.ParseUpdateInput`: zod reports every issue it finds; the parsers report only the first, in declared field order. The same holds for `TaskSchema.ParseTask`.
- `TaskSchema.ParseTask`: numbers are integers (zod's `z.number()` also accepts fractions), and `z.coerce.date()` coercion is not modelled; a timestamp is an opaque integer that must already be a date.
- `TaskSchema.ParseUpdateInput` and `TaskSchema.ParseDeleteInput`: the `id` is an unbounded integer, whereas `z.number()` accepts any finite JavaScript number, fractions included.
- `JsString.NumberToString`: ids are unbounded integers rendered as plain decimal digits; JavaScript's exponent form for magnitudes of 10^21 and above ("1e+21"), fractional ids ("1.5") and the float64 precision limit are not modelled.
- Strings are sequences of characters: UTF-16 code units, surrogate pairs and Unicode versions beyond the fixed whitespace set of `JsString.IsWhitespace` are not modelled.
- `TaskForm.FormState.OnChange`: the browser's `maxLength` of 200 limits typing, not the state; the model does not enforce it and `TaskForm.RemainingNote` states its 0..19 bound under that assumption.
