# Kanban task board and task service, in Dafny

This project models two independent parts of a small task-management web app.

**The kanban board** (`src/components/MainFeature.jsx`). The board keeps a list of tasks and an
add/edit form as component state:

- Each task has an id, a title, a description, a status, a priority, a due date, timestamps and
  labels.
- The handlers replace that state: submit the form (create or edit), load a task into the form,
  delete, move a task to another status, and close the form in three different ways.
- The rendered view is derived from the list. It filters by status, priority and a
  case-insensitive search, groups the survivors into the four status columns, and shows
  per-status counts.
- Two display tables (`PRIORITIES`, `STATUSES`) are looked up with a fallback to their first row.

In the model:

- `TaskBoard.Board` is a class whose fields are the state the handlers set. Its methods are the
  handlers.
- Each method is specified by a pure function on the state (`SubmitStep`, `RemoveTask`,
  `ChangeStatusOf`, …). The lemmas beside those functions state what the handlers promise.

**The task service** (`src/services/taskService.js`). It models the query that `getTasks`
builds, the records that `createTask`, `updateTask` and `updateTaskStatus` send, and the checks
those calls and `deleteTask` apply to the response.

- `BuildQuery` is a method: it builds `params` step by step, as `getTasks` does.
- The record builders are functions: an object literal plus one conditional `completedAt` write.
- The response checks are functions.

Module layout:

- `Common`: `Option` and `Result`.
- `Strings`: trim, ASCII lower-casing, substring, split and join.
- `Seqs`: `filter` and `find` on sequences, with their lemmas.
- `TaskBoard`: the board.
- `TaskService`: the service builders.

The clock, the fresh id, "tomorrow", `new Date(d).toISOString()` and the `YYYY-MM-DD` slice of
a date are parameters of the operations that use them.

A task can be `completed` without a `completedAt`:

- A submit never sets `completedAt`, even when the form's status is `completed`
  (`MainFeature.jsx:83-93`). Only a status change stamps it (`MainFeature.jsx:148-153`).
- So `DraftToTask` states `completedAt == None`. The invariant "`completedAt` is present iff the
  status is `completed`" is proved only for status changes (`WithStatusConsistent`,
  `ChangeStatusKeepsConsistency`).

## Model

| member | source | states |
|---|---|---|
| Strings.Trim | src/components/MainFeature.jsx:85-86 | `trim()` yields a string with no leading or trailing white space |
| Strings.TrimIsInfix | src/components/MainFeature.jsx:85-86 | `trim()` removes only white space and only at the ends: the result is an infix of the input with nothing but white space before and after it |
| Strings.TrimOfTrimmed | src/components/MainFeature.jsx:85-86 | trimming an already trimmed string changes nothing |
| Strings.TrimSkipsLeadingSpace | src/components/MainFeature.jsx:92 | white space before a string does not change its trim (the `", "` padding of joined labels) |
| Strings.TrimKeepsOut | src/components/MainFeature.jsx:92 | trimming adds no character, so a trimmed comma-free piece stays comma-free |
| Strings.Lower | src/components/MainFeature.jsx:171-175 | `toLowerCase()` keeps the length, leaves no upper-case letter, changes only the upper-case letters and maps each to its lower-case letter |
| Strings.LowerIdempotent | src/components/MainFeature.jsx:171-175 | lower-casing twice is lower-casing once |
| Strings.Split | src/components/MainFeature.jsx:92 | `split(',')` yields at least one piece and no piece contains the separator |
| Strings.SplitJoin | src/components/MainFeature.jsx:125 | splitting pieces joined by a separator gives back the pieces (with the padding after each separator) |
| Strings.SplitAtSeparator | src/components/MainFeature.jsx:92 | splitting at the first separator gives the part before it followed by the split of the rest |
| Seqs.FilterSeq | src/components/MainFeature.jsx:134 | `filter` never lengthens a list |
| Seqs.FilterMembers | src/components/MainFeature.jsx:162-180 | `filter` keeps exactly the elements that satisfy the callback |
| Seqs.FilterCounts | src/components/MainFeature.jsx:162-185 | `filter` keeps every copy of an element that satisfies the callback and no copy of any other |
| Seqs.Find | src/components/MainFeature.jsx:117 | `find` returns the first element satisfying the callback, and `undefined` exactly when none does |
| Seqs.FilterIsSubsequence | src/components/MainFeature.jsx:162-180 | `filter` keeps the order of the elements it keeps |
| Seqs.FilterFilter | src/components/MainFeature.jsx:185 | filtering twice is filtering once by the conjunction |
| Seqs.FilterPartition | src/components/MainFeature.jsx:134 | filtering by a callback and by its negation splits the list without loss |
| Seqs.FilterIdempotent | src/components/MainFeature.jsx:162-180 | filtering a filtered list again changes nothing |
| TaskBoard.DetailsOrFirst | src/components/MainFeature.jsx:188-194 | the lookup returns the row with the value when there is one, and the table's first row otherwise |
| TaskBoard.PriorityDetails | src/components/MainFeature.jsx:188-190 | `getPriorityDetails` returns the `PRIORITIES` row of the priority, or the `low` row for an unknown one |
| TaskBoard.StatusDetails | src/components/MainFeature.jsx:192-194 | `getStatusDetails` returns the `STATUSES` row of the status, or the `not-started` row for an unknown one |
| TaskBoard.TrimAllClean | src/components/MainFeature.jsx:92 | `map(label => label.trim())` over the comma-split pieces gives trimmed pieces that are still free of commas |
| TaskBoard.ParseLabels | src/components/MainFeature.jsx:92 | every label parsed from the labels text is non-empty, trimmed and free of commas |
| TaskBoard.LabelsRoundTrip | src/components/MainFeature.jsx:125 | well-formed labels joined with `", "` (or a comma and any white space) parse back to the same labels |
| TaskBoard.DefaultDraft | src/components/MainFeature.jsx:104-111 | the reset form has an empty title, description and labels text, is not started, medium priority and due tomorrow; so submitting it is refused and it parses to no labels |
| TaskBoard.DraftToTask | src/components/MainFeature.jsx:83-93 | the built task has the given id and `createdAt`, `updatedAt` now and no `completedAt` (whatever the status). It has the form's status and priority, the re-encoded due date, the trimmed title and description and the parsed labels; so its title and description are trimmed and its labels well formed |
| TaskBoard.EditDraft | src/components/MainFeature.jsx:119-126 | the form loaded from a task shows its title, description, status, priority and the day of its due date; the labels text parses back to the task's labels when they are well formed |
| TaskBoard.EditRoundTrip | src/components/MainFeature.jsx:116-130 | loading a task into the form and submitting it unchanged gives the task back, up to the re-encoded due date, the new `updatedAt` and a dropped `completedAt` |
| TaskBoard.SubmittedTaskRoundTrips | src/components/MainFeature.jsx:83-93 | every task the form produces survives an unchanged edit with the same title, description, labels, status and priority |
| TaskBoard.FindTask | src/components/MainFeature.jsx:117 | `tasks.find` by id: nothing exactly when no task has the id, otherwise the first task of the list with that id |
| TaskBoard.ReplaceTask | src/components/MainFeature.jsx:96 | the `map` replaces every task with the id and keeps every other task in place |
| TaskBoard.EditedTasks | src/components/MainFeature.jsx:90-96 | an edit keeps the length and every id and leaves every task without the edited id unchanged. Each task with the id gets the first such task's `createdAt`, the form's trimmed title and description, its status, priority and re-encoded due date, the parsed labels, `updatedAt` now and no `completedAt` |
| TaskBoard.RemoveTask | src/components/MainFeature.jsx:132-137 | delete leaves an order-preserving subsequence without the id. It drops exactly the tasks with the id, and removing an absent id changes nothing |
| TaskBoard.WithStatus | src/components/MainFeature.jsx:142-155 | a move sets the status and `updatedAt` and changes nothing else except `completedAt`. `completedAt` is stamped when entering `completed`, removed for any other status, and kept on a completed-to-completed move |
| TaskBoard.WithStatusConsistent | src/components/MainFeature.jsx:148-153 | after a move, `completedAt` is present iff the task is completed, whenever the move changes the status or the task was consistent before |
| TaskBoard.CompleteThenReopen | src/components/MainFeature.jsx:148-153 | completing a task and then moving it elsewhere leaves no `completedAt` |
| TaskBoard.ChangeStatusOf | src/components/MainFeature.jsx:139-158 | a status change moves every task with the id and leaves every other task unchanged; the length is kept |
| TaskBoard.ChangeStatusKeepsConsistency | src/components/MainFeature.jsx:139-158 | a status change keeps every consistent task consistent |
| TaskBoard.SearchIgnoresQueryCase | src/components/MainFeature.jsx:171-175 | the search ignores the case of the query: a query and its lower-cased form find the same tasks and pass the same filter |
| TaskBoard.FilterTasks | src/components/MainFeature.jsx:162-180 | a task is shown iff it is on the board, its status and priority pass their selections (or `all`), and the query is empty or found, lower-cased, in its lower-cased title, description or a label. A shown task appears as often as it is listed, and the shown tasks keep their order |
| TaskBoard.FilterTasksIdempotent | src/components/MainFeature.jsx:162-180 | filtering the shown tasks again shows the same tasks |
| TaskBoard.TasksByStatus | src/components/MainFeature.jsx:182-186 | `tasksByStatus` has one column for each of the four statuses |
| TaskBoard.Bucket | src/components/MainFeature.jsx:185 | a column holds exactly the tasks with its status, each as often as it is listed, in their order |
| TaskBoard.BucketOfFiltered | src/components/MainFeature.jsx:182-186 | a column is the filtered list with that status selected when the selection is `all` or that status, and empty otherwise |
| TaskBoard.BucketCount | src/components/MainFeature.jsx:285 | a column is as long as the number of tasks with its status |
| TaskBoard.BucketsCoverAll | src/components/MainFeature.jsx:182-186 | when every status is one of the four, the column lengths add up to the list length |
| TaskBoard.StatusCount | src/components/MainFeature.jsx:269 | a summary count is the number of shown tasks with that status and equals that status's column length; so it is at most the number of shown tasks, and zero for a status other than the selected one |
| TaskBoard.CountsSumToFiltered | src/components/MainFeature.jsx:269 | the four summary counts add up to the number of shown tasks |
| TaskBoard.SubmitStep | src/components/MainFeature.jsx:75-114 | the submit is rejected iff the trimmed title is empty. A missing edit target is reported iff the title is not blank, the form is in edit mode and no task has the id. Either way the whole state is unchanged |
| TaskBoard.SubmitCreates | src/components/MainFeature.jsx:83-113 | a create appends exactly one task after the unchanged earlier tasks: fresh id, trimmed non-empty title, trimmed description, parsed well-formed labels, the form's status and priority, the re-encoded due date, created and updated now, no `completedAt`. The form is reset and closed; the edit target is kept |
| TaskBoard.SubmitEdits | src/components/MainFeature.jsx:84-113 | an edit is reported as an update and changes the list as `EditedTasks` states: only the entries with the edited id change, they keep the id and the original `createdAt` and take every form value. Edit mode ends and the form is reset and closed |
| TaskBoard.Board.constructor | src/components/MainFeature.jsx:21-59 | the board starts with the given tasks, the default form, no edit target and the form closed |
| TaskBoard.Board.OpenForm | src/components/MainFeature.jsx:240 | "Add Task" only opens the form, keeping what it holds |
| TaskBoard.Board.EditField | src/components/MainFeature.jsx:67-73 | an input event sets one form field and nothing else |
| TaskBoard.Board.Submit | src/components/MainFeature.jsx:75-114 | the new state and the reported outcome are those of `SubmitStep` on the old state |
| TaskBoard.Board.BeginEdit | src/components/MainFeature.jsx:116-130 | an existing id loads its task into the form, enters edit mode and opens the form; an unknown id changes nothing |
| TaskBoard.Board.Delete | src/components/MainFeature.jsx:132-137 | a confirmed delete removes the tasks with the id; an unconfirmed one changes nothing |
| TaskBoard.Board.ChangeStatus | src/components/MainFeature.jsx:139-160 | the tasks become `ChangeStatusOf` of the old tasks; the form is untouched |
| TaskBoard.Board.CloseForm | src/components/MainFeature.jsx:406-417 | the X button closes the form, leaves edit mode and resets the form |
| TaskBoard.Board.CancelForm | src/components/MainFeature.jsx:514-517 | the Cancel button closes the form and leaves edit mode, but keeps what was typed |
| TaskBoard.Board.DismissForm | src/components/MainFeature.jsx:392 | a backdrop click only closes the form; edit mode and the typed values stay |
| TaskBoard.StaleEditScenario | src/components/MainFeature.jsx:90 | edit, dismiss with the backdrop, delete the task, reopen and submit: the submit reaches the missing-target case |
| TaskService.SearchGroup | src/services/taskService.js:86-114 | the search is one `OR` group of three sub-groups, each one `Contains` condition carrying the query, on `title`, `description` and `Tags` in that order |
| TaskService.BuildQuery | src/services/taskService.js:54-116 | all fields and paging 100/0 always. `where` is present iff the filters object has a key. It holds a status clause iff the status is truthy and not `all`, likewise for priority, the status clause first. The search group is present iff there is a key and a truthy search text |
| TaskService.TagsValue | src/services/taskService.js:132-134 | `Tags` is the labels joined with commas when they are an array, and the value passed through otherwise |
| TaskService.CreateRecord | src/services/taskService.js:132-151 | the create record has exactly the task fields plus `updatedAt`, and `completedAt` iff the status is `completed`. `Name` and `title` are the title |
| TaskService.UpdateRecord | src/services/taskService.js:175-195 | the update record is the create record for the same data plus `Id` |
| TaskService.StatusRecord | src/services/taskService.js:237-246 | the status record carries only `Id`, `status`, `updatedAt` and, iff the status is `completed`, `completedAt` |
| TaskService.RecordsWriteOnlyUpdateable | src/services/taskService.js:136-146 | apart from `Id`, every written key is one of the updateable fields |
| TaskService.CompletedAtOnlyWhenCompleted | src/services/taskService.js:243-246 | every written record has `completedAt` iff its status is `completed`, and never clears it |
| TaskService.StatusRecordAgreesWithUpdate | src/services/taskService.js:237-246 | a status update writes the same values as a full update with that status would, for each key it has |
| TaskService.TagsRoundTrip | src/services/taskService.js:132-134 | comma-free labels are recovered from `Tags` by splitting at commas; no labels store as `""` |
| TaskService.CheckWrite | src/services/taskService.js:157-162 | a create, update or status update succeeds iff the response exists, reports success and has a result. The result is then the first result's `data` as it is, whatever that result's own flag; otherwise the call fails with the write's own message (lines 162, 205, 256) |
| TaskService.CheckDelete | src/services/taskService.js:221-225 | a delete succeeds iff the response exists and reports success |

## Left out

- Browser storage: the tasks are loaded from `localStorage` and saved on every change; the
  model's initial list is a constructor argument.
- The `confirm()` dialog is a boolean argument of `Delete`.
- Toasts, rendering, animation and CSS class strings.
- Dates are parameters:
  - `new Date(x).toISOString()` and the `YYYY-MM-DD` slice of a date are the function
    parameters `toIso` and `toDay`;
  - "now" and "tomorrow" are plain arguments;
  - the `RangeError` of an invalid date is not modelled.
- In create mode `handleAddTask` reads the clock twice, once for `createdAt` and once for
  `updatedAt`. The model uses one `now` for both (`SubmitStep`, `SubmitCreates`).
- `TaskBoard.WithStatus`: `handleChangeStatus` reads the clock twice, for `updatedAt` and for
  `completedAt` (`MainFeature.jsx:145` and `:150`). The model uses one `now` for both, so it
  states they are equal where the code only makes them close in time.
- `Date.now().toString()` ids are an argument `freshId`. The code does not make them unique, so
  no uniqueness is claimed: `ReplaceTask`, `RemoveTask` and `ChangeStatusOf` act on every task
  with the id.
- `trim` uses a fixed set of white-space characters (ASCII white space, no-break space, byte
  order mark) instead of the full Unicode set. `toLowerCase` is ASCII-only.
- Tasks loaded from storage without `labels` (a `TypeError` in the search) are not modelled:
  every task has a label list.
- `TaskBoard.TasksByStatus`: its contract states only the set of columns. Each column is
  `Bucket(FilterTasks(tasks, c), s)` by definition; `Bucket` and `BucketOfFiltered` state what
  that holds.
- The status label in the status-change toast is display only.
- Service:
  - the SDK client (`getClient`, `window.ApperSDK`, `import.meta.env`);
  - the `fetchRecords`, `createRecord`, `updateRecord` and `deleteRecord` calls, and
    `console.error`. These are a foreign SDK and network I/O: a response is a value given to
    `CheckWrite` / `CheckDelete`;
  - the `response.data || []` fallback of `getTasks`, which follows the fetch;
  - the table name `task34` that every SDK call is given;
  - a thrown SDK error is re-thrown unchanged.
- `TaskService.CreateRecord`, `TaskService.UpdateRecord`, `TaskService.StatusRecord`: each write
  reads the clock twice, for `updatedAt` and, when the status is `completed`, for `completedAt`
  (`taskService.js:145`/`150`, `189`/`194`, `240`/`245`). The model uses one `now` for both, so
  the two stamps are equal in the model but only close in time in the code.
- Filter values other than absent, `undefined`/`null` or a string (numbers, booleans) are not
  modelled. Record values cover `undefined`, strings, integers and string arrays.
- `src/services/labelService.js`, `src/services/taskLabelService.js`, `src/App.jsx` and the pages
  are not part of this model: they are thin SDK wrappers or presentation.
