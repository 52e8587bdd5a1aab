/**
 * The kanban task board of `MainFeature`: the task list and the add/edit form held as
 * component state, the handlers that replace them, and the derived filtered and grouped view.
 *
 * Clock readings, the fresh id, `new Date(d).toISOString()` and the `YYYY-MM-DD` slice of a
 * date are parameters; browser storage, dialogs, toasts and rendering are not modelled.
 */
module TaskBoard {
  import opened Common
  import opened Strings
  import opened Seqs

  const NotStarted: string := "not-started"
  const InProgress: string := "in-progress"
  const Completed: string := "completed"
  const OnHold: string := "on-hold"
  const Medium: string := "medium"

  /** The filter value that lets every status or priority through. */
  const All: string := "all"

  /** The four kanban columns, in display order. */
  const StatusValues: seq<string> := [NotStarted, InProgress, Completed, OnHold]

  /** One row of the `PRIORITIES` or `STATUSES` display table. */
  datatype Detail = Detail(value: string, caption: string, color: string)

  const Priorities: seq<Detail> := [
    Detail("low", "Low", "bg-green-500"),
    Detail("medium", "Medium", "bg-orange-500"),
    Detail("high", "High", "bg-red-500"),
    Detail("urgent", "Urgent", "bg-pink-500")
  ]

  const Statuses: seq<Detail> := [
    Detail(NotStarted, "Not Started", "bg-gray-500"),
    Detail(InProgress, "In Progress", "bg-blue-500"),
    Detail(Completed, "Completed", "bg-green-500"),
    Detail(OnHold, "On Hold", "bg-amber-500")
  ]

  /** The row of `table` for `value`, or the table's first row when no row has that value. */
  function DetailsOrFirst(table: seq<Detail>, value: string): (d: Detail)
    requires |table| > 0
    ensures d in table
    ensures (exists k :: 0 <= k < |table| && table[k].value == value) ==> d.value == value
    ensures (forall k :: 0 <= k < |table| ==> table[k].value != value) ==> d == table[0]
  {
    Find(table, (row: Detail) => row.value == value).GetOr(table[0])
  }

  function PriorityDetails(priority: string): (d: Detail)
    ensures d in Priorities
    ensures (exists k :: 0 <= k < |Priorities| && Priorities[k].value == priority) ==> d.value == priority
    ensures (forall k :: 0 <= k < |Priorities| ==> Priorities[k].value != priority) ==> d == Priorities[0]
  {
    DetailsOrFirst(Priorities, priority)
  }

  function StatusDetails(status: string): (d: Detail)
    ensures d in Statuses
    ensures (exists k :: 0 <= k < |Statuses| && Statuses[k].value == status) ==> d.value == status
    ensures (forall k :: 0 <= k < |Statuses| ==> Statuses[k].value != status) ==> d == Statuses[0]
  {
    DetailsOrFirst(Statuses, status)
  }

  /**
   * A task as the board stores it. `updatedAt` is absent on the two seed tasks and
   * `completedAt` is present only after a move into the completed column.
   */
  datatype Task = Task(
    id: string,
    title: string,
    description: string,
    status: string,
    priority: string,
    dueDate: string,
    createdAt: string,
    updatedAt: Option<string>,
    labels: seq<string>,
    completedAt: Option<string>)

  /** The form's fields; `labels` is the raw comma-separated text. */
  datatype Draft = Draft(
    title: string,
    description: string,
    status: string,
    priority: string,
    dueDate: string,
    labels: string)

  /**
   * The empty form: not started, medium priority, due tomorrow, and blank, so that submitting
   * it unchanged is refused for want of a title and would give no description and no labels.
   */
  function DefaultDraft(tomorrow: string): (d: Draft)
    ensures d.title == "" && d.description == "" && d.labels == ""
    ensures d.status == NotStarted && d.priority == Medium && d.dueDate == tomorrow
    ensures Trim(d.title) == "" && Trim(d.description) == "" && ParseLabels(d.labels) == []
  {
    assert Split("", ',') == [""];
    assert TrimAll([""]) == [""];
    Draft("", "", NotStarted, Medium, tomorrow, "")
  }

  /** A label as the form produces it: non-empty, trimmed, without commas. */
  predicate WellFormedLabel(l: string) {
    l != "" && Trimmed(l) && ',' !in l
  }

  predicate WellFormedLabels(ls: seq<string>) {
    forall k :: 0 <= k < |ls| ==> WellFormedLabel(ls[k])
  }

  function TrimAll(parts: seq<string>): (r: seq<string>)
    ensures |r| == |parts|
    ensures forall k :: 0 <= k < |parts| ==> r[k] == Trim(parts[k])
  {
    seq(|parts|, k requires 0 <= k < |parts| => Trim(parts[k]))
  }

  /**
   * `text.split(',').map(label => label.trim()).filter(Boolean)`: every label it yields is
   * non-empty, trimmed and free of commas.
   */
  function ParseLabels(text: string): (labels: seq<string>)
    ensures WellFormedLabels(labels)
  {
    TrimAllClean(Split(text, ','));
    KeepNonEmptyWellFormed(TrimAll(Split(text, ',')));
    FilterSeq(TrimAll(Split(text, ',')), (l: string) => l != "")
  }

  /** Trimming comma-free pieces gives trimmed, comma-free pieces. */
  lemma TrimAllClean(parts: seq<string>)
    requires forall k :: 0 <= k < |parts| ==> ',' !in parts[k]
    ensures forall k :: 0 <= k < |parts| ==> Trimmed(TrimAll(parts)[k]) && ',' !in TrimAll(parts)[k]
  {
    forall k | 0 <= k < |parts|
      ensures ',' !in TrimAll(parts)[k]
    {
      TrimKeepsOut(parts[k], ',');
    }
  }

  /** Dropping the empty ones among trimmed, comma-free pieces leaves well-formed labels. */
  lemma KeepNonEmptyWellFormed(pieces: seq<string>)
    requires forall k :: 0 <= k < |pieces| ==> Trimmed(pieces[k]) && ',' !in pieces[k]
    ensures WellFormedLabels(FilterSeq(pieces, (l: string) => l != ""))
  {
    var r := FilterSeq(pieces, (l: string) => l != "");
    FilterMembers(pieces, (l: string) => l != "");
    forall k | 0 <= k < |r|
      ensures WellFormedLabel(r[k])
    {
      var j :| 0 <= j < |pieces| && pieces[j] == r[k];
    }
  }

  /** Trimming the labels, all but the first behind white-space padding, gives the labels. */
  lemma TrimPadded(parts: seq<string>, ls: seq<string>, pad: string)
    requires |ls| > 0 && WellFormedLabels(ls)
    requires forall k :: 0 <= k < |pad| ==> IsSpace(pad[k])
    requires |parts| == |ls| && parts[0] == ls[0]
    requires forall k :: 1 <= k < |ls| ==> parts[k] == pad + ls[k]
    ensures TrimAll(parts) == ls
  {
    var trimmed := TrimAll(parts);
    forall k | 0 <= k < |ls|
      ensures trimmed[k] == ls[k]
    {
      if k > 0 {
        TrimSkipsLeadingSpace(pad, ls[k]);
      }
      TrimOfTrimmed(ls[k]);
    }
  }

  /** Splitting joined labels at the commas and trimming the pieces gives back the labels. */
  lemma TrimSplitJoin(ls: seq<string>, pad: string)
    requires |ls| > 0 && WellFormedLabels(ls)
    requires forall k :: 0 <= k < |pad| ==> IsSpace(pad[k])
    ensures TrimAll(Split(Join(ls, [','] + pad), ',')) == ls
  {
    var text := Join(ls, [','] + pad);
    assert "" + text == text;
    SplitJoin("", ls, ',', pad);
    assert "" + ls[0] == ls[0];
    TrimPadded(Split(text, ','), ls, pad);
  }

  /**
   * Labels joined with a comma and any white-space padding parse back to themselves; with the
   * padding `" "` this is the edit-form round trip of `labels.join(', ')`.
   */
  lemma LabelsRoundTrip(ls: seq<string>, pad: string)
    requires WellFormedLabels(ls)
    requires forall k :: 0 <= k < |pad| ==> IsSpace(pad[k])
    ensures ParseLabels(Join(ls, [','] + pad)) == ls
  {
    if ls == [] {
      assert Split("", ',') == [""];
      assert TrimAll([""]) == [""];
    } else {
      TrimSplitJoin(ls, pad);
      FilterKeepsAll(ls, (l: string) => l != "");
    }
  }

  /**
   * The form as `handleEditTask` loads it from task `t`: the task's own title, description,
   * status and priority, the day of its due date, and a labels text that parses back to the
   * task's labels when they are well formed.
   */
  function EditDraft(t: Task, toDay: string -> string): (d: Draft)
    ensures d.title == t.title && d.description == t.description
    ensures d.status == t.status && d.priority == t.priority && d.dueDate == toDay(t.dueDate)
    ensures WellFormedLabels(t.labels) ==> ParseLabels(d.labels) == t.labels
  {
    var d := Draft(t.title, t.description, t.status, t.priority, toDay(t.dueDate), Join(t.labels, ", "));
    assert WellFormedLabels(t.labels) ==> ParseLabels(d.labels) == t.labels by {
      if WellFormedLabels(t.labels) {
        assert [','] + " " == ", ";
        LabelsRoundTrip(t.labels, " ");
      }
    }
    d
  }

  /**
   * The task `handleAddTask` builds from the form, before it is appended or swapped in. It has
   * the given id and creation time, is stamped updated now and has no completion time, even
   * when the form's status is completed. It keeps the form's status and priority, takes the
   * re-encoded due date, the trimmed title and description and the parsed labels, so its title
   * and description are trimmed and its labels well formed.
   */
  function DraftToTask(d: Draft, id: string, createdAt: string, now: string, toIso: string -> string): (t: Task)
    ensures t.id == id && t.createdAt == createdAt
    ensures t.updatedAt == Some(now) && t.completedAt == None
    ensures t.status == d.status && t.priority == d.priority && t.dueDate == toIso(d.dueDate)
    ensures t.title == Trim(d.title) && t.description == Trim(d.description)
    ensures t.labels == ParseLabels(d.labels)
    ensures Trimmed(t.title) && Trimmed(t.description) && WellFormedLabels(t.labels)
  {
    Task(id, Trim(d.title), Trim(d.description), d.status, d.priority, toIso(d.dueDate),
      createdAt, Some(now), ParseLabels(d.labels), None)
  }

  /**
   * Opening a task in the form and submitting it unchanged gives the task back, except for
   * the re-encoded due date, the new `updatedAt` and a dropped `completedAt`.
   */
  lemma EditRoundTrip(t: Task, toDay: string -> string, toIso: string -> string, now: string)
    requires Trimmed(t.title) && Trimmed(t.description) && WellFormedLabels(t.labels)
    ensures DraftToTask(EditDraft(t, toDay), t.id, t.createdAt, now, toIso)
      == t.(dueDate := toIso(toDay(t.dueDate)), updatedAt := Some(now), completedAt := None)
  {
    TrimOfTrimmed(t.title);
    TrimOfTrimmed(t.description);
  }

  /** Every task the form produces survives a later unchanged edit. */
  lemma SubmittedTaskRoundTrips(d: Draft, id: string, createdAt: string, now: string, later: string,
                                toDay: string -> string, toIso: string -> string)
    ensures var t := DraftToTask(d, id, createdAt, now, toIso);
      DraftToTask(EditDraft(t, toDay), id, createdAt, later, toIso)
        == t.(dueDate := toIso(toDay(t.dueDate)), updatedAt := Some(later))
  {
    var t := DraftToTask(d, id, createdAt, now, toIso);
    EditRoundTrip(t, toDay, toIso, later);
  }

  /** `tasks.find(t => t.id === id)`: the first task with the id, if there is one. */
  function FindTask(tasks: seq<Task>, id: string): (r: Option<Task>)
    ensures r.None? <==> forall k :: 0 <= k < |tasks| ==> tasks[k].id != id
    ensures r.Some? ==> r.value in tasks && r.value.id == id
    ensures r.Some? ==> exists k :: 0 <= k < |tasks| && tasks[k] == r.value && forall j :: 0 <= j < k ==> tasks[j].id != id
  {
    Find(tasks, (t: Task) => t.id == id)
  }

  /** `tasks.map(task => task.id === id ? t : task)`. */
  function ReplaceTask(tasks: seq<Task>, id: string, t: Task): (r: seq<Task>)
    ensures |r| == |tasks|
    ensures forall k :: 0 <= k < |tasks| && tasks[k].id == id ==> r[k] == t
    ensures forall k :: 0 <= k < |tasks| && tasks[k].id != id ==> r[k] == tasks[k]
  {
    if tasks == [] then []
    else [if tasks[0].id == id then t else tasks[0]] + ReplaceTask(tasks[1..], id, t)
  }

  /**
   * `after` is `before` with the form's task swapped in for every task with the edited id:
   * same length, same ids in the same order, every other task unchanged, and each swapped-in
   * entry has the first such task's `createdAt`, the form's trimmed title and description, its
   * status, priority and re-encoded due date, the parsed labels, the new `updatedAt` and no
   * `completedAt`.
   */
  ghost predicate EditedSpec(before: seq<Task>, after: seq<Task>, id: string, d: Draft, now: string,
                             toIso: string -> string)
    requires FindTask(before, id).Some?
  {
    && |after| == |before|
    && (forall k :: 0 <= k < |before| ==> after[k].id == before[k].id)
    && (forall k :: 0 <= k < |before| && before[k].id != id ==> after[k] == before[k])
    && (forall k :: 0 <= k < |before| && before[k].id == id ==>
          && after[k].createdAt == FindTask(before, id).value.createdAt
          && after[k].title == Trim(d.title)
          && after[k].description == Trim(d.description)
          && after[k].status == d.status
          && after[k].priority == d.priority
          && after[k].dueDate == toIso(d.dueDate)
          && after[k].labels == ParseLabels(d.labels)
          && after[k].updatedAt == Some(now)
          && after[k].completedAt == None)
  }

  /**
   * The list after an edit-mode submit: every task with the edited id becomes the form's task,
   * which keeps that id and the `createdAt` of the first task with it.
   */
  function EditedTasks(tasks: seq<Task>, d: Draft, id: string, now: string, toIso: string -> string): (r: seq<Task>)
    requires FindTask(tasks, id).Some?
    ensures EditedSpec(tasks, r, id, d, now, toIso)
  {
    var t := DraftToTask(d, id, FindTask(tasks, id).value.createdAt, now, toIso);
    var after := ReplaceTask(tasks, id, t);
    assert forall k :: 0 <= k < |tasks| ==> after[k].id == tasks[k].id by {
      forall k | 0 <= k < |tasks|
        ensures after[k].id == tasks[k].id
      {
        if tasks[k].id == id {
          assert after[k] == t;
        }
      }
    }
    after
  }

  /**
   * `tasks.filter(task => task.id !== id)`: deleting removes exactly the tasks with the id.
   * The result is an order-preserving subsequence with no task of that id, what was dropped is
   * exactly the tasks with it, and deleting an absent id changes nothing.
   */
  function RemoveTask(tasks: seq<Task>, id: string): (r: seq<Task>)
    ensures IsSubsequence(r, tasks)
    ensures forall k :: 0 <= k < |r| ==> r[k].id != id
    ensures multiset(r) + multiset(FilterSeq(tasks, (t: Task) => t.id == id)) == multiset(tasks)
    ensures (forall k :: 0 <= k < |tasks| ==> tasks[k].id != id) ==> r == tasks
  {
    var keep := (t: Task) => t.id != id;
    FilterIsSubsequence(tasks, keep);
    FilterMembers(tasks, keep);
    FilterPartition(tasks, keep, (t: Task) => t.id == id);
    if forall k :: 0 <= k < |tasks| ==> tasks[k].id != id then
      FilterKeepsAll(tasks, keep);
      FilterSeq(tasks, keep)
    else
      FilterSeq(tasks, keep)
  }

  /**
   * The task after "Move to `status`": the status and `updatedAt` are set; `completedAt` is
   * stamped on entering the completed column, dropped on any other status, and kept on a
   * completed-to-completed move.
   */
  function WithStatus(t: Task, status: string, now: string): (r: Task)
    ensures r.(status := t.status, updatedAt := t.updatedAt, completedAt := t.completedAt) == t
    ensures r.status == status && r.updatedAt == Some(now)
    ensures status == Completed && t.status != Completed ==> r.completedAt == Some(now)
    ensures status != Completed ==> r.completedAt == None
    ensures status == Completed && t.status == Completed ==> r.completedAt == t.completedAt
  {
    var updated := t.(status := status, updatedAt := Some(now));
    if status == Completed && t.status != Completed then updated.(completedAt := Some(now))
    else if status != Completed then updated.(completedAt := None)
    else updated
  }

  /** `completedAt` is present exactly when the task is completed. */
  predicate CompletionConsistent(t: Task) {
    t.completedAt.Some? <==> t.status == Completed
  }

  /**
   * A status change leaves the task consistent when it moves to a different status (the only
   * moves the card offers) or when the task was consistent before.
   */
  lemma WithStatusConsistent(t: Task, status: string, now: string)
    requires status != t.status || CompletionConsistent(t)
    ensures CompletionConsistent(WithStatus(t, status, now))
  {
  }

  /** Completing a task and then moving it to another column leaves no completion time. */
  lemma CompleteThenReopen(t: Task, status: string, now1: string, now2: string)
    requires t.status != Completed && status != Completed
    ensures WithStatus(t, Completed, now1).completedAt == Some(now1)
    ensures WithStatus(WithStatus(t, Completed, now1), status, now2).completedAt == None
  {
  }

  /** `tasks.map(task => task.id === id ? <task moved to status> : task)`. */
  function ChangeStatusOf(tasks: seq<Task>, id: string, status: string, now: string): (r: seq<Task>)
    ensures |r| == |tasks|
    ensures forall k :: 0 <= k < |tasks| && tasks[k].id == id ==> r[k] == WithStatus(tasks[k], status, now)
    ensures forall k :: 0 <= k < |tasks| && tasks[k].id != id ==> r[k] == tasks[k]
  {
    if tasks == [] then []
    else
      var head := if tasks[0].id == id then WithStatus(tasks[0], status, now) else tasks[0];
      [head] + ChangeStatusOf(tasks[1..], id, status, now)
  }

  /** A status change keeps every task consistent that was consistent before. */
  lemma ChangeStatusKeepsConsistency(tasks: seq<Task>, id: string, status: string, now: string)
    requires forall k :: 0 <= k < |tasks| ==> CompletionConsistent(tasks[k])
    ensures forall k :: 0 <= k < |tasks| ==> CompletionConsistent(ChangeStatusOf(tasks, id, status, now)[k])
  {
    var r := ChangeStatusOf(tasks, id, status, now);
    forall k | 0 <= k < |tasks|
      ensures CompletionConsistent(r[k])
    {
      if tasks[k].id == id {
        WithStatusConsistent(tasks[k], status, now);
      }
    }
  }

  /** The filter bar: status and priority selections and the search text. */
  datatype Criteria = Criteria(status: string, priority: string, query: string)

  /** The lower-cased query occurs in the lower-cased title, description or some label. */
  predicate SearchHit(t: Task, query: string) {
    var q := Lower(query);
    Contains(Lower(t.title), q) || Contains(Lower(t.description), q)
    || exists k :: 0 <= k < |t.labels| && Contains(Lower(t.labels[k]), q)
  }

  predicate Matches(t: Task, c: Criteria) {
    && (c.status == All || t.status == c.status)
    && (c.priority == All || t.priority == c.priority)
    && (c.query == "" || SearchHit(t, c.query))
  }

  /** The search ignores the case of the query: a query and its lower-cased form find the same tasks. */
  lemma SearchIgnoresQueryCase(t: Task, c: Criteria)
    ensures SearchHit(t, c.query) == SearchHit(t, Lower(c.query))
    ensures Matches(t, c) == Matches(t, c.(query := Lower(c.query)))
  {
    LowerIdempotent(c.query);
  }

  /**
   * `filteredTasks`: a task is shown iff it is on the board, its status and priority pass their
   * selections, and the query is empty or found in its title, description or a label; the
   * shown tasks keep their order, and a task listed several times is shown as often as it is
   * listed.
   */
  function FilterTasks(tasks: seq<Task>, c: Criteria): (shown: seq<Task>)
    ensures IsSubsequence(shown, tasks)
    ensures forall t :: t in shown <==>
      && t in tasks
      && (c.status == All || t.status == c.status)
      && (c.priority == All || t.priority == c.priority)
      && (c.query == "" || SearchHit(t, c.query))
    ensures forall t :: multiset(shown)[t] == if Matches(t, c) then multiset(tasks)[t] else 0
  {
    FilterIsSubsequence(tasks, MatchesFilter(c));
    FilterMembers(tasks, MatchesFilter(c));
    FilterCounts(tasks, MatchesFilter(c));
    FilterSeq(tasks, MatchesFilter(c))
  }

  /** The filter callback of `filteredTasks`. */
  function MatchesFilter(c: Criteria): Task -> bool {
    (t: Task) => Matches(t, c)
  }

  /** The filter callback of one column. */
  function HasStatus(status: string): Task -> bool {
    (t: Task) => t.status == status
  }

  /**
   * The tasks of one kanban column, `filteredTasks.filter(task => task.status === status)`:
   * exactly the tasks with that status, each as often as it is listed, in their order.
   */
  function Bucket(tasks: seq<Task>, status: string): (column: seq<Task>)
    ensures IsSubsequence(column, tasks)
    ensures forall t :: t in column <==> t in tasks && t.status == status
    ensures forall t :: multiset(column)[t] == if t.status == status then multiset(tasks)[t] else 0
  {
    FilterIsSubsequence(tasks, HasStatus(status));
    FilterMembers(tasks, HasStatus(status));
    FilterCounts(tasks, HasStatus(status));
    FilterSeq(tasks, HasStatus(status))
  }

  /** `tasksByStatus`: one column per status value. */
  function TasksByStatus(tasks: seq<Task>, c: Criteria): (columns: map<string, seq<Task>>)
    ensures columns.Keys == set s | s in StatusValues
  {
    map s | s in StatusValues :: Bucket(FilterTasks(tasks, c), s)
  }

  /** The statuses of `tasks`, in order. */
  function StatusesOf(tasks: seq<Task>): (statuses: seq<string>)
    ensures |statuses| == |tasks|
    ensures forall k :: 0 <= k < |tasks| ==> statuses[k] == tasks[k].status
  {
    seq(|tasks|, k requires 0 <= k < |tasks| => tasks[k].status)
  }

  /** A column is as long as the number of tasks with its status. */
  lemma {:induction false} BucketCount(tasks: seq<Task>, status: string)
    ensures |Bucket(tasks, status)| == multiset(StatusesOf(tasks))[status]
  {
    if tasks != [] {
      BucketStep(tasks, status);
      BucketCount(tasks[1..], status);
      assert StatusesOf(tasks) == [tasks[0].status] + StatusesOf(tasks[1..]);
    }
  }

  /**
   * The summary counter of one status: the number of shown tasks with that status, which is
   * the length of that status's column; so at most the number of shown tasks, and zero when
   * another status is selected.
   */
  function StatusCount(tasks: seq<Task>, c: Criteria, status: string): (n: nat)
    ensures n == multiset(StatusesOf(FilterTasks(tasks, c)))[status]
    ensures status in StatusValues ==> n == |TasksByStatus(tasks, c)[status]|
    ensures n <= |FilterTasks(tasks, c)|
    ensures c.status != All && c.status != status ==> n == 0
  {
    var column := Bucket(FilterTasks(tasks, c), status);
    BucketCount(FilterTasks(tasks, c), status);
    assert column != [] ==> column[0] in column;
    |column|
  }

  lemma FilterTasksIdempotent(tasks: seq<Task>, c: Criteria)
    ensures FilterTasks(FilterTasks(tasks, c), c) == FilterTasks(tasks, c)
  {
    FilterIdempotent(tasks, MatchesFilter(c));
  }

  /**
   * The column for `status` is what the filter gives with that status selected, when the
   * status selection is "all" or that status, and empty otherwise.
   */
  lemma BucketOfFiltered(tasks: seq<Task>, c: Criteria, status: string)
    requires status in StatusValues
    ensures Bucket(FilterTasks(tasks, c), status)
      == if c.status == All || c.status == status then FilterTasks(tasks, c.(status := status)) else []
  {
    var p := MatchesFilter(c);
    var q := HasStatus(status);
    if c.status == All || c.status == status {
      var both := MatchesFilter(c.(status := status));
      forall t: Task
        ensures both(t) == (p(t) && q(t))
      {
      }
      FilterFilter(tasks, p, q, both);
    } else {
      FilterMembers(tasks, p);
      FilterKeepsNone(FilterTasks(tasks, c), q);
    }
  }

  /** When every status is one of the four, the columns together hold every task once. */
  lemma {:induction false} BucketsCoverAll(tasks: seq<Task>)
    requires forall k :: 0 <= k < |tasks| ==> tasks[k].status in StatusValues
    ensures |Bucket(tasks, NotStarted)| + |Bucket(tasks, InProgress)|
      + |Bucket(tasks, Completed)| + |Bucket(tasks, OnHold)| == |tasks|
  {
    BucketCount(tasks, NotStarted);
    BucketCount(tasks, InProgress);
    BucketCount(tasks, Completed);
    BucketCount(tasks, OnHold);
    StatusTally(StatusesOf(tasks));
  }

  /** When every status is one of the four, their occurrences add up to the number of statuses. */
  lemma {:induction false} StatusTally(statuses: seq<string>)
    requires forall k :: 0 <= k < |statuses| ==> statuses[k] in StatusValues
    ensures var m := multiset(statuses);
      m[NotStarted] + m[InProgress] + m[Completed] + m[OnHold] == |statuses|
  {
    if statuses != [] {
      StatusTally(statuses[1..]);
      assert statuses == [statuses[0]] + statuses[1..];
      assert multiset(statuses) == multiset{statuses[0]} + multiset(statuses[1..]);
    }
  }

  /** A column counts the first task iff it has the column's status, then the rest. */
  lemma BucketStep(tasks: seq<Task>, status: string)
    requires tasks != []
    ensures |Bucket(tasks, status)| == (if tasks[0].status == status then 1 else 0) + |Bucket(tasks[1..], status)|
  {
    assert Bucket(tasks, status) == FilterSeq(tasks, HasStatus(status));
    assert Bucket(tasks[1..], status) == FilterSeq(tasks[1..], HasStatus(status));
  }

  /** The four summary counters add up to the number of filtered tasks. */
  lemma CountsSumToFiltered(tasks: seq<Task>, c: Criteria)
    requires forall k :: 0 <= k < |tasks| ==> tasks[k].status in StatusValues
    ensures StatusCount(tasks, c, NotStarted) + StatusCount(tasks, c, InProgress)
      + StatusCount(tasks, c, Completed) + StatusCount(tasks, c, OnHold) == |FilterTasks(tasks, c)|
  {
    var shown := FilterTasks(tasks, c);
    FilterMembers(tasks, MatchesFilter(c));
    forall k | 0 <= k < |shown|
      ensures shown[k].status in StatusValues
    {
      assert shown[k] in tasks;
    }
    BucketsCoverAll(shown);
  }

  /** Which field of the form an input event edits (`handleInputChange`). */
  datatype DraftField = TitleField | DescriptionField | StatusField | PriorityField | DueDateField | LabelsField

  /** What a submit of the form did. */
  datatype SubmitOutcome =
    | Added
    | Updated
    | TitleRequired       // the title is blank: an error toast, nothing changes
    | EditTargetMissing   // edit mode, but no task has the id: `find` returns undefined and the handler throws

  /** The component state the handlers replace: the task list and the form. */
  datatype BoardState = BoardState(
    tasks: seq<Task>,
    draft: Draft,
    editingTaskId: Option<string>,
    isAddingTask: bool)

  /** Edit mode: `editingTaskId` is truthy (neither null nor the empty string). */
  predicate InEditMode(s: BoardState) {
    s.editingTaskId.Some? && s.editingTaskId.value != ""
  }

  /** What a submit reports, and the state it leaves. */
  datatype Submission = Submission(outcome: SubmitOutcome, next: BoardState)

  /**
   * `handleAddTask`. A blank trimmed title is refused, and so is an edit of an id no task has;
   * a refused submit changes nothing. `SubmitCreates` and `SubmitEdits` say what the other two
   * cases do.
   */
  function SubmitStep(s: BoardState, now: string, freshId: string, tomorrow: string,
                      toIso: string -> string): (r: Submission)
    ensures r.outcome == TitleRequired <==> Trim(s.draft.title) == ""
    ensures r.outcome == EditTargetMissing <==>
      Trim(s.draft.title) != "" && InEditMode(s) && forall k :: 0 <= k < |s.tasks| ==> s.tasks[k].id != s.editingTaskId.value
    ensures r.outcome == TitleRequired || r.outcome == EditTargetMissing ==> r.next == s
  {
    if Trim(s.draft.title) == "" then Submission(TitleRequired, s)
    else if InEditMode(s) then
      var id := s.editingTaskId.value;
      if FindTask(s.tasks, id).None? then Submission(EditTargetMissing, s)
      else Submission(Updated, BoardState(EditedTasks(s.tasks, s.draft, id, now, toIso), DefaultDraft(tomorrow), None, false))
    else
      var t := DraftToTask(s.draft, freshId, now, now, toIso);
      Submission(Added, BoardState(s.tasks + [t], DefaultDraft(tomorrow), s.editingTaskId, false))
  }

  /**
   * A submit in create mode appends exactly one task, with the fresh id, the trimmed title
   * (non-empty) and description and the parsed labels, and keeps every earlier task; the
   * form is reset and closed.
   */
  lemma SubmitCreates(s: BoardState, now: string, freshId: string, tomorrow: string, toIso: string -> string)
    requires Trim(s.draft.title) != "" && !InEditMode(s)
    ensures var r := SubmitStep(s, now, freshId, tomorrow, toIso);
      var outcome, next := r.outcome, r.next;
      && outcome == Added
      && |next.tasks| == |s.tasks| + 1
      && next.tasks[..|s.tasks|] == s.tasks
      && var t := next.tasks[|s.tasks|];
      && t.id == freshId && t.title == Trim(s.draft.title) && t.title != ""
      && t.description == Trim(s.draft.description) && t.labels == ParseLabels(s.draft.labels)
      && WellFormedLabels(t.labels)
      && t.status == s.draft.status && t.priority == s.draft.priority
      && t.dueDate == toIso(s.draft.dueDate)
      && t.createdAt == now && t.updatedAt == Some(now) && t.completedAt == None
      && next.draft == DefaultDraft(tomorrow) && !next.isAddingTask
      && next.editingTaskId == s.editingTaskId
  {
  }

  /**
   * A submit in edit mode swaps the form's task in for every task with the edited id, keeping
   * that id and the first such task's `createdAt`; the length, the order and every other task
   * stay; the new entry has no `completedAt`; edit mode ends and the form is reset and closed.
   */
  lemma SubmitEdits(s: BoardState, now: string, freshId: string, tomorrow: string, toIso: string -> string)
    requires Trim(s.draft.title) != "" && InEditMode(s)
    requires exists k :: 0 <= k < |s.tasks| && s.tasks[k].id == s.editingTaskId.value
    ensures SubmitStep(s, now, freshId, tomorrow, toIso).outcome == Updated
    ensures EditedSpec(s.tasks, SubmitStep(s, now, freshId, tomorrow, toIso).next.tasks,
                       s.editingTaskId.value, s.draft, now, toIso)
    ensures var next := SubmitStep(s, now, freshId, tomorrow, toIso).next;
      next.editingTaskId == None && next.draft == DefaultDraft(tomorrow) && !next.isAddingTask
  {
    var id := s.editingTaskId.value;
    assert FindTask(s.tasks, id).Some?;
    var r := SubmitStep(s, now, freshId, tomorrow, toIso);
    assert r.next.tasks == EditedTasks(s.tasks, s.draft, id, now, toIso);
  }

  /** The state of the `MainFeature` component that its handlers replace. */
  class Board {
    var tasks: seq<Task>
    var draft: Draft
    var editingTaskId: Option<string>
    var isAddingTask: bool

    constructor (initial: seq<Task>, tomorrow: string)
      ensures State() == BoardState(initial, DefaultDraft(tomorrow), None, false)
    {
      tasks := initial;
      draft := DefaultDraft(tomorrow);
      editingTaskId := None;
      isAddingTask := false;
    }

    function State(): BoardState
      reads this
    {
      BoardState(tasks, draft, editingTaskId, isAddingTask)
    }

    /** The "Add Task" button: opens the form as it is. */
    method OpenForm()
      modifies this
      ensures State() == old(State()).(isAddingTask := true)
    {
      isAddingTask := true;
    }

    /** `handleInputChange`: one form field takes the typed value. */
    method EditField(field: DraftField, value: string)
      modifies this
      ensures draft == match field
        case TitleField => old(draft).(title := value)
        case DescriptionField => old(draft).(description := value)
        case StatusField => old(draft).(status := value)
        case PriorityField => old(draft).(priority := value)
        case DueDateField => old(draft).(dueDate := value)
        case LabelsField => old(draft).(labels := value)
      ensures tasks == old(tasks) && editingTaskId == old(editingTaskId) && isAddingTask == old(isAddingTask)
    {
      match field
      case TitleField => draft := draft.(title := value);
      case DescriptionField => draft := draft.(description := value);
      case StatusField => draft := draft.(status := value);
      case PriorityField => draft := draft.(priority := value);
      case DueDateField => draft := draft.(dueDate := value);
      case LabelsField => draft := draft.(labels := value);
    }

    /** `handleAddTask`; `SubmitStep`, `SubmitCreates` and `SubmitEdits` say what it does. */
    method Submit(now: string, freshId: string, tomorrow: string, toIso: string -> string)
      returns (outcome: SubmitOutcome)
      modifies this
      ensures Submission(outcome, State()) == SubmitStep(old(State()), now, freshId, tomorrow, toIso)
    {
      var r := SubmitStep(State(), now, freshId, tomorrow, toIso);
      tasks, draft, editingTaskId, isAddingTask := r.next.tasks, r.next.draft, r.next.editingTaskId, r.next.isAddingTask;
      outcome := r.outcome;
    }

    /** `handleEditTask`: loads the first task with the id into the form and opens it in edit mode. */
    method BeginEdit(id: string, toDay: string -> string)
      modifies this
      ensures tasks == old(tasks)
      ensures FindTask(tasks, id).None? ==>
        draft == old(draft) && editingTaskId == old(editingTaskId) && isAddingTask == old(isAddingTask)
      ensures FindTask(tasks, id).Some? ==>
        draft == EditDraft(FindTask(tasks, id).value, toDay) && editingTaskId == Some(id) && isAddingTask
    {
      var found := FindTask(tasks, id);
      if found.Some? {
        draft := EditDraft(found.value, toDay);
        editingTaskId := Some(id);
        isAddingTask := true;
      }
    }

    /** `handleDeleteTask`: after the user confirms, every task with the id is removed. */
    method Delete(id: string, confirmed: bool)
      modifies this
      ensures tasks == if confirmed then RemoveTask(old(tasks), id) else old(tasks)
      ensures draft == old(draft) && editingTaskId == old(editingTaskId) && isAddingTask == old(isAddingTask)
    {
      if confirmed {
        tasks := RemoveTask(tasks, id);
      }
    }

    /** `handleChangeStatus`: every task with the id moves to `status`. */
    method ChangeStatus(id: string, status: string, now: string)
      modifies this
      ensures tasks == ChangeStatusOf(old(tasks), id, status, now)
      ensures draft == old(draft) && editingTaskId == old(editingTaskId) && isAddingTask == old(isAddingTask)
    {
      tasks := ChangeStatusOf(tasks, id, status, now);
    }

    /** The X button: closes the form, leaves edit mode and resets the form. */
    method CloseForm(tomorrow: string)
      modifies this
      ensures !isAddingTask && editingTaskId == None && draft == DefaultDraft(tomorrow)
      ensures tasks == old(tasks)
    {
      isAddingTask := false;
      editingTaskId := None;
      draft := DefaultDraft(tomorrow);
    }

    /** The Cancel button: closes the form and leaves edit mode, but keeps what was typed. */
    method CancelForm()
      modifies this
      ensures !isAddingTask && editingTaskId == None
      ensures tasks == old(tasks) && draft == old(draft)
    {
      isAddingTask := false;
      editingTaskId := None;
    }

    /** A click on the backdrop: only closes the form; edit mode and the typed values stay. */
    method DismissForm()
      modifies this
      ensures !isAddingTask
      ensures tasks == old(tasks) && draft == old(draft) && editingTaskId == old(editingTaskId)
    {
      isAddingTask := false;
    }
  }

  /**
   * Closing an edit with the backdrop keeps edit mode; once the edited task is deleted, reopening
   * the form and submitting it reaches the missing-target case.
   */
  method StaleEditScenario(t: Task, tomorrow: string, now: string, freshId: string,
                           toDay: string -> string, toIso: string -> string)
    returns (outcome: SubmitOutcome)
    requires t.id != "" && Trim(t.title) != ""
    ensures outcome == EditTargetMissing
  {
    var board := new Board([t], tomorrow);
    board.BeginEdit(t.id, toDay);
    board.DismissForm();
    board.Delete(t.id, true);
    assert board.tasks == [];
    board.OpenForm();
    outcome := board.Submit(now, freshId, tomorrow, toIso);
  }
}
