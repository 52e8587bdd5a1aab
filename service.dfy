/**
 * The request and record builders of the task service: the query `getTasks` sends, the
 * records `createTask`, `updateTask` and `updateTaskStatus` send, and the checks each write
 * applies to the response it gets back.
 *
 * The SDK client, the network round trip and the clock are not modelled: the current time is
 * a parameter and a response is a value handed to the check.
 */
module TaskService {
  import opened Common
  import opened Strings

  /** Every column `getTasks` asks for. */
  const Fields: seq<string> := [
    "Name", "Tags", "Owner", "CreatedOn", "CreatedBy", "ModifiedOn", "ModifiedBy",
    "title", "description", "status", "priority", "dueDate", "completedAt", "updatedAt"
  ]

  /** The columns a user may write. */
  const UpdateableFields: seq<string> := [
    "Name", "Tags", "Owner", "title", "description", "status", "priority", "dueDate",
    "completedAt", "updatedAt"
  ]

  const PageLimit: nat := 100
  const CompletedStatus: string := "completed"

  /**
   * One entry of the filters object: the key is absent, present with `undefined` or `null`,
   * or present with a string. `Object.keys` counts the second kind, truthiness does not.
   */
  datatype FilterValue = Missing | Nullish | Text(s: string)

  /** The `filters` argument of `getTasks`; `otherKeys` counts keys the builder ignores. */
  datatype TaskFilters = TaskFilters(
    status: FilterValue,
    priority: FilterValue,
    searchQuery: FilterValue,
    otherKeys: nat)

  function Present(v: FilterValue): nat {
    if v.Missing? then 0 else 1
  }

  /** `Object.keys(filters).length`. */
  function KeyCount(f: TaskFilters): nat {
    Present(f.status) + Present(f.priority) + Present(f.searchQuery) + f.otherKeys
  }

  /** JavaScript truthiness of a filter entry: a non-empty string. */
  predicate Truthy(v: FilterValue) {
    v.Text? && v.s != ""
  }

  /** A status or priority entry narrows the query: it is truthy and not `"all"`. */
  predicate Selects(v: FilterValue) {
    Truthy(v) && v.s != "all"
  }

  datatype Condition = Condition(fieldName: string, operator: string, values: seq<string>)
  datatype SubGroup = SubGroup(conditions: seq<Condition>, operator: string)
  datatype WhereGroup = WhereGroup(operator: string, subGroups: seq<SubGroup>)
  datatype PagingInfo = PagingInfo(limit: nat, offset: nat)

  /** The `params` of `fetchRecords`; `None` is a key the object does not have. */
  datatype QueryParams = QueryParams(
    fields: seq<string>,
    pagingInfo: PagingInfo,
    where: Option<seq<Condition>>,
    whereGroups: Option<seq<WhereGroup>>)

  function ExactMatch(field: string, value: string): Condition {
    Condition(field, "ExactMatch", [value])
  }

  /** The fields the search text is looked for in, one sub-group each. */
  const SearchedFields: seq<string> := ["title", "description", "Tags"]

  /**
   * The where-group of a search: one `"OR"` group of three sub-groups, the k-th holding the
   * single condition that field k of `SearchedFields` contains the query.
   */
  function SearchGroup(query: string): (g: WhereGroup)
    ensures g.operator == "OR" && |g.subGroups| == |SearchedFields|
    ensures forall k :: 0 <= k < |g.subGroups| ==>
      g.subGroups[k] == SubGroup([Condition(SearchedFields[k], "Contains", [query])], "")
  {
    WhereGroup("OR", seq(3, k requires 0 <= k < 3 =>
      SubGroup([Condition(SearchedFields[k], "Contains", [query])], "")))
  }

  predicate HasClauseOn(where: seq<Condition>, field: string) {
    exists k :: 0 <= k < |where| && where[k].fieldName == field
  }

  /**
   * The `where` list for the filters: an ExactMatch clause on `status` exactly when the status
   * entry selects, one on `priority` exactly when that entry selects, each carrying the
   * selected value, nothing else, and the status clause first.
   */
  ghost predicate WhereFor(where: seq<Condition>, f: TaskFilters) {
    && (HasClauseOn(where, "status") <==> Selects(f.status))
    && (HasClauseOn(where, "priority") <==> Selects(f.priority))
    && (forall k :: 0 <= k < |where| ==>
          || (Selects(f.status) && where[k] == ExactMatch("status", f.status.s))
          || (Selects(f.priority) && where[k] == ExactMatch("priority", f.priority.s)))
    && |where| == (if Selects(f.status) then 1 else 0) + (if Selects(f.priority) then 1 else 0)
    && (|where| == 2 ==> where[0].fieldName == "status" && where[1].fieldName == "priority")
  }

  /**
   * `getTasks`' query: every field and the first page of 100 always; `where` exactly when the
   * filters object has a key, holding the selected status and priority clauses; and the
   * search group exactly when the filters object has a key and a truthy search text.
   */
  method BuildQuery(filters: TaskFilters) returns (params: QueryParams)
    ensures params.fields == Fields && params.pagingInfo == PagingInfo(100, 0)
    ensures params.where.Some? <==> KeyCount(filters) > 0
    ensures params.where.Some? ==> WhereFor(params.where.value, filters)
    ensures params.whereGroups.Some? <==> KeyCount(filters) > 0 && Truthy(filters.searchQuery)
    ensures params.whereGroups.Some? ==> params.whereGroups.value == [SearchGroup(filters.searchQuery.s)]
  {
    params := QueryParams(Fields, PagingInfo(PageLimit, 0), None, None);
    if KeyCount(filters) > 0 {
      var where: seq<Condition> := [];
      if Selects(filters.status) {
        where := where + [ExactMatch("status", filters.status.s)];
      }
      if Selects(filters.priority) {
        where := where + [ExactMatch("priority", filters.priority.s)];
      }
      assert Selects(filters.status) ==> where[0].fieldName == "status";
      assert Selects(filters.priority) ==> where[|where| - 1].fieldName == "priority";
      params := params.(where := Some(where));
      if Truthy(filters.searchQuery) {
        params := params.(whereGroups := Some([SearchGroup(filters.searchQuery.s)]));
      }
    }
  }

  /**
   * A value as it sits in a record: `undefined`, a string, a number or an array of strings
   * (the `labels` of the task data may be any of these).
   */
  datatype Value = Undefined | Str(s: string) | Num(n: int) | StrList(items: seq<string>)

  /** An outbound or returned record: the keys the object literal has, and their values. */
  type Record = map<string, Value>

  /** The `taskData` argument of `createTask` and `updateTask`. */
  datatype TaskData = TaskData(
    title: Value,
    description: Value,
    status: Value,
    priority: Value,
    dueDate: Value,
    labels: Value)

  /** The `Tags` value: an array of labels joined with commas, anything else passed through. */
  function TagsValue(labels: Value): (v: Value)
    ensures labels.StrList? ==> v.Str? && v.s == Join(labels.items, ",")
    ensures !labels.StrList? ==> v == labels
  {
    if labels.StrList? then Str(Join(labels.items, ",")) else labels
  }

  /** Adds `completedAt`, stamped now, exactly when the status is `"completed"`. */
  function StampCompleted(record: Record, status: Value, now: string): Record {
    if status == Str(CompletedStatus) then record["completedAt" := Str(now)] else record
  }

  /** The keys every create or update record has. */
  const DataKeys: set<string> :=
    {"Name", "Tags", "title", "description", "status", "priority", "dueDate", "updatedAt"}

  /** The record literal `createTask` and `updateTask` share, before `completedAt`. */
  function DataFields(data: TaskData, now: string): Record {
    map[
      "Name" := data.title,
      "Tags" := TagsValue(data.labels),
      "title" := data.title,
      "description" := data.description,
      "status" := data.status,
      "priority" := data.priority,
      "dueDate" := data.dueDate,
      "updatedAt" := Str(now)]
  }

  /**
   * The record `createTask` sends: `Name` and `title` are both the title, `Tags` the joined
   * labels, the other task fields copied, `updatedAt` now, and `completedAt` (now) present
   * exactly when the status is `"completed"`.
   */
  function CreateRecord(data: TaskData, now: string): (r: Record)
    ensures r.Keys == DataKeys + (if data.status == Str(CompletedStatus) then {"completedAt"} else {})
    ensures r["Name"] == data.title && r["title"] == data.title
    ensures r["Tags"] == TagsValue(data.labels)
    ensures r["description"] == data.description && r["status"] == data.status
    ensures r["priority"] == data.priority && r["dueDate"] == data.dueDate
    ensures r["updatedAt"] == Str(now)
    ensures "completedAt" in r ==> r["completedAt"] == Str(now)
  {
    StampCompleted(DataFields(data, now), data.status, now)
  }

  /** The record `updateTask` sends: the create record for the data, plus `Id`. */
  function UpdateRecord(taskId: Value, data: TaskData, now: string): (r: Record)
    ensures r.Keys == {"Id"} + CreateRecord(data, now).Keys
    ensures r["Id"] == taskId
    ensures forall key :: key in r && key != "Id" ==> r[key] == CreateRecord(data, now)[key]
  {
    StampCompleted(DataFields(data, now)["Id" := taskId], data.status, now)
  }

  /**
   * The record `updateTaskStatus` sends: `Id`, the new status and `updatedAt` now, plus
   * `completedAt` (now) exactly when the new status is `"completed"`; no other field.
   */
  function StatusRecord(taskId: Value, newStatus: Value, now: string): (r: Record)
    ensures r.Keys == {"Id", "status", "updatedAt"}
      + (if newStatus == Str(CompletedStatus) then {"completedAt"} else {})
    ensures r["Id"] == taskId && r["status"] == newStatus && r["updatedAt"] == Str(now)
    ensures "completedAt" in r ==> r["completedAt"] == Str(now)
  {
    StampCompleted(map["Id" := taskId, "status" := newStatus, "updatedAt" := Str(now)], newStatus, now)
  }

  /** Apart from `Id`, every record the service writes holds only columns a user may write. */
  lemma RecordsWriteOnlyUpdateable(taskId: Value, data: TaskData, status: Value, now: string)
    ensures forall key :: key in CreateRecord(data, now) ==> key in UpdateableFields
    ensures forall key :: key in UpdateRecord(taskId, data, now) && key != "Id" ==> key in UpdateableFields
    ensures forall key :: key in StatusRecord(taskId, status, now) && key != "Id" ==> key in UpdateableFields
  {
    forall key | key in DataKeys + {"completedAt"}
      ensures key in UpdateableFields
    {
      assert key in {"Name", "Tags", "title", "description", "status", "priority", "dueDate", "updatedAt", "completedAt"};
      if key == "Name" { assert UpdateableFields[0] == key; }
      else if key == "Tags" { assert UpdateableFields[1] == key; }
      else if key == "title" { assert UpdateableFields[3] == key; }
      else if key == "description" { assert UpdateableFields[4] == key; }
      else if key == "status" { assert UpdateableFields[5] == key; }
      else if key == "priority" { assert UpdateableFields[6] == key; }
      else if key == "dueDate" { assert UpdateableFields[7] == key; }
      else if key == "completedAt" { assert UpdateableFields[8] == key; }
      else { assert UpdateableFields[9] == key; }
    }
  }

  /**
   * No record the service writes clears `completedAt`: the key is present exactly when the
   * status written is `"completed"`, and then it holds a timestamp.
   */
  lemma CompletedAtOnlyWhenCompleted(taskId: Value, data: TaskData, status: Value, now: string)
    ensures ("completedAt" in CreateRecord(data, now) <==> data.status == Str(CompletedStatus))
    ensures ("completedAt" in UpdateRecord(taskId, data, now) <==> data.status == Str(CompletedStatus))
    ensures ("completedAt" in StatusRecord(taskId, status, now) <==> status == Str(CompletedStatus))
    ensures "completedAt" in UpdateRecord(taskId, data, now) ==> UpdateRecord(taskId, data, now)["completedAt"].Str?
  {
  }

  /**
   * A status update writes the same `Id`, `status`, `updatedAt` and `completedAt` as a full
   * update with that status would.
   */
  lemma StatusRecordAgreesWithUpdate(taskId: Value, data: TaskData, now: string)
    ensures var r := StatusRecord(taskId, data.status, now);
      forall key :: key in r ==> key in UpdateRecord(taskId, data, now) && r[key] == UpdateRecord(taskId, data, now)[key]
  {
  }

  /**
   * Labels without commas are recovered from the stored `Tags` by splitting at the commas;
   * no labels are stored as `""`, which splits to one empty piece.
   */
  lemma TagsRoundTrip(ls: seq<string>)
    requires forall k :: 0 <= k < |ls| ==> ',' !in ls[k]
    ensures TagsValue(StrList(ls)).Str?
    ensures Split(TagsValue(StrList(ls)).s, ',') == if ls == [] then [""] else ls
  {
    var text := Join(ls, ",");
    if ls != [] {
      assert [','] + "" == ",";
      assert "" + Join(ls, [','] + "") == text;
      SplitJoin("", ls, ',', "");
      var r := Split(text, ',');
      forall k | 0 <= k < |ls|
        ensures r[k] == ls[k]
      {
        assert "" + ls[k] == ls[k];
      }
    }
  }

  /**
   * One entry of `response.results`: the SDK reports success per record as well, and `data`
   * may be missing.
   */
  datatype ResultItem = ResultItem(success: bool, data: Option<Record>)

  /** The response of `createRecord` or `updateRecord`; `results` may be missing. */
  datatype WriteResponse = WriteResponse(success: bool, results: Option<seq<ResultItem>>)

  /** The response of `deleteRecord`. */
  datatype DeleteResponse = DeleteResponse(success: bool)

  /** The three writes that send records: `createTask`, `updateTask` and `updateTaskStatus`. */
  datatype WriteKind = CreateWrite | UpdateWrite | StatusWrite

  /** The message each write throws when its response is not a success. */
  function FailureMessage(kind: WriteKind): string {
    match kind
    case CreateWrite => "Failed to create task"
    case UpdateWrite => "Failed to update task"
    case StatusWrite => "Failed to update task status"
  }

  const DeleteFailed: string := "Failed to delete task"

  /**
   * The check after a create, update or status update: the write succeeded exactly when there
   * is a response, it reports success and it has at least one result. Then the first result's
   * `data` is returned as it is, whether that result reports success and whether it has data
   * at all; otherwise the call fails with the write's own message.
   */
  function CheckWrite(response: Option<WriteResponse>, kind: WriteKind): (r: Result<Option<Record>>)
    ensures r.Ok? <==>
      response.Some? && response.value.success && response.value.results.Some? && |response.value.results.value| > 0
    ensures r.Ok? ==> r.value == response.value.results.value[0].data
    ensures r.Err? ==> r.error == FailureMessage(kind)
  {
    match response
    case Some(WriteResponse(true, Some(results))) =>
      if |results| > 0 then Ok(results[0].data) else Err(FailureMessage(kind))
    case _ => Err(FailureMessage(kind))
  }

  /** The check after a delete: only the success flag matters. */
  function CheckDelete(response: Option<DeleteResponse>): (r: Result<bool>)
    ensures r.Ok? <==> response.Some? && response.value.success
    ensures r.Ok? ==> r.value
    ensures r.Err? ==> r.error == DeleteFailed
  {
    if response.Some? && response.value.success then Ok(true) else Err(DeleteFailed)
  }
}
