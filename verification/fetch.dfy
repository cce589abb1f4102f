/** Collecting the sub-task ids of the fetched planning slots and reading
    their details (`fetch_subtask_details`). */
module Fetch {
  import opened Wrappers
  import opened Values

  /** The sub-task id of a slot: the first element of a non-empty list value. */
  predicate HasSubtaskId(task: Record) {
    var v := Get(task, "x_studio_sub_task_1");
    v.List? && |v.items| > 0
  }

  /** The ids `main` gathers, one per slot with a sub-task list, in slot order. */
  function SubtaskIds(tasks: seq<Record>): (ids: seq<Value>)
    ensures |ids| <= |tasks|
    ensures forall v :: v in ids <==>
      exists i :: 0 <= i < |tasks| && HasSubtaskId(tasks[i]) && Get(tasks[i], "x_studio_sub_task_1").items[0] == v
  {
    if |tasks| == 0 then []
    else
      var n := |tasks| - 1;
      var rest := SubtaskIds(tasks[..n]);
      assert forall i :: 0 <= i < n ==> tasks[..n][i] == tasks[i];
      if HasSubtaskId(tasks[n]) then rest + [Get(tasks[n], "x_studio_sub_task_1").items[0]] else rest
  }

  /** `list(set(ids))`: the same ids, each once. Python leaves the order to
      the set; this keeps first occurrences. */
  method UniqueIds(ids: seq<Value>) returns (u: seq<Value>)
    ensures forall v :: v in u <==> v in ids
    ensures forall i, j :: 0 <= i < j < |u| ==> u[i] != u[j]
  {
    u := [];
    var k := 0;
    while k < |ids|
      invariant 0 <= k <= |ids|
      invariant forall v :: v in u <==> v in ids[..k]
      invariant forall i, j :: 0 <= i < j < |u| ==> u[i] != u[j]
    {
      if ids[k] !in u {
        u := u + [ids[k]];
      }
      assert ids[..k + 1] == ids[..k] + [ids[k]];
      k := k + 1;
    }
    assert ids[..k] == ids;
  }

  /** `{r['id']: r for r in records}`, a later record winning over an
      earlier one with the same id; None when some record has no `id`,
      which the source's handler turns into an empty map. */
  function IndexById(records: seq<Record>): (r: Option<map<Value, Record>>)
    ensures r.Some? <==> forall i :: 0 <= i < |records| ==> "id" in records[i]
    ensures r.Some? ==> forall k :: k in r.value <==> exists i :: 0 <= i < |records| && records[i]["id"] == k
    ensures r.Some? ==> forall k :: k in r.value ==> r.value[k] in records && r.value[k]["id"] == k
  {
    if |records| == 0 then Some(map[])
    else
      var n := |records| - 1;
      var rest := IndexById(records[..n]);
      assert forall i :: 0 <= i < n ==> records[..n][i] == records[i];
      assert forall x :: x in records[..n] ==> x in records;
      if rest.None? || "id" !in records[n] then None
      else Some(rest.value[records[n]["id"] := records[n]])
  }

  /** The two fields read for each sub-task. */
  const DetailFields: seq<string> := ["x_studio_service_category_1", "x_studio_total_no_of_design_units_sc1"]

  /** `fetch_subtask_details`. `read` is the remote read of `project.task`
      records by id (None when the call raises). Returns the map and the ids
      the read was asked for, None when no read was made. */
  method FetchSubtaskDetails(ids: seq<Value>, read: seq<Value> -> Option<seq<Record>>)
    returns (m: map<Value, Record>, asked: Option<seq<Value>>)
    ensures ids == [] ==> asked.None? && m == map[]
    ensures ids != [] ==> asked.Some? && (forall v :: v in asked.value <==> v in ids)
    ensures asked.Some? ==> forall i, j :: 0 <= i < j < |asked.value| ==> asked.value[i] != asked.value[j]
    ensures asked.Some? && read(asked.value).None? ==> m == map[]
    ensures asked.Some? && read(asked.value).Some? ==>
      m == IndexById(read(asked.value).value).GetOr(map[])
    ensures forall k :: k in m ==> "id" in m[k] && m[k]["id"] == k
  {
    if ids == [] {
      return map[], None;
    }
    var u := UniqueIds(ids);
    asked := Some(u);
    match read(u)
    case None =>
      m := map[];
    case Some(records) =>
      m := IndexById(records).GetOr(map[]);
  }
}
