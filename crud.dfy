/**
  The deterministic tools of the MCP server (src/mcp_server/tools/crud.py): the payloads that
  `handle_add_task` and `handle_update_task` send to the database, and the outcome of
  `handle_list_tasks`. Tool arguments are a JSON object; the database calls are parameters,
  `None` when the call raises. These handlers re-raise every exception; here a raise is `Err`.
*/
module Crud {
  import opened Wrappers
  import opened Json
  import opened Store

  datatype CrudFailure =
    | MissingArgument(name: string)  // `arguments[name]` raised KeyError
    | Raised                         // the database call, or indexing its reply, raised

  // ---------------------------------------------------------------------------------------------
  // handle_add_task

  /** The keys a create payload can hold. */
  const CreateKeys: seq<string> := ["title", "description", "priority", "category", "tags", "status", "due_date"]

  /** The entries of lines 30-41, in order: `None` for an entry that is left out. */
  function CreateEntries(arguments: Dict): seq<(string, Option<Value>)> {
    var dueDate := Get(arguments, "due_date");
    [ ("title", Get(arguments, "title")),
      ("description", Some(GetOr(arguments, "description", JNull))),
      ("priority", Some(GetOr(arguments, "priority", JStr("medium")))),
      ("category", Some(GetOr(arguments, "category", JNull))),
      ("tags", Some(GetOr(arguments, "tags", JArr([])))),
      ("status", Some(JStr("pending"))),
      ("due_date", if dueDate.Some? && Truthy(dueDate.value) then dueDate else None) ]
  }

  /** The dict sent to `db.create_task`. */
  function CreatePayload(arguments: Dict): Dict {
    DictOf(CreateEntries(arguments))
  }

  lemma CreateEntriesDistinct(arguments: Dict)
    ensures DistinctKeys(CreateEntries(arguments))
    ensures forall i :: 0 <= i < 7 ==> CreateEntries(arguments)[i].0 == CreateKeys[i]
  {
  }

  /**
    The create payload always has status "pending", the given priority or "medium", the given
    tags or [], and the given description and category or None; it has a due date only when one
    is given and truthy, and no other key.
  */
  lemma CreatePayloadMeaning(arguments: Dict)
    requires Has(arguments, "title")
    ensures var p := CreatePayload(arguments);
      && Get(p, "title") == Get(arguments, "title")
      && Get(p, "status") == Some(JStr("pending"))
      && Get(p, "priority") == Some(GetOr(arguments, "priority", JStr("medium")))
      && Get(p, "tags") == Some(GetOr(arguments, "tags", JArr([])))
      && Get(p, "description") == Some(GetOr(arguments, "description", JNull))
      && Get(p, "category") == Some(GetOr(arguments, "category", JNull))
    ensures var p := CreatePayload(arguments);
      && (Has(p, "due_date") <==> Has(arguments, "due_date") && Truthy(Get(arguments, "due_date").value))
      && (Has(p, "due_date") ==> Get(p, "due_date") == Get(arguments, "due_date"))
    ensures forall k :: Has(CreatePayload(arguments), k) ==> k in CreateKeys
  {
    var es := CreateEntries(arguments);
    CreatePayloadLookup(arguments);
    assert CreateKeys[0] == "title" && CreateKeys[1] == "description" && CreateKeys[2] == "priority";
    assert CreateKeys[3] == "category" && CreateKeys[4] == "tags" && CreateKeys[5] == "status";
    assert CreateKeys[6] == "due_date";
  }

  /** Each key of the payload holds its entry; no other key is present. */
  lemma CreatePayloadLookup(arguments: Dict)
    ensures forall i :: 0 <= i < 7 ==> Get(CreatePayload(arguments), CreateKeys[i]) == CreateEntries(arguments)[i].1
    ensures forall k :: Has(CreatePayload(arguments), k) ==> k in CreateKeys
  {
    var es := CreateEntries(arguments);
    CreateEntriesDistinct(arguments);
    forall i | 0 <= i < 7
      ensures Get(CreatePayload(arguments), CreateKeys[i]) == es[i].1
    {
      GetDictOf(es, CreateKeys[i]);
    }
    forall k | Has(CreatePayload(arguments), k)
      ensures k in CreateKeys
    {
      GetDictOf(es, k);
    }
  }

  lemma CreatePayloadShape(arguments: Dict, base: Dict)
    requires Has(arguments, "title")
    requires base == [
      ("title", Get(arguments, "title").value),
      ("description", GetOr(arguments, "description", JNull)),
      ("priority", GetOr(arguments, "priority", JStr("medium"))),
      ("category", GetOr(arguments, "category", JNull)),
      ("tags", GetOr(arguments, "tags", JArr([]))),
      ("status", JStr("pending"))]
    ensures var dueDate := Get(arguments, "due_date");
      CreatePayload(arguments) == base + (if dueDate.Some? && Truthy(dueDate.value) then [("due_date", dueDate.value)] else [])
  {
    var es := CreateEntries(arguments);
    var head := es[..6];
    assert forall i :: 0 <= i < 6 ==> head[i].1.Some?;
    DictOfAllPresent(head);
    assert DictOf(head) == base;
    assert es[..6] == head;
  }

  lemma {:induction false} DictOfAllPresent(es: seq<(string, Option<Value>)>)
    requires forall i :: 0 <= i < |es| ==> es[i].1.Some?
    ensures DictOf(es) == seq(|es|, i requires 0 <= i < |es| => (es[i].0, es[i].1.value))
  {
    if es != [] {
      var init := es[..|es| - 1];
      DictOfAllPresent(init);
    }
  }

  datatype AddReply = TaskCreated(payload: Dict, task: StoredTask)

  /** `handle_add_task`, lines 18-58. */
  method HandleAddTask(arguments: Dict, create: Dict -> Option<StoredTask>) returns (r: Result<AddReply, CrudFailure>)
    ensures !Has(arguments, "title") <==> r == Err(MissingArgument("title"))
    ensures r.Ok? ==> r.value.payload == CreatePayload(arguments) && create(r.value.payload) == Some(r.value.task)
    ensures Has(arguments, "title") ==>
      (r.Ok? <==> create(CreatePayload(arguments)).Some? && Displayable(create(CreatePayload(arguments)).value))
  {
    var title := Get(arguments, "title");
    if title.None? {
      return Err(MissingArgument("title"));
    }
    var taskData: Dict := [
      ("title", title.value),
      ("description", GetOr(arguments, "description", JNull)),
      ("priority", GetOr(arguments, "priority", JStr("medium"))),
      ("category", GetOr(arguments, "category", JNull)),
      ("tags", GetOr(arguments, "tags", JArr([]))),
      ("status", JStr("pending"))];
    CreatePayloadShape(arguments, taskData);
    var dueDate := Get(arguments, "due_date");
    if dueDate.Some? && Truthy(dueDate.value) {
      taskData := taskData + [("due_date", dueDate.value)];
    } else {
      assert taskData + [] == taskData;
    }
    assert taskData == CreatePayload(arguments);
    var created := create(taskData);
    if created.None? || !Displayable(created.value) {
      return Err(Raised);
    }
    r := Ok(TaskCreated(taskData, created.value));
  }

  // ---------------------------------------------------------------------------------------------
  // handle_update_task

  /** The fields an update may carry, in the order line 120 copies them. */
  const UpdateFields: seq<string> := ["title", "description", "status", "priority", "category", "due_date"]

  /** `arguments[field]` when the field is present and not None. */
  function PresentValue(arguments: Dict, field: string): Option<Value> {
    var v := Get(arguments, field);
    if v.Some? && v.value != JNull then v else None
  }

  function UpdateEntries(arguments: Dict): seq<(string, Option<Value>)> {
    seq(|UpdateFields|, i requires 0 <= i < |UpdateFields| => (UpdateFields[i], PresentValue(arguments, UpdateFields[i])))
  }

  /** The dict sent to `db.update_task`. */
  function UpdatePayload(arguments: Dict): Dict {
    DictOf(UpdateEntries(arguments))
  }

  lemma {:induction false} DictOfEmpty(es: seq<(string, Option<Value>)>)
    ensures DictOf(es) == [] <==> forall i :: 0 <= i < |es| ==> es[i].1.None?
  {
    if es != [] {
      DictOfEmpty(es[..|es| - 1]);
      assert forall i :: 0 <= i < |es| - 1 ==> es[..|es| - 1][i] == es[i];
    }
  }

  /**
    The update payload holds exactly the six updatable fields that are present with a value
    other than None, each with its argument's value; `task_id` and every other key stay out.
  */
  lemma UpdatePayloadMeaning(arguments: Dict)
    ensures forall k :: k in UpdateFields ==> Get(UpdatePayload(arguments), k) == PresentValue(arguments, k)
    ensures forall k :: k !in UpdateFields ==> !Has(UpdatePayload(arguments), k)
    ensures !Has(UpdatePayload(arguments), "task_id")
    ensures UpdatePayload(arguments) == [] <==> forall k :: k in UpdateFields ==> PresentValue(arguments, k).None?
  {
    var es := UpdateEntries(arguments);
    assert DistinctKeys(es);
    forall k
      ensures k in UpdateFields ==> Get(UpdatePayload(arguments), k) == PresentValue(arguments, k)
      ensures k !in UpdateFields ==> !Has(UpdatePayload(arguments), k)
    {
      GetDictOf(es, k);
      if k in UpdateFields {
        var i :| 0 <= i < |UpdateFields| && UpdateFields[i] == k;
        assert es[i].0 == k;
      } else {
        assert forall i :: 0 <= i < |es| ==> es[i].0 == UpdateFields[i];
      }
    }
    assert "task_id" !in UpdateFields;
    DictOfEmpty(es);
  }

  /** The field loop of lines 119-122. */
  method CollectUpdates(arguments: Dict) returns (updates: Dict)
    ensures updates == UpdatePayload(arguments)
  {
    var es := UpdateEntries(arguments);
    updates := [];
    for i := 0 to |UpdateFields|
      invariant updates == DictOf(es[..i])
    {
      assert es[..i + 1][..i] == es[..i];
      var field := UpdateFields[i];
      var value := Get(arguments, field);
      if value.Some? && value.value != JNull {
        updates := updates + [(field, value.value)];
      }
    }
    assert es[..|UpdateFields|] == es;
  }

  datatype UpdateReply =
    | NoUpdatesProvided                                      // "No updates provided."
    | TaskUpdated(taskId: Value, payload: Dict, task: StoredTask)

  /** `handle_update_task`, lines 105-142. */
  method HandleUpdateTask(arguments: Dict, update: (Value, Dict) -> Option<StoredTask>) returns (r: Result<UpdateReply, CrudFailure>)
    ensures !Has(arguments, "task_id") <==> r == Err(MissingArgument("task_id"))
    ensures Has(arguments, "task_id") ==> (r == Ok(NoUpdatesProvided) <==> UpdatePayload(arguments) == [])
    ensures r.Ok? && r.value.TaskUpdated? ==>
      && r.value.taskId == Get(arguments, "task_id").value
      && r.value.payload == UpdatePayload(arguments) && r.value.payload != []
      && update(r.value.taskId, r.value.payload) == Some(r.value.task)
    ensures Has(arguments, "task_id") && UpdatePayload(arguments) != [] ==>
      var updated := update(Get(arguments, "task_id").value, UpdatePayload(arguments));
      (r.Ok? && r.value.TaskUpdated? <==> updated.Some? && Displayable(updated.value))
  {
    var taskId := Get(arguments, "task_id");
    if taskId.None? {
      return Err(MissingArgument("task_id"));
    }
    var updates := CollectUpdates(arguments);
    if updates == [] {
      return Ok(NoUpdatesProvided);
    }
    var updated := update(taskId.value, updates);
    if updated.None? || !Displayable(updated.value) {
      return Err(Raised);
    }
    r := Ok(TaskUpdated(taskId.value, updates, updated.value));
  }

  // ---------------------------------------------------------------------------------------------
  // handle_list_tasks

  /** The read of lines 72-77: the given filters, None when absent, and a limit of 100 by default. */
  function ListRead(arguments: Dict): (q: Query)
    ensures q.Listing?
    ensures !Has(arguments, "limit") ==> q.limit == JInt(100)
    ensures Has(arguments, "limit") ==> q.limit == Get(arguments, "limit").value
    ensures Has(arguments, "status") ==> q.status == Get(arguments, "status").value
    ensures !Has(arguments, "status") ==> q.status == JNull
    ensures Has(arguments, "priority") ==> q.priority == Get(arguments, "priority").value
    ensures !Has(arguments, "priority") ==> q.priority == JNull
  {
    Listing(GetOr(arguments, "status", JNull), GetOr(arguments, "priority", JNull), GetOr(arguments, "limit", JInt(100)))
  }

  datatype ListReply =
    | NoTasksFound                                   // "No tasks found."
    | Listed(count: nat, tasks: seq<StoredTask>)     // "📋 Found N task(s):" and one entry per task

  /** `handle_list_tasks`, lines 61-102; the loop over the rows is where a row without a displayed column raises. */
  method HandleListTasks(arguments: Dict, db: Query -> Option<seq<StoredTask>>) returns (r: Result<ListReply, CrudFailure>)
    ensures db(ListRead(arguments)) == Some([]) <==> r == Ok(NoTasksFound)
    ensures r.Ok? && r.value.Listed? ==>
      db(ListRead(arguments)) == Some(r.value.tasks) && r.value.count == |r.value.tasks| > 0
    ensures r.Err? <==>
      || db(ListRead(arguments)).None?
      || (exists i :: 0 <= i < |db(ListRead(arguments)).value| && !Displayable(db(ListRead(arguments)).value[i]))
  {
    var tasks := db(ListRead(arguments));
    if tasks.None? {
      return Err(Raised);
    }
    if tasks.value == [] {
      return Ok(NoTasksFound);
    }
    var count := |tasks.value|;
    for i := 0 to |tasks.value|
      invariant forall k :: 0 <= k < i ==> Displayable(tasks.value[k])
    {
      if !Displayable(tasks.value[i]) {
        return Err(Raised);
      }
    }
    r := Ok(Listed(count, tasks.value));
  }
}
