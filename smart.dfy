/**
  The natural-language tools of the MCP server (src/mcp_server/tools/smart.py), as decisions:
  each handler returns an outcome instead of the reply text it would format.

  A string argument is `None` when the key is absent (`arguments.get(name, "")` then gives "").
  The agent's calls are the functions of module Agent; the database reads are a parameter `db`
  and the writes `create` / `update`, each `None` when the call raises. Every exception inside a
  handler is caught and reported as the handler's `...Failed` outcome.
*/
module Smart {
  import opened Wrappers
  import opened Text
  import opened Json
  import opened Parsers
  import opened Decoder
  import opened Store
  import opened Agent

  /** `arguments.get(name, "")` for a string argument. */
  function ArgText(arg: Option<string>): string {
    arg.GetOr("")
  }

  // ---------------------------------------------------------------------------------------------
  // handle_smart_add

  datatype AddOutcome =
    | AddParameterRequired
    | Created(payload: Task, task: StoredTask)  // "✅ Task created successfully!"
    | CreatedFromList(items: seq<Value>, task: StoredTask)  // the same reply, from a list payload
    | AddFailed                                 // "❌ Error creating task: ..."

  /** The task dicts of a list that `parse_task_nl` returns; every item is a dict. */
  function TaskDicts(tasks: seq<Task>): (r: seq<Value>)
    ensures forall i :: 0 <= i < |r| ==> r[i].JObj?
  {
    seq(|tasks|, i requires 0 <= i < |tasks| => TaskDict(tasks[i]))
  }

  /** A value Python accepts as a list index: an int, or a bool as 0 or 1. */
  function AsIndex(key: Value): Option<int> {
    match key
    case JInt(i) => Some(i)
    case JBool(b) => Some(if b then 1 else 0)
    case _ => None
  }

  /**
    Python's `items[key] = v` on a list: an index in range, negative ones counting from the end,
    replaces that one item; any other key raises, given as `None`.
  */
  function SetListItem(items: seq<Value>, key: Value, v: Value): (r: Option<seq<Value>>)
    ensures r.Some? <==> AsIndex(key).Some? && -|items| <= AsIndex(key).value < |items|
    ensures r.Some? ==>
      && |r.value| == |items|
      && forall j :: 0 <= j < |items| ==> r.value[j] == if j == AsIndex(key).value % |items| then v else items[j]
  {
    var index := AsIndex(key);
    if index.Some? && -|items| <= index.value < |items| then Some(items[index.value % |items| := v]) else None
  }

  /**
    Lines 30-68 as written, given what `parse_task_nl` returns: a list of task dicts, or the
    validation error of the fallback. Line 41 asks whether the list holds the string "status";
    line 42 then assigns to the list under that string key; `createList` stands for
    `db.create_task` called with the list.
  */
  function HandleSmartAddAsWritten(
    naturalLanguage: Option<string>, parsed: Result<seq<Task>, ValidationError>,
    createList: seq<Value> -> Option<StoredTask>): (r: AddOutcome)
    ensures ArgText(naturalLanguage) == "" <==> r == AddParameterRequired
    ensures r.CreatedFromList? ==> parsed.Ok? && createList(r.items) == Some(r.task)
  {
    if ArgText(naturalLanguage) == "" then AddParameterRequired
    else
      match parsed
      case Err(_) => AddFailed
      case Ok(tasks) =>
        var taskData := TaskDicts(tasks);
        var withStatus := if JStr("status") !in taskData then SetListItem(taskData, JStr("status"), JStr("pending")) else Some(taskData);
        match withStatus
        case None => AddFailed
        case Some(items) =>
          match createList(items)
          case None => AddFailed
          case Some(t) => if Displayable(t) then CreatedFromList(items, t) else AddFailed
  }

  /** A list of task dicts never holds the string "status", and a string key into a list raises. */
  lemma StatusNeverInTaskList(tasks: seq<Task>)
    ensures JStr("status") !in TaskDicts(tasks)
    ensures SetListItem(TaskDicts(tasks), JStr("status"), JStr("pending")).None?
  {
  }

  /** As written, no command ever creates a task, whatever the agent parses and the database does. */
  lemma SmartAddAsWrittenNeverCreates(
    text: string, chat: string -> Option<string>, parse: string -> Option<Value>,
    regexSub: (NoisePattern, string) -> string,
    regexSearch: (DatePattern, string) -> Option<string>, parseDatetime: string -> Option<string>)
    requires text != ""
    ensures forall createList: seq<Value> -> Option<StoredTask> ::
      HandleSmartAddAsWritten(Some(text), ParsedTasks(text, chat(text), parse, regexSub, regexSearch, parseDatetime), createList) == AddFailed
  {
    var parsed := ParsedTasks(text, chat(text), parse, regexSub, regexSearch, parseDatetime);
    if parsed.Ok? {
      StatusNeverInTaskList(parsed.value);
    }
  }

  /** Line 41-42: `status` is set to "pending" only when the parsed task has none. */
  function WithDefaultStatus(t: Task): (r: Task)
    ensures r.status == if t.status.Some? then t.status else Some("pending")
    ensures r.(status := t.status) == t
  {
    if t.status.None? then t.(status := Some("pending")) else t
  }

  /** The outcome of `handle_smart_add` with the agent's result read as one task record. */
  function SmartAddOutcome(naturalLanguage: Option<string>, parsed: Result<Task, ValidationError>, create: Task -> Option<StoredTask>): (r: AddOutcome)
    ensures ArgText(naturalLanguage) == "" <==> r == AddParameterRequired
    ensures !r.CreatedFromList?
    ensures r.Created? ==>
      && parsed.Ok? && r.payload == WithDefaultStatus(parsed.value)
      && create(r.payload) == Some(r.task) && Displayable(r.task)
    ensures ArgText(naturalLanguage) != "" && parsed.Ok? && create(WithDefaultStatus(parsed.value)).Some? ==>
      (r.Created? <==> Displayable(create(WithDefaultStatus(parsed.value)).value))
  {
    if ArgText(naturalLanguage) == "" then AddParameterRequired
    else if parsed.Err? then AddFailed
    else
      var created := create(WithDefaultStatus(parsed.value));
      if created.Some? && Displayable(created.value) then Created(WithDefaultStatus(parsed.value), created.value) else AddFailed
  }

  /**
    `handle_smart_add` with the agent's result read as one task record, as the handler's own
    code and its tests expect: no call without a command; otherwise the record, with a default
    status, is what the database is asked to create.
  */
  method HandleSmartAdd(naturalLanguage: Option<string>, parsed: Result<Task, ValidationError>, create: Task -> Option<StoredTask>)
    returns (r: AddOutcome)
    ensures r == SmartAddOutcome(naturalLanguage, parsed, create)
    ensures ArgText(naturalLanguage) == "" <==> r == AddParameterRequired
    ensures ArgText(naturalLanguage) != "" && parsed.Err? ==> r == AddFailed
    ensures r.Created? ==> parsed.Ok? && r.payload == WithDefaultStatus(parsed.value) && create(r.payload) == Some(r.task)
    ensures ArgText(naturalLanguage) != "" && parsed.Ok? ==>
      (r.Created? <==> create(WithDefaultStatus(parsed.value)).Some? && Displayable(create(WithDefaultStatus(parsed.value)).value))
  {
    var text := ArgText(naturalLanguage);
    if text == "" {
      return AddParameterRequired;
    }
    if parsed.Err? {
      return AddFailed;
    }
    var taskData := parsed.value;
    if taskData.status.None? {
      taskData := taskData.(status := Some("pending"));
    }
    var created := create(taskData);
    if created.Some? && Displayable(created.value) {
      r := Created(taskData, created.value);
    } else {
      r := AddFailed;
    }
  }

  /** The two readings side by side: the handler as written fails where the record reading creates the task. */
  lemma SmartAddDiscrepancy(
    t: Task, stored: StoredTask, create: Task -> Option<StoredTask>, createList: seq<Value> -> Option<StoredTask>)
    requires create(WithDefaultStatus(t)) == Some(stored) && Displayable(stored)
    requires createList([TaskDict(WithDefaultStatus(t))]) == Some(stored)
    ensures HandleSmartAddAsWritten(Some("buy milk"), Ok([t]), createList) == AddFailed
    ensures SmartAddOutcome(Some("buy milk"), Ok(t), create) == Created(WithDefaultStatus(t), stored)
  {
    StatusNeverInTaskList([t]);
  }

  // ---------------------------------------------------------------------------------------------
  // handle_search_tasks

  datatype SearchOutcome =
    | SearchParameterRequired
    | NoTasksMatching(query: string, via: Query)           // "🔍 No tasks found matching: ..."
    | Found(query: string, via: Query, tasks: seq<StoredTask>)
    | SearchFailed                                         // "❌ Error searching tasks: ..."

  /** Lines 92-101: the read the filters select; `None` when `filters` is not a dict, where the lookup raises. */
  function FilterQuery(filters: Value): (r: Option<Query>)
    ensures r.None? <==> !filters.JObj?
    ensures r.Some? ==> (r.value.TextSearch? <==> Has(filters.fields, "search_text"))
    ensures r.Some? && r.value.TextSearch? ==> r.value.text == Get(filters.fields, "search_text").value
    ensures r.Some? && r.value.Listing? ==>
      && r.value.status == GetOr(filters.fields, "status", JNull)
      && r.value.priority == GetOr(filters.fields, "priority", JNull)
      && r.value.limit == JInt(100)
  {
    match filters
    case JObj(d) =>
      if Has(d, "search_text") then Some(TextSearch(Get(d, "search_text").value))
      else Some(Listing(GetOr(d, "status", JNull), GetOr(d, "priority", JNull), JInt(100)))
    case _ => None
  }

  /** `handle_search_tasks`, lines 81-133. */
  function HandleSearchTasks(
    query: Option<string>, chat: string -> Option<string>, parse: string -> Option<Value>,
    db: Query -> Option<seq<StoredTask>>): (r: SearchOutcome)
    ensures ArgText(query) == "" <==> r == SearchParameterRequired
    ensures r.Found? ==>
      && r.tasks != [] && db(r.via) == Some(r.tasks)
      && forall i :: 0 <= i < |r.tasks| ==> Displayable(r.tasks[i])
    ensures r.NoTasksMatching? ==> db(r.via) == Some([])
    ensures r.NoTasksMatching? || r.Found? ==>
      r.query == ArgText(query) && FilterQuery(SearchTasksNl(ArgText(query), chat, parse)) == Some(r.via)
  {
    var q := ArgText(query);
    if q == "" then SearchParameterRequired
    else
      match FilterQuery(SearchTasksNl(q, chat, parse))
      case None => SearchFailed
      case Some(read) =>
        match db(read)
        case None => SearchFailed
        case Some(tasks) =>
          if tasks == [] then NoTasksMatching(q, read)
          else if forall i :: 0 <= i < |tasks| ==> Displayable(tasks[i]) then Found(q, read, tasks)
          else SearchFailed
  }

  /**
    A search without a query is refused; otherwise the filters route to a text search on their
    "search_text" whenever it is present, and to a listing by status and priority limited to 100
    otherwise; an empty result is reported as no match.
  */
  lemma SearchRouting(
    query: Option<string>, chat: string -> Option<string>, parse: string -> Option<Value>,
    db: Query -> Option<seq<StoredTask>>)
    ensures ArgText(query) == "" <==> HandleSearchTasks(query, chat, parse, db) == SearchParameterRequired
    ensures var r := HandleSearchTasks(query, chat, parse, db);
      r.NoTasksMatching? || r.Found? ==>
        var filters := SearchTasksNl(ArgText(query), chat, parse);
        && filters.JObj?
        && r.query == ArgText(query)
        && (Has(filters.fields, "search_text") ==> r.via == TextSearch(Get(filters.fields, "search_text").value))
        && (!Has(filters.fields, "search_text") ==>
              r.via == Listing(GetOr(filters.fields, "status", JNull), GetOr(filters.fields, "priority", JNull), JInt(100)))
    ensures var r := HandleSearchTasks(query, chat, parse, db);
      && (r.NoTasksMatching? ==> db(r.via) == Some([]))
      && (r.Found? ==> db(r.via) == Some(r.tasks) && r.tasks != [])
    ensures var q := ArgText(query); var read := FilterQuery(SearchTasksNl(q, chat, parse));
      q != "" && read.Some? ==>
        && (db(read.value) == Some([]) ==> HandleSearchTasks(query, chat, parse, db) == NoTasksMatching(q, read.value))
        && (db(read.value).Some? && db(read.value).value != []
            && (forall i :: 0 <= i < |db(read.value).value| ==> Displayable(db(read.value).value[i])) ==>
              HandleSearchTasks(query, chat, parse, db) == Found(q, read.value, db(read.value).value))
        && (db(read.value).None? ==> HandleSearchTasks(query, chat, parse, db) == SearchFailed)
    ensures var q := ArgText(query);
      q != "" && FilterQuery(SearchTasksNl(q, chat, parse)).None? ==> HandleSearchTasks(query, chat, parse, db) == SearchFailed
  {
  }

  /** When the model cannot be reached or its reply does not parse, the search is a text search for the whole query. */
  lemma FailedFilterIsTextSearch(
    query: string, chat: string -> Option<string>, parse: string -> Option<Value>,
    db: Query -> Option<seq<StoredTask>>)
    requires query != ""
    requires chat(query).None? || parse(BraceSliceOrWhole(chat(query).value)).None?
    ensures var r := HandleSearchTasks(Some(query), chat, parse, db);
      r.NoTasksMatching? || r.Found? ==> r.via == TextSearch(JStr(query))
    ensures db(TextSearch(JStr(query))) == Some([]) ==>
      HandleSearchTasks(Some(query), chat, parse, db) == NoTasksMatching(query, TextSearch(JStr(query)))
  {
    if chat(query).Some? {
      UnparsableSearchIsTextSearch(chat(query).value, query, parse);
    }
  }

  // ---------------------------------------------------------------------------------------------
  // handle_smart_update

  datatype UpdateOutcome =
    | UpdateParameterRequired
    | StoreEmpty                                                  // "❌ No tasks found in the database"
    | NotUnderstood(command: string)                              // "❌ Could not understand the update command: ..."
    | Ambiguous(taskMatch: string, count: nat, shown: seq<StoredTask>)  // "🤔 Found N tasks matching ..."
    | NoTaskMatching(taskMatch: string)                           // "❌ No task found matching ..."
    | Updated(id: string, updates: Value, task: StoredTask)       // "✅ Task updated successfully!"
    | UpdateFailed                                                // "❌ Error updating task: ..."

  /** The read of line 154: every task, up to 1000. */
  const AllTasks: Query := Listing(JNull, JNull, JInt(1000))

  /** How many matching tasks the clarification lists: at most 5. */
  const ShownMatches: nat := 5

  /** Lines 163-193 and 196-212, once the update information is extracted. */
  function DecideUpdate(
    command: string, all: seq<StoredTask>, info: Value, update: (string, Value) -> Option<StoredTask>): (r: UpdateOutcome)
    ensures !info.JObj? ==> r == UpdateFailed
    ensures info.JObj? ==>
      var taskMatch := GetOr(info.fields, "task_match", JStr(""));
      var updates := GetOr(info.fields, "updates", JObj([]));
      Truthy(taskMatch) && Truthy(updates) && taskMatch.JStr? ==>
        var matches := MatchingTasks(taskMatch.s, all);
        && (matches == [] ==> r == NoTaskMatching(taskMatch.s))
        && (|matches| == 1 && matches[0].id == "" ==> r == NoTaskMatching(taskMatch.s))
        && (|matches| > 1 && (forall i :: 0 <= i < Min(ShownMatches, |matches|) ==> Displayable(matches[i])) ==>
              r == Ambiguous(taskMatch.s, |matches|, matches[..Min(ShownMatches, |matches|)]))
        && (|matches| > 1 && (exists i :: 0 <= i < Min(ShownMatches, |matches|) && !Displayable(matches[i])) ==>
              r == UpdateFailed)
  {
    if !info.JObj? then UpdateFailed
    else
      var taskMatch := GetOr(info.fields, "task_match", JStr(""));
      var updates := GetOr(info.fields, "updates", JObj([]));
      if !Truthy(taskMatch) || !Truthy(updates) then NotUnderstood(command)
      else if !taskMatch.JStr? then UpdateFailed
      else
        var m := taskMatch.s;
        var id := MatchingTaskId(m, all);
        if id.None? || id.value == "" then
          var matches := MatchingTasks(m, all);
          if |matches| > 1 then
            var shown := matches[..Min(ShownMatches, |matches|)];
            if forall i :: 0 <= i < |shown| ==> Displayable(shown[i]) then Ambiguous(m, |matches|, shown)
            else UpdateFailed
          else NoTaskMatching(m)
        else
          match update(id.value, updates)
          case None => UpdateFailed
          case Some(t) => if Displayable(t) then Updated(id.value, updates, t) else UpdateFailed
  }

  /** `handle_smart_update`, lines 146-216. */
  function HandleSmartUpdate(
    naturalLanguage: Option<string>, db: Query -> Option<seq<StoredTask>>,
    chat: string -> Option<string>, parse: string -> Option<Value>,
    update: (string, Value) -> Option<StoredTask>): (r: UpdateOutcome)
    ensures ArgText(naturalLanguage) == "" <==> r == UpdateParameterRequired
    ensures r == StoreEmpty <==> ArgText(naturalLanguage) != "" && db(AllTasks) == Some([])
    ensures r.NotUnderstood? || r.Ambiguous? || r.NoTaskMatching? || r.Updated? ==>
      var command := ArgText(naturalLanguage);
      && command != "" && db(AllTasks).Some? && db(AllTasks).value != []
      && ExtractTaskUpdate(command, db(AllTasks).value, chat, parse).Ok?
      && r == DecideUpdate(command, db(AllTasks).value, ExtractTaskUpdate(command, db(AllTasks).value, chat, parse).value, update)
  {
    var command := ArgText(naturalLanguage);
    if command == "" then UpdateParameterRequired
    else
      match db(AllTasks)
      case None => UpdateFailed
      case Some(all) =>
        if all == [] then StoreEmpty
        else
          match ExtractTaskUpdate(command, all, chat, parse)
          case Err(_) => UpdateFailed
          case Ok(info) => DecideUpdate(command, all, info, update)
  }

  /**
    No command is refused before anything else; an empty store is reported before the model is
    asked, whatever it would answer.
  */
  lemma UpdateGuards(
    naturalLanguage: Option<string>, db: Query -> Option<seq<StoredTask>>,
    chat: string -> Option<string>, chat': string -> Option<string>, parse: string -> Option<Value>,
    update: (string, Value) -> Option<StoredTask>)
    ensures ArgText(naturalLanguage) == "" <==> HandleSmartUpdate(naturalLanguage, db, chat, parse, update) == UpdateParameterRequired
    ensures ArgText(naturalLanguage) != "" && db(AllTasks) == Some([]) ==>
      HandleSmartUpdate(naturalLanguage, db, chat, parse, update) == StoreEmpty
    ensures db(AllTasks).Some? && db(AllTasks).value == [] ==>
      HandleSmartUpdate(naturalLanguage, db, chat, parse, update) == HandleSmartUpdate(naturalLanguage, db, chat', parse, update)
  {
  }

  /**
    An update is issued only for a unique title match with a non-empty id, with exactly the
    extracted updates; a clarification reports the full count of matches and lists at most five;
    "no task found" means no match, or a single one whose id is empty.
  */
  lemma DecideUpdateMeaning(command: string, all: seq<StoredTask>, info: Value, update: (string, Value) -> Option<StoredTask>)
    ensures var r := DecideUpdate(command, all, info, update);
      r.Updated? ==>
        && info.JObj?
        && GetOr(info.fields, "task_match", JStr("")).JStr?
        && r.updates == GetOr(info.fields, "updates", JObj([])) && Truthy(r.updates)
        && (exists i :: OnlyMatch(GetOr(info.fields, "task_match", JStr("")).s, all, i) && all[i].id == r.id)
        && r.id != ""
        && update(r.id, r.updates) == Some(r.task)
    ensures var r := DecideUpdate(command, all, info, update);
      r.Ambiguous? ==>
        && r.count == |MatchingTasks(r.taskMatch, all)| && r.count > 1
        && r.shown == MatchingTasks(r.taskMatch, all)[..|r.shown|]
        && |r.shown| == Min(ShownMatches, r.count)
    ensures var r := DecideUpdate(command, all, info, update);
      r.NoTaskMatching? ==> |MatchingTasks(r.taskMatch, all)| <= 1
    ensures var r := DecideUpdate(command, all, info, update);
      r.NotUnderstood? <==>
        info.JObj? && (!Truthy(GetOr(info.fields, "task_match", JStr(""))) || !Truthy(GetOr(info.fields, "updates", JObj([]))))
  {
    if info.JObj? {
      var taskMatch := GetOr(info.fields, "task_match", JStr(""));
      if taskMatch.JStr? {
        MatchingTaskIdMeaning(taskMatch.s, all);
        SingleMatch(taskMatch.s, all);
      }
    }
  }

  /** A unique title match with a non-empty id sends exactly the extracted updates for that id. */
  lemma UniqueMatchUpdates(
    command: string, all: seq<StoredTask>, info: Value, update: (string, Value) -> Option<StoredTask>, i: int)
    requires info.JObj?
    requires GetOr(info.fields, "task_match", JStr("")).JStr?
    requires Truthy(GetOr(info.fields, "task_match", JStr(""))) && Truthy(GetOr(info.fields, "updates", JObj([])))
    requires OnlyMatch(GetOr(info.fields, "task_match", JStr("")).s, all, i) && all[i].id != ""
    requires update(all[i].id, GetOr(info.fields, "updates", JObj([]))).Some?
    requires Displayable(update(all[i].id, GetOr(info.fields, "updates", JObj([]))).value)
    ensures DecideUpdate(command, all, info, update) ==
      Updated(all[i].id, GetOr(info.fields, "updates", JObj([])), update(all[i].id, GetOr(info.fields, "updates", JObj([]))).value)
  {
    MatchingTaskIdMeaning(GetOr(info.fields, "task_match", JStr("")).s, all);
  }
}
