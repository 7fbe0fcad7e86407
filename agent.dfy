/**
  The task agent (ai/agent.py): batch parsing with the rule-based fallback, search-filter and
  update-command extraction, the task list shown to the model, and the title match that picks
  the task an update command is about.

  Each call of the language model is a parameter `chat` from the user message to the reply,
  `None` when the call raises; the system prompts are fixed per call site and are not modelled.
*/
module Agent {
  import opened Wrappers
  import opened Text
  import opened Json
  import opened Parsers
  import opened Decoder
  import opened Store

  // ---------------------------------------------------------------------------------------------
  // parse_task_nl

  /** The items of a decoded batch that validate, in batch order. */
  function ValidTasks(items: seq<Value>): seq<Task> {
    if items == [] then []
    else
      var last := Validated(items[|items| - 1]);
      ValidTasks(items[..|items| - 1]) + (if last.Ok? then [last.value] else [])
  }

  /** The positions of the items that validate, in increasing order. */
  function ValidPositions(items: seq<Value>): seq<nat> {
    if items == [] then []
    else
      var n := |items| - 1;
      ValidPositions(items[..n]) + (if Validated(items[n]).Ok? then [n] else [])
  }

  /** Every position in `ps` is that of an item that validates. */
  predicate AtValidItems(items: seq<Value>, ps: seq<nat>) {
    forall k :: 0 <= k < |ps| ==> ps[k] < |items| && Validated(items[ps[k]]).Ok?
  }

  predicate Increasing(ps: seq<nat>) {
    forall k, l :: 0 <= k < l < |ps| ==> ps[k] < ps[l]
  }

  lemma {:induction false} ValidPositionsValid(items: seq<Value>)
    ensures AtValidItems(items, ValidPositions(items))
  {
    if items != [] {
      var n := |items| - 1;
      var init := items[..n];
      ValidPositionsValid(init);
      var ps0 := ValidPositions(init);
      var ps := ValidPositions(items);
      assert ps == ps0 + (if Validated(items[n]).Ok? then [n] else []);
      forall k | 0 <= k < |ps| ensures ps[k] < |items| && Validated(items[ps[k]]).Ok? {
        if k < |ps0| {
          assert ps[k] == ps0[k] && init[ps0[k]] == items[ps0[k]];
        }
      }
    }
  }

  lemma {:induction false} ValidPositionsIncreasing(items: seq<Value>)
    ensures forall k :: 0 <= k < |ValidPositions(items)| ==> ValidPositions(items)[k] < |items|
    ensures Increasing(ValidPositions(items))
  {
    if items != [] {
      var n := |items| - 1;
      ValidPositionsIncreasing(items[..n]);
      var ps0 := ValidPositions(items[..n]);
      var ps := ValidPositions(items);
      assert ps == ps0 + (if Validated(items[n]).Ok? then [n] else []);
      forall k, l | 0 <= k < l < |ps| ensures ps[k] < ps[l] {
        assert ps[k] == ps0[k];
        if l < |ps0| {
          assert ps[l] == ps0[l];
        }
      }
    }
  }

  lemma {:induction false} ValidPositionsComplete(items: seq<Value>)
    ensures forall i :: 0 <= i < |items| && Validated(items[i]).Ok? ==> i in ValidPositions(items)
  {
    if items != [] {
      var n := |items| - 1;
      var init := items[..n];
      ValidPositionsComplete(init);
      assert forall i :: 0 <= i < n ==> init[i] == items[i];
    }
  }

  lemma ValidPositionsInOrder(items: seq<Value>)
    ensures var ps := ValidPositions(items);
      && (forall k :: 0 <= k < |ps| ==> ps[k] < |items| && Validated(items[ps[k]]).Ok?)
      && (forall k, l :: 0 <= k < l < |ps| ==> ps[k] < ps[l])
      && (forall i :: 0 <= i < |items| && Validated(items[i]).Ok? ==> i in ps)
  {
    ValidPositionsValid(items);
    ValidPositionsIncreasing(items);
    ValidPositionsComplete(items);
  }

  lemma {:induction false} ValidTasksAtPositions(items: seq<Value>)
    ensures var ps := ValidPositions(items); var ts := ValidTasks(items);
      |ps| == |ts| && forall k :: 0 <= k < |ps| ==> ps[k] < |items| && Validated(items[ps[k]]) == Ok(ts[k])
  {
    if items != [] {
      var n := |items| - 1;
      var init := items[..n];
      ValidTasksAtPositions(init);
      assert forall i :: 0 <= i < n ==> init[i] == items[i];
    }
  }

  /**
    The kept tasks are exactly the validated items at increasing positions, and every item that
    validates is kept: invalid items are dropped one at a time and nothing else changes.
  */
  lemma ValidTasksMeaning(items: seq<Value>)
    ensures var ps := ValidPositions(items); var ts := ValidTasks(items);
      && |ps| == |ts|
      && (forall k :: 0 <= k < |ps| ==> ps[k] < |items| && Validated(items[ps[k]]) == Ok(ts[k]))
      && (forall k, l :: 0 <= k < l < |ps| ==> ps[k] < ps[l])
      && (forall i :: 0 <= i < |items| && Validated(items[i]).Ok? ==> i in ps)
    ensures ValidTasks(items) == [] <==> forall i :: 0 <= i < |items| ==> Validated(items[i]).Err?
  {
    ValidPositionsInOrder(items);
    ValidTasksAtPositions(items);
  }

  /** The single-record fallback of lines 57-61: the rule-based metadata, validated. */
  function FallbackTasks(
    text: string, regexSub: (NoisePattern, string) -> string,
    regexSearch: (DatePattern, string) -> Option<string>, parseDatetime: string -> Option<string>)
    : Result<seq<Task>, ValidationError>
  {
    match Validated(MetadataDict(FallbackMetadata(text, regexSub, regexSearch, parseDatetime)))
    case Ok(t) => Ok([t])
    case Err(e) => Err(e)
  }

  /** What `parse_task_nl` returns (`Ok`) or raises (`Err`), given the model's reply. */
  function ParsedTasks(
    text: string, reply: Option<string>, parse: string -> Option<Value>,
    regexSub: (NoisePattern, string) -> string,
    regexSearch: (DatePattern, string) -> Option<string>, parseDatetime: string -> Option<string>)
    : Result<seq<Task>, ValidationError>
  {
    if reply.Some? && DecodeTaskList(reply.value, parse).Ok? && ValidTasks(DecodeTaskList(reply.value, parse).value) != []
    then Ok(ValidTasks(DecodeTaskList(reply.value, parse).value))
    else FallbackTasks(text, regexSub, regexSearch, parseDatetime)
  }

  /** The validation loop of lines 42-50. */
  method ValidateBatch(items: seq<Value>) returns (validatedList: seq<Task>)
    ensures validatedList == ValidTasks(items)
  {
    validatedList := [];
    for i := 0 to |items|
      invariant validatedList == ValidTasks(items[..i])
    {
      assert items[..i + 1][..i] == items[..i];
      var validated := ValidateTaskData(items[i]);
      if validated.Ok? {
        validatedList := validatedList + [validated.value];
      }
    }
    assert items[..|items|] == items;
  }

  /** `TaskAgent.parse_task_nl`, lines 27-61. */
  method ParseTaskNl(
    text: string, chat: string -> Option<string>, parse: string -> Option<Value>,
    regexSub: (NoisePattern, string) -> string,
    regexSearch: (DatePattern, string) -> Option<string>, parseDatetime: string -> Option<string>)
    returns (r: Result<seq<Task>, ValidationError>)
    ensures r == ParsedTasks(text, chat(text), parse, regexSub, regexSearch, parseDatetime)
  {
    var reply := chat(text);
    if reply.Some? {
      var decoded := DecodeTaskList(reply.value, parse);
      if decoded.Ok? {
        var validatedList := ValidateBatch(decoded.value);
        if validatedList != [] {
          return Ok(validatedList);
        }
      }
    }
    var metadata := ParseTaskMetadata(text, regexSub, regexSearch, parseDatetime);
    var validated := ValidateTaskData(MetadataDict(metadata));
    r := match validated
      case Ok(t) => Ok([t])
      case Err(e) => Err(e);
  }

  lemma TitleOfMetadataDict(m: Metadata)
    ensures MetadataDict(m).JObj? && Get(MetadataDict(m).fields, "title") == Some(JStr(m.title))
  {
    var first: Dict := [("title", JStr(m.title))];
    var rest: Dict := [("priority", JStr(m.priority)),
      ("category", if m.category.Some? then JStr(m.category.value) else JNull),
      ("tags", JArr(StrValues(m.tags)))]
      + (if m.dueDate.Some? then [("due_date", JStr(m.dueDate.value))] else []);
    assert MetadataDict(m) == JObj(first + rest);
    assert forall i :: 0 <= i < |rest| ==> rest[i].0 != "title";
    GetAppend(first, rest, "title");
  }

  /** The metadata dict of the fallback fails validation exactly when its cleaned title is empty. */
  lemma MetadataDictValidation(m: Metadata)
    ensures Validated(MetadataDict(m)).Err? <==> m.title == []
    ensures Validated(MetadataDict(m)).Err? ==> Validated(MetadataDict(m)) == Err(TitleRequired)
    ensures Validated(MetadataDict(m)).Ok? ==> Validated(MetadataDict(m)).value.title == Strip(m.title)
  {
    TitleOfMetadataDict(m);
  }

  /** No item is kept exactly when every item fails validation. */
  lemma ValidTasksEmpty(items: seq<Value>)
    ensures ValidTasks(items) == [] <==> forall i :: 0 <= i < |items| ==> Validated(items[i]).Err?
  {
    ValidTasksMeaning(items);
  }

  /** The fallback yields one record, and fails only (with `TitleRequired`) for an empty cleaned title. */
  lemma FallbackTasksMeaning(
    text: string, regexSub: (NoisePattern, string) -> string,
    regexSearch: (DatePattern, string) -> Option<string>, parseDatetime: string -> Option<string>)
    ensures var r := FallbackTasks(text, regexSub, regexSearch, parseDatetime);
      && (r.Ok? ==> |r.value| == 1)
      && (r.Err? <==> FallbackMetadata(text, regexSub, regexSearch, parseDatetime).title == [])
      && (r.Err? ==> r.error == TitleRequired)
  {
    MetadataDictValidation(FallbackMetadata(text, regexSub, regexSearch, parseDatetime));
  }

  /**
    `parse_task_nl` returns the validated items of the decoded reply, in order, when at least one
    validates; when the call or the decoding fails, or no item validates, it returns the fallback,
    which fails only for an empty cleaned title. It never returns an empty list.
  */
  lemma ParsedTasksMeaning(
    text: string, reply: Option<string>, parse: string -> Option<Value>,
    regexSub: (NoisePattern, string) -> string,
    regexSearch: (DatePattern, string) -> Option<string>, parseDatetime: string -> Option<string>)
    ensures var r := ParsedTasks(text, reply, parse, regexSub, regexSearch, parseDatetime);
      r.Ok? ==> r.value != []
    ensures reply.Some? && DecodeTaskList(reply.value, parse).Ok? ==>
      var items := DecodeTaskList(reply.value, parse).value;
      (exists i :: 0 <= i < |items| && Validated(items[i]).Ok?) ==>
        ParsedTasks(text, reply, parse, regexSub, regexSearch, parseDatetime) == Ok(ValidTasks(items))
    ensures reply.Some? && DecodeTaskList(reply.value, parse).Ok? ==>
      var items := DecodeTaskList(reply.value, parse).value;
      (forall i :: 0 <= i < |items| ==> Validated(items[i]).Err?) ==>
        ParsedTasks(text, reply, parse, regexSub, regexSearch, parseDatetime) == FallbackTasks(text, regexSub, regexSearch, parseDatetime)
    ensures reply.None? || DecodeTaskList(reply.value, parse).Err? ==>
      ParsedTasks(text, reply, parse, regexSub, regexSearch, parseDatetime) == FallbackTasks(text, regexSub, regexSearch, parseDatetime)
    ensures var r := ParsedTasks(text, reply, parse, regexSub, regexSearch, parseDatetime);
      r.Err? <==> r == FallbackTasks(text, regexSub, regexSearch, parseDatetime) &&
                  FallbackMetadata(text, regexSub, regexSearch, parseDatetime).title == []
  {
    FallbackTasksMeaning(text, regexSub, regexSearch, parseDatetime);
    if reply.Some? && DecodeTaskList(reply.value, parse).Ok? {
      ParsedTasksOfBatch(text, reply.value, parse, regexSub, regexSearch, parseDatetime);
    }
  }

  /** With a decoded batch, the kept items win unless none validates. */
  lemma ParsedTasksOfBatch(
    text: string, reply: string, parse: string -> Option<Value>,
    regexSub: (NoisePattern, string) -> string,
    regexSearch: (DatePattern, string) -> Option<string>, parseDatetime: string -> Option<string>)
    requires DecodeTaskList(reply, parse).Ok?
    ensures var items := DecodeTaskList(reply, parse).value;
      && ((exists i :: 0 <= i < |items| && Validated(items[i]).Ok?) ==>
          ParsedTasks(text, Some(reply), parse, regexSub, regexSearch, parseDatetime) == Ok(ValidTasks(items)))
      && ((forall i :: 0 <= i < |items| ==> Validated(items[i]).Err?) ==>
          ParsedTasks(text, Some(reply), parse, regexSub, regexSearch, parseDatetime) == FallbackTasks(text, regexSub, regexSearch, parseDatetime))
      && (ParsedTasks(text, Some(reply), parse, regexSub, regexSearch, parseDatetime).Ok? ==>
          ParsedTasks(text, Some(reply), parse, regexSub, regexSearch, parseDatetime).value != [])
  {
    ValidTasksEmpty(DecodeTaskList(reply, parse).value);
    FallbackTasksMeaning(text, regexSub, regexSearch, parseDatetime);
  }

  /** A reply that decodes to an empty array falls back to the rule-based record. */
  lemma EmptyBatchFallsBack(
    text: string, reply: string, parse: string -> Option<Value>,
    regexSub: (NoisePattern, string) -> string,
    regexSearch: (DatePattern, string) -> Option<string>, parseDatetime: string -> Option<string>)
    requires parse(Unfence(Strip(reply))) == Some(JArr([]))
    ensures ParsedTasks(text, Some(reply), parse, regexSub, regexSearch, parseDatetime)
         == FallbackTasks(text, regexSub, regexSearch, parseDatetime)
  {
    EmptyArrayDecodesEmpty(reply, parse);
  }

  // ---------------------------------------------------------------------------------------------
  // search_tasks_nl

  /** `TaskAgent.search_tasks_nl`, lines 63-81: any failure of the call becomes a text search. */
  function SearchTasksNl(query: string, chat: string -> Option<string>, parse: string -> Option<Value>): (r: Value)
    ensures chat(query).None? ==> r == TextSearchFilter(query)
    ensures chat(query).Some? ==> r == SearchQueryToFilters(chat(query).value, query, parse)
  {
    match chat(query)
    case None => TextSearchFilter(query)
    case Some(reply) => SearchQueryToFilters(reply, query, parse)
  }

  // ---------------------------------------------------------------------------------------------
  // _format_tasks_for_prompt

  function Min(a: int, b: int): int {
    if a < b then a else b
  }

  /** The line one task gets in the prompt. */
  function TaskLine(t: StoredTask): string {
    "- " + ShowOption(t.title) + " (ID: " + t.id + ", Status: " + ShowOption(t.status) + ")"
  }

  /** The lines of at most the first ten tasks, in order. */
  function PromptLines(tasks: seq<StoredTask>): (ls: seq<string>)
    ensures |ls| == Min(10, |tasks|)
    ensures forall i :: 0 <= i < |ls| ==> ls[i] == TaskLine(tasks[i])
  {
    seq(Min(10, |tasks|), i requires 0 <= i < Min(10, |tasks|) => TaskLine(tasks[i]))
  }

  /** What `_format_tasks_for_prompt` returns. */
  function PromptText(tasks: seq<StoredTask>): string {
    if tasks == [] then "No existing tasks" else Join("\n", PromptLines(tasks))
  }

  /** `TaskAgent._format_tasks_for_prompt`, lines 137-148. */
  method FormatTasksForPrompt(tasks: seq<StoredTask>) returns (text: string)
    ensures text == PromptText(tasks)
  {
    if tasks == [] {
      return "No existing tasks";
    }
    var formatted: seq<string> := [];
    var shown := if |tasks| <= 10 then tasks else tasks[..10];
    for i := 0 to |shown|
      invariant |formatted| == i
      invariant forall k :: 0 <= k < i ==> formatted[k] == TaskLine(tasks[k])
    {
      formatted := formatted + [TaskLine(shown[i])];
    }
    assert formatted == PromptLines(tasks);
    text := Join("\n", formatted);
  }

  /** Occurrences of `c` in `s`. */
  function Count(s: string, c: char): nat {
    if s == [] then 0 else (if s[0] == c then 1 else 0) + Count(s[1..], c)
  }

  lemma {:induction false} CountAppend(a: string, b: string, c: char)
    ensures Count(a + b, c) == Count(a, c) + Count(b, c)
  {
    if a != [] {
      assert (a + b)[1..] == a[1..] + b;
      CountAppend(a[1..], b, c);
    } else {
      assert a + b == b;
    }
  }

  /** Joining newline-free lines with "\n" puts exactly one newline between neighbours, and the first line first. */
  lemma {:induction false} JoinLines(ls: seq<string>)
    requires ls != []
    requires forall i :: 0 <= i < |ls| ==> Count(ls[i], '\n') == 0
    ensures Count(Join("\n", ls), '\n') == |ls| - 1
    ensures ls[0] <= Join("\n", ls)
  {
    if |ls| > 1 {
      JoinLines(ls[1..]);
      CountAppend(ls[0], "\n", '\n');
      CountAppend(ls[0] + "\n", Join("\n", ls[1..]), '\n');
      assert Join("\n", ls) == ls[0] + "\n" + Join("\n", ls[1..]);
    }
  }

  predicate NoNewline(s: string) {
    forall i :: 0 <= i < |s| ==> s[i] != '\n'
  }

  lemma {:induction false} NoNewlineCount(s: string)
    requires NoNewline(s)
    ensures Count(s, '\n') == 0
  {
    if s != [] {
      NoNewlineCount(s[1..]);
    }
  }

  /** No text of a task's line contains a newline. */
  predicate SingleLine(t: StoredTask) {
    NoNewline(ShowOption(t.title)) && NoNewline(t.id) && NoNewline(ShowOption(t.status))
  }

  lemma TaskLineSingle(t: StoredTask)
    requires SingleLine(t)
    ensures Count(TaskLine(t), '\n') == 0
  {
    var line := TaskLine(t);
    assert NoNewline(line);
    NoNewlineCount(line);
  }

  /** The prompt says "No existing tasks" only for an empty list, and otherwise starts with a task line. */
  lemma PromptTextMeaning(tasks: seq<StoredTask>)
    ensures tasks == [] <==> PromptText(tasks) == "No existing tasks"
    ensures tasks != [] ==> "- " <= PromptText(tasks)
  {
    if tasks != [] {
      var ls := PromptLines(tasks);
      assert "- " <= ls[0];
      assert PromptText(tasks)[0] == '-';
      assert "No existing tasks"[0] == 'N';
    }
  }

  /** When no task field holds a line break, the prompt has one line per task, for at most the first ten. */
  lemma PromptLineCount(tasks: seq<StoredTask>)
    requires forall i :: 0 <= i < |tasks| ==> SingleLine(tasks[i])
    ensures tasks != [] ==> Count(PromptText(tasks), '\n') == Min(10, |tasks|) - 1
  {
    if tasks != [] {
      var ls := PromptLines(tasks);
      forall i | 0 <= i < |ls|
        ensures Count(ls[i], '\n') == 0
      {
        TaskLineSingle(tasks[i]);
      }
      JoinLines(ls);
    }
  }

  // ---------------------------------------------------------------------------------------------
  // extract_task_update

  /** The user message of lines 111-114. */
  function UpdateMessage(command: string, tasks: seq<StoredTask>): string {
    "Update command: " + command + "\n\nExisting tasks:\n" + PromptText(tasks)
  }

  /**
    `TaskAgent.extract_task_update`, lines 111-135: the brace slice of the reply (or the whole
    reply) parsed; any failure is "Could not parse update command: " followed by the command.
  */
  function ExtractTaskUpdate(
    command: string, tasks: seq<StoredTask>, chat: string -> Option<string>, parse: string -> Option<Value>)
    : (r: Result<Value, string>)
    ensures var reply := chat(UpdateMessage(command, tasks));
      r.Ok? <==> reply.Some? && parse(BraceSliceOrWhole(reply.value)).Some?
    ensures r.Ok? ==> parse(BraceSliceOrWhole(chat(UpdateMessage(command, tasks)).value)) == Some(r.value)
    ensures r.Err? ==> r.error == "Could not parse update command: " + command
  {
    match chat(UpdateMessage(command, tasks))
    case None => Err("Could not parse update command: " + command)
    case Some(reply) =>
      match parse(BraceSliceOrWhole(reply))
      case None => Err("Could not parse update command: " + command)
      case Some(v) => Ok(v)
  }

  // ---------------------------------------------------------------------------------------------
  // find_matching_task

  /** `task.get('title', '')` */
  function TitleOf(t: StoredTask): string {
    t.title.GetOr("")
  }

  /** `task_match.lower() in task.get('title', '').lower()` */
  predicate TitleMatches(taskMatch: string, t: StoredTask) {
    Contains(Lower(TitleOf(t)), Lower(taskMatch))
  }

  /** The tasks whose title matches, in order. */
  function MatchingTasks(taskMatch: string, tasks: seq<StoredTask>): seq<StoredTask> {
    if tasks == [] then []
    else
      var last := tasks[|tasks| - 1];
      MatchingTasks(taskMatch, tasks[..|tasks| - 1]) + (if TitleMatches(taskMatch, last) then [last] else [])
  }

  /** The id `find_matching_task` returns: only on a single match. */
  function MatchingTaskId(taskMatch: string, tasks: seq<StoredTask>): Option<string> {
    var matches := MatchingTasks(taskMatch, tasks);
    if |matches| == 1 then Some(matches[0].id) else None
  }

  /** `TaskAgent.find_matching_task`, lines 150-177. */
  method FindMatchingTask(taskMatch: string, tasks: seq<StoredTask>) returns (id: Option<string>)
    ensures id == MatchingTaskId(taskMatch, tasks)
  {
    var taskMatchLower := Lower(taskMatch);
    var matches: seq<StoredTask> := [];
    for i := 0 to |tasks|
      invariant matches == MatchingTasks(taskMatch, tasks[..i])
    {
      assert tasks[..i + 1][..i] == tasks[..i];
      var titleLower := Lower(TitleOf(tasks[i]));
      if Contains(titleLower, taskMatchLower) {
        matches := matches + [tasks[i]];
      }
    }
    assert tasks[..|tasks|] == tasks;
    if |matches| == 1 {
      id := Some(matches[0].id);
    } else {
      id := None;
    }
  }

  /** Only the task at `i` matches. */
  predicate OnlyMatch(taskMatch: string, tasks: seq<StoredTask>, i: int) {
    && 0 <= i < |tasks|
    && TitleMatches(taskMatch, tasks[i])
    && forall j :: 0 <= j < |tasks| && j != i ==> !TitleMatches(taskMatch, tasks[j])
  }

  lemma {:induction false} NoMatches(taskMatch: string, tasks: seq<StoredTask>)
    ensures MatchingTasks(taskMatch, tasks) == [] <==> forall j :: 0 <= j < |tasks| ==> !TitleMatches(taskMatch, tasks[j])
  {
    if tasks != [] {
      var n := |tasks| - 1;
      NoMatches(taskMatch, tasks[..n]);
      assert forall j :: 0 <= j < n ==> tasks[..n][j] == tasks[j];
    }
  }

  /** When only the task at `i` matches, it is the one match. */
  lemma {:induction false} OnlyMatchIsMatching(taskMatch: string, tasks: seq<StoredTask>, i: int)
    requires OnlyMatch(taskMatch, tasks, i)
    ensures MatchingTasks(taskMatch, tasks) == [tasks[i]]
  {
    var n := |tasks| - 1;
    var init := tasks[..n];
    assert forall j :: 0 <= j < n ==> init[j] == tasks[j];
    if i == n {
      NoMatches(taskMatch, init);
    } else {
      assert OnlyMatch(taskMatch, init, i);
      OnlyMatchIsMatching(taskMatch, init, i);
    }
  }

  /** A single match comes from the only task that matches. */
  lemma {:induction false} SingleMatchIsOnly(taskMatch: string, tasks: seq<StoredTask>)
    requires |MatchingTasks(taskMatch, tasks)| == 1
    ensures exists i :: OnlyMatch(taskMatch, tasks, i)
  {
    var n := |tasks| - 1;
    var init := tasks[..n];
    assert forall j :: 0 <= j < n ==> init[j] == tasks[j];
    var m0 := MatchingTasks(taskMatch, init);
    if TitleMatches(taskMatch, tasks[n]) {
      assert MatchingTasks(taskMatch, tasks) == m0 + [tasks[n]];
      NoMatches(taskMatch, init);
      assert OnlyMatch(taskMatch, tasks, n);
    } else {
      assert MatchingTasks(taskMatch, tasks) == m0;
      SingleMatchIsOnly(taskMatch, init);
      var i :| OnlyMatch(taskMatch, init, i);
      assert OnlyMatch(taskMatch, tasks, i);
    }
  }

  /** Exactly one match, and it is the task at position `i`, when only the task at `i` matches. */
  lemma SingleMatch(taskMatch: string, tasks: seq<StoredTask>)
    ensures |MatchingTasks(taskMatch, tasks)| == 1 <==> exists i :: OnlyMatch(taskMatch, tasks, i)
    ensures forall i :: OnlyMatch(taskMatch, tasks, i) ==> MatchingTasks(taskMatch, tasks) == [tasks[i]]
  {
    if |MatchingTasks(taskMatch, tasks)| == 1 {
      SingleMatchIsOnly(taskMatch, tasks);
    }
    forall i | OnlyMatch(taskMatch, tasks, i)
      ensures MatchingTasks(taskMatch, tasks) == [tasks[i]]
    {
      OnlyMatchIsMatching(taskMatch, tasks, i);
    }
  }

  /**
    `find_matching_task` yields an id exactly when one task's title contains the match text,
    ignoring ASCII case, and the id is that task's.
  */
  lemma MatchingTaskIdMeaning(taskMatch: string, tasks: seq<StoredTask>)
    ensures MatchingTaskId(taskMatch, tasks).Some? <==> exists i :: OnlyMatch(taskMatch, tasks, i)
    ensures forall i :: OnlyMatch(taskMatch, tasks, i) ==> MatchingTaskId(taskMatch, tasks) == Some(tasks[i].id)
  {
    SingleMatch(taskMatch, tasks);
  }

  lemma {:induction false} EverythingMatchesEmpty(tasks: seq<StoredTask>)
    ensures MatchingTasks("", tasks) == tasks
  {
    if tasks != [] {
      var last := tasks[|tasks| - 1];
      assert [] <= Lower(TitleOf(last))[0..];
      EverythingMatchesEmpty(tasks[..|tasks| - 1]);
    }
  }

  /** An empty match text is in every title, so it yields an id only for a single-task list. */
  lemma EmptyMatchNeedsOneTask(tasks: seq<StoredTask>)
    ensures MatchingTaskId("", tasks).Some? <==> |tasks| == 1
  {
    EverythingMatchesEmpty(tasks);
  }
}
