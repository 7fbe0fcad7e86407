# Natural-language task pipeline of the MCP todo server

The server turns free text into task records and update commands into changes to one stored
task. This project models that path in Dafny:

- **Response decoder** (`Decoder`, ai/groq_client.py). It takes the language model's reply
  and recovers a list of candidate records. It removes code fences, tries a direct JSON parse,
  then parses the span from the first `[` to the last `]` or from the first `{` to the last `}`,
  and wraps an object into a one-element list. The brace-only decoder of
  `search_query_to_filters` is modelled too.
- **Rule-based extractor and validator** (`Parsers`, ai/parsers.py):
  - keyword-table priority, category and tags
  - title clean-up
  - the first due-date pattern whose match resolves
  - `validate_task_data`
- **Agent** (`Agent`, ai/agent.py):
  - batch validation in `parse_task_nl`, with its single-record fallback
  - the search-filter fallback
  - the prompt listing of existing tasks
  - decoding of update commands
  - unique-title matching
- **Tools** (`Smart`, src/mcp_server/tools/smart.py; `Crud`, src/mcp_server/tools/crud.py).
  Each handler's decisions are modelled as an outcome, not as reply text. For `add_task` and
  `update_task` the model covers the payload sent to the database; for `list_tasks` it covers
  the listing read.

Supporting modules:

- `Wrappers`: `Option` and `Result`.
- `Text`: Python string operations on `seq<char>`, such as `lower`, `in`, `find`, `rfind`,
  `strip`, `split()` and `join`.
- `Json`: the JSON values `json.loads` can return. An object is a sequence of key/value pairs.
  Lookups return the last binding, as a Python dict keeps the last duplicate key.
- `Store`: the stored-task rows and the database reads.

External collaborators are function-typed parameters of the operations that use them:

| collaborator | parameter | `None` means |
|---|---|---|
| `json.loads` | `parse` | it raised |
| `re.sub` of one noise pattern | `regexSub` | |
| `re.search(...).group(0)` of one date pattern | `regexSearch` | no match |
| `parse_datetime` (dateparser) | `parseDatetime` | it did not resolve |
| the model call (`chat_completion`) | `chat` | it raised |
| database reads | `db` | it raised |
| database writes | `create` / `update` | it raised |

Where the code and the repository's own description of the decoder differ, the model follows
the code:

- Fences: the code keeps the text between the first two fences, not "the text with its fence
  stripped".
- Embedded JSON: the code takes the span from the first bracket to the last one. It therefore
  does not recover every JSON value embedded in arbitrary prose. For example, prose with a `{`
  of its own before the JSON yields a different span. `Decoder.ObjectSpanMeaning` and
  `Decoder.ArraySpanMeaning` state the spans exactly.

## Model

| member | source | states |
|---|---|---|
| Parsers.FirstHit | ai/parsers.py:70-76 | the index of the first keyword that is a substring of the text; no earlier keyword is; `None` exactly when no keyword is |
| Parsers.ExtractPriority | ai/parsers.py:46-78 | the result is low, medium or high; "high" iff a high keyword is in the lower-cased text; "low" iff no high keyword but a low keyword is; "medium" iff neither list has a hit |
| Parsers.NotUrgentIsHigh | ai/parsers.py:59-72 | "not urgent" is rated high, because high keywords are checked first and "urgent" is one |
| Parsers.FirstRow | ai/parsers.py:104-107 | the first table row with a keyword hit; no earlier row has one; `None` exactly when no row has one |
| Parsers.InferCategory | ai/parsers.py:81-109 | `None` iff no category has a keyword in the lower-cased text; otherwise the first category in declared order (work … social) with a hit |
| Parsers.MeetingFriendIsWork | ai/parsers.py:94-107 | "meeting a friend" is work although "friend" is a social keyword: the earlier category wins |
| Parsers.LabelsHitMembers | ai/parsers.py:134-137 | a label is collected iff one of its row's keywords occurs in the text |
| Parsers.LabelsHitDistinct | ai/parsers.py:134-137 | with distinct row labels, no label is collected twice |
| Parsers.LabelsHitOrder | ai/parsers.py:134-137 | labels of two rows with hits are collected in table order |
| Parsers.LabelsHitMeaning | ai/parsers.py:134-137 | the three facts above together: exactly the hit labels, once each, in table order |
| Parsers.TagTableLabelsDistinct | ai/parsers.py:126-132 | the five tag labels are distinct |
| Parsers.LabelsHitStep | ai/parsers.py:134-137 | one pass of the outer loop appends the row's label iff a keyword hits; the label is never already present, so the `tag not in tags` guard never blocks |
| Parsers.ExtractTags | ai/parsers.py:112-139 | the nested loop collects exactly the tags with a keyword hit in the lower-cased text, without duplicates, in the order urgent, important, recurring, quick, long |
| Parsers.TidyMeaning | ai/parsers.py:164-171 | the tidied title is stripped; whitespace occurs only as single spaces between words; the first character is not a lower-case letter; it has the same words, ignoring case, as the input; it is exactly the words joined by single spaces with the first letter upper-cased (the final strip removes nothing) |
| Parsers.CleanTitle | ai/parsers.py:142-171 | the pattern loop then the tidy-up: the result is stripped and collapsed; its first character is not a lower-case letter; lower-cased, it equals the noise-stripped text's words joined by single spaces |
| Parsers.FirstResolved | ai/parsers.py:203-209 | `None` iff no pattern both matches and resolves; otherwise the resolution of the match of the first pattern that does |
| Parsers.FirstResolvedStep | ai/parsers.py:203-209 | one pattern step: a pattern that matches and resolves ends the scan with its value; otherwise the scan goes on with the next pattern |
| Parsers.FirstDueDate | ai/parsers.py:195-209 | the loop with `break` yields the first resolving pattern's date |
| Parsers.ParseTaskMetadata | ai/parsers.py:174-211 | the metadata record always has title, priority, category and tags; the due date is that of the first resolving pattern, if any |
| Parsers.OptionalText | ai/parsers.py:233-234 | a present, truthy field becomes its stripped `str`; otherwise it is left out |
| Parsers.OptionalPriority | ai/parsers.py:236-241 | priority is present iff the input has one; it is always low, medium or high |
| Parsers.OptionalStatus | ai/parsers.py:243-246 | status is present only when the input's lower-cased status is pending, in_progress or completed, and then it is that value |
| Parsers.OptionalDueDate | ai/parsers.py:251-256 | a present, truthy due date becomes the text before its first "/", which contains no "/" |
| Parsers.CleanTagList | ai/parsers.py:259 | the comprehension over tags: falsy items dropped, the rest stringified and stripped, in order |
| Parsers.OptionalTags | ai/parsers.py:258-259 | tags are cleaned only when the input's tags are a list |
| Parsers.ValidateTaskData | ai/parsers.py:214-261 | the field-by-field rewrite yields the validated record, or `TitleRequired`, or `NotADict` for a non-object |
| Parsers.ValidatedIsWellFormed | ai/parsers.py:214-261 | validation fails with `TitleRequired` iff the title is missing or falsy; success comes only from an object; every validated record is well formed (stripped texts, allowed priority and status, due date without "/", stripped tags) |
| Parsers.ValidatedKeys | ai/parsers.py:233-259 | description, category and due_date are present iff the input key is truthy; priority iff the key is present; status iff the key is present and its lower-cased text is a known status, and then it is that text; tags iff the key holds a list |
| Parsers.TruthyItemsLength | ai/parsers.py:259 | the falsy filter only removes items; it keeps all of them iff all are truthy |
| Parsers.CleanTagsStripped | ai/parsers.py:259 | every cleaned tag is stripped |
| Parsers.CleanTagsOfStrings | ai/parsers.py:259 | cleaning already-stripped string tags changes nothing iff none is empty |
| Parsers.BlankTitleIsKept | ai/parsers.py:227-228 | a title of three spaces passes the truthiness check and is stored as "" |
| Parsers.BlankTagIsKept | ai/parsers.py:259 | the tag " " survives the falsy filter as "", while the tag "" is dropped |
| Parsers.GetTaskDict | ai/parsers.py:224-259 | the dict a validated record stands for holds each of its fields under the field's key |
| Parsers.ValidatedOfTaskDict | ai/parsers.py:214-261 | re-validating a validated record fails iff its title is empty; otherwise it drops the empty description, category and due date, drops empty tags and keeps the rest |
| Parsers.RevalidateIffNoEmptyText | ai/parsers.py:214-261 | re-validation gives back the same record iff none of its strings (title, description, category, due date, tags) is empty |
| Text.HeadLacksSeparator | ai/groq_client.py:130-132 | the text before the first fence contains no fence |
| Decoder.UnfenceMeaning | ai/groq_client.py:126-132 | with "```json" (followed by a clean fence), the stripped text between it and the next "```"; otherwise, with a "```", the stripped text between the first two fences, language tag kept; without a fence, the text unchanged; a fenced reply never keeps a fence |
| Decoder.ObjectSpanMeaning | ai/groq_client.py:142-143 | the brace span exists iff there is a `{` with a `}` after it, and it runs from the first `{` to the last `}` |
| Decoder.ArraySpanMeaning | ai/groq_client.py:140-149 | the bracket span is tried iff there is a `[` with a `]` after it and every `{` comes after some `[`; it runs from the first `[` to the last `]` |
| Decoder.RecoverJson | ai/groq_client.py:134-159 | a direct parse wins; otherwise a parsing array span; otherwise the brace span; "No JSON structure" iff nothing parsed and there is no brace span; a decode error iff the brace span exists and fails to parse |
| Decoder.Normalize | ai/groq_client.py:161-167 | an object becomes a one-element list; an array is returned as is, possibly empty; any other value is refused |
| Decoder.DecodeTaskListMeaning | ai/groq_client.py:124-171 | a decoded list is the recovered array, or the recovered object alone; the "neither dict nor list" failure happens iff the recovered value is a scalar; every other failure is the recovery's |
| Decoder.EmptyArrayDecodesEmpty | ai/groq_client.py:164-165 | a reply that parses to `[]` decodes to the empty list, so decoding does not promise a non-empty list |
| Decoder.BraceSliceIsObjectSpan | ai/groq_client.py:212-218 | the search decoder parses the first-`{`-to-last-`}` span when there is one, and the whole reply otherwise |
| Decoder.SearchQueryToFilters | ai/groq_client.py:210-221 | the parsed slice is returned as is; when it does not parse, the result is the text-search filter |
| Decoder.UnparsableSearchIsTextSearch | ai/groq_client.py:219-221 | that fallback is exactly `{"search_text": query}` |
| Agent.ValidPositionsValid | ai/agent.py:42-50 | every kept position is that of an item that validates |
| Agent.ValidPositionsIncreasing | ai/agent.py:42-50 | kept positions are strictly increasing: batch order is kept |
| Agent.ValidPositionsComplete | ai/agent.py:42-50 | every item that validates is kept |
| Agent.ValidPositionsInOrder | ai/agent.py:42-50 | the three facts above together |
| Agent.ValidTasksAtPositions | ai/agent.py:42-50 | the kept tasks are the validation results at the kept positions |
| Agent.ValidTasksMeaning | ai/agent.py:42-50 | the kept tasks are exactly the validated items, in batch order, invalid ones dropped; none is kept iff every item fails |
| Agent.ValidTasksEmpty | ai/agent.py:52-53 | the batch is empty iff no item validates |
| Agent.ValidateBatch | ai/agent.py:42-50 | the validation loop keeps the valid items in order, dropping each invalid one |
| Agent.ParseTaskNl | ai/agent.py:27-61 | the method returns the batch result or the single-record fallback, as characterised by the next lemmas |
| Agent.TitleOfMetadataDict | ai/parsers.py:186-187 | the fallback metadata dict carries the cleaned title under "title" |
| Agent.MetadataDictValidation | ai/agent.py:60-61 | the fallback record fails validation (with `TitleRequired`) iff its cleaned title is empty; otherwise its title is that title stripped |
| Agent.FallbackTasksMeaning | ai/agent.py:57-61 | the fallback is a one-element list, or `TitleRequired` exactly when the cleaned title is empty |
| Agent.ParsedTasksOfBatch | ai/agent.py:40-55 | with a decoded batch: if any item validates, exactly the validated items; if none does, the fallback |
| Agent.ParsedTasksMeaning | ai/agent.py:27-61 | never an empty list; the validated items when at least one validates; the fallback when the call or decoding fails or nothing validates; an error iff the fallback's cleaned title is empty |
| Agent.EmptyBatchFallsBack | ai/agent.py:52-61 | a reply that decodes to `[]` falls back to the rule-based record |
| Agent.SearchTasksNl | ai/agent.py:63-81 | a failing call gives the text-search filter; otherwise the decoder's filters |
| Agent.PromptLines | ai/agent.py:142-146 | one line per task for the first min(10, n) tasks, in order, each "- title (ID: id, Status: status)" |
| Agent.FormatTasksForPrompt | ai/agent.py:137-148 | the loop builds "No existing tasks" for no tasks, else those lines joined by newlines |
| Agent.PromptTextMeaning | ai/agent.py:137-148 | "No existing tasks" iff there are no tasks; otherwise the text starts with "- " |
| Agent.PromptLineCount | ai/agent.py:137-148 | when no task field holds a line break, a non-empty list gives min(10, n) - 1 newlines: one line per task for the first ten |
| Agent.ExtractTaskUpdate | ai/agent.py:111-135 | success iff the call answers and the brace slice (or the whole reply) parses, giving the parsed value; every failure is "Could not parse update command: " followed by the command |
| Agent.FindMatchingTask | ai/agent.py:150-177 | the loop collects the tasks whose lower-cased title (missing as "") contains the lower-cased match text; the id is returned only for a single match |
| Agent.NoMatches | ai/agent.py:161-167 | no task is collected iff no title contains the match text |
| Agent.OnlyMatchIsMatching | ai/agent.py:164-170 | when only the task at position i matches, the matches are exactly that task |
| Agent.SingleMatchIsOnly | ai/agent.py:164-170 | a single match is the only task whose title contains the match text |
| Agent.SingleMatch | ai/agent.py:164-170 | both directions: exactly one match iff exactly one task matches, and then it is that task |
| Agent.MatchingTaskIdMeaning | ai/agent.py:150-177 | an id is returned iff exactly one task's title contains the match text, ignoring case, and it is that task's id; none for zero or several matches |
| Agent.EverythingMatchesEmpty | ai/agent.py:161-167 | the empty match text is contained in every title |
| Agent.EmptyMatchNeedsOneTask | ai/agent.py:161-170 | an empty match text yields an id iff the list has exactly one task |
| Smart.SetListItem | src/mcp_server/tools/smart.py:41-42 | assigning into a list succeeds iff the key is an int (a bool counting as 0 or 1) within the list's range, negative ones counting from the end; it then replaces exactly that item; a string key such as "status" raises |
| Smart.HandleSmartAddAsWritten | src/mcp_server/tools/smart.py:30-68 | as written: without a command the parameter error; a task is created only from the list payload the database accepted (see Findings) |
| Smart.StatusNeverInTaskList | src/mcp_server/tools/smart.py:41-42 | a list of task dicts never holds the string "status", and assigning to it under that key raises |
| Smart.SmartAddOutcome | src/mcp_server/tools/smart.py:30-64 | the parameter error iff the command is missing or empty; a creation carries the parsed task with default status, which the database returned as a displayable row; with a row returned, a creation iff it is displayable |
| Smart.SmartAddAsWrittenNeverCreates | src/mcp_server/tools/smart.py:38-42 | as written, no non-empty command ever creates a task, whatever the model and the database do |
| Smart.SmartAddDiscrepancy | src/mcp_server/tools/smart.py:38-45 | for "buy milk", the handler as written fails where the record reading creates the task |
| Smart.WithDefaultStatus | src/mcp_server/tools/smart.py:41-42 | status becomes "pending" only when the parsed task has none; an existing status and every other field are kept |
| Smart.HandleSmartAdd | src/mcp_server/tools/smart.py:20-68 | the parameter error iff the command is missing or empty; a validation error fails; otherwise the task with default status is what is created, and the outcome is a creation iff the database returns a displayable row |
| Smart.FilterQuery | src/mcp_server/tools/smart.py:92-101 | no read iff the filters are not a dict; a text search iff "search_text" is present, on its value; otherwise a listing by the given status and priority (None when absent), limited to 100 |
| Smart.HandleSearchTasks | src/mcp_server/tools/smart.py:81-133 | the parameter error iff the query is missing or empty; a result lists the non-empty, displayable rows the selected read returned; "no tasks found" only when that read returned none; both name the query and the read its filters select |
| Smart.SearchRouting | src/mcp_server/tools/smart.py:81-104 | the parameter error iff the query is missing or empty; a filter with "search_text" routes to a text search on it, any other filter to a listing by status and priority limited to 100; conversely, for a non-empty query an empty read is "no tasks found", a non-empty displayable read is reported in full, a failed read or non-dict filters fail |
| Smart.FailedFilterIsTextSearch | src/mcp_server/tools/smart.py:89-94 | when the model call fails or its reply does not parse, the search is a text search for the whole query |
| Smart.UpdateGuards | src/mcp_server/tools/smart.py:146-160 | the parameter error iff the command is missing or empty; an empty store is reported before the model is asked, whatever it would answer |
| Smart.DecideUpdate | src/mcp_server/tools/smart.py:163-212 | non-dict update info fails; with a truthy string match and truthy updates: no match, or one match whose id is empty, is "no task found"; several matches are a clarification with the full count and the first min(5, count) matches when those are displayable, and a failure otherwise |
| Smart.HandleSmartUpdate | src/mcp_server/tools/smart.py:146-216 | the parameter error iff the command is missing or empty; "no tasks in the database" iff the full read returned nothing; every answer about the command comes from deciding on the extracted info against the full store |
| Smart.DecideUpdateMeaning | src/mcp_server/tools/smart.py:162-196 | an update is issued only for a unique title match with a non-empty id, with exactly the extracted updates; a clarification reports the full match count (more than one) and lists the first min(5, count); "no task found" means at most one match; "could not understand" iff the match text or updates are falsy |
| Smart.UniqueMatchUpdates | src/mcp_server/tools/smart.py:173-196 | a unique match with a non-empty id sends exactly the extracted updates for that id |
| Crud.CreatePayloadMeaning | src/mcp_server/tools/crud.py:29-41 | the create payload has the given title, status "pending", the given priority or "medium", the given tags or [], the given description and category or None; a due date iff one is given and truthy; no other key |
| Crud.CreatePayloadShape | src/mcp_server/tools/crud.py:30-41 | the payload is the six-key literal in order, followed by the due date only when it is present and truthy |
| Crud.HandleAddTask | src/mcp_server/tools/crud.py:18-58 | a missing title raises `KeyError("title")` and nothing is created; otherwise the payload above is sent, and the reply exists iff the database returns a displayable row |
| Crud.UpdatePayloadMeaning | src/mcp_server/tools/crud.py:118-122 | the update payload holds exactly the six updatable fields that are present and not None, with their values; never task_id or any other key; it is empty iff no such field is present |
| Crud.CollectUpdates | src/mcp_server/tools/crud.py:119-122 | the loop over the field names builds that payload |
| Crud.HandleUpdateTask | src/mcp_server/tools/crud.py:105-142 | a missing task_id raises; "No updates provided." iff the payload is empty, and then no update is issued; otherwise exactly that payload is sent for that id, and the update succeeds iff the database returns a displayable row |
| Crud.ListRead | src/mcp_server/tools/crud.py:72-77 | the listing uses the given status and priority (None when absent) and the given limit, 100 by default |
| Crud.HandleListTasks | src/mcp_server/tools/crud.py:61-102 | "No tasks found." iff the read is empty; otherwise the count equals the number of tasks read; it raises iff the read raises or a row lacks a displayed column |

## Left out

- The model call, client construction and prompt texts (ai/groq_client.py:21-113; ai/agent.py:94-109). The reply is an input or a `chat` parameter.
- `json.loads`, the regular-expression engine and `dateparser`. They are the parameters `parse`, `regexSub`, `regexSearch` and `parseDatetime`; no property of them is assumed.
- The database (database/supabase_client.py is not part of this model), the lazy singletons, logging, and the text and emoji of replies. Handlers return outcomes instead.
- `handle_delete_task`: it has no logic beyond one database call.
- Case mapping covers ASCII letters only; Python's `lower` and `upper` also map non-ASCII letters. Whitespace follows Python's `str.isspace` set, including the Unicode spaces.
- Json.ReprOf: `str()` of a list quotes each string with `'` and escapes nothing; Python's `repr` switches to `"` for a string holding `'` and escapes backslashes and control characters. An object with a repeated key, which `json.loads` never produces but the parse parameter may, prints every pair where Python's dict keeps only the last binding (lookups already use the last binding). Floats are not modelled: numbers are integers.
- Stored rows carry id, title, status and priority. Other columns, null column values and non-string titles (which make `.lower()` raise) are not modelled.
- Exception message texts are not modelled, except the update-command one. A raise is an `Err` or a `...Failed` outcome.
- `current_time` of `parse_task_nl`: it only feeds the prompt.
- Parsers.InferCategory: "urgent: call dentist tomorrow" → social is not proved as a concrete instance. The general first-category contract implies it, and `Parsers.MeetingFriendIsWork` shows the order concretely.
- Decoder.UnfenceMeaning: the "```json" case is stated only when the next "```" after it does not fall inside a run of four or more backticks right before the tag (`FenceStartsCleanly`). In that rare case the code cuts at the "```json" itself.

## Findings

| source | as written | input that shows it | evidently intended | confidence | as-written member | corrected member |
|---|---|---|---|---|---|---|
| src/mcp_server/tools/smart.py:38-42 | `parse_task_nl` returns a list of tasks, but the handler treats it as one dict. `'status' not in task_data` is true for a list of dicts, so `task_data['status'] = 'pending'` indexes a list with a string and raises TypeError. The handler then reports "Error creating task" | natural_language "buy milk", with any model reply and database | read the one task, give it status "pending" when it has none, and create it (the handler's tests mock the agent to return a dict) | not executed | Smart.HandleSmartAddAsWritten, Smart.StatusNeverInTaskList, Smart.SmartAddAsWrittenNeverCreates, Smart.SmartAddDiscrepancy | Smart.HandleSmartAdd, Smart.SmartAddOutcome, Smart.WithDefaultStatus |
