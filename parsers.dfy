/**
  The rule-based extractor and the validator of ai/parsers.py.

  The regular-expression engine and the `dateparser` library are
  collaborators passed in as functions: `regexSub(p, s)` is `re.sub(p, '', s,
  flags=re.IGNORECASE)` for one of the title's noise patterns, `regexSearch(p,
  s)` is the text of `re.search(p, s, re.IGNORECASE).group(0)` (None when the
  pattern does not match) and `parseDatetime(s)` is `parse_datetime(s)`.
*/
module Parsers {
  import opened Wrappers
  import opened Text
  import opened Json

  const Priorities: seq<string> := ["low", "medium", "high"]
  const Statuses: seq<string> := ["pending", "in_progress", "completed"]

  // ---------------------------------------------------------------- keywords

  const HighKeywords: seq<string> :=
    ["urgent", "asap", "critical", "important", "emergency", "high priority", "crucial", "vital", "pressing"]
  const LowKeywords: seq<string> :=
    ["low priority", "whenever", "someday", "maybe", "not urgent", "low", "minor"]

  /** A label with the keywords that select it, in declared order. */
  type KeywordTable = seq<(string, seq<string>)>

  const CategoryTable: KeywordTable := [
    ("work", ["work", "meeting", "project", "deadline", "presentation", "report", "email"]),
    ("personal", ["personal", "self", "health", "exercise", "doctor", "appointment"]),
    ("shopping", ["buy", "purchase", "shop", "groceries", "store", "order"]),
    ("home", ["home", "house", "clean", "repair", "fix", "maintenance"]),
    ("finance", ["pay", "bill", "bank", "money", "budget", "invoice"]),
    ("learning", ["learn", "study", "read", "course", "tutorial", "practice"]),
    ("social", ["call", "meet", "visit", "party", "event", "friend", "family"])
  ]

  const TagTable: KeywordTable := [
    ("urgent", ["urgent", "asap", "emergency"]),
    ("important", ["important", "critical", "crucial"]),
    ("recurring", ["daily", "weekly", "monthly", "recurring"]),
    ("quick", ["quick", "fast", "brief", "5 minutes", "10 minutes"]),
    ("long", ["long", "extended", "lengthy"])
  ]

  /** Some keyword of the list occurs in `text`. */
  predicate AnyKeyword(keywords: seq<string>, text: string) {
    exists j :: 0 <= j < |keywords| && Contains(text, keywords[j])
  }

  /** The position of the first keyword, in list order, that occurs in `text`. */
  function FirstHit(keywords: seq<string>, text: string): (r: Option<nat>)
    ensures r.Some? ==> r.value < |keywords| && Contains(text, keywords[r.value])
    ensures r.Some? ==> forall j :: 0 <= j < r.value ==> !Contains(text, keywords[j])
    ensures r.None? <==> !AnyKeyword(keywords, text)
  {
    if keywords == [] then None
    else if Contains(text, keywords[0]) then Some(0)
    else
      match FirstHit(keywords[1..], text)
      case None =>
        assert forall j :: 1 <= j < |keywords| ==> keywords[j] == keywords[1..][j - 1];
        None
      case Some(k) =>
        assert keywords[k + 1] == keywords[1..][k];
        assert forall j :: 1 <= j < k + 1 ==> keywords[j] == keywords[1..][j - 1];
        Some(k + 1)
  }

  /** `extract_priority`: high keywords are checked first, then low ones; medium otherwise. */
  function ExtractPriority(text: string): (r: string)
    ensures r in Priorities
    ensures r == "high" <==> AnyKeyword(HighKeywords, Lower(text))
    ensures r == "low" <==> !AnyKeyword(HighKeywords, Lower(text)) && AnyKeyword(LowKeywords, Lower(text))
    ensures r == "medium" <==> !AnyKeyword(HighKeywords, Lower(text)) && !AnyKeyword(LowKeywords, Lower(text))
  {
    var lowered := Lower(text);
    if FirstHit(HighKeywords, lowered).Some? then "high"
    else if FirstHit(LowKeywords, lowered).Some? then "low"
    else "medium"
  }

  /** The first row, in table order, with a keyword that occurs in `text`. */
  function FirstRow(table: KeywordTable, text: string): (r: Option<nat>)
    ensures r.Some? ==> r.value < |table| && AnyKeyword(table[r.value].1, text)
    ensures r.Some? ==> forall j :: 0 <= j < r.value ==> !AnyKeyword(table[j].1, text)
    ensures r.None? <==> forall j :: 0 <= j < |table| ==> !AnyKeyword(table[j].1, text)
  {
    if table == [] then None
    else if FirstHit(table[0].1, text).Some? then Some(0)
    else
      match FirstRow(table[1..], text)
      case None =>
        assert forall j :: 1 <= j < |table| ==> table[j] == table[1..][j - 1];
        None
      case Some(k) =>
        assert table[k + 1] == table[1..][k];
        assert forall j :: 1 <= j < k + 1 ==> table[j] == table[1..][j - 1];
        Some(k + 1)
  }

  /** `infer_category`: the first category, in declared order, with a keyword in the lower-cased text. */
  function InferCategory(text: string): (r: Option<string>)
    ensures r.None? <==> forall j :: 0 <= j < |CategoryTable| ==> !AnyKeyword(CategoryTable[j].1, Lower(text))
    ensures r.Some? ==>
      exists i :: 0 <= i < |CategoryTable| && CategoryTable[i].0 == r.value
        && AnyKeyword(CategoryTable[i].1, Lower(text))
        && forall j :: 0 <= j < i ==> !AnyKeyword(CategoryTable[j].1, Lower(text))
  {
    match FirstRow(CategoryTable, Lower(text))
    case None => None
    case Some(i) => Some(CategoryTable[i].0)
  }

  /** The labels of the rows with a keyword that occurs in `text`, in table order. */
  function LabelsHit(table: KeywordTable, text: string): seq<string>
  {
    if table == [] then []
    else
      var last := table[|table| - 1];
      LabelsHit(table[..|table| - 1], text) + (if AnyKeyword(last.1, text) then [last.0] else [])
  }

  /** No label is listed twice. */
  predicate NoDuplicates(labels: seq<string>) {
    forall i, j :: 0 <= i < j < |labels| ==> labels[i] != labels[j]
  }

  /** `x` is listed somewhere before `y`. */
  predicate ListedBefore(labels: seq<string>, x: string, y: string) {
    exists i, j :: 0 <= i < j < |labels| && labels[i] == x && labels[j] == y
  }

  predicate DistinctLabels(table: KeywordTable) {
    forall i, j :: 0 <= i < j < |table| ==> table[i].0 != table[j].0
  }

  /** `LabelsHit` holds exactly the labels of the rows with a hit. */
  lemma {:induction false} LabelsHitMembers(table: KeywordTable, text: string)
    ensures forall l :: l in LabelsHit(table, text) <==>
      exists i :: 0 <= i < |table| && table[i].0 == l && AnyKeyword(table[i].1, text)
  {
    if table != [] {
      var init := table[..|table| - 1];
      var last := table[|table| - 1];
      LabelsHitMembers(init, text);
      var r0 := LabelsHit(init, text);
      var r := LabelsHit(table, text);
      assert forall i :: 0 <= i < |init| ==> init[i] == table[i];
      forall l
        ensures l in r <==> exists i :: 0 <= i < |table| && table[i].0 == l && AnyKeyword(table[i].1, text)
      {
        if l in r && l !in r0 {
          assert l == last.0 && AnyKeyword(last.1, text);
        }
      }
    }
  }

  /** With distinct labels, no label is listed twice. */
  lemma {:induction false} LabelsHitDistinct(table: KeywordTable, text: string)
    requires DistinctLabels(table)
    ensures NoDuplicates(LabelsHit(table, text))
  {
    if table != [] {
      var init := table[..|table| - 1];
      var last := table[|table| - 1];
      assert forall i :: 0 <= i < |init| ==> init[i] == table[i];
      LabelsHitDistinct(init, text);
      LabelsHitMembers(init, text);
      var r0 := LabelsHit(init, text);
      var r := LabelsHit(table, text);
      if AnyKeyword(last.1, text) {
        assert r == r0 + [last.0];
        assert last.0 !in r0 by {
          forall i | 0 <= i < |init| ensures init[i].0 != last.0 {
            assert table[i].0 != table[|table| - 1].0;
          }
        }
        forall i, j | 0 <= i < j < |r| ensures r[i] != r[j] {
          assert r[i] == r0[i];
          if j < |r| - 1 {
            assert r[j] == r0[j];
          }
        }
      } else {
        assert r == r0;
      }
    }
  }

  /** The labels of two rows with a hit are listed in table order. */
  lemma {:induction false} LabelsHitOrder(table: KeywordTable, text: string)
    ensures forall a, b :: 0 <= a < b < |table| && AnyKeyword(table[a].1, text) && AnyKeyword(table[b].1, text) ==>
      ListedBefore(LabelsHit(table, text), table[a].0, table[b].0)
  {
    if table != [] {
      var init := table[..|table| - 1];
      var last := table[|table| - 1];
      assert forall i :: 0 <= i < |init| ==> init[i] == table[i];
      LabelsHitOrder(init, text);
      LabelsHitMembers(init, text);
      var r0 := LabelsHit(init, text);
      var r := LabelsHit(table, text);
      assert r == r0 + (if AnyKeyword(last.1, text) then [last.0] else []);
      forall a, b | 0 <= a < b < |table| && AnyKeyword(table[a].1, text) && AnyKeyword(table[b].1, text)
        ensures ListedBefore(r, table[a].0, table[b].0)
      {
        if b == |table| - 1 {
          assert init[a] == table[a];
          assert table[a].0 in r0;
          var i :| 0 <= i < |r0| && r0[i] == table[a].0;
          assert r[i] == table[a].0 && r[|r| - 1] == table[b].0;
        } else {
          assert init[a] == table[a] && init[b] == table[b];
          assert ListedBefore(r0, table[a].0, table[b].0);
          var i, j :| 0 <= i < j < |r0| && r0[i] == table[a].0 && r0[j] == table[b].0;
          assert r[i] == r0[i] && r[j] == r0[j];
        }
      }
    }
  }

  /**
    What `LabelsHit` holds: exactly the labels of the rows with a hit, each once
    when labels are distinct, in the order of the table.
  */
  lemma LabelsHitMeaning(table: KeywordTable, text: string)
    requires DistinctLabels(table)
    ensures forall l :: l in LabelsHit(table, text) <==>
      exists i :: 0 <= i < |table| && table[i].0 == l && AnyKeyword(table[i].1, text)
    ensures NoDuplicates(LabelsHit(table, text))
    ensures forall a, b :: 0 <= a < b < |table| && AnyKeyword(table[a].1, text) && AnyKeyword(table[b].1, text) ==>
      ListedBefore(LabelsHit(table, text), table[a].0, table[b].0)
  {
    LabelsHitMembers(table, text);
    LabelsHitDistinct(table, text);
    LabelsHitOrder(table, text);
  }

  lemma TagTableLabelsDistinct()
    ensures DistinctLabels(TagTable)
  {
  }

  lemma AnyKeywordStep(keywords: seq<string>, j: nat, text: string)
    requires j < |keywords|
    ensures AnyKeyword(keywords[..j + 1], text) <==> AnyKeyword(keywords[..j], text) || Contains(text, keywords[j])
  {
    assert forall k :: 0 <= k < j ==> keywords[..j + 1][k] == keywords[..j][k];
    assert keywords[..j + 1][j] == keywords[j];
  }

  lemma LabelsHitStep(table: KeywordTable, i: nat, text: string)
    requires DistinctLabels(table) && i < |table|
    ensures table[i].0 !in LabelsHit(table[..i], text)
    ensures LabelsHit(table[..i + 1], text) ==
      LabelsHit(table[..i], text) + (if AnyKeyword(table[i].1, text) then [table[i].0] else [])
  {
    assert table[..i + 1][..i] == table[..i];
    assert DistinctLabels(table[..i]);
    LabelsHitMeaning(table[..i], text);
  }

  /** `extract_tags`: appends each tag whose keyword occurs, once, in declared order. */
  method ExtractTags(text: string) returns (tags: seq<string>)
    ensures tags == LabelsHit(TagTable, Lower(text))
    ensures forall l :: l in tags <==>
      exists i :: 0 <= i < |TagTable| && TagTable[i].0 == l && AnyKeyword(TagTable[i].1, Lower(text))
    ensures forall i, j :: 0 <= i < j < |tags| ==> tags[i] != tags[j]
  {
    var table := TagTable;
    tags := [];
    var lowered := Lower(text);
    TagTableLabelsDistinct();
    var i := 0;
    while i < |table|
      invariant 0 <= i <= |table|
      invariant tags == LabelsHit(table[..i], lowered)
    {
      var tag := table[i].0;
      var keywords := table[i].1;
      LabelsHitStep(table, i, lowered);
      var j := 0;
      while j < |keywords|
        invariant 0 <= j <= |keywords|
        invariant tags == LabelsHit(table[..i], lowered) + (if AnyKeyword(keywords[..j], lowered) then [tag] else [])
      {
        AnyKeywordStep(keywords, j, lowered);
        if Contains(lowered, keywords[j]) && tag !in tags {
          tags := tags + [tag];
        }
        j := j + 1;
      }
      assert keywords[..j] == keywords;
      i := i + 1;
    }
    assert table[..i] == table;
    LabelsHitMeaning(table, lowered);
  }

  // ------------------------------------------------------------------- title

  /** The four noise patterns `clean_title` removes, in order. */
  datatype NoisePattern =
    | RelativeDay     // \b(tomorrow|today|tonight)\b
    | ClockTime       // \bat\s+\d{1,2}(:\d{2})?\s*(am|pm)?\b
    | ByWord          // \bby\s+\w+\b
    | PriorityMarker  // \b(urgent|asap|high priority|low priority)\b

  const NoisePatterns: seq<NoisePattern> := [RelativeDay, ClockTime, ByWord, PriorityMarker]

  /** The text after each pattern in turn has been removed from it. */
  function RemoveNoise(patterns: seq<NoisePattern>, text: string, regexSub: (NoisePattern, string) -> string): string
    decreases |patterns|
  {
    if patterns == [] then text else RemoveNoise(patterns[1..], regexSub(patterns[0], text), regexSub)
  }

  /** `' '.join(s.split())`, then the first character upper-cased, then `strip()`. */
  function Tidy(s: string): string {
    Strip(Capitalize(Join(" ", Words(s))))
  }

  lemma LowerOfCapitalize(s: string)
    ensures Lower(Capitalize(s)) == Lower(s)
  {
    if s != [] {
      assert LowerChar(UpperChar(s[0])) == LowerChar(s[0]);
    }
  }

  /**
    What `Tidy` gives: no surrounding whitespace and no runs of it, a first
    character that is not a lower-case letter, and the same words as `s` up to
    the case of the first letter.
  */
  lemma TidyMeaning(s: string)
    ensures Collapsed(Tidy(s))
    ensures Tidy(s) != [] ==> !('a' <= Tidy(s)[0] <= 'z')
    ensures Lower(Tidy(s)) == Lower(Join(" ", Words(s)))
    ensures |Words(Tidy(s))| == |Words(s)|
    ensures Tidy(s) == Capitalize(Join(" ", Words(s)))
  {
    var joined := Join(" ", Words(s));
    CollapseKeepsWords(s);
    CapitalizeKeepsCollapsed(joined);
    var capitalized := Capitalize(joined);
    StrippedStripsToItself(capitalized);
    LowerOfCapitalize(joined);
    if joined != [] {
      assert Tidy(s)[0] == UpperChar(joined[0]);
      CapitalizedWordCount(joined);
    }
  }

  lemma CapitalizedWordCount(s: string)
    requires s != [] && !IsSpace(s[0])
    ensures |Words(Capitalize(s))| == |Words(s)|
  {
    var c := Capitalize(s);
    assert !IsSpace(c[0]);
    var n := WordLength(s);
    var m := WordLength(c);
    assert forall i :: 1 <= i < |s| ==> c[i] == s[i];
    assert IsSpace(UpperChar(s[0])) == IsSpace(s[0]);
    assert n == m;
    assert c[n..] == s[n..];
  }

  /** `clean_title`: strips the noise patterns, then collapses whitespace and capitalises. */
  method CleanTitle(text: string, regexSub: (NoisePattern, string) -> string) returns (cleaned: string)
    ensures cleaned == Tidy(RemoveNoise(NoisePatterns, text, regexSub))
    ensures Collapsed(cleaned)
    ensures cleaned != [] ==> !('a' <= cleaned[0] <= 'z')
    ensures Lower(cleaned) == Lower(Join(" ", Words(RemoveNoise(NoisePatterns, text, regexSub))))
  {
    cleaned := text;
    var i := 0;
    while i < |NoisePatterns|
      invariant 0 <= i <= |NoisePatterns|
      invariant RemoveNoise(NoisePatterns[i..], cleaned, regexSub) == RemoveNoise(NoisePatterns, text, regexSub)
    {
      assert NoisePatterns[i..][1..] == NoisePatterns[i + 1..];
      cleaned := regexSub(NoisePatterns[i], cleaned);
      i := i + 1;
    }
    TidyMeaning(cleaned);
    cleaned := Join(" ", Words(cleaned));
    if cleaned != [] {
      cleaned := [UpperChar(cleaned[0])] + cleaned[1..];
    }
    cleaned := Strip(cleaned);
  }

  // ---------------------------------------------------------------- due date

  /** The due-date patterns `parse_task_metadata` tries, in order. */
  datatype DatePattern =
    | DayWord   // (tomorrow|today|tonight)
    | AtTime    // at\s+(\d{1,2}(:\d{2})?\s*(am|pm)?)
    | ByDay     // by\s+(\w+)
    | OnDay     // on\s+(\w+)
    | NextDay   // next\s+(\w+)

  const DatePatterns: seq<DatePattern> := [DayWord, AtTime, ByDay, OnDay, NextDay]

  /** `if due_date:` on the result of `parse_datetime`. */
  predicate Resolved(d: Option<string>) {
    d.Some? && d.value != []
  }

  /** Pattern `p` matches `text` and `parse_datetime` resolves the matched text. */
  predicate ResolvesAt(
    p: DatePattern, text: string,
    regexSearch: (DatePattern, string) -> Option<string>, parseDatetime: string -> Option<string>)
  {
    regexSearch(p, text).Some? && Resolved(parseDatetime(regexSearch(p, text).value))
  }

  /** The due date of the first pattern, in list order, whose match resolves. */
  function FirstResolved(
    patterns: seq<DatePattern>, text: string,
    regexSearch: (DatePattern, string) -> Option<string>, parseDatetime: string -> Option<string>): (r: Option<string>)
    ensures r.None? <==> forall i :: 0 <= i < |patterns| ==> !ResolvesAt(patterns[i], text, regexSearch, parseDatetime)
    ensures r.Some? ==>
      exists i :: 0 <= i < |patterns| && ResolvesAt(patterns[i], text, regexSearch, parseDatetime)
        && r == parseDatetime(regexSearch(patterns[i], text).value)
        && forall j :: 0 <= j < i ==> !ResolvesAt(patterns[j], text, regexSearch, parseDatetime)
  {
    if patterns == [] then None
    else
      var rest := FirstResolved(patterns[1..], text, regexSearch, parseDatetime);
      assert forall j :: 1 <= j < |patterns| ==> patterns[j] == patterns[1..][j - 1];
      match regexSearch(patterns[0], text)
      case Some(m) => if Resolved(parseDatetime(m)) then parseDatetime(m) else rest
      case None => rest
  }

  /** The record `parse_task_metadata` builds. */
  datatype Metadata = Metadata(
    title: string, priority: string, category: Option<string>, tags: seq<string>, dueDate: Option<string>)

  function FallbackMetadata(
    text: string, regexSub: (NoisePattern, string) -> string,
    regexSearch: (DatePattern, string) -> Option<string>, parseDatetime: string -> Option<string>): Metadata
  {
    Metadata(
      Tidy(RemoveNoise(NoisePatterns, text, regexSub)),
      ExtractPriority(text),
      InferCategory(text),
      LabelsHit(TagTable, Lower(text)),
      FirstResolved(DatePatterns, text, regexSearch, parseDatetime))
  }

  function StrValues(ss: seq<string>): (r: seq<Value>)
    ensures |r| == |ss| && forall i :: 0 <= i < |ss| ==> r[i] == JStr(ss[i])
  {
    seq(|ss|, i requires 0 <= i < |ss| => JStr(ss[i]))
  }

  /** The metadata as the dict `parse_task_metadata` returns (`due_date` only when resolved). */
  function MetadataDict(m: Metadata): Value {
    JObj(
      [ ("title", JStr(m.title)),
        ("priority", JStr(m.priority)),
        ("category", if m.category.Some? then JStr(m.category.value) else JNull),
        ("tags", JArr(StrValues(m.tags))) ]
      + (if m.dueDate.Some? then [("due_date", JStr(m.dueDate.value))] else []))
  }

  lemma FirstResolvedStep(
    patterns: seq<DatePattern>, i: nat, text: string,
    regexSearch: (DatePattern, string) -> Option<string>, parseDatetime: string -> Option<string>)
    requires i < |patterns|
    ensures FirstResolved(patterns[i..], text, regexSearch, parseDatetime) ==
      if ResolvesAt(patterns[i], text, regexSearch, parseDatetime)
      then parseDatetime(regexSearch(patterns[i], text).value)
      else FirstResolved(patterns[i + 1..], text, regexSearch, parseDatetime)
  {
    assert patterns[i..][0] == patterns[i];
    assert patterns[i..][1..] == patterns[i + 1..];
  }

  /** `parse_task_metadata`: the due date comes from the first pattern whose match resolves. */
  method ParseTaskMetadata(
    text: string, regexSub: (NoisePattern, string) -> string,
    regexSearch: (DatePattern, string) -> Option<string>, parseDatetime: string -> Option<string>)
    returns (metadata: Metadata)
    ensures metadata == FallbackMetadata(text, regexSub, regexSearch, parseDatetime)
  {
    var title := CleanTitle(text, regexSub);
    var tags := ExtractTags(text);
    metadata := Metadata(title, ExtractPriority(text), InferCategory(text), tags, None);
    var dueDate := FirstDueDate(text, regexSearch, parseDatetime);
    if dueDate.Some? {
      metadata := metadata.(dueDate := dueDate);
    }
  }

  /** The due-date loop of `parse_task_metadata`: stops at the first pattern whose match resolves. */
  method FirstDueDate(
    text: string, regexSearch: (DatePattern, string) -> Option<string>, parseDatetime: string -> Option<string>)
    returns (dueDate: Option<string>)
    ensures dueDate == FirstResolved(DatePatterns, text, regexSearch, parseDatetime)
  {
    var patterns := DatePatterns;
    assert patterns[0..] == patterns;
    var i := 0;
    while i < |patterns|
      invariant 0 <= i <= |patterns|
      invariant FirstResolved(patterns[i..], text, regexSearch, parseDatetime) == FirstResolved(patterns, text, regexSearch, parseDatetime)
    {
      FirstResolvedStep(patterns, i, text, regexSearch, parseDatetime);
      var found := regexSearch(patterns[i], text);
      if found.Some? {
        dueDate := parseDatetime(found.value);
        if dueDate.Some? && dueDate.value != [] {
          return;
        }
      }
      i := i + 1;
    }
    assert patterns[i..] == [];
    dueDate := None;
  }

  // -------------------------------------------------------------- validation

  /** The dict `validate_task_data` returns; an absent key is None. */
  datatype Task = Task(
    title: string,
    description: Option<string>,
    priority: Option<string>,
    status: Option<string>,
    category: Option<string>,
    dueDate: Option<string>,
    tags: Option<seq<string>>)

  datatype ValidationError =
    | TitleRequired  // ValueError("Task title is required")
    | NotADict       // TypeError from indexing a value that is not a dict

  /** `str(priority).lower()` if it is a known priority, else "medium". */
  function CoercePriority(v: Value): string {
    var p := Lower(StrOf(v));
    if p in Priorities then p else "medium"
  }

  /** `str(status).lower()` if it is a known status, else nothing. */
  function KnownStatus(v: Value): Option<string> {
    var s := Lower(StrOf(v));
    if s in Statuses then Some(s) else None
  }

  /** `str(due_date)`, cut at the first '/' of an ISO 8601 interval. */
  function DueDatePart(v: Value): string {
    var d := StrOf(v);
    if Contains(d, "/") then Head(d, "/") else d
  }

  /** `[tag for tag in items if tag]` */
  function TruthyItems(items: seq<Value>): seq<Value> {
    if items == [] then []
    else
      var last := items[|items| - 1];
      TruthyItems(items[..|items| - 1]) + (if Truthy(last) then [last] else [])
  }

  /** `[str(tag).strip() for tag in items if tag]` */
  function CleanTags(items: seq<Value>): seq<string> {
    var kept := TruthyItems(items);
    seq(|kept|, i requires 0 <= i < |kept| => Strip(StrOf(kept[i])))
  }

  /** One more item extends the cleaned list by its text when it is truthy. */
  lemma CleanTagsStep(items: seq<Value>, k: nat)
    requires k < |items|
    ensures CleanTags(items[..k + 1]) ==
      CleanTags(items[..k]) + (if Truthy(items[k]) then [Strip(StrOf(items[k]))] else [])
  {
    assert items[..k + 1][..k] == items[..k];
    var kept := TruthyItems(items[..k]);
    assert TruthyItems(items[..k + 1]) == kept + (if Truthy(items[k]) then [items[k]] else []);
  }

  /** `str(d[key]).strip()` when `key in d and d[key]`. */
  function StrippedIfTruthy(d: Dict, key: string): Option<string> {
    var v := Get(d, key);
    if v.Some? && Truthy(v.value) then Some(Strip(StrOf(v.value))) else None
  }

  /** `priority` coerced to a known priority when the key is present. */
  function PriorityField(d: Dict): Option<string> {
    var priority := Get(d, "priority");
    if priority.Some? then Some(CoercePriority(priority.value)) else None
  }

  /** `status` kept only when it is a known status. */
  function StatusField(d: Dict): Option<string> {
    var status := Get(d, "status");
    if status.Some? then KnownStatus(status.value) else None
  }

  /** `due_date` cut at '/' when it is truthy. */
  function DueDateField(d: Dict): Option<string> {
    var dueDate := Get(d, "due_date");
    if dueDate.Some? && Truthy(dueDate.value) then Some(DueDatePart(dueDate.value)) else None
  }

  /** `tags` cleaned when it is a list. */
  function TagsField(d: Dict): Option<seq<string>> {
    var tags := Get(d, "tags");
    if tags.Some? && tags.value.JArr? then Some(CleanTags(tags.value.items)) else None
  }

  /** `validate_task_data`: what it returns or raises for any decoded value. */
  function Validated(data: Value): Result<Task, ValidationError> {
    match data
    case JObj(d) =>
      var title := Get(d, "title");
      if title.None? || !Truthy(title.value) then Err(TitleRequired)
      else
        Ok(Task(
          Strip(StrOf(title.value)),
          StrippedIfTruthy(d, "description"),
          PriorityField(d),
          StatusField(d),
          StrippedIfTruthy(d, "category"),
          DueDateField(d),
          TagsField(d)))
    // `'title' in s` is a substring test on a string and a membership test on a list;
    // when it holds, `s['title']` raises TypeError.
    case JStr(s) => if Contains(s, "title") then Err(NotADict) else Err(TitleRequired)
    case JArr(items) => if JStr("title") in items then Err(NotADict) else Err(TitleRequired)
    case _ => Err(NotADict)
  }

  /** The tag loop of `validate_task_data`: keeps the truthy tags, stripped, in order. */
  method CleanTagList(items: seq<Value>) returns (cleaned: seq<string>)
    ensures cleaned == CleanTags(items)
  {
    cleaned := [];
    var k := 0;
    while k < |items|
      invariant 0 <= k <= |items|
      invariant cleaned == CleanTags(items[..k])
    {
      CleanTagsStep(items, k);
      if Truthy(items[k]) {
        cleaned := cleaned + [Strip(StrOf(items[k]))];
      }
      k := k + 1;
    }
    assert items[..k] == items;
  }

  /** `str(d[key]).strip()` when `key in d and d[key]`, else nothing. */
  method OptionalText(d: Dict, key: string) returns (text: Option<string>)
    ensures text == StrippedIfTruthy(d, key)
    ensures text.Some? ==> Stripped(text.value)
  {
    text := None;
    var v := Get(d, key);
    if v.Some? && Truthy(v.value) {
      StripIsStripped(StrOf(v.value));
      text := Some(Strip(StrOf(v.value)));
    }
  }

  /** The `priority` block: a known priority lower-cased, anything else "medium", nothing when absent. */
  method OptionalPriority(d: Dict) returns (priority: Option<string>)
    ensures priority == PriorityField(d)
    ensures priority.Some? <==> Has(d, "priority")
    ensures priority.Some? ==> priority.value in Priorities
  {
    priority := None;
    var v := Get(d, "priority");
    if v.Some? {
      var p := Lower(StrOf(v.value));
      if p in Priorities {
        priority := Some(p);
      } else {
        priority := Some("medium");
      }
    }
  }

  /** The `status` block: a known status lower-cased, otherwise nothing. */
  method OptionalStatus(d: Dict) returns (status: Option<string>)
    ensures status == StatusField(d)
    ensures status.Some? ==> Has(d, "status") && status.value in Statuses
    ensures status.Some? ==> status.value == Lower(StrOf(Get(d, "status").value))
  {
    status := None;
    var v := Get(d, "status");
    if v.Some? {
      var s := Lower(StrOf(v.value));
      if s in Statuses {
        status := Some(s);
      }
    }
  }

  /** The `due_date` block: `str(due_date)` cut at the first '/' when present and truthy. */
  method OptionalDueDate(d: Dict) returns (dueDate: Option<string>)
    ensures dueDate == DueDateField(d)
    ensures dueDate.Some? ==> !Contains(dueDate.value, "/")
  {
    dueDate := None;
    var v := Get(d, "due_date");
    if v.Some? && Truthy(v.value) {
      var due := StrOf(v.value);
      if Contains(due, "/") {
        HeadLacksSeparator(due, "/");
        due := Head(due, "/");
      }
      dueDate := Some(due);
    }
  }

  /** The `tags` block: the cleaned list when `tags` is a list, otherwise nothing. */
  method OptionalTags(d: Dict) returns (tags: Option<seq<string>>)
    ensures tags == TagsField(d)
  {
    tags := None;
    var v := Get(d, "tags");
    if v.Some? && v.value.JArr? {
      var cleaned := CleanTagList(v.value.items);
      tags := Some(cleaned);
    }
  }

  /** `validate_task_data`: the type and title checks, then one block per optional field. */
  method ValidateTaskData(data: Value) returns (r: Result<Task, ValidationError>)
    ensures r == Validated(data)
  {
    if !data.JObj? {
      if data.JStr? {
        r := if Contains(data.s, "title") then Err(NotADict) else Err(TitleRequired);
      } else if data.JArr? {
        r := if JStr("title") in data.items then Err(NotADict) else Err(TitleRequired);
      } else {
        r := Err(NotADict);
      }
      return;
    }
    var d := data.fields;
    var title := Get(d, "title");
    if title.None? || !Truthy(title.value) {
      return Err(TitleRequired);
    }
    var description := OptionalText(d, "description");
    var priority := OptionalPriority(d);
    var status := OptionalStatus(d);
    var category := OptionalText(d, "category");
    var dueDate := OptionalDueDate(d);
    var tags := OptionalTags(d);
    r := Ok(Task(Strip(StrOf(title.value)), description, priority, status, category, dueDate, tags));
  }

  // ---------------------------------------------------- validation properties

  /** What every validated task satisfies. */
  predicate WellFormed(t: Task) {
    && Stripped(t.title)
    && (t.description.Some? ==> Stripped(t.description.value))
    && (t.priority.Some? ==> t.priority.value in Priorities)
    && (t.status.Some? ==> t.status.value in Statuses)
    && (t.category.Some? ==> Stripped(t.category.value))
    && (t.dueDate.Some? ==> !Contains(t.dueDate.value, "/"))
    && (t.tags.Some? ==> forall i :: 0 <= i < |t.tags.value| ==> Stripped(t.tags.value[i]))
  }

  lemma CleanTagsStripped(items: seq<Value>)
    ensures forall i :: 0 <= i < |CleanTags(items)| ==> Stripped(CleanTags(items)[i])
  {
    var kept := TruthyItems(items);
    forall i | 0 <= i < |kept|
      ensures Stripped(CleanTags(items)[i])
    {
      StripIsStripped(StrOf(kept[i]));
    }
  }

  /** The falsy items are the ones dropped. */
  lemma {:induction false} TruthyItemsLength(items: seq<Value>)
    ensures |TruthyItems(items)| <= |items|
    ensures |TruthyItems(items)| == |items| <==> forall i :: 0 <= i < |items| ==> Truthy(items[i])
    ensures (forall i :: 0 <= i < |items| ==> Truthy(items[i])) ==> TruthyItems(items) == items
  {
    if items != [] {
      var init := items[..|items| - 1];
      var last := items[|items| - 1];
      TruthyItemsLength(init);
      assert forall i :: 0 <= i < |init| ==> init[i] == items[i];
      var n := |TruthyItems(init)| + (if Truthy(last) then 1 else 0);
      assert |TruthyItems(items)| == n;
      if n == |items| {
        assert Truthy(last) && |TruthyItems(init)| == |init|;
        assert forall i :: 0 <= i < |init| ==> Truthy(items[i]);
      }
      if forall i :: 0 <= i < |items| ==> Truthy(items[i]) {
        assert forall i :: 0 <= i < |init| ==> Truthy(init[i]);
        assert items == init + [last];
      }
    }
  }

  /**
    `validate_task_data` raises for every value that is not a dict, and for a
    dict exactly when the title is absent or falsy; what it returns is well formed.
  */
  lemma ValidatedIsWellFormed(data: Value)
    ensures Validated(data).Ok? ==> data.JObj?
    ensures data.JObj? ==>
      (Validated(data) == Err(TitleRequired) <==>
        !Has(data.fields, "title") || !Truthy(Get(data.fields, "title").value))
    ensures Validated(data).Ok? ==> WellFormed(Validated(data).value)
  {
    if Validated(data).Ok? {
      var d := data.fields;
      var t := Validated(data).value;
      StripIsStripped(StrOf(Get(d, "title").value));
      if t.description.Some? {
        StripIsStripped(StrOf(Get(d, "description").value));
      }
      if t.category.Some? {
        StripIsStripped(StrOf(Get(d, "category").value));
      }
      if t.dueDate.Some? {
        HeadLacksSeparator(StrOf(Get(d, "due_date").value), "/");
      }
      if t.tags.Some? {
        CleanTagsStripped(Get(d, "tags").value.items);
      }
    }
  }

  /** Which keys a validated task has, given the keys of the input dict. */
  lemma ValidatedKeys(d: Dict)
    requires Validated(JObj(d)).Ok?
    ensures var t := Validated(JObj(d)).value;
      && (t.description.Some? <==> Has(d, "description") && Truthy(Get(d, "description").value))
      && (t.priority.Some? <==> Has(d, "priority"))
      && (t.status.Some? <==> Has(d, "status") && Lower(StrOf(Get(d, "status").value)) in Statuses)
      && (t.status.Some? ==> t.status.value == Lower(StrOf(Get(d, "status").value)))
      && (t.category.Some? <==> Has(d, "category") && Truthy(Get(d, "category").value))
      && (t.dueDate.Some? <==> Has(d, "due_date") && Truthy(Get(d, "due_date").value))
      && (t.tags.Some? <==> Has(d, "tags") && Get(d, "tags").value.JArr?)
  {
  }

  /** No field of the task holds an empty string. */
  predicate NoEmptyText(t: Task) {
    && t.title != []
    && t.description != Some([])
    && t.category != Some([])
    && t.dueDate != Some([])
    && (t.tags.Some? ==> forall i :: 0 <= i < |t.tags.value| ==> t.tags.value[i] != [])
  }

  function StrOption(v: Option<string>): Option<Value> {
    if v.Some? then Some(JStr(v.value)) else None
  }

  function TaskEntries(t: Task): seq<(string, Option<Value>)> {
    [ ("title", Some(JStr(t.title))),
      ("description", StrOption(t.description)),
      ("priority", StrOption(t.priority)),
      ("status", StrOption(t.status)),
      ("category", StrOption(t.category)),
      ("due_date", StrOption(t.dueDate)),
      ("tags", if t.tags.Some? then Some(JArr(StrValues(t.tags.value))) else None) ]
  }

  /** The task as the dict `validate_task_data` returns. */
  function TaskDict(t: Task): Value {
    JObj(DictOf(TaskEntries(t)))
  }

  /** Each key of `TaskDict(t)` holds the field of the same name. */
  lemma GetTaskDict(t: Task)
    ensures var d := TaskDict(t).fields;
      && Get(d, "title") == Some(JStr(t.title))
      && Get(d, "description") == StrOption(t.description)
      && Get(d, "priority") == StrOption(t.priority)
      && Get(d, "status") == StrOption(t.status)
      && Get(d, "category") == StrOption(t.category)
      && Get(d, "due_date") == StrOption(t.dueDate)
      && Get(d, "tags") == (if t.tags.Some? then Some(JArr(StrValues(t.tags.value))) else None)
  {
    var es := TaskEntries(t);
    assert DistinctKeys(es);
    GetDictOf(es, "title");
    GetDictOf(es, "description");
    GetDictOf(es, "priority");
    GetDictOf(es, "status");
    GetDictOf(es, "category");
    GetDictOf(es, "due_date");
    GetDictOf(es, "tags");
    assert es[0].0 == "title" && es[1].0 == "description" && es[2].0 == "priority" && es[3].0 == "status";
    assert es[4].0 == "category" && es[5].0 == "due_date" && es[6].0 == "tags";
  }

  /** Cleaning a list of stripped strings gives it back exactly when none is empty. */
  lemma CleanTagsOfStrings(ts: seq<string>)
    requires forall i :: 0 <= i < |ts| ==> Stripped(ts[i])
    ensures CleanTags(StrValues(ts)) == ts <==> forall i :: 0 <= i < |ts| ==> ts[i] != []
  {
    var items := StrValues(ts);
    TruthyItemsLength(items);
    if forall i :: 0 <= i < |ts| ==> ts[i] != [] {
      assert forall i :: 0 <= i < |items| ==> Truthy(items[i]);
      forall i | 0 <= i < |ts|
        ensures CleanTags(items)[i] == ts[i]
      {
        StrippedStripsToItself(ts[i]);
      }
    } else {
      assert !(forall i :: 0 <= i < |items| ==> Truthy(items[i]));
    }
  }

  lemma PriorityIsLower(p: string)
    requires p in Priorities
    ensures Lower(p) == p
  {
    LowerOfLower(p);
  }

  lemma StatusIsLower(s: string)
    requires s in Statuses
    ensures Lower(s) == s
  {
    LowerOfLower(s);
  }

  /** An empty string counts as absent. */
  function NonEmpty(v: Option<string>): Option<string> {
    if v == Some([]) then None else v
  }

  /** Each field the validator reads back from `TaskDict(t)`. */
  lemma FieldsOfTaskDict(t: Task)
    requires WellFormed(t)
    ensures var d := TaskDict(t).fields;
      && Get(d, "title") == Some(JStr(t.title))
      && Strip(StrOf(JStr(t.title))) == t.title
      && StrippedIfTruthy(d, "description") == NonEmpty(t.description)
      && PriorityField(d) == t.priority
      && StatusField(d) == t.status
      && StrippedIfTruthy(d, "category") == NonEmpty(t.category)
      && DueDateField(d) == NonEmpty(t.dueDate)
      && TagsField(d) == if t.tags.Some? then Some(CleanTags(StrValues(t.tags.value))) else None
  {
    GetTaskDict(t);
    var d := TaskDict(t).fields;
    StrippedStripsToItself(t.title);
    StrippedFieldOf(d, "description", t.description);
    PriorityFieldOf(d, t.priority);
    StatusFieldOf(d, t.status);
    StrippedFieldOf(d, "category", t.category);
    DueDateFieldOf(d, t.dueDate);
  }

  lemma StrippedFieldOf(d: Dict, key: string, v: Option<string>)
    requires Get(d, key) == StrOption(v)
    requires v.Some? ==> Stripped(v.value)
    ensures StrippedIfTruthy(d, key) == NonEmpty(v)
  {
    if v.Some? {
      StrippedStripsToItself(v.value);
    }
  }

  lemma PriorityFieldOf(d: Dict, p: Option<string>)
    requires Get(d, "priority") == StrOption(p)
    requires p.Some? ==> p.value in Priorities
    ensures PriorityField(d) == p
  {
    if p.Some? {
      PriorityIsLower(p.value);
    }
  }

  lemma StatusFieldOf(d: Dict, s: Option<string>)
    requires Get(d, "status") == StrOption(s)
    requires s.Some? ==> s.value in Statuses
    ensures StatusField(d) == s
  {
    if s.Some? {
      StatusIsLower(s.value);
    }
  }

  lemma DueDateFieldOf(d: Dict, due: Option<string>)
    requires Get(d, "due_date") == StrOption(due)
    requires due.Some? ==> !Contains(due.value, "/")
    ensures DueDateField(d) == NonEmpty(due)
  {
  }

  lemma ValidatedOfTaskDict(t: Task)
    requires WellFormed(t)
    ensures Validated(TaskDict(t)) ==
      if t.title == [] then Err(TitleRequired)
      else Ok(Task(
        t.title, NonEmpty(t.description), t.priority, t.status, NonEmpty(t.category), NonEmpty(t.dueDate),
        if t.tags.Some? then Some(CleanTags(StrValues(t.tags.value))) else None))
  {
    FieldsOfTaskDict(t);
  }

  /**
    Validating the dict of a well-formed task gives the task back exactly when
    none of its text fields is empty: an empty title is rejected, and an empty
    description, category, due date or tag is dropped.
  */
  lemma RevalidateIffNoEmptyText(t: Task)
    requires WellFormed(t)
    ensures Validated(TaskDict(t)) == Ok(t) <==> NoEmptyText(t)
  {
    ValidatedOfTaskDict(t);
    if t.tags.Some? {
      CleanTagsOfStrings(t.tags.value);
    }
  }

  // ------------------------------------------------------------ examples

  /** "not urgent" is high priority: the high keyword "urgent" is found before "not urgent" is tried. */
  lemma NotUrgentIsHigh()
    ensures ExtractPriority("not urgent") == "high"
  {
    LowerOfLower("not urgent");
    assert "urgent" <= "not urgent"[4..];
    assert Contains("not urgent", HighKeywords[0]);
  }

  /** A whitespace-only title is truthy, so it passes the check and is stored as "". */
  lemma BlankTitleIsKept()
    ensures Validated(JObj([("title", JStr("   "))])) == Ok(Task("", None, None, None, None, None, None))
  {
    assert TrimStart("   ") == [];
  }

  /** A tag " " is truthy, so it survives the filter and becomes "". */
  lemma BlankTagIsKept()
    ensures CleanTags([JStr(" "), JStr("")]) == [""]
  {
    var items := [JStr(" "), JStr("")];
    assert items[..1] == [JStr(" ")];
    assert items[..1][..0] == [];
    assert TruthyItems(items) == [JStr(" ")];
    assert TrimStart(" ") == [];
  }

  /** Declared order decides: "meeting a friend" hits work ("meeting") and social ("friend"), and is work. */
  lemma MeetingFriendIsWork()
    ensures InferCategory("meeting a friend") == Some("work")
  {
    var text := "meeting a friend";
    LowerOfLower(text);
    assert text[0..] == "meeting" + " a friend";
    assert "meeting" <= text[0..];
    assert Contains(text, CategoryTable[0].1[1]);
  }
}
