/**
  Recovery of JSON from a language-model reply (ai/groq_client.py).

  `json.loads` is the parameter `parse`: `parse(s) == Some(v)` when `s` is a JSON document
  denoting `v`, and `None` when `json.loads(s)` raises `JSONDecodeError`. Every decoding
  failure of `parse_task_from_nl` is raised as `ValueError("Invalid JSON response from LLM: ...")`;
  here it is an `Err` carrying the cause.
*/
module Decoder {
  import opened Wrappers
  import opened Text
  import opened Json

  /** Why a reply could not be turned into a list of task objects. */
  datatype DecodeError =
    | NoJsonStructure      // no usable `[...]` and no `{...}` span after a failed direct parse
    | JsonDecodeError      // the `{...}` span did not parse either
    | NeitherDictNorList   // the JSON value is a string, number, boolean or null

  const JsonFence: string := "```json"
  const Fence: string := "```"

  /** Everything after the first `sep` of `s`. */
  function After(s: string, sep: string): string
    requires Contains(s, sep)
  {
    s[Find(s, sep) + |sep|..]
  }

  /** The code-fence removal of lines 129-132: `content` is already stripped. */
  function Unfence(content: string): string {
    if Contains(content, JsonFence) then Strip(Head(Second(content, JsonFence), Fence))
    else if Contains(content, Fence) then Strip(Head(Second(content, Fence), Fence))
    else content
  }

  /**
    The first "```" of `rest` does not begin inside the first "```json" of it without being it,
    as it would in "``" + "```json": four or more backticks in a row right before "json".
  */
  predicate FenceStartsCleanly(rest: string) {
    var i := Find(rest, JsonFence);
    var j := Find(rest, Fence);
    i == -1 || i == j || j + |Fence| <= i
  }

  /**
    A "```json" fence yields the stripped text between it and the next "```"; otherwise a
    plain fence yields the stripped text between the first two "```", language tag included;
    a reply without fences is left alone. No fence survives the cut.
  */
  lemma UnfenceMeaning(content: string)
    ensures Contains(content, JsonFence) && FenceStartsCleanly(After(content, JsonFence)) ==>
      Unfence(content) == Strip(Head(After(content, JsonFence), Fence))
    ensures !Contains(content, JsonFence) && Contains(content, Fence) ==>
      Unfence(content) == Strip(Head(After(content, Fence), Fence))
    ensures !Contains(content, Fence) ==> Unfence(content) == content
    ensures Contains(content, Fence) ==> !Contains(Unfence(content), Fence)
  {
    assert JsonFence == Fence + "json";
    if Contains(content, JsonFence) {
      var rest := After(content, JsonFence);
      if FenceStartsCleanly(rest) {
        HeadOfHead(rest, JsonFence, Fence);
      }
      var cut := Head(Second(content, JsonFence), Fence);
      HeadLacksSeparator(Second(content, JsonFence), Fence);
      ContainsOfStrip(cut, Fence);
    } else if Contains(content, Fence) {
      var rest := After(content, Fence);
      HeadOfHead(rest, Fence, Fence);
      var cut := Head(Second(content, Fence), Fence);
      HeadLacksSeparator(Second(content, Fence), Fence);
      ContainsOfStrip(cut, Fence);
    } else {
      assert !Contains(content, JsonFence) by {
        forall i | 0 <= i <= |content| - |JsonFence|
          ensures !(JsonFence <= content[i..])
        {
          assert !(Fence <= content[i..]);
        }
      }
    }
  }

  /** `content[start:end + 1]` when both positions were found and `end > start`. */
  function Span(content: string, start: int, end: int): Option<string>
    requires -1 <= start < |content| && -1 <= end < |content|
  {
    if start != -1 && end != -1 && end > start then Some(content[start..end + 1]) else None
  }

  /** The array candidate of lines 140-147: from the first `[` to the last `]`, tried only when no `{` comes first. */
  function ArraySpan(content: string): Option<string> {
    var bracketStart := Find(content, "[");
    var braceStart := Find(content, "{");
    if braceStart == -1 || bracketStart < braceStart then Span(content, bracketStart, RFind(content, ']'))
    else None
  }

  /** The object candidate of lines 142-143 and 156: from the first `{` to the last `}`. */
  function ObjectSpan(content: string): Option<string> {
    Span(content, Find(content, "{"), RFind(content, '}'))
  }

  /** The span from the first `open` to the last `close`, as a predicate on positions. */
  predicate SpanBetween(content: string, open: char, close: char, t: string) {
    exists a, b ::
      && 0 <= a < b < |content|
      && t == content[a..b + 1]
      && content[a] == open && content[b] == close
      && (forall k :: 0 <= k < a ==> content[k] != open)
      && (forall k :: b < k < |content| ==> content[k] != close)
  }

  /** Some `open` has a `close` after it. */
  predicate Delimited(content: string, open: char, close: char) {
    exists a, b :: 0 <= a < b < |content| && content[a] == open && content[b] == close
  }

  lemma SpanOfChars(content: string, open: char, close: char)
    requires open != close
    ensures var s := Span(content, Find(content, [open]), RFind(content, close));
      && (s.Some? <==> Delimited(content, open, close))
      && (s.Some? ==> SpanBetween(content, open, close, s.value))
  {
    FindChar(content, open);
    var a := Find(content, [open]);
    var b := RFind(content, close);
    if a != -1 && b != -1 && b > a {
      assert content[a] == open && content[b] == close;
      assert forall k :: 0 <= k < a ==> content[k] != open;
      assert SpanBetween(content, open, close, content[a..b + 1]);
    } else if Delimited(content, open, close) {
      DelimitedHasSpan(content, open, close);
    }
  }

  lemma DelimitedHasSpan(content: string, open: char, close: char)
    requires Delimited(content, open, close)
    ensures var a := Find(content, [open]); var b := RFind(content, close); a != -1 && b != -1 && b > a
  {
    FindChar(content, open);
    var a', b' :| 0 <= a' < b' < |content| && content[a'] == open && content[b'] == close;
    var a := Find(content, [open]);
    assert a != -1;
    assert a <= a';
  }

  /**
    The object candidate exists exactly when some `{` has a `}` after it, and it runs from the
    first `{` to the last `}`.
  */
  lemma ObjectSpanMeaning(content: string)
    ensures ObjectSpan(content).Some? <==> Delimited(content, '{', '}')
    ensures ObjectSpan(content).Some? ==> SpanBetween(content, '{', '}', ObjectSpan(content).value)
  {
    SpanOfChars(content, '{', '}');
  }

  /**
    The array candidate exists exactly when some `[` has a `]` after it and no `{` comes
    before the first `[`; it runs from the first `[` to the last `]`.
  */
  lemma ArraySpanMeaning(content: string)
    ensures ArraySpan(content).Some? <==>
      && Delimited(content, '[', ']')
      && forall k :: 0 <= k < |content| && content[k] == '{' ==> exists m :: 0 <= m < k && content[m] == '['
    ensures ArraySpan(content).Some? ==> SpanBetween(content, '[', ']', ArraySpan(content).value)
  {
    SpanOfChars(content, '[', ']');
    FindChar(content, '[');
    FindChar(content, '{');
    var bracketStart := Find(content, "[");
    var braceStart := Find(content, "{");
    if braceStart != -1 && bracketStart >= 0 && bracketStart < braceStart {
      forall k | 0 <= k < |content| && content[k] == '{'
        ensures exists m :: 0 <= m < k && content[m] == '['
      {
        assert content[bracketStart] == '[';
      }
    }
    if braceStart != -1 && (bracketStart == -1 || bracketStart > braceStart) {
      assert content[braceStart] == '{';
      assert !exists m :: 0 <= m < braceStart && content[m] == '[';
    }
  }

  /**
    Lines 135-159: a direct parse, then the array candidate, then the object candidate.
    The direct parse wins when it succeeds; an array candidate that fails to parse falls
    through to the object candidate; a failing object candidate is a decode error.
  */
  function RecoverJson(content: string, parse: string -> Option<Value>): (r: Result<Value, DecodeError>)
    ensures parse(content).Some? ==> r == Ok(parse(content).value)
    ensures r.Ok? ==> || parse(content) == Some(r.value)
                      || (ArraySpan(content).Some? && parse(ArraySpan(content).value) == Some(r.value))
                      || (ObjectSpan(content).Some? && parse(ObjectSpan(content).value) == Some(r.value))
    ensures parse(content).None? && ArraySpan(content).Some? && parse(ArraySpan(content).value).Some? ==>
      r == Ok(parse(ArraySpan(content).value).value)
    ensures r == Err(NoJsonStructure) <==>
      && parse(content).None?
      && (ArraySpan(content).None? || parse(ArraySpan(content).value).None?)
      && ObjectSpan(content).None?
    ensures r == Err(JsonDecodeError) <==>
      && parse(content).None?
      && (ArraySpan(content).None? || parse(ArraySpan(content).value).None?)
      && ObjectSpan(content).Some? && parse(ObjectSpan(content).value).None?
    ensures r != Err(NeitherDictNorList)
  {
    match parse(content)
    case Some(v) => Ok(v)
    case None =>
      var arrayCandidate := ArraySpan(content);
      if arrayCandidate.Some? && parse(arrayCandidate.value).Some? then Ok(parse(arrayCandidate.value).value)
      else
        match ObjectSpan(content)
        case None => Err(NoJsonStructure)
        case Some(objectCandidate) =>
          if parse(objectCandidate).Some? then Ok(parse(objectCandidate).value) else Err(JsonDecodeError)
  }

  /** Lines 161-167: an object becomes a one-element list, an array is kept as it is. */
  function Normalize(v: Value): (r: Result<seq<Value>, DecodeError>)
    ensures r.Ok? <==> v.JObj? || v.JArr?
    ensures v.JObj? ==> r == Ok([v])
    ensures v.JArr? ==> r == Ok(v.items)
    ensures r.Err? ==> r.error == NeitherDictNorList
  {
    match v
    case JObj(_) => Ok([v])
    case JArr(items) => Ok(items)
    case _ => Err(NeitherDictNorList)
  }

  /** The decoding part of `parse_task_from_nl`, lines 124-171. */
  function DecodeTaskList(response: string, parse: string -> Option<Value>): Result<seq<Value>, DecodeError> {
    var content := Unfence(Strip(response));
    match RecoverJson(content, parse)
    case Err(e) => Err(e)
    case Ok(v) => Normalize(v)
  }

  /**
    A decoded list is either the one object recovered or the items of the array recovered;
    a recovered scalar is the only source of `NeitherDictNorList`.
  */
  lemma DecodeTaskListMeaning(response: string, parse: string -> Option<Value>)
    ensures var content := Unfence(Strip(response)); var r := DecodeTaskList(response, parse);
      r.Ok? ==> || (RecoverJson(content, parse) == Ok(JArr(r.value)))
                || (|r.value| == 1 && r.value[0].JObj? && RecoverJson(content, parse) == Ok(r.value[0]))
    ensures var content := Unfence(Strip(response));
      DecodeTaskList(response, parse) == Err(NeitherDictNorList) <==>
        RecoverJson(content, parse).Ok? && !RecoverJson(content, parse).value.JObj? && !RecoverJson(content, parse).value.JArr?
    ensures var r := DecodeTaskList(response, parse);
      r.Err? ==> RecoverJson(Unfence(Strip(response)), parse) == Err(r.error) || r.error == NeitherDictNorList
  {
  }

  /** A reply that is an empty JSON array decodes to an empty list, not to an error. */
  lemma EmptyArrayDecodesEmpty(response: string, parse: string -> Option<Value>)
    requires parse(Unfence(Strip(response))) == Some(JArr([]))
    ensures DecodeTaskList(response, parse) == Ok([])
  {
  }

  /**
    Lines 212-218 of ai/groq_client.py and 125-131 of ai/agent.py: the text from the first `{`
    through the last `}` when there is such a span, else the whole reply.
  */
  function BraceSliceOrWhole(response: string): string {
    var startIdx := Find(response, "{");
    var endIdx := RFind(response, '}') + 1;
    if startIdx != -1 && endIdx > startIdx then response[startIdx..endIdx] else response
  }

  /** The brace slice is the object candidate of the task decoder, when that exists. */
  lemma BraceSliceIsObjectSpan(response: string)
    ensures BraceSliceOrWhole(response) == if ObjectSpan(response).Some? then ObjectSpan(response).value else response
  {
    FindChar(response, '{');
  }

  /** The text-search filter used when a reply cannot be decoded. */
  function TextSearchFilter(query: string): Value {
    JObj([("search_text", JStr(query))])
  }

  /** `search_query_to_filters`, lines 210-221, on the model's `response`. */
  function SearchQueryToFilters(response: string, query: string, parse: string -> Option<Value>): (r: Value)
    ensures parse(BraceSliceOrWhole(response)).Some? ==> r == parse(BraceSliceOrWhole(response)).value
    ensures parse(BraceSliceOrWhole(response)).None? ==> r == TextSearchFilter(query)
  {
    match parse(BraceSliceOrWhole(response))
    case Some(v) => v
    case None => TextSearchFilter(query)
  }

  /** An unparsable reply becomes a text search for exactly the query, under the one key "search_text". */
  lemma UnparsableSearchIsTextSearch(response: string, query: string, parse: string -> Option<Value>)
    requires parse(BraceSliceOrWhole(response)).None?
    ensures var r := SearchQueryToFilters(response, query, parse);
      r.JObj? && Get(r.fields, "search_text") == Some(JStr(query)) && |r.fields| == 1
  {
  }
}
