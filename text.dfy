/**
  The string operations of Python that the task pipeline relies on: `lower()`,
  `upper()`, `sub in s`, `find()`, `rfind()`, `split(sep)`, `strip()`,
  `split()` with no separator and `" ".join(...)`.
  Case mapping is ASCII only; whitespace is the set `str.isspace()` accepts.
*/
module Text {

  /** Python's `str.isspace()` for a single character. */
  predicate IsSpace(c: char) {
    || c == ' '
    || ('\t' <= c <= '\r')
    || ('\U{1C}' <= c <= '\U{1F}')
    || c == '\U{85}' || c == '\U{A0}' || c == '\U{1680}'
    || ('\U{2000}' <= c <= '\U{200A}')
    || c == '\U{2028}' || c == '\U{2029}' || c == '\U{202F}' || c == '\U{205F}' || c == '\U{3000}'
  }

  function LowerChar(c: char): char {
    if 'A' <= c <= 'Z' then (c as int + 32) as char else c
  }

  function UpperChar(c: char): char {
    if 'a' <= c <= 'z' then (c as int - 32) as char else c
  }

  /** `s.lower()` */
  function Lower(s: string): string {
    seq(|s|, i requires 0 <= i < |s| => LowerChar(s[i]))
  }

  /** `sub in s`: `sub` occurs in `s` at some position (the empty string occurs everywhere). */
  predicate Contains(s: string, sub: string) {
    exists i :: 0 <= i <= |s| - |sub| && sub <= s[i..]
  }

  /** The first position from `i` on at which `sub` occurs, or -1. */
  function FindFrom(s: string, sub: string, i: nat): (r: int)
    requires i <= |s|
    ensures r == -1 || i <= r <= |s| - |sub|
    ensures r >= 0 ==> sub <= s[r..] && forall j :: i <= j < r ==> !(sub <= s[j..])
    ensures r == -1 <==> forall j :: i <= j <= |s| - |sub| ==> !(sub <= s[j..])
    decreases |s| - i
  {
    if i + |sub| > |s| then -1
    else if sub <= s[i..] then i
    else if i == |s| then -1
    else FindFrom(s, sub, i + 1)
  }

  /** `s.find(sub)`: the first position at which `sub` occurs, or -1. */
  function Find(s: string, sub: string): (r: int)
    ensures r == -1 || 0 <= r <= |s| - |sub|
    ensures r >= 0 ==> sub <= s[r..] && forall j :: 0 <= j < r ==> !(sub <= s[j..])
    ensures r == -1 <==> !Contains(s, sub)
  {
    FindFrom(s, sub, 0)
  }

  /** `s.rfind(c)` for a single character: the last position holding `c`, or -1. */
  function RFind(s: string, c: char): (r: int)
    ensures -1 <= r < |s|
    ensures r >= 0 ==> s[r] == c
    ensures forall j :: r < j < |s| ==> s[j] != c
  {
    if s == [] then -1
    else if s[|s| - 1] == c then |s| - 1
    else RFind(s[..|s| - 1], c)
  }

  /** `s.split(sep)[0]`: the text before the first `sep`, or all of `s`. */
  function Head(s: string, sep: string): string
    requires sep != []
  {
    var i := Find(s, sep);
    if i < 0 then s else s[..i]
  }

  /** `s.split(sep)[1]`: the text between the first `sep` and the next one (or the end). */
  function Second(s: string, sep: string): string
    requires sep != [] && Contains(s, sep)
  {
    var i := Find(s, sep);
    Head(s[i + |sep|..], sep)
  }

  function TrimStart(s: string): string {
    if s != [] && IsSpace(s[0]) then TrimStart(s[1..]) else s
  }

  function TrimEnd(s: string): string {
    if s != [] && IsSpace(s[|s| - 1]) then TrimEnd(s[..|s| - 1]) else s
  }

  /** `lstrip()` removes the leading whitespace and nothing else. */
  lemma {:induction false} TrimStartMeaning(s: string)
    ensures var r := TrimStart(s); |r| <= |s| && r == s[|s| - |r|..]
    ensures var r := TrimStart(s); r == [] || !IsSpace(r[0])
    ensures forall i :: 0 <= i < |s| - |TrimStart(s)| ==> IsSpace(s[i])
  {
    if s != [] && IsSpace(s[0]) {
      TrimStartMeaning(s[1..]);
    }
  }

  /** `rstrip()` removes the trailing whitespace and nothing else. */
  lemma {:induction false} TrimEndMeaning(s: string)
    ensures var r := TrimEnd(s); |r| <= |s| && r == s[..|r|]
    ensures var r := TrimEnd(s); r == [] || !IsSpace(r[|r| - 1])
    ensures forall i :: |TrimEnd(s)| <= i < |s| ==> IsSpace(s[i])
  {
    if s != [] && IsSpace(s[|s| - 1]) {
      TrimEndMeaning(s[..|s| - 1]);
    }
  }

  /** `s.strip()` */
  function Strip(s: string): string {
    TrimEnd(TrimStart(s))
  }

  /** Neither the first nor the last character is whitespace. */
  predicate Stripped(s: string) {
    s == [] || (!IsSpace(s[0]) && !IsSpace(s[|s| - 1]))
  }

  /** Length of the run of non-space characters at the start of `s`. */
  function WordLength(s: string): (n: nat)
    ensures n <= |s|
    ensures forall i :: 0 <= i < n ==> !IsSpace(s[i])
    ensures n < |s| ==> IsSpace(s[n])
  {
    if s == [] || IsSpace(s[0]) then 0 else 1 + WordLength(s[1..])
  }

  predicate IsWord(w: string) {
    w != [] && forall i :: 0 <= i < |w| ==> !IsSpace(w[i])
  }

  /** `s.split()`: the maximal runs of non-space characters, in order. */
  function Words(s: string): (ws: seq<string>)
    ensures forall i :: 0 <= i < |ws| ==> IsWord(ws[i])
    decreases |s|
  {
    if s == [] then []
    else if IsSpace(s[0]) then Words(s[1..])
    else
      var n := WordLength(s);
      [s[..n]] + Words(s[n..])
  }

  /** `sep.join(ws)` */
  function Join(sep: string, ws: seq<string>): string {
    if ws == [] then []
    else if |ws| == 1 then ws[0]
    else ws[0] + sep + Join(sep, ws[1..])
  }

  /** Whitespace appears only as single spaces between two non-space characters. */
  predicate Collapsed(s: string) {
    && Stripped(s)
    && forall i :: 0 <= i < |s| && IsSpace(s[i]) ==> s[i] == ' ' && i + 1 < |s| && !IsSpace(s[i + 1])
  }

  /** Upper-cases the first character of a non-empty string. */
  function Capitalize(s: string): string {
    if s == [] then s else [UpperChar(s[0])] + s[1..]
  }

  lemma StripIsStripped(s: string)
    ensures Stripped(Strip(s))
  {
    var t := TrimStart(s);
    var r := TrimEnd(t);
    TrimStartMeaning(s);
    TrimEndMeaning(t);
    if r != [] {
      assert r[0] == t[0];
    }
  }

  lemma StrippedStripsToItself(s: string)
    requires Stripped(s)
    ensures Strip(s) == s
  {
  }

  /** Stripping twice is stripping once. */
  lemma StripIdempotent(s: string)
    ensures Strip(Strip(s)) == Strip(s)
  {
    StripIsStripped(s);
    StrippedStripsToItself(Strip(s));
  }

  lemma WordLengthOfWord(w: string, t: string)
    requires IsWord(w)
    requires t == [] || IsSpace(t[0])
    ensures WordLength(w + t) == |w|
  {
    assert forall k :: 0 <= k < |w| ==> (w + t)[k] == w[k];
    assert t != [] ==> (w + t)[|w|] == t[0];
  }

  /** Joining words with single spaces gives a collapsed string. */
  lemma {:induction false} JoinCollapsed(ws: seq<string>)
    requires forall i :: 0 <= i < |ws| ==> IsWord(ws[i])
    ensures Collapsed(Join(" ", ws))
    ensures ws != [] ==> Join(" ", ws) != [] && Join(" ", ws)[0] == ws[0][0]
  {
    if |ws| == 1 {
      var w := ws[0];
      assert Join(" ", ws) == w;
    } else if |ws| > 1 {
      var w := ws[0];
      var rest := Join(" ", ws[1..]);
      JoinCollapsed(ws[1..]);
      var j := Join(" ", ws);
      assert j == w + " " + rest;
      assert forall k :: 0 <= k < |w| ==> j[k] == w[k];
      forall i | 0 <= i < |j| && IsSpace(j[i])
        ensures j[i] == ' ' && i + 1 < |j| && !IsSpace(j[i + 1])
      {
        if i == |w| {
          assert j[i + 1] == rest[0];
        } else if i > |w| {
          assert j[i] == rest[i - |w| - 1];
          assert i + 1 < |j| ==> j[i + 1] == rest[i - |w|];
        }
      }
      assert j[|j| - 1] == rest[|rest| - 1];
    }
  }

  /** Splitting a space-joined list of words gives the words back. */
  lemma {:induction false} WordsOfJoin(ws: seq<string>)
    requires forall i :: 0 <= i < |ws| ==> IsWord(ws[i])
    ensures Words(Join(" ", ws)) == ws
  {
    if |ws| == 1 {
      var w := ws[0];
      WordLengthOfWord(w, []);
      assert w + [] == w;
      assert w[|w|..] == [];
    } else if |ws| > 1 {
      var w := ws[0];
      var rest := Join(" ", ws[1..]);
      var j := Join(" ", ws);
      assert j == w + (" " + rest);
      WordLengthOfWord(w, " " + rest);
      assert j[..|w|] == w;
      assert j[|w|..] == " " + rest;
      assert (" " + rest)[1..] == rest;
      WordsOfJoin(ws[1..]);
    }
  }

  /** `" ".join(s.split())` keeps the words of `s` and collapses the whitespace between them. */
  lemma CollapseKeepsWords(s: string)
    ensures Collapsed(Join(" ", Words(s)))
    ensures Words(Join(" ", Words(s))) == Words(s)
  {
    JoinCollapsed(Words(s));
    WordsOfJoin(Words(s));
  }

  /** Upper-casing the first character keeps a string collapsed. */
  lemma CapitalizeKeepsCollapsed(s: string)
    requires Collapsed(s)
    ensures Collapsed(Capitalize(s))
  {
    if s != [] {
      var c := Capitalize(s);
      assert IsSpace(UpperChar(s[0])) == IsSpace(s[0]);
      assert forall i :: 1 <= i < |s| ==> c[i] == s[i];
    }
  }

  /** The text before the first `sep` does not contain `sep`. */
  lemma HeadLacksSeparator(s: string, sep: string)
    requires sep != []
    ensures !Contains(Head(s, sep), sep)
  {
    var i := Find(s, sep);
    if i >= 0 {
      var h := s[..i];
      forall j | 0 <= j <= |h| - |sep|
        ensures !(sep <= h[j..])
      {
        assert h[j..] <= s[j..];
      }
    }
  }

  /** Lower-casing leaves a string without upper-case ASCII letters unchanged. */
  lemma LowerOfLower(s: string)
    requires forall i :: 0 <= i < |s| ==> !('A' <= s[i] <= 'Z')
    ensures Lower(s) == s
  {
  }

  /** For a one-character `sub`, `find` looks for that character. */
  lemma FindChar(s: string, c: char)
    ensures var r := Find(s, [c]); r >= 0 ==> r < |s| && s[r] == c
    ensures var r := Find(s, [c]); forall k :: 0 <= k < |s| && (r == -1 || k < r) ==> s[k] != c
  {
    var r := Find(s, [c]);
    forall k | 0 <= k < |s|
      ensures [c] <= s[k..] <==> s[k] == c
    {
    }
  }

  /** `strip()` cuts a slice out of `s`, so whatever the result contains `s` contains too. */
  lemma ContainsOfStrip(s: string, sub: string)
    ensures Contains(Strip(s), sub) ==> Contains(s, sub)
  {
    var t := TrimStart(s);
    var r := TrimEnd(t);
    TrimStartMeaning(s);
    TrimEndMeaning(t);
    var a := |s| - |t|;
    assert r == s[a..a + |r|];
    if Contains(r, sub) {
      var i :| 0 <= i <= |r| - |sub| && sub <= r[i..];
      assert r[i..] <= s[a + i..];
    }
  }

  /**
    Cutting `x` at a separator `long` and then at a prefix `short` of it cuts at the first
    `short`, unless that first `short` starts before the first `long` and overlaps it.
  */
  lemma HeadOfHead(x: string, long: string, short: string)
    requires short != [] && short <= long
    requires var i := Find(x, long); var j := Find(x, short); i == -1 || i == j || j + |short| <= i
    ensures Head(Head(x, long), short) == Head(x, short)
  {
    var i := Find(x, long);
    if i >= 0 {
      var j := FirstBefore(x, long, short, i);
      var h := x[..i];
      assert Head(x, long) == h;
      if j + |short| <= i {
        FindInPrefix(x, short, j, i);
      } else {
        NotInPrefix(x, short, j);
      }
    }
  }

  /** The first `short` comes no later than the first `long` that begins with it. */
  lemma FirstBefore(x: string, long: string, short: string, i: int) returns (j: int)
    requires short <= long && i == Find(x, long) && i >= 0
    ensures j == Find(x, short) && 0 <= j <= i
  {
    assert short <= x[i..];
    assert Contains(x, short);
    j := Find(x, short);
  }

  /** A first occurrence of `sub` that ends by `n` is also the first occurrence in `x[..n]`. */
  lemma FindInPrefix(x: string, sub: string, j: int, n: int)
    requires sub != [] && j == Find(x, sub) && j >= 0 && j + |sub| <= n <= |x|
    ensures Find(x[..n], sub) == j
  {
    var h := x[..n];
    assert h[j..j + |sub|] == x[j..j + |sub|];
    assert sub <= h[j..];
    var r := Find(h, sub);
    assert r >= 0;
    assert h[r..] <= x[r..];
  }

  /** Before the first occurrence of `sub`, `sub` does not occur. */
  lemma NotInPrefix(x: string, sub: string, j: int)
    requires sub != [] && j == Find(x, sub) && j >= 0
    ensures !Contains(x[..j], sub)
  {
    var h := x[..j];
    forall k | 0 <= k <= |h| - |sub|
      ensures !(sub <= h[k..])
    {
      assert h[k..] <= x[k..];
    }
  }
}
