/**
  The values `json.loads` produces, with the two Python operations the core
  applies to them: truthiness (`if value:`) and `str(value)`.
  An object keeps its key/value pairs in the order they were decoded, as a
  Python dict does; looking a key up finds its last binding, as a Python dict
  built from duplicate keys would.
*/
module Json {
  import opened Wrappers

  datatype Value =
    | JNull
    | JBool(b: bool)
    | JInt(i: int)
    | JStr(s: string)
    | JArr(items: seq<Value>)
    | JObj(fields: Dict)

  type Dict = seq<(string, Value)>

  /** `d.get(key)`, or None when the key is absent. */
  function Get(d: Dict, key: string): (r: Option<Value>)
    ensures r.Some? <==> exists i :: 0 <= i < |d| && d[i].0 == key
    ensures r.Some? ==> exists i :: 0 <= i < |d| && d[i] == (key, r.value)
  {
    if d == [] then None
    else if d[|d| - 1].0 == key then Some(d[|d| - 1].1)
    else Get(d[..|d| - 1], key)
  }

  /** `key in d` */
  predicate Has(d: Dict, key: string) {
    Get(d, key).Some?
  }

  /** `d.get(key, default)` */
  function GetOr(d: Dict, key: string, default: Value): Value {
    Get(d, key).GetOr(default)
  }

  /** `bool(v)`: None, False, 0 and empty strings, lists and dicts are falsy. */
  predicate Truthy(v: Value) {
    match v
    case JNull => false
    case JBool(b) => b
    case JInt(i) => i != 0
    case JStr(s) => s != []
    case JArr(items) => items != []
    case JObj(fields) => fields != []
  }

  function DigitChar(d: nat): char
    requires d < 10
  {
    "0123456789"[d]
  }

  function NatToString(n: nat): string
    decreases n
  {
    if n < 10 then [DigitChar(n)] else NatToString(n / 10) + [DigitChar(n % 10)]
  }

  /** `str(i)` for an integer. */
  function IntToString(i: int): string {
    if i < 0 then "-" + NatToString(-i) else NatToString(i)
  }

  /** `str(v)` */
  function StrOf(v: Value): string
    decreases v, 1
  {
    match v
    case JNull => "None"
    case JBool(b) => if b then "True" else "False"
    case JInt(i) => IntToString(i)
    case JStr(s) => s
    case JArr(items) => "[" + ReprItems(v, 0) + "]"
    case JObj(fields) => "{" + ReprFields(v, 0) + "}"
  }

  /** `repr(v)`: like `str(v)`, with strings in single quotes. */
  function ReprOf(v: Value): string
    decreases v, 2
  {
    if v.JStr? then "'" + v.s + "'" else StrOf(v)
  }

  /** The items of an array from position `from` on, in repr form, separated by ", ". */
  function ReprItems(v: Value, from: nat): string
    requires v.JArr? && from <= |v.items|
    decreases v, 0, |v.items| - from
  {
    if from == |v.items| then ""
    else
      var item := v.items[from];
      var sep := if from + 1 < |v.items| then ", " else "";
      ReprOf(item) + sep + ReprItems(v, from + 1)
  }

  /** The pairs of an object from position `from` on, as "key: value" in repr form, separated by ", ". */
  function ReprFields(v: Value, from: nat): string
    requires v.JObj? && from <= |v.fields|
    decreases v, 0, |v.fields| - from
  {
    if from == |v.fields| then ""
    else
      var pair := v.fields[from];
      assert pair in v.fields;
      assert pair.1 < pair;
      var sep := if from + 1 < |v.fields| then ", " else "";
      "'" + pair.0 + "': " + ReprOf(pair.1) + sep + ReprFields(v, from + 1)
  }

  /** A key bound in the second part of a dict is looked up there; otherwise in the first. */
  lemma {:induction false} GetAppend(d1: Dict, d2: Dict, key: string)
    ensures Get(d1 + d2, key) == if Get(d2, key).Some? then Get(d2, key) else Get(d1, key)
  {
    if d2 != [] {
      var d := d1 + d2;
      assert d[|d| - 1] == d2[|d2| - 1];
      assert d[..|d| - 1] == d1 + d2[..|d2| - 1];
      GetAppend(d1, d2[..|d2| - 1], key);
    } else {
      assert d1 + d2 == d1;
    }
  }

  /** A dict display whose entries may be left out: the entries whose value is present, in order. */
  function DictOf(es: seq<(string, Option<Value>)>): Dict {
    if es == [] then []
    else
      var last := es[|es| - 1];
      DictOf(es[..|es| - 1]) + (if last.1.Some? then [(last.0, last.1.value)] else [])
  }

  predicate DistinctKeys(es: seq<(string, Option<Value>)>) {
    forall i, j :: 0 <= i < j < |es| ==> es[i].0 != es[j].0
  }

  /** Looking up a key of a dict display finds the value it was given, or nothing. */
  lemma {:induction false} GetDictOf(es: seq<(string, Option<Value>)>, key: string)
    requires DistinctKeys(es)
    ensures forall i :: 0 <= i < |es| && es[i].0 == key ==> Get(DictOf(es), key) == es[i].1
    ensures (forall i :: 0 <= i < |es| ==> es[i].0 != key) ==> Get(DictOf(es), key) == None
  {
    if es != [] {
      var init := es[..|es| - 1];
      var last := es[|es| - 1];
      assert DistinctKeys(init) by {
        assert forall i :: 0 <= i < |init| ==> init[i] == es[i];
      }
      GetDictOf(init, key);
      GetAppend(DictOf(init), if last.1.Some? then [(last.0, last.1.value)] else [], key);
      assert forall i :: 0 <= i < |init| ==> init[i] == es[i];
    }
  }
}
