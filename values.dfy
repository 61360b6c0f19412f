/** Parsed YAML and JSON documents as the Python code sees them: `None`,
    booleans, integers, strings, lists and string-keyed mappings. A mapping
    keeps its keys in insertion order, as a Python `dict` does; a parser never
    produces the same key twice, and lookups take the first entry. */
module Values {
  import opened Wrappers
  import opened Text

  datatype Value =
    | VNone
    | VBool(b: bool)
    | VInt(i: int)
    | VStr(s: string)
    | VList(items: seq<Value>)
    | VDict(entries: seq<(string, Value)>)

  type Dict = seq<(string, Value)>

  /** Python truthiness, which decides every `x or y` and `if not x`. */
  predicate Truthy(v: Value) {
    match v
    case VNone => false
    case VBool(b) => b
    case VInt(i) => i != 0
    case VStr(s) => s != []
    case VList(items) => items != []
    case VDict(entries) => entries != []
  }

  /** `d.get(k)` */
  function Lookup(d: Dict, k: string): Option<Value> {
    if d == [] then None
    else if d[0].0 == k then Some(d[0].1)
    else Lookup(d[1..], k)
  }

  /** `k in d` */
  predicate HasKey(d: Dict, k: string) {
    Lookup(d, k).Some?
  }

  /** `d.get(k, default)` */
  function LookupOr(d: Dict, k: string, default: Value): Value {
    Lookup(d, k).GetOr(default)
  }

  /** `list(d.keys())`, in insertion order. */
  function Keys(d: Dict): (ks: seq<string>)
    ensures |ks| == |d| && forall i :: 0 <= i < |d| ==> ks[i] == d[i].0
  {
    if d == [] then [] else [d[0].0] + Keys(d[1..])
  }

  /** `d[k] = v`: an existing key keeps its place, a new key goes last. */
  function Update(d: Dict, k: string, v: Value): (r: Dict)
    ensures HasKey(d, k) ==> Keys(r) == Keys(d)
    ensures !HasKey(d, k) ==> Keys(r) == Keys(d) + [k]
  {
    if d == [] then [(k, v)]
    else if d[0].0 == k then
      var r := [(k, v)] + d[1..];
      assert r[1..] == d[1..];
      assert Keys(r) == [k] + Keys(d[1..]);
      r
    else
      var rest := Update(d[1..], k, v);
      var r := [d[0]] + rest;
      assert r[0] == d[0] && r[1..] == rest;
      assert Keys(r) == [d[0].0] + Keys(rest);
      assert Keys(d) == [d[0].0] + Keys(d[1..]);
      r
  }

  lemma LookupUpdate(d: Dict, k: string, v: Value, k': string)
    ensures Lookup(Update(d, k, v), k') == if k' == k then Some(v) else Lookup(d, k')
  {
  }

  /** `isinstance(v, collections.abc.Sequence)`: lists and strings. */
  predicate IsSequence(v: Value) {
    v.VList? || v.VStr?
  }

  /** `list(v)`: a list's items, a string's characters, a mapping's keys;
      anything else raises `TypeError`. */
  function ListOf(v: Value): (r: Result<seq<Value>>)
    ensures r.Ok? <==> (IsSequence(v) || v.VDict?)
    ensures v.VList? ==> r == Ok(v.items)
    ensures r.Ok? ==> (|r.value| == 0 <==> !Truthy(v))
  {
    match v
    case VList(items) => Ok(items)
    case VStr(s) => Ok(seq(|s|, i requires 0 <= i < |s| => VStr([s[i]])))
    case VDict(entries) => Ok(seq(|entries|, i requires 0 <= i < |entries| => VStr(entries[i].0)))
    case _ => Err("TypeError: object is not iterable")
  }

  /** `repr(v)`. */
  function Repr(v: Value): string
    decreases v
  {
    match v
    case VNone => "None"
    case VBool(b) => if b then "True" else "False"
    case VInt(i) => IntToDecimal(i)
    case VStr(s) => "'" + s + "'"
    case VList(items) => "[" + ReprItems(v, 0) + "]"
    case VDict(entries) => "{" + ReprEntries(v, 0) + "}"
  }

  /** The items of list `v` from position `i` on, as `repr` separates them. */
  function ReprItems(v: Value, i: nat): string
    requires v.VList? && i <= |v.items|
    decreases v, |v.items| - i
  {
    if i == |v.items| then []
    else if i + 1 == |v.items| then Repr(v.items[i])
    else Repr(v.items[i]) + ", " + ReprItems(v, i + 1)
  }

  /** The entries of mapping `v` from position `i` on, as `repr` separates them. */
  function ReprEntries(v: Value, i: nat): string
    requires v.VDict? && i <= |v.entries|
    decreases v, |v.entries| - i
  {
    if i == |v.entries| then []
    else
      var first := "'" + v.entries[i].0 + "': " + Repr(v.entries[i].1);
      if i + 1 == |v.entries| then first else first + ", " + ReprEntries(v, i + 1)
  }

  /** `str(v)`: a string is itself, anything else its `repr`. */
  function PyStr(v: Value): string {
    if v.VStr? then v.s else Repr(v)
  }
}
