/**
 The JSON-like values the cloud client hands the exporter (site and device
 snapshots, nested mappings, lists, scalars), together with the few Python
 operations the exporter applies to them: truthiness, `dict.get`, `a or b`,
 `str()` and the `x or {}` idiom that precedes a nested `.get`.
 */
module Json {
  import opened Optional
  import opened Decimal

  /** A Python value as it appears in a snapshot. A mapping keeps its insertion order. */
  datatype Value =
    | VNone
    | VBool(b: bool)
    | VInt(i: int)
    | VReal(r: real)
    | VStr(s: string)
    | VMap(entries: seq<(string, Value)>)
    | VList(items: seq<Value>)
    | VOther

  /** A Python dict with string keys, in insertion order. */
  type Dict = seq<(string, Value)>

  /** Python truthiness: None, False, zero and empty containers are false; everything else is true. */
  predicate Truthy(v: Value) {
    match v
    case VNone => false
    case VBool(b) => b
    case VInt(i) => i != 0
    case VReal(x) => x != 0.0
    case VStr(s) => |s| > 0
    case VMap(e) => |e| > 0
    case VList(xs) => |xs| > 0
    case VOther => true
  }

  predicate HasKey(d: Dict, key: string) {
    exists i | 0 <= i < |d| :: d[i].0 == key
  }

  predicate DistinctKeys(d: Dict) {
    forall i, j | 0 <= i < j < |d| :: d[i].0 != d[j].0
  }

  /** `d.get(key)`: the value stored under key, or None when key is absent. */
  function Get(d: Dict, key: string): Value {
    if |d| == 0 then VNone
    else if d[0].0 == key then d[0].1
    else
      assert d == [d[0]] + d[1..];
      Get(d[1..], key)
  }

  /** `get` returns None for a missing key, and otherwise a value stored under the key. */
  lemma {:induction false} GetSound(d: Dict, key: string)
    ensures !HasKey(d, key) ==> Get(d, key) == VNone
    ensures Get(d, key) != VNone ==> (key, Get(d, key)) in d
  {
    if |d| > 0 && d[0].0 != key {
      GetSound(d[1..], key);
      assert forall i | 1 <= i < |d| :: d[i] == d[1..][i - 1];
    }
  }

  /** In a real dict (distinct keys) `get` finds the entry stored under the key. */
  lemma {:induction false} GetFindsEntry(d: Dict, key: string, v: Value)
    requires DistinctKeys(d) && (key, v) in d
    ensures Get(d, key) == v
  {
    if d[0] != (key, v) {
      var i :| 0 <= i < |d| && d[i] == (key, v);
      assert i > 0 && d[0].0 != key;
      assert d[1..][i - 1] == (key, v);
      GetFindsEntry(d[1..], key, v);
    }
  }

  /** Python's `a or b`. */
  function Or(a: Value, b: Value): (r: Value)
    ensures Truthy(a) ==> r == a
    ensures !Truthy(a) ==> r == b
  {
    if Truthy(a) then a else b
  }

  /**
   The mapping `v or {}` on which the exporter then calls `.get`: empty when v
   is falsy, v's entries when v is a mapping, and None when v is a truthy
   non-mapping, on which the following `.get` raises AttributeError.
   */
  function DictOrEmpty(v: Value): (r: Option<Dict>)
    ensures r.None? <==> Truthy(v) && !v.VMap?
    ensures v.VMap? ==> r == Some(v.entries)
    ensures !Truthy(v) ==> r == Some([])
  {
    if !Truthy(v) then Some([])
    else if v.VMap? then Some(v.entries)
    else None
  }

  /** What `str()` prints for values whose text the exporter never relies on. */
  const ReprStandIn: string := "<repr>"

  /**
   Python's `str(v)`. Strings, integers, booleans and None are rendered exactly,
   as are floats holding a whole number below 10^16 in magnitude and empty
   containers; any other float, container or object is rendered as ReprStandIn.
   */
  function Str(v: Value): (r: string)
    ensures Truthy(v) ==> |r| > 0
  {
    match v
    case VNone => "None"
    case VBool(b) => if b then "True" else "False"
    case VInt(i) => IntText(i)
    case VReal(x) =>
      if x == x.Floor as real && -10000000000000000.0 < x < 10000000000000000.0
      then IntText(x.Floor) + ".0" else ReprStandIn
    case VStr(s) => s
    case VMap(e) => if |e| == 0 then "{}" else ReprStandIn
    case VList(xs) => if |xs| == 0 then "[]" else ReprStandIn
    case VOther => ReprStandIn
  }

  /** `s.lower()` on ASCII letters; other characters are kept. */
  function AsciiLower(s: string): (r: string)
    ensures |r| == |s|
    ensures forall i | 0 <= i < |s| :: ('A' <= s[i] <= 'Z') == (r[i] != s[i])
  {
    if |s| == 0 then ""
    else
      var c := s[0];
      var lc := if 'A' <= c <= 'Z' then (c as int + 32) as char else c;
      var rest := AsciiLower(s[1..]);
      assert s == [s[0]] + s[1..];
      [lc] + rest
  }

  predicate IsPrefix(t: string, s: string) {
    |t| <= |s| && s[..|t|] == t
  }

  /** Python's `t in s` for strings: t occurs in s as a contiguous substring. */
  predicate Contains(s: string, t: string)
    decreases |s|
  {
    IsPrefix(t, s) || (|s| > 0 && Contains(s[1..], t))
  }
}
