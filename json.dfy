/**
 * JSON values as the Python code sees them after `json.load`: None, bools, numbers,
 * strings, lists and dicts.  A dict keeps its insertion order, so it is a sequence of
 * entries; as in a Python dict, a key is looked up at its first (only) entry.
 */
module Json {
  import opened Wrappers
  import opened Text

  /** A Python int or float: its value, and the text `str()` prints for it. */
  datatype Number = Number(value: real, text: string)

  datatype Json =
    | JNull
    | JBool(b: bool)
    | JNum(n: Number)
    | JStr(s: string)
    | JList(items: seq<Json>)
    | JObj(entries: seq<(string, Json)>)

  /** Python's `bool(v)`. */
  predicate Truthy(v: Json) {
    match v
    case JNull => false
    case JBool(b) => b
    case JNum(n) => n.value != 0.0
    case JStr(s) => s != []
    case JList(items) => items != []
    case JObj(entries) => entries != []
  }

  function Keys(entries: seq<(string, Json)>): (ks: seq<string>)
    ensures |ks| == |entries|
  {
    if entries == [] then [] else [entries[0].0] + Keys(entries[1..])
  }

  /** `d[k]` when `k in d`, else None. */
  function Lookup(entries: seq<(string, Json)>, k: string): (r: Option<Json>)
  {
    if entries == [] then None
    else if entries[0].0 == k then Some(entries[0].1)
    else Lookup(entries[1..], k)
  }

  /** A key has a value exactly when it is one of the dict's keys. */
  lemma {:induction false} LookupFindsKeys(entries: seq<(string, Json)>, k: string)
    ensures Lookup(entries, k).Some? <==> k in Keys(entries)
  {
    if entries != [] {
      LookupFindsKeys(entries[1..], k);
      assert Keys(entries) == [entries[0].0] + Keys(entries[1..]);
    }
  }

  lemma LookupCons(e: (string, Json), rest: seq<(string, Json)>)
    ensures forall k :: Lookup([e] + rest, k) == if e.0 == k then Some(e.1) else Lookup(rest, k)
  {
    assert ([e] + rest)[1..] == rest;
  }

  lemma KeysCons(e: (string, Json), rest: seq<(string, Json)>)
    ensures Keys([e] + rest) == [e.0] + Keys(rest)
  {
    assert ([e] + rest)[1..] == rest;
  }

  /** `d.get(k, default)`. */
  function DictGet(entries: seq<(string, Json)>, k: string, default: Json): Json {
    match Lookup(entries, k)
    case Some(v) => v
    case None => default
  }

  /** `d[k] = v`: the value of an existing key is replaced in place, a new key is appended. */
  function Set(entries: seq<(string, Json)>, k: string, v: Json): (r: seq<(string, Json)>)
    ensures Lookup(r, k) == Some(v)
    ensures forall k' :: k' != k ==> Lookup(r, k') == Lookup(entries, k')
  {
    if entries == [] then [(k, v)]
    else if entries[0].0 == k then
      LookupCons((k, v), entries[1..]);
      [(k, v)] + entries[1..]
    else
      var rest := Set(entries[1..], k, v);
      LookupCons(entries[0], rest);
      LookupCons(entries[0], entries[1..]);
      [entries[0]] + rest
  }

  /** Assignment keeps the key order: an existing key stays where it is, a new key goes last. */
  lemma {:induction false} SetKeys(entries: seq<(string, Json)>, k: string, v: Json)
    ensures Keys(Set(entries, k, v)) == if k in Keys(entries) then Keys(entries) else Keys(entries) + [k]
  {
    if entries == [] {
    } else if entries[0].0 == k {
      KeysCons((k, v), entries[1..]);
      KeysCons(entries[0], entries[1..]);
      assert entries == [entries[0]] + entries[1..];
    } else {
      var rest := Set(entries[1..], k, v);
      SetKeys(entries[1..], k, v);
      KeysCons(entries[0], rest);
      KeysCons(entries[0], entries[1..]);
      assert entries == [entries[0]] + entries[1..];
      assert k in Keys(entries) <==> k in Keys(entries[1..]);
      assert [entries[0].0] + (Keys(entries[1..]) + [k]) == ([entries[0].0] + Keys(entries[1..])) + [k];
    }
  }

  /** `d[k] = src[k]` for every key of `keys` whose value in `src` is truthy, in order. */
  function MergeTruthy(entries: seq<(string, Json)>, src: seq<(string, Json)>, keys: seq<string>): (r: seq<(string, Json)>)
    ensures forall k :: k in keys && Truthy(DictGet(src, k, JNull)) ==> Lookup(r, k) == Lookup(src, k)
    ensures forall k :: !(k in keys && Truthy(DictGet(src, k, JNull))) ==> Lookup(r, k) == Lookup(entries, k)
    decreases |keys|
  {
    if keys == [] then entries
    else
      var k := keys[0];
      var next := if Truthy(DictGet(src, k, JNull)) then Set(entries, k, DictGet(src, k, JNull)) else entries;
      MergeTruthy(next, src, keys[1..])
  }

  /** `v` is a dict holding a list under key `k`. */
  predicate HoldsList(entries: seq<(string, Json)>, k: string) {
    Lookup(entries, k).Some? && Lookup(entries, k).value.JList?
  }

  /** The list under the first of `keys` that holds one (the loop over priority keys). */
  function FirstListUnder(entries: seq<(string, Json)>, keys: seq<string>): (r: Option<seq<Json>>)
    ensures r.None? <==> forall i :: 0 <= i < |keys| ==> !HoldsList(entries, keys[i])
    ensures forall i :: (0 <= i < |keys| && HoldsList(entries, keys[i])
                         && (forall j :: 0 <= j < i ==> !HoldsList(entries, keys[j])))
                         ==> r == Some(Lookup(entries, keys[i]).value.items)
  {
    if keys == [] then None
    else if HoldsList(entries, keys[0]) then Some(Lookup(entries, keys[0]).value.items)
    else FirstListUnder(entries, keys[1..])
  }

  /** The first list among the dict's values, in insertion order (`for v in d.values()`). */
  function FirstListValue(entries: seq<(string, Json)>): (r: Option<seq<Json>>)
    ensures r.None? <==> forall i :: 0 <= i < |entries| ==> !entries[i].1.JList?
    ensures forall i :: (0 <= i < |entries| && entries[i].1.JList?
                         && (forall j :: 0 <= j < i ==> !entries[j].1.JList?))
                         ==> r == Some(entries[i].1.items)
  {
    if entries == [] then None
    else if entries[0].1.JList? then Some(entries[0].1.items)
    else
      var r := FirstListValue(entries[1..]);
      assert forall i :: 1 <= i < |entries| ==> entries[i] == entries[1..][i - 1];
      r
  }

  /** `str(v)` for None, a bool or a number. */
  function ScalarStr(v: Json): string
    requires !v.JStr? && !v.JList? && !v.JObj?
  {
    match v
    case JNull => "None"
    case JBool(b) => if b then "True" else "False"
    case JNum(n) => n.text
  }

  /** Python's `repr(v)`, as used when `str()` renders a list or dict. */
  function Repr(v: Json): string
  {
    match v
    case JStr(s) => "'" + s + "'"
    case JList(items) =>
      "[" + Join(", ", seq(|items|, i requires 0 <= i < |items| => Repr(items[i]))) + "]"
    case JObj(entries) =>
      "{" + Join(", ", seq(|entries|, i requires 0 <= i < |entries| =>
                             assert entries[i] in entries;
                             "'" + entries[i].0 + "': " + Repr(entries[i].1))) + "}"
    case _ => ScalarStr(v)
  }

  /** Python's `str(v)`. */
  function PyStr(v: Json): (r: string)
    ensures v.JStr? ==> r == v.s
  {
    match v
    case JStr(s) => s
    case JList(_) => Repr(v)
    case JObj(_) => Repr(v)
    case _ => ScalarStr(v)
  }
}
