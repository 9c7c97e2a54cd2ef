/**
 * Nested JSON values as the Notion export delivers them, and the recursive
 * key search the site builder uses to dig values out of them.
 */
module Json {
  import opened Optional
  import opened PyStr

  /** A JSON value; an object keeps its fields in insertion order. */
  datatype Json =
    | JNull
    | JBool(b: bool)
    | JNum(n: int)
    | JStr(s: string)
    | JList(items: seq<Json>)
    | JObj(fields: seq<(string, Json)>)

  /** `obj[key]` on an object: the value of the first field named `key`. */
  function Get(obj: Json, key: string): (r: Option<Json>)
    requires obj.JObj?
    ensures r.Some? ==> exists i :: 0 <= i < |obj.fields| && obj.fields[i] == (key, r.value)
    ensures r.None? ==> forall i :: 0 <= i < |obj.fields| ==> obj.fields[i].0 != key
    decreases |obj.fields|
  {
    if obj.fields == [] then None
    else if obj.fields[0].0 == key then Some(obj.fields[0].1)
    else
      var r := Get(JObj(obj.fields[1..]), key);
      assert r.Some? ==> exists i :: 0 <= i < |obj.fields| - 1 && obj.fields[1..][i] == (key, r.value);
      r
  }

  /**
   * The values found under `key` in the fields of `obj` from index `i` on: for
   * each field, its value when the field's name is `key`, then the hits inside
   * that value.
   */
  function SearchFields(key: string, obj: Json, i: nat): seq<Json>
    requires obj.JObj? && i <= |obj.fields|
    decreases obj, |obj.fields| - i
  {
    if i == |obj.fields| then []
    else
      var (k, v) := obj.fields[i];
      (if k == key then [v] else [])
      + (match v
         case JObj(_) => SearchFields(key, v, 0)
         case JList(_) => SearchItems(key, v, 0)
         case _ => [])
      + SearchFields(key, obj, i + 1)
  }

  /** The hits inside the object elements of `list` from index `i` on; other elements are not searched. */
  function SearchItems(key: string, list: Json, i: nat): seq<Json>
    requires list.JList? && i <= |list.items|
    decreases list, |list.items| - i
  {
    if i == |list.items| then []
    else
      (if list.items[i].JObj? then SearchFields(key, list.items[i], 0) else [])
      + SearchItems(key, list, i + 1)
  }

  /** The hits strictly inside a value: in its fields if an object, in its object elements if a list. */
  function Inside(key: string, v: Json): seq<Json>
  {
    match v
    case JObj(_) => SearchFields(key, v, 0)
    case JList(_) => SearchItems(key, v, 0)
    case _ => []
  }

  /**
   * `recursive_search(key, d)`: every value stored under `key`, in pre-order;
   * an argument that is not an object yields nothing.
   */
  function Search(key: string, d: Json): seq<Json>
  {
    if d.JObj? then SearchFields(key, d, 0) else []
  }

  lemma {:induction false} SearchFieldsSuffix(key: string, f: seq<(string, Json)>, i: nat)
    requires i <= |f|
    ensures SearchFields(key, JObj(f), i) == SearchFields(key, JObj(f[i..]), 0)
    decreases |f| - i
  {
    if i < |f| {
      SearchFieldsSuffix(key, f, i + 1);
      SearchFieldsSuffix(key, f[i..], 1);
      assert f[i..][1..] == f[i + 1..];
    }
  }

  /**
   * Searching an object whose first field is `(name, v)` yields `v` when the
   * name is the key, then the hits inside `v`, then the hits in the remaining
   * fields.
   */
  lemma SearchCons(key: string, name: string, v: Json, rest: seq<(string, Json)>)
    ensures Search(key, JObj([(name, v)] + rest))
      == (if name == key then [v] else []) + Inside(key, v) + Search(key, JObj(rest))
  {
    var f := [(name, v)] + rest;
    SearchFieldsSuffix(key, f, 1);
    assert f[1..] == rest;
  }

  /** The search over an object with concatenated fields is the concatenation of the searches. */
  lemma {:induction false} SearchAppend(key: string, f1: seq<(string, Json)>, f2: seq<(string, Json)>)
    ensures Search(key, JObj(f1 + f2)) == Search(key, JObj(f1)) + Search(key, JObj(f2))
    decreases |f1|
  {
    if f1 == [] {
      assert f1 + f2 == f2;
    } else {
      var (n, v) := f1[0];
      var rest := f1[1..];
      assert f1 == [(n, v)] + rest;
      assert f1 + f2 == [(n, v)] + (rest + f2);
      SearchAppend(key, rest, f2);
      SearchCons(key, n, v, rest + f2);
      SearchCons(key, n, v, rest);
      var head := (if n == key then [v] else []) + Inside(key, v);
      ConcatAssoc(head, Search(key, JObj(rest)), Search(key, JObj(f2)));
    }
  }

  /** A field named `key` at the top level of an object is found, after the hits of all earlier fields. */
  lemma TopLevelHit(key: string, before: seq<(string, Json)>, v: Json, after: seq<(string, Json)>)
    ensures Search(key, JObj(before + [(key, v)] + after))
      == Search(key, JObj(before)) + [v] + Inside(key, v) + Search(key, JObj(after))
  {
    var one := [(key, v)];
    var A := Search(key, JObj(before));
    var B := Search(key, JObj(one));
    var C := Search(key, JObj(after));
    SearchCons(key, key, v, []);
    assert one + [] == one;
    assert B == [v] + Inside(key, v);
    SearchAppend(key, before, one);
    SearchAppend(key, before + one, after);
    ConcatAssoc(A, [v], Inside(key, v));
  }

  /** No field named `key` occurs anywhere in `j`. */
  predicate Lacks(key: string, j: Json)
  {
    match j
    case JObj(f) => forall i :: 0 <= i < |f| ==> f[i].0 != key && Lacks(key, f[i].1)
    case JList(xs) => forall i :: 0 <= i < |xs| ==> Lacks(key, xs[i])
    case _ => true
  }

  lemma {:induction false} SearchFieldsLacks(key: string, obj: Json, i: nat)
    requires obj.JObj? && i <= |obj.fields| && Lacks(key, obj)
    ensures SearchFields(key, obj, i) == []
    decreases obj, |obj.fields| - i
  {
    if i < |obj.fields| {
      var v := obj.fields[i].1;
      match v {
        case JObj(_) => SearchFieldsLacks(key, v, 0);
        case JList(_) => SearchItemsLacks(key, v, 0);
        case _ =>
      }
      SearchFieldsLacks(key, obj, i + 1);
    }
  }

  lemma {:induction false} SearchItemsLacks(key: string, list: Json, i: nat)
    requires list.JList? && i <= |list.items| && Lacks(key, list)
    ensures SearchItems(key, list, i) == []
    decreases list, |list.items| - i
  {
    if i < |list.items| {
      if list.items[i].JObj? {
        SearchFieldsLacks(key, list.items[i], 0);
      }
      SearchItemsLacks(key, list, i + 1);
    }
  }

  /** A value with no field named `key` anywhere yields no hits, neither itself nor inside. */
  lemma SearchLacks(key: string, j: Json)
    requires Lacks(key, j)
    ensures Search(key, j) == [] && Inside(key, j) == []
  {
    match j
    case JObj(_) => SearchFieldsLacks(key, j, 0);
    case JList(_) => SearchItemsLacks(key, j, 0);
    case _ =>
  }
}
