/**
 * A Python dict as the site builder uses it: entries in insertion order, a key
 * at most once, assignment replacing the value of a present key in its place
 * and appending a new key.
 */
module PyDict {
  import opened Optional

  type Dict<K, V> = seq<(K, V)>

  /** The keys of a dict. */
  function Keys<K(==), V>(d: Dict<K, V>): set<K> {
    set i | 0 <= i < |d| :: d[i].0
  }

  /** A dict holds each key once. */
  ghost predicate DistinctKeys<K, V>(d: Dict<K, V>) {
    forall i, j :: 0 <= i < j < |d| ==> d[i].0 != d[j].0
  }

  /** `d.get(k)` */
  function Get<K(==), V>(d: Dict<K, V>, k: K): Option<V>
  {
    if d == [] then None else if d[0].0 == k then Some(d[0].1) else Get(d[1..], k)
  }

  /** `d[k] = v`: an existing key keeps its place and takes the new value, a new key goes last. */
  function Put<K(==), V>(d: Dict<K, V>, k: K, v: V): (r: Dict<K, V>)
  {
    if d == [] then [(k, v)]
    else if d[0].0 == k then [(k, v)] + d[1..]
    else [d[0]] + Put(d[1..], k, v)
  }

  /** The keys of a dict with a first entry. */
  lemma KeysCons<K, V>(x: (K, V), rest: Dict<K, V>)
    ensures Keys([x] + rest) == {x.0} + Keys(rest)
  {
    var d := [x] + rest;
    assert d[0] == x;
    assert x.0 in Keys(d);
    forall y | y in Keys(d) ensures y in {x.0} + Keys(rest) {
      var i :| 0 <= i < |d| && d[i].0 == y;
      if i > 0 { assert rest[i - 1] == d[i]; }
    }
    forall y | y in Keys(rest) ensures y in Keys(d) {
      var i :| 0 <= i < |rest| && rest[i].0 == y;
      assert d[i + 1] == rest[i];
    }
  }

  /** A dict with a first entry holds each key once when its rest does and lacks the first key. */
  lemma DistinctCons<K, V>(x: (K, V), rest: Dict<K, V>)
    ensures DistinctKeys([x] + rest) <==> DistinctKeys(rest) && x.0 !in Keys(rest)
  {
    var d := [x] + rest;
    assert d[0] == x;
    if DistinctKeys(d) {
      forall i, j | 0 <= i < j < |rest| ensures rest[i].0 != rest[j].0 {
        assert rest[i] == d[i + 1] && rest[j] == d[j + 1];
      }
      forall i | 0 <= i < |rest| ensures rest[i].0 != x.0 {
        assert rest[i] == d[i + 1];
      }
    }
    if DistinctKeys(rest) && x.0 !in Keys(rest) {
      forall i, j | 0 <= i < j < |d| ensures d[i].0 != d[j].0 {
        assert d[j] == rest[j - 1];
        if i > 0 { assert d[i] == rest[i - 1]; }
      }
    }
  }

  /** After `d[k] = v`, `k` maps to `v`, every other key keeps its value, and no key is repeated. */
  lemma PutShape<K, V>(d: Dict<K, V>, k: K, v: V)
    ensures Keys(Put(d, k, v)) == Keys(d) + {k}
    ensures Get(Put(d, k, v), k) == Some(v)
    ensures forall k' :: k' != k ==> Get(Put(d, k, v), k') == Get(d, k')
    ensures DistinctKeys(d) ==> DistinctKeys(Put(d, k, v))
    ensures k !in Keys(d) ==> Put(d, k, v) == d + [(k, v)]
  {
    PutKeys(d, k, v);
    PutGet(d, k, v);
    PutNew(d, k, v);
  }

  /** Assignment adds its key, once. */
  lemma {:induction false} PutKeys<K, V>(d: Dict<K, V>, k: K, v: V)
    ensures Keys(Put(d, k, v)) == Keys(d) + {k}
    ensures DistinctKeys(d) ==> DistinctKeys(Put(d, k, v))
    decreases |d|
  {
    if d == [] {
      assert Put(d, k, v) == [(k, v)] + [];
      KeysCons((k, v), []);
    } else {
      var r := Put(d, k, v);
      assert d == [d[0]] + d[1..];
      KeysCons(d[0], d[1..]);
      DistinctCons(d[0], d[1..]);
      if d[0].0 == k {
        assert r == [(k, v)] + d[1..];
        KeysCons((k, v), d[1..]);
        DistinctCons((k, v), d[1..]);
      } else {
        var rest := Put(d[1..], k, v);
        PutKeys(d[1..], k, v);
        assert r == [d[0]] + rest;
        KeysCons(d[0], rest);
        DistinctCons(d[0], rest);
      }
    }
  }

  /** After assignment the key reads the new value and every other key its old one. */
  lemma {:induction false} PutGet<K, V>(d: Dict<K, V>, k: K, v: V)
    ensures Get(Put(d, k, v), k) == Some(v)
    ensures forall k' :: k' != k ==> Get(Put(d, k, v), k') == Get(d, k')
    decreases |d|
  {
    if d != [] && d[0].0 != k {
      PutGet(d[1..], k, v);
      assert Put(d, k, v)[1..] == Put(d[1..], k, v);
    } else if d != [] {
      assert Put(d, k, v)[1..] == d[1..];
    }
  }

  /** A new key is appended at the end. */
  lemma {:induction false} PutNew<K, V>(d: Dict<K, V>, k: K, v: V)
    ensures k !in Keys(d) ==> Put(d, k, v) == d + [(k, v)]
    decreases |d|
  {
    if d != [] && k !in Keys(d) {
      assert d[0].0 in Keys(d);
      KeysCons(d[0], d[1..]);
      assert d == [d[0]] + d[1..];
      PutNew(d[1..], k, v);
      assert [d[0]] + (d[1..] + [(k, v)]) == d + [(k, v)];
    }
  }

  /** Assigning a key twice leaves the second value in the first one's place. */
  lemma {:induction false} PutTwice<K, V>(d: Dict<K, V>, k: K, a: V, b: V)
    ensures Put(Put(d, k, a), k, b) == Put(d, k, b)
    decreases |d|
  {
    if d != [] && d[0].0 != k {
      PutTwice(d[1..], k, a, b);
      assert Put(d, k, a) == [d[0]] + Put(d[1..], k, a);
      assert Put(d, k, a)[1..] == Put(d[1..], k, a);
    }
  }

  /** `d.get(k)` finds a value exactly for the keys of `d`, and that value is stored under `k`. */
  lemma {:induction false} GetShape<K, V>(d: Dict<K, V>, k: K)
    ensures Get(d, k).Some? <==> k in Keys(d)
    ensures Get(d, k).Some? ==> exists i :: 0 <= i < |d| && d[i] == (k, Get(d, k).value)
    decreases |d|
  {
    if d != [] {
      assert d == [d[0]] + d[1..];
      KeysCons(d[0], d[1..]);
      if d[0].0 != k {
        GetShape(d[1..], k);
        if Get(d, k).Some? {
          var i :| 0 <= i < |d[1..]| && d[1..][i] == (k, Get(d, k).value);
          assert d[i + 1] == d[1..][i];
        }
      }
    }
  }

  /** Every entry of `d` after `d[k] = v` is `(k, v)` or an entry `d` already had. */
  lemma {:induction false} PutEntries<K, V>(d: Dict<K, V>, k: K, v: V)
    ensures forall i :: 0 <= i < |Put(d, k, v)| ==> Put(d, k, v)[i] == (k, v) || Put(d, k, v)[i] in d
    decreases |d|
  {
    if d != [] && d[0].0 != k {
      PutEntries(d[1..], k, v);
      var r := Put(d, k, v);
      assert r == [d[0]] + Put(d[1..], k, v);
      forall i | 0 <= i < |r| ensures r[i] == (k, v) || r[i] in d {
        if i > 0 {
          assert r[i] == Put(d[1..], k, v)[i - 1];
          assert forall x :: x in d[1..] ==> x in d;
        }
      }
    }
  }
}
