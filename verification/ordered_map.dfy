/** `QMap<int, V>`: a map whose keys are kept in ascending order, so that
    iterating it, or asking for its keys, visits the keys from smallest to
    largest. Modelled as an association list with strictly ascending keys. */
module OrderedMap {
  import opened Wrappers
  import opened Ints

  type OMap<V> = seq<(Int32, V)>

  /** Keys strictly ascend, so each key occurs once. */
  predicate Valid<V>(m: OMap<V>) {
    forall i, j :: 0 <= i < j < |m| ==> m[i].0 < m[j].0
  }

  function Keys<V>(m: OMap<V>): set<Int32> {
    set i | 0 <= i < |m| :: m[i].0
  }

  /** The keys in iteration order, `QMap::keys()`. */
  function KeyList<V>(m: OMap<V>): (ks: seq<Int32>)
    ensures |ks| == |m|
    ensures forall i :: 0 <= i < |m| ==> ks[i] == m[i].0
    decreases |m|
  {
    if |m| == 0 then [] else [m[0].0] + KeyList(m[1..])
  }

  /** The values in key order. */
  function Values<V>(m: OMap<V>): (vs: seq<V>)
    ensures |vs| == |m|
    ensures forall i :: 0 <= i < |m| ==> vs[i] == m[i].1
    decreases |m|
  {
    if |m| == 0 then [] else [m[0].1] + Values(m[1..])
  }

  /** `QMap::value` guarded by `QMap::contains`. */
  function Get<V>(m: OMap<V>, k: Int32): (r: Option<V>)
    ensures r.Some? <==> k in Keys(m)
    ensures r.Some? ==> exists i :: 0 <= i < |m| && m[i] == (k, r.value)
    decreases |m|
  {
    if |m| == 0 then None
    else if m[0].0 == k then Some(m[0].1)
    else
      var r := Get(m[1..], k);
      assert Keys(m) == {m[0].0} + Keys(m[1..]) by {
        forall x | x in Keys(m) ensures x in {m[0].0} + Keys(m[1..]) {
          var i :| 0 <= i < |m| && m[i].0 == x;
          if i > 0 { assert m[1..][i - 1].0 == x; }
        }
      }
      r
  }

  /** `m[k] = v`: insert a new key at its ordered position, or overwrite the
      value of an existing key. */
  function Put<V>(m: OMap<V>, k: Int32, v: V): (r: OMap<V>)
    requires Valid(m)
    ensures Valid(r)
    ensures Keys(r) == Keys(m) + {k}
    ensures Get(r, k) == Some(v)
    ensures forall k' :: k' != k ==> Get(r, k') == Get(m, k')
    decreases |m|
  {
    if |m| == 0 then
      KeysCons((k, v), []);
      [(k, v)]
    else if k < m[0].0 then
      PutFront(m, k, v);
      [(k, v)] + m
    else if k == m[0].0 then
      PutReplace(m, k, v);
      [(k, v)] + m[1..]
    else
      var tail := Put(m[1..], k, v);
      PutBehind(m, k, v, tail);
      [m[0]] + tail
  }

  /** `r` is `m` with `k` bound to `v`. */
  ghost predicate Updated<V>(m: OMap<V>, k: Int32, v: V, r: OMap<V>) {
    && Valid(r)
    && Keys(r) == Keys(m) + {k}
    && Get(r, k) == Some(v)
    && forall k' :: k' != k ==> Get(r, k') == Get(m, k')
  }

  lemma {:induction false} GetCons<V>(x: (Int32, V), m: OMap<V>, k: Int32)
    ensures Get([x] + m, k) == if x.0 == k then Some(x.1) else Get(m, k)
  {
    assert ([x] + m)[1..] == m;
  }

  lemma {:induction false} PutFront<V>(m: OMap<V>, k: Int32, v: V)
    requires Valid(m) && |m| > 0 && k < m[0].0
    ensures Updated(m, k, v, [(k, v)] + m)
  {
    KeysCons((k, v), m);
    forall k' ensures Get([(k, v)] + m, k') == if k == k' then Some(v) else Get(m, k') {
      GetCons((k, v), m, k');
    }
  }

  lemma {:induction false} PutReplace<V>(m: OMap<V>, k: Int32, v: V)
    requires Valid(m) && |m| > 0 && k == m[0].0
    ensures Updated(m, k, v, [(k, v)] + m[1..])
  {
    var r := [(k, v)] + m[1..];
    KeysCons((k, v), m[1..]);
    KeysCons(m[0], m[1..]);
    assert m == [m[0]] + m[1..];
    assert Valid(r) by {
      forall i, j | 0 <= i < j < |r| ensures r[i].0 < r[j].0 {
        assert r[j] == m[j];
        if i > 0 { assert r[i] == m[i]; }
      }
    }
    forall k' ensures Get(r, k') == if k == k' then Some(v) else Get(m, k') {
      GetCons((k, v), m[1..], k');
      GetCons(m[0], m[1..], k');
    }
  }

  lemma {:induction false} PutBehind<V>(m: OMap<V>, k: Int32, v: V, tail: OMap<V>)
    requires Valid(m) && |m| > 0 && m[0].0 < k
    requires Updated(m[1..], k, v, tail)
    ensures Updated(m, k, v, [m[0]] + tail)
  {
    var r := [m[0]] + tail;
    KeysCons(m[0], tail);
    KeysCons(m[0], m[1..]);
    assert m == [m[0]] + m[1..];
    PutBehindValid(m, k, tail);
    forall k' ensures Get(r, k') == if k == k' then Some(v) else Get(m, k') {
      GetCons(m[0], tail, k');
      GetCons(m[0], m[1..], k');
    }
  }

  /** Keeping the first entry in front of a valid tail whose keys all lie
      above it keeps the keys ascending. */
  lemma {:induction false} PutBehindValid<V>(m: OMap<V>, k: Int32, tail: OMap<V>)
    requires Valid(m) && |m| > 0 && m[0].0 < k
    requires Valid(tail) && Keys(tail) == Keys(m[1..]) + {k}
    ensures Valid([m[0]] + tail)
  {
    var r := [m[0]] + tail;
    forall j | 0 <= j < |tail| ensures m[0].0 < tail[j].0 {
      assert tail[j].0 in Keys(tail);
      if tail[j].0 != k {
        var t :| 0 <= t < |m[1..]| && m[1..][t].0 == tail[j].0;
        assert m[t + 1].0 == tail[j].0;
      }
    }
    forall i, j | 0 <= i < j < |r| ensures r[i].0 < r[j].0 {
      assert r[j] == tail[j - 1];
      if i > 0 { assert r[i] == tail[i - 1]; }
    }
  }

  lemma {:induction false} KeysCons<V>(x: (Int32, V), m: OMap<V>)
    ensures Keys([x] + m) == {x.0} + Keys(m)
  {
    var r := [x] + m;
    assert r[0].0 == x.0;
    forall y | y in Keys(r) ensures y in {x.0} + Keys(m) {
      var i :| 0 <= i < |r| && r[i].0 == y;
      if i > 0 { assert r[i] == m[i - 1]; }
    }
    forall y | y in Keys(m) ensures y in Keys(r) {
      var i :| 0 <= i < |m| && m[i].0 == y;
      assert r[i + 1] == m[i];
    }
  }

  /** Dropping the first entry of a valid map leaves a valid map without
      the first key. */
  lemma {:induction false} ValidTail<V>(m: OMap<V>)
    requires Valid(m) && |m| > 0
    ensures Valid(m[1..])
    ensures m[0].0 !in Keys(m[1..])
  {
    forall j | 0 <= j < |m[1..]| ensures m[1..][j].0 != m[0].0 {
      assert m[1..][j] == m[j + 1];
    }
  }

  /** In a valid map, looking up the key stored at a position finds the value
      stored beside it. */
  lemma {:induction false} GetAt<V>(m: OMap<V>, i: int)
    requires Valid(m) && 0 <= i < |m|
    ensures Get(m, m[i].0) == Some(m[i].1)
  {
    var r := Get(m, m[i].0);
    var j :| 0 <= j < |m| && m[j] == (m[i].0, r.value);
    assert j == i;
  }

  /** The keys of a valid map, listed in iteration order, strictly ascend,
      so sorting them is a no-op; and looking each key up in that order
      visits exactly the values in iteration order. */
  lemma {:induction false} KeyListAscending<V>(m: OMap<V>)
    requires Valid(m)
    ensures forall i, j :: 0 <= i < j < |m| ==> KeyList(m)[i] < KeyList(m)[j]
    ensures forall i :: 0 <= i < |m| ==> Get(m, KeyList(m)[i]) == Some(Values(m)[i])
  {
    forall i | 0 <= i < |m|
      ensures Get(m, KeyList(m)[i]) == Some(Values(m)[i])
    {
      GetAt(m, i);
    }
  }
}
