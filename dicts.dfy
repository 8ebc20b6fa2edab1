/**
 * Python dictionaries whose iteration order is observable: a sequence of
 * (key, value) pairs in insertion order. Assigning to an existing key keeps
 * its position; a new key goes to the end, as with `d[k] = v` and `d.update`.
 */
module Dicts {
  import opened Wrappers

  type Dict<K, V> = seq<(K, V)>

  /** The keys in iteration order. */
  function Keys<K, V>(d: Dict<K, V>): (ks: seq<K>)
    ensures |ks| == |d|
    ensures forall i :: 0 <= i < |d| ==> ks[i] == d[i].0
  {
    if d == [] then [] else [d[0].0] + Keys(d[1..])
  }

  ghost predicate DistinctKeys<K, V>(d: Dict<K, V>) {
    forall i, j :: 0 <= i < j < |d| ==> d[i].0 != d[j].0
  }

  /** `d.get(k)`: the value stored under `k`, if any. */
  function Get<K(==), V>(d: Dict<K, V>, k: K): (r: Option<V>)
    ensures r.Some? <==> k in Keys(d)
    ensures r.Some? ==> (k, r.value) in d
  {
    if d == [] then None else if d[0].0 == k then Some(d[0].1) else Get(d[1..], k)
  }

  /** In a dictionary with distinct keys, the key at position `i` reads back the value there. */
  lemma {:induction false} GetAt<K, V>(d: Dict<K, V>, i: nat)
    requires i < |d| && DistinctKeys(d)
    ensures Get(d, d[i].0) == Some(d[i].1)
  {
    if i > 0 {
      assert d[0].0 != d[i].0;
      assert d[1..][i - 1] == d[i];
      GetAt(d[1..], i - 1);
    }
  }

  /** `d[k] = v`. */
  function Put<K(==), V>(d: Dict<K, V>, k: K, v: V): (r: Dict<K, V>)
    ensures k in Keys(d) ==> Keys(r) == Keys(d)
    ensures k !in Keys(d) ==> Keys(r) == Keys(d) + [k]
  {
    if d == [] then [(k, v)]
    else if d[0].0 == k then [(k, v)] + d[1..]
    else [d[0]] + Put(d[1..], k, v)
  }

  /** `d.update(kvs)` for a sequence of pairs applied left to right. */
  function PutAll<K(==), V>(d: Dict<K, V>, kvs: seq<(K, V)>): Dict<K, V>
  {
    if kvs == [] then d else Put(PutAll(d, kvs[..|kvs| - 1]), kvs[|kvs| - 1].0, kvs[|kvs| - 1].1)
  }

  /** Reading back a key just assigned gives the new value; other keys are untouched. */
  lemma {:induction false} GetPut<K, V>(d: Dict<K, V>, k: K, v: V, j: K)
    ensures Get(Put(d, k, v), j) == if j == k then Some(v) else Get(d, j)
  {
    if d != [] && d[0].0 != k {
      GetPut(d[1..], k, v, j);
    }
  }

  lemma {:induction false} PutKeepsDistinct<K, V>(d: Dict<K, V>, k: K, v: V)
    requires DistinctKeys(d)
    ensures DistinctKeys(Put(d, k, v))
  {
    var r := Put(d, k, v);
    var ks := Keys(r);
    forall i, j | 0 <= i < j < |r| ensures r[i].0 != r[j].0 {
      assert ks[i] == r[i].0 && ks[j] == r[j].0;
      if k in Keys(d) {
        assert Keys(d)[i] == d[i].0 && Keys(d)[j] == d[j].0;
      } else {
        if j < |d| {
          assert Keys(d)[i] == d[i].0 && Keys(d)[j] == d[j].0;
        } else {
          assert ks[j] == k;
          assert Keys(d)[i] == d[i].0;
        }
      }
    }
  }

  /** Assigning a new key appends it. */
  lemma {:induction false} PutNew<K, V>(d: Dict<K, V>, k: K, v: V)
    requires k !in Keys(d)
    ensures Put(d, k, v) == d + [(k, v)]
  {
    if d != [] {
      assert Keys(d) == [d[0].0] + Keys(d[1..]);
      PutNew(d[1..], k, v);
    }
  }

  /**
   * After `update`, a key holds the value of its last pair in `kvs`, or its
   * earlier value when `kvs` does not mention it.
   */
  lemma {:induction false} GetPutAll<K, V>(d: Dict<K, V>, kvs: seq<(K, V)>, k: K)
    ensures Get(PutAll(d, kvs), k) == if k in Keys(kvs) then Some(LastValue(kvs, k)) else Get(d, k)
  {
    if kvs != [] {
      var n := |kvs| - 1;
      GetPutAll(d, kvs[..n], k);
      GetPut(PutAll(d, kvs[..n]), kvs[n].0, kvs[n].1, k);
      KeysSnoc(kvs[..n], kvs[n]);
      assert kvs[..n] + [kvs[n]] == kvs;
    }
  }

  lemma {:induction false} PutAllKeepsDistinct<K, V>(d: Dict<K, V>, kvs: seq<(K, V)>)
    requires DistinctKeys(d)
    ensures DistinctKeys(PutAll(d, kvs))
  {
    if kvs != [] {
      var n := |kvs| - 1;
      PutAllKeepsDistinct(d, kvs[..n]);
      PutKeepsDistinct(PutAll(d, kvs[..n]), kvs[n].0, kvs[n].1);
    }
  }

  /** Two updates in a row are one update with both sequences of pairs. */
  lemma {:induction false} PutAllAppend<K, V>(d: Dict<K, V>, xs: seq<(K, V)>, ys: seq<(K, V)>)
    ensures PutAll(d, xs + ys) == PutAll(PutAll(d, xs), ys)
    decreases |ys|
  {
    if ys == [] {
      assert xs + ys == xs;
    } else {
      var n := |ys| - 1;
      assert (xs + ys)[..|xs + ys| - 1] == xs + ys[..n];
      PutAllAppend(d, xs, ys[..n]);
    }
  }

  /** The value of the last pair for `k` in `kvs`. */
  function LastValue<K(==), V>(kvs: seq<(K, V)>, k: K): V
    requires k in Keys(kvs)
  {
    var n := |kvs| - 1;
    if kvs[n].0 == k then kvs[n].1
    else (KeysSnoc(kvs[..n], kvs[n]); assert kvs[..n] + [kvs[n]] == kvs; LastValue(kvs[..n], k))
  }

  lemma KeysSnoc<K, V>(d: Dict<K, V>, p: (K, V))
    ensures Keys(d + [p]) == Keys(d) + [p.0]
  {
  }

  /** Looking up a key that a prefix does not hold skips that prefix. */
  lemma {:induction false} GetAppend<K, V>(d: Dict<K, V>, e: Dict<K, V>, k: K)
    requires k !in Keys(d)
    ensures Get(d + e, k) == Get(e, k)
  {
    if d != [] {
      assert (d + e)[1..] == d[1..] + e;
      assert Keys(d) == [d[0].0] + Keys(d[1..]);
      GetAppend(d[1..], e, k);
    } else {
      assert d + e == e;
    }
  }

  /** Assign, in order, every pair `f` extracts from the items of `xs`, skipping those it ignores. */
  function Collect<T, K(==), V>(xs: seq<T>, f: T -> Option<(K, V)>): Dict<K, V> {
    if xs == [] then []
    else
      var prev := Collect(xs[..|xs| - 1], f);
      match f(xs[|xs| - 1])
      case None => prev
      case Some(kv) => Put(prev, kv.0, kv.1)
  }

  /** The loop that fills a dictionary from the pairs `f` extracts from `xs`, in order. */
  method CollectPairs<T, K(==), V>(xs: seq<T>, f: T -> Option<(K, V)>) returns (d: Dict<K, V>)
    ensures d == Collect(xs, f)
  {
    d := [];
    var i := 0;
    while i < |xs|
      invariant 0 <= i <= |xs|
      invariant d == Collect(xs[..i], f)
    {
      var x := xs[i];
      CollectSnoc(xs[..i], f, x);
      assert xs[..i + 1] == xs[..i] + [x];
      match f(x) {
        case None =>
        case Some(kv) => d := Put(d, kv.0, kv.1);
      }
      i := i + 1;
    }
    assert xs[..|xs|] == xs;
  }

  lemma CollectSnoc<T, K, V>(xs: seq<T>, f: T -> Option<(K, V)>, x: T)
    ensures Collect(xs + [x], f) == match f(x) case None => Collect(xs, f) case Some(kv) => Put(Collect(xs, f), kv.0, kv.1)
  {
    assert (xs + [x])[..|xs|] == xs;
  }

  /** Whether `f` extracts a pair for the key `k` from `x`. */
  predicate Assigns<T, K(==), V>(f: T -> Option<(K, V)>, x: T, k: K) {
    f(x).Some? && f(x).value.0 == k
  }

  lemma CollectStep<T, K, V>(xs: seq<T>, f: T -> Option<(K, V)>, k: K)
    requires xs != []
    ensures var last := xs[|xs| - 1];
      Get(Collect(xs, f), k) ==
        if Assigns(f, last, k) then Some(f(last).value.1) else Get(Collect(xs[..|xs| - 1], f), k)
  {
    var last := xs[|xs| - 1];
    if f(last).Some? {
      GetPut(Collect(xs[..|xs| - 1], f), f(last).value.0, f(last).value.1, k);
    }
  }

  /** A key some item yields is collected. */
  lemma {:induction false} CollectAssigned<T, K, V>(xs: seq<T>, f: T -> Option<(K, V)>, k: K, i: nat)
    requires i < |xs| && Assigns(f, xs[i], k)
    ensures Get(Collect(xs, f), k).Some?
  {
    var n := |xs| - 1;
    var pre := xs[..n];
    CollectStep(xs, f, k);
    if !Assigns(f, xs[n], k) {
      assert pre[i] == xs[i];
      CollectAssigned(pre, f, k, i);
    }
  }

  /** A key no item yields is not collected. */
  lemma {:induction false} CollectUnassigned<T, K, V>(xs: seq<T>, f: T -> Option<(K, V)>, k: K)
    requires forall i :: 0 <= i < |xs| ==> !Assigns(f, xs[i], k)
    ensures Get(Collect(xs, f), k) == None
  {
    if xs != [] {
      var n := |xs| - 1;
      var pre := xs[..n];
      CollectStep(xs, f, k);
      forall i | 0 <= i < |pre|
        ensures !Assigns(f, pre[i], k)
      {
        assert pre[i] == xs[i];
      }
      CollectUnassigned(pre, f, k);
    }
  }

  /** A collected key holds the value of the last item that yields it. */
  lemma {:induction false} CollectLastWins<T, K, V>(xs: seq<T>, f: T -> Option<(K, V)>, k: K, i: nat)
    requires i < |xs| && Assigns(f, xs[i], k)
    requires forall y :: y in xs[i + 1..] ==> !Assigns(f, y, k)
    ensures Get(Collect(xs, f), k) == Some(f(xs[i]).value.1)
  {
    var n := |xs| - 1;
    CollectStep(xs, f, k);
    if i < n {
      var pre := xs[..n];
      assert xs[n] in xs[i + 1..];
      assert pre[i + 1..] == xs[i + 1..n];
      assert pre[i] == xs[i];
      CollectLastWins(pre, f, k, i);
    }
  }


  /** Every collected key was yielded by some item. */
  lemma {:induction false} CollectKeysFrom<T, K, V>(xs: seq<T>, f: T -> Option<(K, V)>, k: K)
    requires k in Keys(Collect(xs, f))
    ensures exists x :: x in xs && Assigns(f, x, k)
  {
    var n := |xs| - 1;
    CollectStep(xs, f, k);
    if !Assigns(f, xs[n], k) {
      CollectKeysFrom(xs[..n], f, k);
      var x :| x in xs[..n] && Assigns(f, x, k);
      assert x in xs;
    }
  }

  /** A collected dictionary never holds a key twice. */
  lemma {:induction false} CollectDistinct<T, K, V>(xs: seq<T>, f: T -> Option<(K, V)>)
    ensures DistinctKeys(Collect(xs, f))
  {
    if xs != [] {
      var prev := Collect(xs[..|xs| - 1], f);
      CollectDistinct(xs[..|xs| - 1], f);
      match f(xs[|xs| - 1]) {
        case None =>
        case Some(kv) => PutKeepsDistinct(prev, kv.0, kv.1);
      }
    }
  }

  /** The pair stored under `k` in `d`, if any: collecting over a list of keys picks those entries. */
  function Picker<K(==), V>(d: Dict<K, V>): K -> Option<(K, V)> {
    k => match Get(d, k) case Some(v) => Some((k, v)) case None => None
  }

  /** Picking the keys `ks` from `d` keeps exactly the listed keys `d` has, with their values. */
  lemma {:induction false} CollectPicked<K, V>(ks: seq<K>, d: Dict<K, V>, k: K)
    ensures Get(Collect(ks, Picker(d)), k) == if k in ks then Get(d, k) else None
  {
    if ks != [] {
      var n := |ks| - 1;
      CollectStep(ks, Picker(d), k);
      CollectPicked(ks[..n], d, k);
      assert ks == ks[..n] + [ks[n]];
    }
  }
}
