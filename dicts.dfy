/**
  Python dictionaries as insertion-ordered lists of (key, value) entries.

  `d[k] = v` overwrites the entry of an existing key where it stands and appends a new
  key at the end; iterating `d.items()` visits the entries in that order.
 */
module Dicts {
  import opened Wrappers

  type Dict<K, V> = seq<(K, V)>

  predicate HasKey<K(==, !new), V>(d: Dict<K, V>, k: K) {
    exists i :: 0 <= i < |d| && d[i].0 == k
  }

  /** No key occurs twice: the invariant every Python dict keeps. */
  predicate UniqueKeys<K(==, !new), V>(d: Dict<K, V>) {
    forall i, j :: 0 <= i < j < |d| ==> d[i].0 != d[j].0
  }

  function Keys<K(!new), V>(d: Dict<K, V>): (ks: seq<K>)
    ensures |ks| == |d| && forall i :: 0 <= i < |d| ==> ks[i] == d[i].0
  {
    if d == [] then [] else [d[0].0] + Keys(d[1..])
  }

  /** `d.get(k)`. */
  function Get<K(==, !new), V>(d: Dict<K, V>, k: K): (r: Option<V>)
    ensures r.None? <==> !HasKey(d, k)
    ensures r.Some? ==> (k, r.value) in d
  {
    if d == [] then None
    else if d[0].0 == k then Some(d[0].1)
    else
      var r := Get(d[1..], k);
      assert HasKey(d, k) ==> HasKey(d[1..], k) by {
        if HasKey(d, k) {
          var i :| 0 <= i < |d| && d[i].0 == k;
          assert d[1..][i - 1].0 == k;
        }
      }
      assert HasKey(d[1..], k) ==> HasKey(d, k) by {
        if HasKey(d[1..], k) {
          var i :| 0 <= i < |d[1..]| && d[1..][i].0 == k;
          assert d[i + 1].0 == k;
        }
      }
      r
  }

  /** In a dict without repeated keys, every entry is what `Get` finds for its key. */
  lemma {:induction false} GetEntry<K(!new), V>(d: Dict<K, V>, i: nat)
    requires UniqueKeys(d) && i < |d|
    ensures Get(d, d[i].0) == Some(d[i].1)
  {
    if i > 0 {
      assert d[0].0 != d[i].0;
      assert d[1..][i - 1] == d[i];
      GetEntry(d[1..], i - 1);
    }
  }

  /** `d[k] = v`. */
  function Put<K(==, !new), V>(d: Dict<K, V>, k: K, v: V): (r: Dict<K, V>)
    ensures Get(r, k) == Some(v)
    ensures forall k' :: k' != k ==> Get(r, k') == Get(d, k')
    ensures HasKey(d, k) ==> Keys(r) == Keys(d)
    ensures !HasKey(d, k) ==> r == d + [(k, v)]
  {
    if d == [] then [(k, v)]
    else if d[0].0 == k then [(k, v)] + d[1..]
    else
      var tail := Put(d[1..], k, v);
      forall k' ensures Get([d[0]] + tail, k') == if d[0].0 == k' then Some(d[0].1) else Get(tail, k') {
        GetCons(d[0], tail, k');
      }
      PutBehindFirst(d, k, v, tail);
      [d[0]] + tail
  }

  lemma GetCons<K(!new), V>(e: (K, V), tail: Dict<K, V>, k: K)
    ensures Get([e] + tail, k) == if e.0 == k then Some(e.1) else Get(tail, k)
  {
    assert ([e] + tail)[1..] == tail;
  }

  /** How `Put` lays out the keys carries over past a first entry whose key is not the one assigned. */
  lemma PutBehindFirst<K(!new), V>(d: Dict<K, V>, k: K, v: V, tail: Dict<K, V>)
    requires d != [] && d[0].0 != k
    requires HasKey(d[1..], k) ==> Keys(tail) == Keys(d[1..])
    requires !HasKey(d[1..], k) ==> tail == d[1..] + [(k, v)]
    ensures HasKey(d, k) ==> Keys([d[0]] + tail) == Keys(d)
    ensures !HasKey(d, k) ==> [d[0]] + tail == d + [(k, v)]
  {
    assert Get(d, k) == Get(d[1..], k);
    if HasKey(d, k) {
      assert ([d[0]] + tail)[1..] == tail;
    } else {
      assert d == [d[0]] + d[1..];
    }
  }

  lemma {:induction false} PutKeepsUniqueKeys<K(!new), V>(d: Dict<K, V>, k: K, v: V)
    requires UniqueKeys(d)
    ensures UniqueKeys(Put(d, k, v))
  {
    var r := Put(d, k, v);
    if HasKey(d, k) {
      assert Keys(r) == Keys(d);
      forall i, j | 0 <= i < j < |r| ensures r[i].0 != r[j].0 {
        assert Keys(r)[i] == Keys(d)[i] && Keys(r)[j] == Keys(d)[j];
      }
    } else {
      forall i, j | 0 <= i < j < |r| ensures r[i].0 != r[j].0 {
        if j == |d| {
          assert r[i] == d[i];
        }
      }
    }
  }

  /** Writing the same value twice under one key leaves the dict as writing it once. */
  lemma {:induction false} PutIdempotent<K(!new), V>(d: Dict<K, V>, k: K, v: V)
    ensures Put(Put(d, k, v), k, v) == Put(d, k, v)
  {
    if d != [] && d[0].0 != k {
      PutIdempotent(d[1..], k, v);
      assert Put(d, k, v)[1..] == Put(d[1..], k, v);
    }
  }

  /** The assignments `d[k] = v` for each `(k, v)` of `ups`, in order. */
  function PutAll<K(==, !new), V>(d: Dict<K, V>, ups: seq<(K, V)>): Dict<K, V>
    decreases |ups|
  {
    if ups == [] then d
    else Put(PutAll(d, ups[..|ups| - 1]), ups[|ups| - 1].0, ups[|ups| - 1].1)
  }

  /** One more assignment at the end of a run. */
  lemma PutAllSnoc<K(!new), V>(d: Dict<K, V>, ups: seq<(K, V)>, k: K, v: V)
    ensures PutAll(d, ups + [(k, v)]) == Put(PutAll(d, ups), k, v)
  {
    assert (ups + [(k, v)])[..|ups|] == ups;
  }

  /** The value of the last assignment to `k` in `ups`, if any. */
  function LastValue<K(==, !new), V>(ups: seq<(K, V)>, k: K): Option<V>
    decreases |ups|
  {
    if ups == [] then None
    else if ups[|ups| - 1].0 == k then Some(ups[|ups| - 1].1)
    else LastValue(ups[..|ups| - 1], k)
  }

  /** After a run of assignments, a key holds the last value assigned to it, or else its old value. */
  lemma {:induction false} GetPutAll<K(!new), V>(d: Dict<K, V>, ups: seq<(K, V)>, k: K)
    ensures Get(PutAll(d, ups), k) == if LastValue(ups, k).Some? then LastValue(ups, k) else Get(d, k)
    decreases |ups|
  {
    if ups != [] {
      GetPutAll(d, ups[..|ups| - 1], k);
    }
  }

  lemma {:induction false} PutAllKeepsUniqueKeys<K(!new), V>(d: Dict<K, V>, ups: seq<(K, V)>)
    requires UniqueKeys(d)
    ensures UniqueKeys(PutAll(d, ups))
    decreases |ups|
  {
    if ups != [] {
      PutAllKeepsUniqueKeys(d, ups[..|ups| - 1]);
      PutKeepsUniqueKeys(PutAll(d, ups[..|ups| - 1]), ups[|ups| - 1].0, ups[|ups| - 1].1);
    }
  }

  /** When exactly one assignment in `ups` targets `k`, that assignment's value is the last one. */
  lemma {:induction false} LastValueSingle<K(!new), V>(ups: seq<(K, V)>, k: K, i: nat)
    requires i < |ups| && ups[i].0 == k
    requires forall j :: 0 <= j < |ups| && j != i ==> ups[j].0 != k
    ensures LastValue(ups, k) == Some(ups[i].1)
    decreases |ups|
  {
    if i < |ups| - 1 {
      var front := ups[..|ups| - 1];
      assert front[i] == ups[i];
      forall j | 0 <= j < |front| && j != i ensures front[j].0 != k {
        assert front[j] == ups[j];
      }
      LastValueSingle(front, k, i);
    }
  }

  // Nested dicts: `d[name][k]`, creating `d[name] = {}` on demand.

  function GetNested<N(==, !new), K(==, !new), V>(d: Dict<N, Dict<K, V>>, name: N, k: K): Option<V> {
    match Get(d, name)
    case None => None
    case Some(inner) => Get(inner, k)
  }

  /** `if name not in d: d[name] = {}` followed by `d[name][k] = v`. */
  function PutNested<N(==, !new), K(==, !new), V>(d: Dict<N, Dict<K, V>>, name: N, k: K, v: V): (r: Dict<N, Dict<K, V>>)
    ensures GetNested(r, name, k) == Some(v)
    ensures forall n', k' :: (n', k') != (name, k) ==> GetNested(r, n', k') == GetNested(d, n', k')
    ensures !HasKey(d, name) ==> Get(r, name) == Some([(k, v)])
  {
    Put(d, name, Put(Get(d, name).GetOr([]), k, v))
  }

  /** The assignments `d[name][k] = v` for each `((name, k), v)` of `ups`, in order. */
  function PutAllNested<N(==, !new), K(==, !new), V>(d: Dict<N, Dict<K, V>>, ups: seq<((N, K), V)>): Dict<N, Dict<K, V>>
    decreases |ups|
  {
    if ups == [] then d
    else
      var u := ups[|ups| - 1];
      PutNested(PutAllNested(d, ups[..|ups| - 1]), u.0.0, u.0.1, u.1)
  }

  lemma PutAllNestedSnoc<N(!new), K(!new), V>(d: Dict<N, Dict<K, V>>, ups: seq<((N, K), V)>, name: N, k: K, v: V)
    ensures PutAllNested(d, ups + [((name, k), v)]) == PutNested(PutAllNested(d, ups), name, k, v)
  {
    assert (ups + [((name, k), v)])[..|ups|] == ups;
  }

  lemma {:induction false} GetNestedPutAllNested<N(!new), K(!new), V>(d: Dict<N, Dict<K, V>>, ups: seq<((N, K), V)>, name: N, k: K)
    ensures GetNested(PutAllNested(d, ups), name, k)
         == if LastValue(ups, (name, k)).Some? then LastValue(ups, (name, k)) else GetNested(d, name, k)
    decreases |ups|
  {
    if ups != [] {
      GetNestedPutAllNested(d, ups[..|ups| - 1], name, k);
    }
  }

  /** Every inner dict, and the outer one, is free of repeated keys. */
  predicate NestedUniqueKeys<N(==, !new), K(==, !new), V>(d: Dict<N, Dict<K, V>>) {
    UniqueKeys(d) && forall i :: 0 <= i < |d| ==> UniqueKeys(d[i].1)
  }

  lemma PutNestedKeepsUniqueKeys<N(!new), K(!new), V>(d: Dict<N, Dict<K, V>>, name: N, k: K, v: V)
    requires NestedUniqueKeys(d)
    ensures NestedUniqueKeys(PutNested(d, name, k, v))
  {
    var inner := Get(d, name).GetOr([]);
    assert UniqueKeys(inner) by {
      if HasKey(d, name) {
        var i :| 0 <= i < |d| && d[i].0 == name;
        GetEntry(d, i);
      }
    }
    var inner' := Put(inner, k, v);
    PutKeepsUniqueKeys(inner, k, v);
    var r := Put(d, name, inner');
    PutKeepsUniqueKeys(d, name, inner');
    forall i | 0 <= i < |r| ensures UniqueKeys(r[i].1) {
      if r[i].0 == name {
        GetEntry(r, i);
      } else {
        GetEntry(r, i);
        assert Get(r, r[i].0) == Get(d, r[i].0);
        var j :| 0 <= j < |d| && d[j].0 == r[i].0;
        GetEntry(d, j);
      }
    }
  }

  lemma {:induction false} PutAllNestedKeepsUniqueKeys<N(!new), K(!new), V>(d: Dict<N, Dict<K, V>>, ups: seq<((N, K), V)>)
    requires NestedUniqueKeys(d)
    ensures NestedUniqueKeys(PutAllNested(d, ups))
    decreases |ups|
  {
    if ups != [] {
      var u := ups[|ups| - 1];
      PutAllNestedKeepsUniqueKeys(d, ups[..|ups| - 1]);
      PutNestedKeepsUniqueKeys(PutAllNested(d, ups[..|ups| - 1]), u.0.0, u.0.1, u.1);
    }
  }
}
