/**
  The scripts keep per-application transition times and per-bin lists in Python dicts.
  A dict is modelled as a sequence of key/value pairs with distinct keys, in insertion
  order: assigning to an existing key keeps its place, a new key goes at the end.
*/
module Dicts {
  import opened Wrappers
  import Sums

  datatype Pair<K, V> = Pair(key: K, value: V)

  predicate DistinctKeys<K(==), V>(d: seq<Pair<K, V>>)
  {
    forall i, j :: 0 <= i < j < |d| ==> d[i].key != d[j].key
  }

  type Dict<K(==), V> = d: seq<Pair<K, V>> | DistinctKeys(d) witness []

  function Keys<K, V>(d: seq<Pair<K, V>>): set<K>
  {
    set i | 0 <= i < |d| :: d[i].key
  }

  /** Position of `k` in `d`, if present. */
  function IndexOf<K(==), V>(d: seq<Pair<K, V>>, k: K): (r: Option<nat>)
    ensures r.Some? ==> r.value < |d| && d[r.value].key == k
    ensures r.None? <==> k !in Keys(d)
  {
    if d == [] then None
    else if d[0].key == k then Some(0)
    else
      var r := IndexOf(d[1..], k);
      assert Keys(d) == {d[0].key} + Keys(d[1..]) by {
        forall x | x in Keys(d) ensures x in {d[0].key} + Keys(d[1..]) {
          var i :| 0 <= i < |d| && d[i].key == x;
          if i > 0 { assert d[1..][i - 1].key == x; }
        }
      }
      if r.Some? then Some(r.value + 1) else None
  }

  /** `d.get(k)`. */
  function Get<K(==), V>(d: Dict<K, V>, k: K): (r: Option<V>)
    ensures r.None? <==> k !in Keys(d)
  {
    match IndexOf(d, k)
    case Some(i) => Some(d[i].value)
    case None => None
  }

  lemma GetAt<K, V>(d: Dict<K, V>, i: nat)
    requires i < |d|
    ensures Get(d, d[i].key) == Some(d[i].value)
  {
  }

  /** `d[k] = v`. */
  function Put<K(==,!new), V>(d: Dict<K, V>, k: K, v: V): (r: Dict<K, V>)
    ensures Get(r, k) == Some(v)
    ensures forall k' :: k' != k ==> Get(r, k') == Get(d, k')
    ensures Keys(r) == Keys(d) + {k}
  {
    match IndexOf(d, k)
    case Some(i) =>
      var r := d[i := Pair(k, v)];
      assert Keys(r) == Keys(d) by {
        forall x | x in Keys(d) ensures x in Keys(r) {
          var j :| 0 <= j < |d| && d[j].key == x;
          assert r[j].key == x;
        }
      }
      r
    case None =>
      var r := d + [Pair(k, v)];
      assert Keys(r) == Keys(d) + {k} by {
        assert r[|d|].key == k;
        forall x | x in Keys(d) ensures x in Keys(r) {
          var j :| 0 <= j < |d| && d[j].key == x;
          assert r[j].key == x;
        }
      }
      r
  }

  /** Assigning to an existing key keeps its place; a new key goes at the end. */
  lemma PutShape<K(!new), V>(d: Dict<K, V>, k: K, v: V)
    ensures forall i :: 0 <= i < |d| && d[i].key == k ==> Put(d, k, v) == d[i := Pair(k, v)]
    ensures k !in Keys(d) ==> Put(d, k, v) == d + [Pair(k, v)]
  {
    forall i | 0 <= i < |d| && d[i].key == k ensures Put(d, k, v) == d[i := Pair(k, v)] {
      DistinctIndex(d, k, i);
    }
  }

  lemma DistinctIndex<K, V>(d: Dict<K, V>, k: K, i: nat)
    requires i < |d| && d[i].key == k
    ensures IndexOf(d, k) == Some(i)
  {
    var j := IndexOf(d, k).value;
    assert d[j].key == k;
  }

  /** `sum(d.values())` for a dict of numbers. */
  function SumValues<K>(d: seq<Pair<K, real>>): real
  {
    if d == [] then 0.0 else SumValues(d[..|d| - 1]) + d[|d| - 1].value
  }

  lemma {:induction false} SumValuesUpdate<K>(d: seq<Pair<K, real>>, i: nat, p: Pair<K, real>)
    requires i < |d|
    ensures SumValues(d[i := p]) == SumValues(d) - d[i].value + p.value
  {
    var n := |d| - 1;
    if i < n {
      assert d[i := p][..n] == d[..n][i := p];
      SumValuesUpdate(d[..n], i, p);
    } else {
      assert d[i := p][..n] == d[..n];
    }
  }

  /**
    `if k in d: d[k] += v else: d[k] = v` — the accumulation step of the summariser.
  */
  function AddTo<K(==,!new)>(d: Dict<K, real>, k: K, v: real): (r: Dict<K, real>)
    ensures Keys(r) == Keys(d) + {k}
    ensures Get(r, k) == Some(if k in Keys(d) then Get(d, k).value + v else v)
    ensures forall k' :: k' != k ==> Get(r, k') == Get(d, k')
  {
    match Get(d, k)
    case Some(old_) => Put(d, k, old_ + v)
    case None => Put(d, k, v)
  }

  /** The dict's total grows by exactly the added value. */
  lemma AddToSum<K(!new)>(d: Dict<K, real>, k: K, v: real)
    ensures SumValues(AddTo(d, k, v)) == SumValues(d) + v
  {
    PutShape(d, k, v);
    match Get(d, k)
    case Some(old_) =>
      var i := IndexOf(d, k).value;
      PutShape(d, k, old_ + v);
      SumValuesUpdate(d, i, Pair(k, old_ + v));
    case None =>
      assert (d + [Pair(k, v)])[..|d|] == d;
  }

  /** The two branches of the accumulation step, as the summarisers write them. */
  lemma AddToCases<K(!new)>(d: Dict<K, real>, k: K, v: real)
    ensures Get(d, k).Some? ==> AddTo(d, k, v) == Put(d, k, Get(d, k).value + v)
    ensures Get(d, k).None? ==> AddTo(d, k, v) == Put(d, k, v)
  {
  }

  /** The values of `d`, in insertion order. */
  function Values<K, V>(d: seq<Pair<K, V>>): (r: seq<V>)
    ensures |r| == |d| && forall i :: 0 <= i < |d| ==> r[i] == d[i].value
  {
    seq(|d|, i requires 0 <= i < |d| => d[i].value)
  }

  lemma {:induction false} SumValuesIsSum<K>(d: seq<Pair<K, real>>)
    ensures SumValues(d) == Sums.Sum(Values(d))
  {
    if d != [] {
      SumValuesIsSum(d[..|d| - 1]);
      assert Values(d)[..|d| - 1] == Values(d[..|d| - 1]);
    }
  }
}
