/** Python's `dict`, which remembers the order in which keys were first
    inserted: a sequence of distinct keys beside the key-value mapping. */
module Dicts {

  predicate Distinct<K(==,!new)>(s: seq<K>) {
    forall i, j :: 0 <= i < j < |s| ==> s[i] != s[j]
  }

  datatype Dict<K(==,!new), V> = Dict(keys: seq<K>, items: map<K, V>) {

    /** The keys are distinct and are exactly the keys of the mapping. */
    ghost predicate Valid() {
      Distinct(keys) && forall k :: k in items <==> k in keys
    }

    /** `d[k] = v`: a key already present keeps its position, a new key is
        appended at the end. */
    function Put(k: K, v: V): (d: Dict<K, V>)
      ensures d.items == items[k := v]
      ensures k in items ==> d.keys == keys
      ensures k !in items ==> d.keys == keys + [k]
    {
      if k in items then Dict(keys, items[k := v]) else Dict(keys + [k], items[k := v])
    }
  }

  /** `d[k] = v` keeps the dict well formed. */
  lemma PutValid<K(!new), V>(d: Dict<K, V>, k: K, v: V)
    requires d.Valid()
    ensures d.Put(k, v).Valid()
  {
    if k !in d.items {
      forall i, j | 0 <= i < j < |d.keys| + 1 ensures (d.keys + [k])[i] != (d.keys + [k])[j] {
        if j == |d.keys| {
          assert (d.keys + [k])[i] == d.keys[i];
        }
      }
    }
  }

  /** A second assignment to the same key overrides the first and leaves the
      key where the first put it. */
  lemma PutTwice<K(!new), V>(d: Dict<K, V>, k: K, v1: V, v2: V)
    ensures d.Put(k, v1).Put(k, v2) == d.Put(k, v2)
  {
  }

  /** `{}` */
  function Empty<K(==,!new), V>(): (d: Dict<K, V>)
    ensures d.Valid() && d.items == map[] && d.keys == []
  {
    Dict([], map[])
  }

  /** Two sequences of distinct elements with no element in common
      concatenate to a sequence of distinct elements. */
  lemma DistinctConcat<K(!new)>(a: seq<K>, b: seq<K>)
    requires Distinct(a) && Distinct(b)
    requires forall x :: x in a ==> x !in b
    ensures Distinct(a + b)
  {
    forall i, j | 0 <= i < j < |a + b| ensures (a + b)[i] != (a + b)[j] {
      if i < |a| && j >= |a| {
        assert (a + b)[i] in a && (a + b)[j] in b;
      }
    }
  }

  /** Index of the first occurrence of `x` in `s`. */
  function IndexIn<K(==,!new)>(s: seq<K>, x: K): (i: nat)
    requires x in s
    ensures i < |s| && s[i] == x
    ensures forall k :: 0 <= k < i ==> s[k] != x
  {
    if s[0] == x then 0 else 1 + IndexIn(s[1..], x)
  }

  /** In a sequence of distinct elements, an element's index is the only
      position holding it. */
  lemma IndexInDistinct<K(!new)>(s: seq<K>, j: nat)
    requires Distinct(s) && j < |s|
    ensures IndexIn(s, s[j]) == j
  {
  }

  /** The first occurrence of `x` in a prefix is its first occurrence in
      any longer prefix. */
  lemma IndexInPrefix<K(!new)>(s: seq<K>, x: K, n: nat, m: nat)
    requires n <= m <= |s| && x in s[..n]
    ensures x in s[..m] && IndexIn(s[..m], x) == IndexIn(s[..n], x)
  {
    var i := IndexIn(s[..n], x);
    assert s[..m][i] == x;
    var j := IndexIn(s[..m], x);
    assert j <= i;
    assert s[..n][j] == x;
  }
}
