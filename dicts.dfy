/** Python's insertion-ordered dict, as a sequence of key/value pairs.
    Assigning to an existing key keeps its position and replaces its value;
    assigning to a new key appends it. Iteration follows the sequence. */
module Dicts {
  import opened Wrappers

  type Dict<K, V> = seq<(K, V)>

  /** The keys, in iteration order (`list(d)`). */
  function Keys<K, V>(d: Dict<K, V>): (ks: seq<K>)
    ensures |ks| == |d| && forall i :: 0 <= i < |d| ==> ks[i] == d[i].0
  {
    if d == [] then [] else [d[0].0] + Keys(d[1..])
  }

  /** The values, in iteration order. */
  function Values<K, V>(d: Dict<K, V>): (vs: seq<V>)
    ensures |vs| == |d| && forall i :: 0 <= i < |d| ==> vs[i] == d[i].1
  {
    if d == [] then [] else [d[0].1] + Values(d[1..])
  }

  /** No key occurs twice, as in every dict Python builds. */
  predicate UniqueKeys<K(==), V>(d: Dict<K, V>)
  {
    forall i, j :: 0 <= i < j < |d| ==> d[i].0 != d[j].0
  }

  /** The position of the first pair whose key is `k`. */
  function IndexOf<K(==), V>(d: Dict<K, V>, k: K): (i: nat)
    requires k in Keys(d)
    ensures i < |d| && d[i].0 == k && forall j :: 0 <= j < i ==> d[j].0 != k
  {
    if d[0].0 == k then 0
    else
      assert Keys(d) == [d[0].0] + Keys(d[1..]);
      1 + IndexOf(d[1..], k)
  }

  /** `d[k]`, or None where Python raises KeyError. */
  function Get<K(==), V>(d: Dict<K, V>, k: K): (r: Option<V>)
    ensures r.None? <==> k !in Keys(d)
    ensures r.Some? ==> exists i :: 0 <= i < |d| && d[i] == (k, r.value)
  {
    if k in Keys(d) then Some(d[IndexOf(d, k)].1) else None
  }

  /** In a dict without repeated keys, looking up the key at position `i`
      finds the value at position `i`. */
  lemma GetAt<K, V>(d: Dict<K, V>, i: nat)
    requires UniqueKeys(d) && i < |d|
    ensures Get(d, d[i].0) == Some(d[i].1)
  {
    assert d[i].0 in Keys(d);
    var j := IndexOf(d, d[i].0);
    assert j == i;
  }

  /** `d[k] = v`: the value of an existing key is replaced in place, a new
      key is appended. */
  function Put<K(==), V>(d: Dict<K, V>, k: K, v: V): (r: Dict<K, V>)
    ensures k in Keys(d) ==> |r| == |d| && r[IndexOf(d, k)] == (k, v)
    ensures k in Keys(d) ==> forall i :: 0 <= i < |d| && i != IndexOf(d, k) ==> r[i] == d[i]
    ensures k !in Keys(d) ==> r == d + [(k, v)]
  {
    if k in Keys(d) then d[IndexOf(d, k) := (k, v)] else d + [(k, v)]
  }

  /** The first position holding `k` is where IndexOf finds it. */
  lemma IndexOfAt<K, V>(d: Dict<K, V>, k: K, i: nat)
    requires i < |d| && d[i].0 == k && forall j :: 0 <= j < i ==> d[j].0 != k
    ensures k in Keys(d) && IndexOf(d, k) == i
  {
    assert Keys(d)[i] == k;
  }

  /** After `d[k] = v`, looking up `k` finds `v`. */
  lemma PutGetSame<K, V>(d: Dict<K, V>, k: K, v: V)
    ensures Get(Put(d, k, v), k) == Some(v)
  {
    var r := Put(d, k, v);
    if k in Keys(d) {
      IndexOfAt(r, k, IndexOf(d, k));
    } else {
      IndexOfAt(r, k, |d|);
    }
  }

  /** After `d[k] = v`, looking up another key finds what it found before. */
  lemma PutGetOther<K(!new), V>(d: Dict<K, V>, k: K, v: V, x: K)
    requires x != k
    ensures Get(Put(d, k, v), x) == Get(d, x)
  {
    var r := Put(d, k, v);
    PutMembers(d, k, v);
    if x in Keys(d) {
      var i := IndexOf(d, x);
      assert forall j :: 0 <= j < |d| ==> r[j].0 == d[j].0;
      IndexOfAt(r, x, i);
    }
  }

  /** `d[k] = v` keeps a dict free of repeated keys. */
  lemma PutUnique<K(!new), V>(d: Dict<K, V>, k: K, v: V)
    requires UniqueKeys(d)
    ensures UniqueKeys(Put(d, k, v))
  {
    PutMembers(d, k, v);
  }

  /** Assigning `k` adds `k` to the keys and no other key; an existing key
      keeps its position. */
  lemma PutMembers<K(!new), V>(d: Dict<K, V>, k: K, v: V)
    ensures forall x :: x in Keys(Put(d, k, v)) <==> x in Keys(d) || x == k
    ensures k in Keys(d) ==> Keys(Put(d, k, v)) == Keys(d)
  {
    if k in Keys(d) {
      assert Keys(Put(d, k, v)) == Keys(d);
    } else {
      assert Keys(Put(d, k, v)) == Keys(d) + [k];
    }
  }

  /** The dict built by assigning the pairs one after another, as a loop of
      `d[k] = v` or a dict comprehension does. */
  function FromPairs<K(==), V>(ps: seq<(K, V)>): Dict<K, V>
  {
    if ps == [] then [] else Put(FromPairs(ps[..|ps| - 1]), ps[|ps| - 1].0, ps[|ps| - 1].1)
  }

  /** The keys of a sequence of pairs, last pair split off. */
  lemma {:induction false} KeysSnoc<K, V>(ps: seq<(K, V)>)
    requires ps != []
    ensures Keys(ps) == Keys(ps[..|ps| - 1]) + [ps[|ps| - 1].0]
  {
    var prefix := ps[..|ps| - 1];
    var ks := Keys(prefix) + [ps[|ps| - 1].0];
    forall i | 0 <= i < |ps| ensures Keys(ps)[i] == ks[i] {
      if i < |prefix| {
        assert prefix[i] == ps[i];
      }
    }
  }

  /** The built dict repeats no key and has exactly the assigned keys. */
  lemma {:induction false} FromPairsKeys<K(!new), V>(ps: seq<(K, V)>)
    ensures UniqueKeys(FromPairs(ps))
    ensures forall k :: k in Keys(FromPairs(ps)) <==> k in Keys(ps)
  {
    if ps != [] {
      var prefix := ps[..|ps| - 1];
      var last := ps[|ps| - 1];
      FromPairsKeys(prefix);
      PutMembers(FromPairs(prefix), last.0, last.1);
      PutUnique(FromPairs(prefix), last.0, last.1);
      KeysSnoc(ps);
    }
  }

  /** Assigning pairs whose keys are all different rebuilds exactly those
      pairs, in that order. */
  lemma {:induction false} FromPairsUnique<K(!new), V>(ps: seq<(K, V)>)
    requires UniqueKeys(ps)
    ensures FromPairs(ps) == ps
  {
    if ps != [] {
      var prefix := ps[..|ps| - 1];
      assert UniqueKeys(prefix);
      FromPairsUnique(prefix);
      assert ps[|ps| - 1].0 !in Keys(prefix);
      assert prefix + [ps[|ps| - 1]] == ps;
    }
  }

  /** When every assigned value is `v`, every value of the dict is `v`. */
  lemma {:induction false} FromPairsConstant<K(!new), V>(ps: seq<(K, V)>, v: V)
    requires forall i :: 0 <= i < |ps| ==> ps[i].1 == v
    ensures forall i :: 0 <= i < |FromPairs(ps)| ==> FromPairs(ps)[i].1 == v
  {
    if ps != [] {
      var prefix := ps[..|ps| - 1];
      FromPairsConstant(prefix, v);
    }
  }

  /** The first assigned key stays first. */
  lemma {:induction false} FromPairsFirst<K(!new), V>(ps: seq<(K, V)>)
    requires ps != []
    ensures FromPairs(ps) != [] && FromPairs(ps)[0].0 == ps[0].0
  {
    if |ps| > 1 {
      var prefix := ps[..|ps| - 1];
      FromPairsFirst(prefix);
    }
  }
}
