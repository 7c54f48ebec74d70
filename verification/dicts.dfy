/**
 * Insertion-ordered dictionaries, as Python's `dict` behaves from Python 3.7: a new key is
 * appended to the iteration order, assigning to an existing key replaces its
 * value and keeps its position.
 */
module Dicts {

  datatype Dict<K(!new), V> = Dict(keys: seq<K>, entries: map<K, V>) {

    /** Keys are listed once each, and exactly the keys of `entries` are listed. */
    ghost predicate Valid() {
      && (forall i, j :: 0 <= i < j < |keys| ==> keys[i] != keys[j])
      && (forall k :: k in entries <==> k in keys)
    }

    /** `d[k] = v` */
    function Put(k: K, v: V): (d: Dict<K, V>)
      requires Valid()
      ensures d.Valid()
      ensures d.entries == entries[k := v]
      ensures k in entries ==> d.keys == keys
      ensures k !in entries ==> d.keys == keys + [k]
    {
      if k in entries then Dict(keys, entries[k := v]) else Dict(keys + [k], entries[k := v])
    }
  }

  function Empty<K(!new), V>(): (d: Dict<K, V>)
    ensures d.Valid() && d.keys == [] && d.entries == map[]
  {
    Dict([], map[])
  }

  /** The dictionary built by assigning each pair in turn, from left to right. */
  function FromPairs<K(!new), V>(ps: seq<(K, V)>): (d: Dict<K, V>)
    ensures d.Valid()
  {
    if ps == [] then Empty()
    else FromPairs(ps[..|ps| - 1]).Put(ps[|ps| - 1].0, ps[|ps| - 1].1)
  }

  /** The first components of a sequence of pairs. */
  function Firsts<K, V>(ps: seq<(K, V)>): (ks: seq<K>)
    ensures |ks| == |ps|
    ensures forall i :: 0 <= i < |ps| ==> ks[i] == ps[i].0
  {
    if ps == [] then [] else Firsts(ps[..|ps| - 1]) + [ps[|ps| - 1].0]
  }

  /** The elements of `s` in order of their first occurrence, each once. */
  function Dedup<K(==)>(s: seq<K>): (r: seq<K>)
  {
    if s == [] then []
    else
      var d := Dedup(s[..|s| - 1]);
      if s[|s| - 1] in d then d else d + [s[|s| - 1]]
  }

  lemma {:induction false} DedupMembers<K>(s: seq<K>)
    ensures forall x :: x in Dedup(s) <==> x in s
  {
    if s != [] {
      DedupMembers(s[..|s| - 1]);
      assert s == s[..|s| - 1] + [s[|s| - 1]];
    }
  }

  lemma FromPairsSnoc<K(!new), V>(ps: seq<(K, V)>, p: (K, V))
    ensures FromPairs(ps + [p]) == FromPairs(ps).Put(p.0, p.1)
  {
    assert (ps + [p])[..|ps|] == ps;
  }

  /**
   * The dictionary's keys are the pairs' first components in order of first
   * occurrence: a repeated key keeps the position it was first given.
   */
  lemma {:induction false} FromPairsKeys<K(!new), V>(ps: seq<(K, V)>)
    ensures FromPairs(ps).keys == Dedup(Firsts(ps))
  {
    if ps != [] {
      var init := ps[..|ps| - 1];
      FromPairsKeys(init);
      assert Firsts(ps)[..|ps| - 1] == Firsts(init);
    }
  }

  /**
   * A key is present exactly when some pair carries it, and then it maps to
   * the value of the LAST pair that carries it.
   */
  lemma FromPairsLookup<K(!new), V>(ps: seq<(K, V)>, k: K)
    ensures k in FromPairs(ps).entries <==> exists i :: 0 <= i < |ps| && ps[i].0 == k
    ensures forall i :: 0 <= i < |ps| && ps[i].0 == k && (forall j :: i < j < |ps| ==> ps[j].0 != k) ==>
      FromPairs(ps).entries[k] == ps[i].1
  {
    FromPairsHas(ps, k);
    forall i | 0 <= i < |ps| && ps[i].0 == k && (forall j :: i < j < |ps| ==> ps[j].0 != k)
      ensures FromPairs(ps).entries[k] == ps[i].1
    {
      FromPairsLast(ps, k, i);
    }
  }

  lemma {:induction false} FromPairsHas<K(!new), V>(ps: seq<(K, V)>, k: K)
    ensures k in FromPairs(ps).entries <==> exists i :: 0 <= i < |ps| && ps[i].0 == k
  {
    if ps != [] {
      var n := |ps| - 1;
      var init := ps[..n];
      FromPairsHas(init, k);
      if ps[n].0 != k {
        if k in FromPairs(ps).entries {
          var i :| 0 <= i < |init| && init[i].0 == k;
          assert ps[i].0 == k;
        }
        if exists i :: 0 <= i < |ps| && ps[i].0 == k {
          var i :| 0 <= i < |ps| && ps[i].0 == k;
          assert init[i].0 == k;
        }
      }
    }
  }

  lemma {:induction false} FromPairsLast<K(!new), V>(ps: seq<(K, V)>, k: K, i: nat)
    requires i < |ps| && ps[i].0 == k && forall j :: i < j < |ps| ==> ps[j].0 != k
    ensures k in FromPairs(ps).entries && FromPairs(ps).entries[k] == ps[i].1
  {
    var n := |ps| - 1;
    var init := ps[..n];
    if i < n {
      assert init[i] == ps[i];
      assert forall j :: i < j < |init| ==> init[j].0 != k by {
        forall j | i < j < |init| ensures init[j].0 != k { assert init[j] == ps[j]; }
      }
      FromPairsLast(init, k, i);
    }
  }
}
