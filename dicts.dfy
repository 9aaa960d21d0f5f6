/**
 * Python's `dict` with string keys: a map together with the order in which its keys were
 * first inserted, which is the order `items()` iterates in.
 */
module Dicts {

  predicate Distinct(s: seq<string>)
  {
    forall i, j :: 0 <= i < j < |s| ==> s[i] != s[j]
  }

  /** `s` with every occurrence of `k` taken out, in the same order. */
  function Without(s: seq<string>, k: string): (r: seq<string>)
    ensures forall x :: x in r <==> x in s && x != k
    ensures Distinct(s) ==> Distinct(r)
  {
    if s == [] then []
    else if s[0] == k then Without(s[1..], k)
    else
      assert Distinct(s) ==> Distinct(s[1..]) && s[0] !in s[1..] by {
        if Distinct(s) {
          forall j | 0 <= j < |s[1..]| ensures s[1..][j] != s[0] { assert s[1..][j] == s[j + 1]; }
        }
      }
      [s[0]] + Without(s[1..], k)
  }

  datatype Dict<V> = Dict(keys: seq<string>, values: map<string, V>)
  {
    /** Every key is stored once, and the key order lists exactly the map's keys. */
    ghost predicate Valid()
    {
      && Distinct(keys)
      && (forall k :: k in values <==> k in keys)
    }

    /** `d[k] = v`: an existing key keeps its place, a new key goes last. */
    function Put(k: string, v: V): (d: Dict<V>)
      requires Valid()
      ensures d.Valid()
    {
      if k in values then Dict(keys, values[k := v]) else Dict(keys + [k], values[k := v])
    }

    /** `d.pop(k)` for a key that is present: the dict without `k`, the others in order. */
    function Pop(k: string): (d: Dict<V>)
      requires k in values
      ensures Valid() ==> d.Valid()
    {
      Dict(Without(keys, k), values - {k})
    }
  }

  function Empty<V>(): (d: Dict<V>)
    ensures d.Valid() && d.keys == []
  {
    Dict([], map[])
  }

  /** The dict that assigning `d[k] = v` for every pair of `pairs`, in order, builds from `{}`. */
  function PutAll<V>(pairs: seq<(string, V)>): (d: Dict<V>)
    ensures d.Valid()
  {
    if pairs == [] then Empty()
    else PutAll(pairs[..|pairs| - 1]).Put(pairs[|pairs| - 1].0, pairs[|pairs| - 1].1)
  }

  function Firsts<V>(pairs: seq<(string, V)>): (ks: seq<string>)
    ensures |ks| == |pairs|
    ensures forall i :: 0 <= i < |pairs| ==> ks[i] == pairs[i].0
  {
    if pairs == [] then [] else Firsts(pairs[..|pairs| - 1]) + [pairs[|pairs| - 1].0]
  }

  /** No pair after position `j` assigns the key that the pair at `j` assigns. */
  predicate LastFor<V>(pairs: seq<(string, V)>, j: nat)
    requires j < |pairs|
  {
    forall i :: j < i < |pairs| ==> pairs[i].0 != pairs[j].0
  }

  /** The keys of `PutAll(pairs)` are exactly the keys the pairs assign. */
  lemma {:induction false} PutAllKeys<V>(pairs: seq<(string, V)>)
    ensures forall k :: k in PutAll(pairs).values <==> k in Firsts(pairs)
  {
    if pairs != [] {
      PutAllKeys(pairs[..|pairs| - 1]);
    }
  }

  /** The value `PutAll(pairs)` keeps for a key is the one its last assignment gave it. */
  lemma {:induction false} PutAllLastWins<V>(pairs: seq<(string, V)>, j: nat)
    requires j < |pairs| && LastFor(pairs, j)
    ensures pairs[j].0 in PutAll(pairs).values
    ensures PutAll(pairs).values[pairs[j].0] == pairs[j].1
  {
    var n := |pairs| - 1;
    if j < n {
      var init := pairs[..n];
      assert init[j] == pairs[j];
      assert LastFor(init, j) by {
        forall i | j < i < |init| ensures init[i].0 != init[j].0 {
          assert init[i] == pairs[i];
        }
      }
      PutAllLastWins(init, j);
    }
  }

  /** When every pair assigns a different key, the keys keep the order of the pairs. */
  lemma {:induction false} PutAllKeyOrder<V>(pairs: seq<(string, V)>)
    requires Distinct(Firsts(pairs))
    ensures PutAll(pairs).keys == Firsts(pairs)
  {
    if pairs != [] {
      var n := |pairs| - 1;
      var init := pairs[..n];
      assert Firsts(pairs) == Firsts(init) + [pairs[n].0];
      assert Distinct(Firsts(init)) by {
        forall a, b | 0 <= a < b < n ensures Firsts(init)[a] != Firsts(init)[b] {
          assert Firsts(init)[a] == Firsts(pairs)[a] && Firsts(init)[b] == Firsts(pairs)[b];
        }
      }
      PutAllKeyOrder(init);
      PutAllKeys(init);
      assert pairs[n].0 !in Firsts(init);
    }
  }

  /** The entries of a dict, in iteration order, as `d.items()` yields them. */
  function Items<V>(d: Dict<V>): (pairs: seq<(string, V)>)
    requires d.Valid()
    ensures Firsts(pairs) == d.keys
  {
    seq(|d.keys|, i requires 0 <= i < |d.keys| => (d.keys[i], d.values[d.keys[i]]))
  }

  /** Rebuilding a dict from its items gives the same dict back, order included. */
  lemma ItemsPutAll<V>(d: Dict<V>)
    requires d.Valid()
    ensures PutAll(Items(d)) == d
  {
    var pairs := Items(d);
    PutAllKeyOrder(pairs);
    PutAllKeys(pairs);
    var r := PutAll(pairs);
    forall k | k in d.values ensures k in r.values && r.values[k] == d.values[k] {
      var j :| 0 <= j < |d.keys| && d.keys[j] == k;
      assert pairs[j].0 == k;
      assert LastFor(pairs, j);
      PutAllLastWins(pairs, j);
    }
    assert r.values == d.values;
  }
}
