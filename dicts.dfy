/**
 * A Python `dict` with string keys, as the registry of apps uses it: the
 * keys in insertion order next to the key-to-value mapping.  Assigning to
 * an existing key replaces its value and leaves the key where it was.
 */
module Dicts {

  datatype Dict<V> = Dict(keys: seq<string>, entries: map<string, V>) {

    /** Every key occurs once in the order, and the order lists exactly the mapped keys. */
    ghost predicate Valid() {
      && (forall i, j :: 0 <= i < j < |keys| ==> keys[i] != keys[j])
      && (forall k :: k in entries <==> k in keys)
    }

    /** `d[k] = v`: a new key goes last; an existing key keeps its place and takes the new value. */
    function Set(k: string, v: V): (d: Dict<V>)
      requires Valid()
      ensures d.Valid()
      ensures d.entries == entries[k := v]
      ensures k in entries ==> d.keys == keys
      ensures k !in entries ==> d.keys == keys + [k]
    {
      if k in entries then Dict(keys, entries[k := v]) else Dict(keys + [k], entries[k := v])
    }

    /** `d.values()`, in insertion order. */
    function Values(): (vs: seq<V>)
      requires Valid()
      ensures |vs| == |keys|
    {
      Lookup(keys, entries)
    }
  }

  /** The value under each of `ks`, in order. */
  function Lookup<V>(ks: seq<string>, entries: map<string, V>): (vs: seq<V>)
    requires forall k :: k in ks ==> k in entries
    ensures |vs| == |ks|
    decreases |ks|
  {
    if ks == [] then []
    else Lookup(ks[..|ks| - 1], entries) + [entries[ks[|ks| - 1]]]
  }

  /** Each looked-up value is the one under the key at the same index. */
  lemma {:induction false} LookupAt<V>(ks: seq<string>, entries: map<string, V>)
    requires forall k :: k in ks ==> k in entries
    ensures forall i :: 0 <= i < |ks| ==> Lookup(ks, entries)[i] == entries[ks[i]]
    decreases |ks|
  {
    if ks != [] {
      var n := |ks| - 1;
      LookupAt(ks[..n], entries);
      assert forall i :: 0 <= i < n ==> ks[..n][i] == ks[i];
    }
  }

  /** `dict()`. */
  function Empty<V>(): Dict<V> {
    Dict([], map[])
  }

  /** The dict left by assigning each pair in turn to an empty dict. */
  function FromPairs<V>(pairs: seq<(string, V)>): (d: Dict<V>)
    ensures d.Valid()
    decreases |pairs|
  {
    if pairs == [] then Empty()
    else FromPairs(pairs[..|pairs| - 1]).Set(pairs[|pairs| - 1].0, pairs[|pairs| - 1].1)
  }

  /** Assigning one more pair is one more `Set`. */
  lemma FromPairsSnoc<V>(pairs: seq<(string, V)>, k: string, v: V)
    ensures FromPairs(pairs + [(k, v)]) == FromPairs(pairs).Set(k, v)
  {
    assert (pairs + [(k, v)])[..|pairs|] == pairs;
  }

  /** The keys of the pairs, in order and with repetitions. */
  function Names<V>(pairs: seq<(string, V)>): (ks: seq<string>)
    ensures |ks| == |pairs|
    decreases |pairs|
  {
    if pairs == [] then [] else Names(pairs[..|pairs| - 1]) + [pairs[|pairs| - 1].0]
  }

  /** The values of the pairs, in order. */
  function Seconds<V>(pairs: seq<(string, V)>): (vs: seq<V>)
    ensures |vs| == |pairs|
    decreases |pairs|
  {
    if pairs == [] then [] else Seconds(pairs[..|pairs| - 1]) + [pairs[|pairs| - 1].1]
  }

  /** The distinct elements of `ks`, each at the place of its first occurrence. */
  function Dedup(ks: seq<string>): seq<string>
    decreases |ks|
  {
    if ks == [] then []
    else
      var first := Dedup(ks[..|ks| - 1]);
      if ks[|ks| - 1] in ks[..|ks| - 1] then first else first + [ks[|ks| - 1]]
  }

  /** The dict has exactly the keys that some pair assigned to. */
  lemma {:induction false} FromPairsDomain<V>(pairs: seq<(string, V)>)
    ensures forall k :: k in FromPairs(pairs).entries <==> k in Names(pairs)
    decreases |pairs|
  {
    if pairs != [] {
      var n := |pairs| - 1;
      FromPairsDomain(pairs[..n]);
      assert Names(pairs) == Names(pairs[..n]) + [pairs[n].0];
    }
  }

  /** Keys stay in order of their first assignment: a later assignment to a key does not move it. */
  lemma {:induction false} FromPairsKeys<V>(pairs: seq<(string, V)>)
    ensures FromPairs(pairs).keys == Dedup(Names(pairs))
    decreases |pairs|
  {
    if pairs != [] {
      var n := |pairs| - 1;
      FromPairsKeys(pairs[..n]);
      FromPairsDomain(pairs[..n]);
      assert Names(pairs)[..n] == Names(pairs[..n]);
    }
  }

  /** A key that some pair assigns to has a last pair assigning to it. */
  lemma {:induction false} LastAssigned<V>(pairs: seq<(string, V)>, k: string) returns (i: nat)
    requires k in Names(pairs)
    ensures i < |pairs| && pairs[i].0 == k
    ensures forall j :: i < j < |pairs| ==> pairs[j].0 != k
    decreases |pairs|
  {
    var n := |pairs| - 1;
    if pairs[n].0 == k {
      i := n;
    } else {
      assert Names(pairs) == Names(pairs[..n]) + [pairs[n].0];
      i := LastAssigned(pairs[..n], k);
    }
  }

  /** Under each key sits the value of the LAST pair that assigned to it. */
  lemma {:induction false} FromPairsLastWins<V>(pairs: seq<(string, V)>, i: nat)
    requires i < |pairs|
    requires forall j :: i < j < |pairs| ==> pairs[j].0 != pairs[i].0
    ensures pairs[i].0 in FromPairs(pairs).entries
    ensures FromPairs(pairs).entries[pairs[i].0] == pairs[i].1
    decreases |pairs|
  {
    var n := |pairs| - 1;
    if i < n {
      FromPairsLastWins(pairs[..n], i);
    }
  }

  /** The key of each pair sits at the pair's own index. */
  lemma {:induction false} NamesAt<V>(pairs: seq<(string, V)>)
    ensures forall i :: 0 <= i < |pairs| ==> Names(pairs)[i] == pairs[i].0
    decreases |pairs|
  {
    if pairs != [] {
      var n := |pairs| - 1;
      NamesAt(pairs[..n]);
      assert forall i :: 0 <= i < n ==> pairs[..n][i] == pairs[i];
    }
  }

  /** Assigning to a key that is not looked up does not change the lookup. */
  lemma {:induction false} LookupElsewhere<V>(ks: seq<string>, entries: map<string, V>, k: string, v: V)
    requires forall x :: x in ks ==> x in entries
    requires k !in ks
    ensures Lookup(ks, entries[k := v]) == Lookup(ks, entries)
    decreases |ks|
  {
    if ks != [] {
      LookupElsewhere(ks[..|ks| - 1], entries, k, v);
    }
  }

  /** With distinct keys, the dict keeps every pair, in the order given. */
  lemma {:induction false} FromPairsDistinct<V>(pairs: seq<(string, V)>)
    requires forall i, j :: 0 <= i < j < |pairs| ==> pairs[i].0 != pairs[j].0
    ensures FromPairs(pairs).keys == Names(pairs)
    ensures FromPairs(pairs).Values() == Seconds(pairs)
    decreases |pairs|
  {
    if pairs != [] {
      var n := |pairs| - 1;
      var prefix := pairs[..n];
      FromPairsDistinct(prefix);
      FromPairsDomain(prefix);
      NamesAt(prefix);
      var d := FromPairs(prefix);
      assert pairs[n].0 !in d.entries;
      LookupElsewhere(d.keys, d.entries, pairs[n].0, pairs[n].1);
    }
  }
}
