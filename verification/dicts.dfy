/**
 An insertion-ordered dictionary: the model of the Python `dict` values the
 graph generator builds. `keys` fixes one iteration order (the order in which
 keys were first inserted) so that rendering is a function; no property of the
 model depends on which order that is.
 */
module Dicts {

  /** Keys are listed once each, and the listed keys are exactly the map's keys. */
  ghost predicate Distinct<K>(s: seq<K>) {
    forall i, j :: 0 <= i < j < |s| ==> s[i] != s[j]
  }

  datatype Dict<K(!new), V> = Dict(keys: seq<K>, m: map<K, V>) {

    ghost predicate Valid() {
      && Distinct(keys)
      && (forall k :: k in m <==> k in keys)
    }
  }

  function Empty<K(!new), V>(): (d: Dict<K, V>)
    ensures d.Valid() && d.m == map[] && d.keys == []
  {
    Dict([], map[])
  }

  /** `d[k] = v`: a new key goes to the end of the order, an existing key keeps its place. */
  function Put<K(!new), V>(d: Dict<K, V>, k: K, v: V): (r: Dict<K, V>)
    requires d.Valid()
    ensures r.Valid()
    ensures r.m == d.m[k := v]
    ensures k in d.m ==> r.keys == d.keys
    ensures k !in d.m ==> r.keys == d.keys + [k]
  {
    if k in d.m then Dict(d.keys, d.m[k := v]) else Dict(d.keys + [k], d.m[k := v])
  }

  /** The elements of `s` that lie in `keep`, in their original order. */
  function Filter<K(!new)>(s: seq<K>, keep: set<K>): (r: seq<K>)
    ensures forall x :: x in r <==> x in s && x in keep
    ensures Distinct(s) ==> Distinct(r)
  {
    if s == [] then []
    else if s[0] in keep then [s[0]] + Filter(s[1..], keep)
    else Filter(s[1..], keep)
  }

  /** `{k: v for k, v in d.items() if k in keep}`. */
  function Restrict<K(!new), V>(d: Dict<K, V>, keep: set<K>): (r: Dict<K, V>)
    requires d.Valid()
    ensures r.Valid()
    ensures r.m.Keys == d.m.Keys * keep
    ensures forall k :: k in r.m ==> r.m[k] == d.m[k]
  {
    Dict(Filter(d.keys, keep), map k | k in d.m && k in keep :: d.m[k])
  }

  /** A dictionary is empty exactly when its key order is. */
  lemma NoKeys<K(!new), V>(d: Dict<K, V>)
    requires d.Valid()
    ensures d.keys == [] <==> d.m == map[]
  {
    if d.keys != [] {
      assert d.keys[0] in d.m;
    }
  }

  /** Restricting to a superset of the keys changes nothing. */
  lemma RestrictAll<K(!new), V>(d: Dict<K, V>, keep: set<K>)
    requires d.Valid()
    requires d.m.Keys <= keep
    ensures Restrict(d, keep).m == d.m
  {
    assert Restrict(d, keep).m.Keys == d.m.Keys;
  }
}
