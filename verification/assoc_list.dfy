/** Ruby `Hash` values as association lists. A Ruby Hash iterates in insertion
    order, and that order is observable in this model (it decides the order of
    survivors and of warnings), so a Dafny `map` would lose information. */
module AssocList {
  import opened Wrappers

  /** Every Hash in the reconciliation core is keyed by strings. */
  type AList<V> = seq<(string, V)>

  /** The set of keys of an association list. */
  function Keys<V>(m: AList<V>): set<string> {
    if |m| == 0 then {} else {m[0].0} + Keys(m[1..])
  }

  /** A Ruby Hash never holds the same key twice. */
  predicate DistinctKeys<V>(m: AList<V>) {
    |m| == 0 || (m[0].0 !in Keys(m[1..]) && DistinctKeys(m[1..]))
  }

  /** `hash[k]`: the value stored for `k`, or nil. */
  function Lookup<V>(m: AList<V>, k: string): (r: Option<V>)
    ensures r.Some? <==> k in Keys(m)
    ensures r.Some? ==> (k, r.value) in m
  {
    if |m| == 0 then None
    else if m[0].0 == k then Some(m[0].1)
    else Lookup(m[1..], k)
  }

  /** `hash[k] = v`: overwrites the value in place when `k` is present (the key
      keeps its position) and appends the pair otherwise. */
  function Put<V>(m: AList<V>, k: string, v: V): (r: AList<V>)
    ensures Lookup(r, k) == Some(v)
    ensures forall k' :: k' != k ==> Lookup(r, k') == Lookup(m, k')
    ensures Keys(r) == Keys(m) + {k}
    ensures |r| == if k in Keys(m) then |m| else |m| + 1
    ensures forall i :: 0 <= i < |m| ==> r[i].0 == m[i].0
    ensures DistinctKeys(m) ==> DistinctKeys(r)
  {
    if |m| == 0 then [(k, v)]
    else if m[0].0 == k then
      var r := [(k, v)] + m[1..];
      assert r[1..] == m[1..];
      r
    else
      var t := Put(m[1..], k, v);
      var r := [m[0]] + t;
      assert r[1..] == t;
      r
  }

  /** `g.merge!(m)`: puts every pair of `m` into `g`, in `m`'s order. */
  function Merge<V>(g: AList<V>, m: AList<V>): (r: AList<V>)
    ensures Keys(r) == Keys(g) + Keys(m)
    ensures |r| >= |g|
    ensures forall i :: 0 <= i < |g| ==> r[i].0 == g[i].0
    ensures DistinctKeys(g) ==> DistinctKeys(r)
    decreases |m|
  {
    if |m| == 0 then g else Merge(Put(g, m[0].0, m[0].1), m[1..])
  }

  /** After `g.merge!(m)` a key of `m` maps to `m`'s value (the later hash
      wins) and every other key keeps the value it had in `g`. */
  lemma {:induction false} MergeLookup<V>(g: AList<V>, m: AList<V>, k: string)
    requires DistinctKeys(m)
    ensures Lookup(Merge(g, m), k) == if k in Keys(m) then Lookup(m, k) else Lookup(g, k)
    decreases |m|
  {
    if |m| > 0 {
      MergeLookup(Put(g, m[0].0, m[0].1), m[1..], k);
    }
  }
}
