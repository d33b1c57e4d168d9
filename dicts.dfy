/** Python's insertion-ordered dict: the keys in the order they were first
    inserted, and the mapping from keys to values. `Assign` is the statement
    `d[k] = v`: an existing key keeps its position and takes the new value, a
    new key goes to the end. */
module Dicts {
  import opened Wrappers

  datatype Dict<K(==), V> = Dict(order: seq<K>, entries: map<K, V>)

  predicate Distinct<T(==)>(s: seq<T>) {
    forall i, j :: 0 <= i < j < |s| ==> s[i] != s[j]
  }

  /** The invariant every Python dict keeps: each key listed once, and the
      listed keys are exactly the keys with a value. */
  ghost predicate Valid<K(!new), V>(d: Dict<K, V>) {
    && Distinct(d.order)
    && (forall k :: k in d.entries <==> k in d.order)
  }

  /** `{}` */
  function Empty<K(==,!new), V>(): (d: Dict<K, V>)
    ensures Valid(d)
  {
    Dict([], map[])
  }

  /** `list(d.keys())` */
  function Keys<K(==), V>(d: Dict<K, V>): seq<K> {
    d.order
  }

  /** `k in d` */
  predicate HasKey<K(==), V>(d: Dict<K, V>, k: K) {
    k in d.entries
  }

  /** `d.get(k)`: the value stored under `k`, if any. */
  function Get<K(==), V>(d: Dict<K, V>, k: K): Option<V> {
    if k in d.entries then Some(d.entries[k]) else None
  }

  /** `d[k] = v` */
  function Assign<K(==), V>(d: Dict<K, V>, k: K, v: V): Dict<K, V>
  {
    Dict(if k in d.entries then d.order else d.order + [k], d.entries[k := v])
  }

  /** What `Assign` means: a new key goes last, the key maps to the new
      value, no other key changes, and the dict stays valid. */
  lemma AssignMeaning<K(!new), V>(d: Dict<K, V>, k: K, v: V)
    ensures Valid(d) ==> Valid(Assign(d, k, v))
    ensures Keys(Assign(d, k, v)) == if HasKey(d, k) then Keys(d) else Keys(d) + [k]
    ensures Keys(d) <= Keys(Assign(d, k, v))
    ensures forall k' :: Get(Assign(d, k, v), k') == if k' == k then Some(v) else Get(d, k')
  {
  }

  /** `list(d.items())`: the pairs in key order. */
  function Items<K(!new), V>(d: Dict<K, V>): (ps: seq<(K, V)>)
    requires Valid(d)
    ensures |ps| == |Keys(d)|
    ensures forall i :: 0 <= i < |ps| ==> ps[i].0 == Keys(d)[i] && Get(d, ps[i].0) == Some(ps[i].1)
  {
    seq(|d.order|, i requires 0 <= i < |d.order| => (d.order[i], d.entries[d.order[i]]))
  }

  /** `list(d.values())`: the values in key order. */
  function Values<K(!new), V>(d: Dict<K, V>): (vs: seq<V>)
    requires Valid(d)
    ensures |vs| == |Keys(d)|
    ensures forall i :: 0 <= i < |vs| ==> Get(d, Keys(d)[i]) == Some(vs[i])
  {
    seq(|d.order|, i requires 0 <= i < |d.order| => d.entries[d.order[i]])
  }

  /** The `for name, plugin in d.items(): out.append(plugin)` loop of lines
      159-161. */
  method ValuesList<K(!new), V>(d: Dict<K, V>) returns (vs: seq<V>)
    requires Valid(d)
    ensures vs == Values(d)
  {
    vs := [];
    for i := 0 to |d.order|
      invariant vs == Values(d)[..i]
    {
      vs := vs + [d.entries[d.order[i]]];
    }
  }

  /** The index of the first occurrence of `k` in `ks`. */
  function FirstIndex<K(==)>(ks: seq<K>, k: K): (i: nat)
    requires k in ks
    ensures i < |ks| && ks[i] == k
    ensures forall j :: 0 <= j < i ==> ks[j] != k
  {
    if ks[0] == k then 0 else 1 + FirstIndex(ks[1..], k)
  }

  lemma {:induction false} FirstIndexExtend<K>(ks: seq<K>, x: K, k: K)
    requires k in ks
    ensures FirstIndex(ks + [x], k) == FirstIndex(ks, k)
  {
    if ks[0] != k {
      assert (ks + [x])[1..] == ks[1..] + [x];
      FirstIndexExtend(ks[1..], x, k);
    }
  }

  /** The first components of a sequence of pairs. */
  function PairKeys<K, V>(ps: seq<(K, V)>): (ks: seq<K>)
    ensures |ks| == |ps|
    ensures forall i :: 0 <= i < |ps| ==> ks[i] == ps[i].0
  {
    seq(|ps|, i requires 0 <= i < |ps| => ps[i].0)
  }

  function Dedup<K(==)>(ks: seq<K>): (r: seq<K>)
  {
    if |ks| == 0 then []
    else
      var seen := Dedup(ks[..|ks| - 1]);
      if ks[|ks| - 1] in seen then seen else seen + [ks[|ks| - 1]]
  }

  lemma {:induction false} DedupElements<K>(ks: seq<K>)
    ensures Distinct(Dedup(ks))
    ensures forall i :: 0 <= i < |Dedup(ks)| ==> Dedup(ks)[i] in ks
    ensures forall i :: 0 <= i < |ks| ==> ks[i] in Dedup(ks)
  {
    if |ks| > 0 {
      var init := ks[..|ks| - 1];
      DedupElements(init);
      assert ks == init + [ks[|ks| - 1]];
    }
  }

  /** `Dedup` lists the keys in the order of their first occurrences. */
  lemma {:induction false} DedupFirstOccurrenceOrder<K>(ks: seq<K>)
    ensures forall i, j :: 0 <= i < j < |Dedup(ks)| ==>
      Dedup(ks)[i] in ks && Dedup(ks)[j] in ks &&
      FirstIndex(ks, Dedup(ks)[i]) < FirstIndex(ks, Dedup(ks)[j])
  {
    DedupElements(ks);
    if |ks| > 0 {
      var init, x := ks[..|ks| - 1], ks[|ks| - 1];
      assert ks == init + [x];
      DedupFirstOccurrenceOrder(init);
      DedupElements(init);
      var seen := Dedup(init);
      forall i | 0 <= i < |seen|
        ensures seen[i] in init && seen[i] in ks
        ensures FirstIndex(ks, seen[i]) == FirstIndex(init, seen[i])
      {
        assert seen[i] in seen;
        FirstIndexExtend(init, x, seen[i]);
      }
      if x !in seen {
        assert FirstIndex(ks, x) == |init|;
      }
    }
  }

  /** The value of the last pair with key `k`. */
  function LastValue<K(==), V>(ps: seq<(K, V)>, k: K): Option<V>
  {
    if |ps| == 0 then None
    else if ps[|ps| - 1].0 == k then Some(ps[|ps| - 1].1)
    else LastValue(ps[..|ps| - 1], k)
  }

  /** The dict built by assigning every pair of `ps` in turn, starting from `{}`. */
  function FromPairs<K(==,!new), V>(ps: seq<(K, V)>): Dict<K, V>
  {
    if |ps| == 0 then Empty()
    else Assign(FromPairs(ps[..|ps| - 1]), ps[|ps| - 1].0, ps[|ps| - 1].1)
  }

  /** One more assignment. */
  lemma FromPairsSnoc<K(!new), V>(ps: seq<(K, V)>, p: (K, V))
    ensures FromPairs(ps + [p]) == Assign(FromPairs(ps), p.0, p.1)
  {
    assert (ps + [p])[..|ps|] == ps;
  }

  /** Assigning pairs in turn gives a dict whose keys are the distinct keys in
      first-occurrence order, each holding the value it was assigned last. */
  lemma {:induction false} FromPairsShape<K(!new), V>(ps: seq<(K, V)>)
    ensures Valid(FromPairs(ps))
    ensures Keys(FromPairs(ps)) == Dedup(PairKeys(ps))
    ensures forall k :: Get(FromPairs(ps), k) == LastValue(ps, k)
  {
    if |ps| > 0 {
      var init := ps[..|ps| - 1];
      FromPairsShape(init);
      assert PairKeys(ps)[..|ps| - 1] == PairKeys(init);
      AssignMeaning(FromPairs(init), ps[|ps| - 1].0, ps[|ps| - 1].1);
    }
  }

  /** With distinct keys, the last value under a key is the value of its one pair. */
  lemma {:induction false} LastValueOfDistinct<K, V>(ps: seq<(K, V)>, i: nat)
    requires Distinct(PairKeys(ps)) && i < |ps|
    ensures LastValue(ps, ps[i].0) == Some(ps[i].1)
  {
    if i < |ps| - 1 {
      assert PairKeys(ps)[i] != PairKeys(ps)[|ps| - 1];
      var init := ps[..|ps| - 1];
      assert PairKeys(init) == PairKeys(ps)[..|ps| - 1];
      LastValueOfDistinct(init, i);
    }
  }

  /** The last value under a key is the value of the key's last pair. */
  lemma {:induction false} LastValueOfLast<K, V>(ps: seq<(K, V)>, i: nat)
    requires i < |ps| && forall j :: i < j < |ps| ==> ps[j].0 != ps[i].0
    ensures LastValue(ps, ps[i].0) == Some(ps[i].1)
  {
    if i < |ps| - 1 {
      var init := ps[..|ps| - 1];
      LastValueOfLast(init, i);
    }
  }
}
