/** Python dictionaries: a finite map together with the insertion order in which
    `for k in d`, `d.keys()`, `d.values()` and `d.items()` visit the keys. */
module PyDict {

  predicate Distinct<K(==)>(s: seq<K>) {
    forall i, j :: 0 <= i < j < |s| ==> s[i] != s[j]
  }

  /** The elements of `s` in order of first occurrence: the key order of a dictionary into which
      the elements of `s` are inserted from left to right. */
  function Dedup<K(==,!new)>(s: seq<K>): (r: seq<K>)
    ensures Distinct(r)
    ensures forall x :: x in r <==> x in s
    decreases |s|
  {
    if s == [] then []
    else
      var init, x := s[..|s| - 1], s[|s| - 1];
      var d := Dedup(init);
      assert forall i :: 0 <= i < |s| - 1 ==> s[i] == init[i];
      if x in d then d else d + [x]
  }

  lemma DedupSnoc<K(!new)>(s: seq<K>, x: K)
    ensures Dedup(s + [x]) == if x in s then Dedup(s) else Dedup(s) + [x]
  {
    assert (s + [x])[..|s|] == s;
    assert x in Dedup(s) <==> x in s;
  }

  /** A dictionary with string keys, with its key order. */
  datatype Dict<V> = Dict(order: seq<string>, entries: map<string, V>) {

    /** The order lists every key exactly once. */
    ghost predicate Valid() {
      Distinct(order) && (forall k :: k in entries <==> k in order)
    }

    /** `d.get(k, default)`. */
    function Get(k: string, default: V): V {
      if k in entries then entries[k] else default
    }

    /** `d[k] = v`: a new key goes to the end of the order; an existing key keeps its place. */
    function Set(k: string, v: V): (d: Dict<V>)
      ensures Valid() ==> d.Valid()
      ensures k in d.entries && d.entries[k] == v
      ensures forall k' :: k' != k ==> (k' in d.entries <==> k' in entries)
      ensures forall k' :: k' != k && k' in entries ==> d.entries[k'] == entries[k']
      ensures k in entries ==> d.order == order
      ensures k !in entries ==> d.order == order + [k]
    {
      Dict(if k in entries then order else order + [k], entries[k := v])
    }

    /** `d.values()`, in key order. */
    function Values(): seq<V>
      requires Valid()
    {
      seq(|order|, i requires 0 <= i < |order| => entries[order[i]])
    }
  }

  /** Two ways of reaching the dictionary that maps the distinct elements of `ts + [t]`, in
      order of first occurrence: building it outright, or inserting `t` into the one for `ts`. */
  lemma SetOnKeys<V>(ts: seq<string>, t: string, before: Dict<V>, after: Dict<V>, v: V)
    requires before.order == Dedup(ts) && after.order == Dedup(ts + [t])
    requires forall u :: u in before.entries <==> u in ts
    requires forall u :: u in after.entries <==> u in ts || u == t
    requires forall u :: u in ts && u != t ==> after.entries[u] == before.entries[u]
    requires t in after.entries && after.entries[t] == v
    ensures after == before.Set(t, v)
  {
    var d := before.Set(t, v);
    assert after.order == d.order by {
      DedupSnoc(ts, t);
      assert t in before.entries <==> t in ts;
    }
    forall u ensures u in after.entries <==> u in d.entries {
      assert u in d.entries <==> u in before.entries || u == t;
    }
    forall u | u in after.entries ensures after.entries[u] == d.entries[u] {
      if u != t {
        assert u in ts;
      }
    }
    MapsEqual(after.entries, d.entries);
  }

  /** Two maps with the same keys and the same values are equal. */
  lemma MapsEqual<V>(a: map<string, V>, b: map<string, V>)
    requires forall u :: u in a <==> u in b
    requires forall u :: u in a ==> a[u] == b[u]
    ensures a == b
  {
    assert a.Keys == b.Keys;
  }

  /** Two dictionaries with the same order, the same keys and the same values are equal. */
  lemma SameOnKeys<V>(before: Dict<V>, after: Dict<V>)
    requires before.order == after.order
    requires forall u :: u in before.entries <==> u in after.entries
    requires forall u :: u in before.entries ==> after.entries[u] == before.entries[u]
    ensures after == before
  {
    assert after.entries.Keys == before.entries.Keys;
  }

  /** `{}`. */
  function Empty<V>(): (d: Dict<V>)
    ensures d.Valid() && d.order == [] && d.entries == map[]
  {
    Dict([], map[])
  }

  /** `sum(vs)` for a list of counts. */
  function SumNat(vs: seq<nat>): nat
    decreases |vs|
  {
    if vs == [] then 0 else SumNat(vs[..|vs| - 1]) + vs[|vs| - 1]
  }

  /** The multiplicities in `m` of the keys `ks`, in order. */
  function Multiplicities<K(==)>(ks: seq<K>, m: multiset<K>): seq<nat> {
    seq(|ks|, i requires 0 <= i < |ks| => m[ks[i]])
  }

  lemma SumNatSnoc(vs: seq<nat>, v: nat)
    ensures SumNat(vs + [v]) == SumNat(vs) + v
  {
    assert (vs + [v])[..|vs|] == vs;
  }

  lemma SumMultiplicitiesSnoc<K>(ks: seq<K>, x: K, m: multiset<K>)
    ensures SumNat(Multiplicities(ks + [x], m)) == SumNat(Multiplicities(ks, m)) + m[x]
  {
    assert Multiplicities(ks + [x], m) == Multiplicities(ks, m) + [m[x]];
    SumNatSnoc(Multiplicities(ks, m), m[x]);
  }

  /** Adding one more occurrence of a key that `ks` lists at most once raises the sum of
      multiplicities by one if `ks` lists it, and leaves it unchanged otherwise. */
  lemma {:induction false} SumBump<K>(ks: seq<K>, m: multiset<K>, x: K)
    requires Distinct(ks)
    ensures SumNat(Multiplicities(ks, m + multiset{x}))
         == SumNat(Multiplicities(ks, m)) + (if x in ks then 1 else 0)
    decreases |ks|
  {
    if ks != [] {
      var n := |ks| - 1;
      var init, y := ks[..n], ks[n];
      assert ks == init + [y];
      assert Distinct(init);
      SumBump(init, m, x);
      SumMultiplicitiesSnoc(init, y, m);
      SumMultiplicitiesSnoc(init, y, m + multiset{x});
      assert x in ks <==> x in init || x == y;
      assert x == y ==> x !in init;
    }
  }

  /** Summing, over the distinct elements of `s`, how often each occurs gives `|s|`:
      the counts of a grouping add up to the number of grouped items. */
  lemma {:induction false} SumOfMultiplicities<K(!new)>(s: seq<K>)
    ensures SumNat(Multiplicities(Dedup(s), multiset(s))) == |s|
    decreases |s|
  {
    if s != [] {
      var init, x := s[..|s| - 1], s[|s| - 1];
      var d := Dedup(init);
      assert s == init + [x];
      assert multiset(s) == multiset(init) + multiset{x};
      SumOfMultiplicities(init);
      DedupSnoc(init, x);
      SumBump(d, multiset(init), x);
      assert x in d <==> x in init;
      if x !in init {
        assert multiset(init)[x] == 0;
        SumMultiplicitiesSnoc(d, x, multiset(s));
      }
    }
  }
}
