/** What the six statistics of backend/core/stat_compute.py promise, stated about their
    specifications (the methods of `StatCompute` return exactly these). */
module StatProperties {
  import opened Wrappers
  import opened Seqs
  import opened Numbers
  import opened PyDict
  import opened Records
  import opened StatCompute

  /** The records `nombre_biens_par_type` counts: those with a truthy `type_local`. */
  predicate IsCounted(b: Bien) {
    TruthyText(b.typeLocal)
  }

  /** The records counted under type `t`. */
  function HasType(t: string): Bien -> bool {
    (b: Bien) => TypeKey(b) == Some(t)
  }

  // ---------------------------------------------------------------------------------------
  // The counts

  lemma {:induction false} TypesLength(biens: seq<Bien>)
    ensures |Types(biens)| == |Filter(biens, IsCounted)|
    decreases |biens|
  {
    if biens != [] {
      var p, b := biens[..|biens| - 1], biens[|biens| - 1];
      assert biens == p + [b];
      TypesLength(p);
      TypesSnoc(p, b);
      FilterSnoc(p, b, IsCounted);
    }
  }

  lemma {:induction false} MultiplicityIsCount(biens: seq<Bien>, t: string)
    ensures multiset(Types(biens))[t] == |Filter(biens, HasType(t))|
    decreases |biens|
  {
    if biens != [] {
      var p, b := biens[..|biens| - 1], biens[|biens| - 1];
      assert biens == p + [b];
      MultiplicityIsCount(p, t);
      TypesSnoc(p, b);
      FilterSnoc(p, b, HasType(t));
    }
  }

  /** Every dictionary built from a specification lists each of its keys once. */
  lemma DedupValid<V>(ts: seq<string>, d: Dict<V>)
    requires d.order == Dedup(ts)
    requires forall u :: u in d.entries <==> u in ts
    ensures d.Valid()
  {
    forall u ensures u in d.entries <==> u in d.order {
      if u in ts {
        var i :| 0 <= i < |ts| && ts[i] == u;
      }
      if u in d.order {
        var i :| 0 <= i < |d.order| && d.order[i] == u;
      }
    }
  }

  /** `nombre_biens_par_type` has a key exactly for each truthy type that occurs, and maps it to
      the number of records of that type (stat_compute.py:108-111). */
  lemma CountPerType(biens: seq<Bien>, t: string)
    ensures CountSpec(biens).Valid()
    ensures t in CountSpec(biens).entries <==> exists i :: 0 <= i < |biens| && TypeKey(biens[i]) == Some(t)
    ensures t in CountSpec(biens).entries ==>
      CountSpec(biens).entries[t] == |Filter(biens, HasType(t))| > 0
  {
    DedupValid(Types(biens), CountSpec(biens));
    FilterMapMember(biens, TypeKey, t);
    MultiplicityIsCount(biens, t);
  }

  /** The counts add up to the number of records with a truthy type (stat_compute.py:108-112). */
  lemma CountTotal(biens: seq<Bien>)
    ensures CountSpec(biens).Valid()
    ensures SumNat(CountSpec(biens).Values()) == |Filter(biens, IsCounted)|
  {
    var ts := Types(biens);
    DedupValid(ts, CountSpec(biens));
    assert CountSpec(biens).Values() == Multiplicities(Dedup(ts), multiset(ts));
    SumOfMultiplicities(ts);
    TypesLength(biens);
  }

  // ---------------------------------------------------------------------------------------
  // Which records contribute

  /** `v` is in the list of type `t` exactly when some record of type `t` carries the value `v`
      for `f` (stat_compute.py:11-14, 31-33, 91-93). */
  lemma ValuesOfMember(biens: seq<Bien>, t: string, f: Field, v: real)
    ensures v in ValuesOf(biens, t, f) <==>
      exists i :: 0 <= i < |biens| && TruthyText(biens[i].typeLocal) && biens[i].typeLocal.value == t
                                    && FieldValue(biens[i], f) == Some(v)
  {
    FilterMapMember(biens, ValueFor(t, f), v);
  }

  /** A type is a key of the statistics of `f` exactly when some record of that type has a value
      for `f`. */
  lemma TypesWithMember(biens: seq<Bien>, t: string, f: Field)
    ensures t in TypesWith(biens, f) <==>
      exists i :: 0 <= i < |biens| && TruthyText(biens[i].typeLocal) && biens[i].typeLocal.value == t
                                    && FieldValue(biens[i], f).Some?
  {
    FilterMapMember(biens, KeyFor(f), t);
  }

  /** A record contributes its price to the price statistics of its type if and only if its type
      is truthy and its price is not `None`; a price of 0 is not skipped (stat_compute.py:11-14,
      49-53, 71-73). */
  lemma PriceContributes(biens: seq<Bien>, i: nat)
    requires i < |biens|
    ensures var b := biens[i];
      TruthyText(b.typeLocal) && b.prixM2.Some? ==>
        && b.typeLocal.value in MeanSpec(biens, PrixM2).entries
        && b.typeLocal.value in MinSpec(biens).entries
        && b.typeLocal.value in MaxSpec(biens).entries
        && b.prixM2.value in ValuesOf(biens, b.typeLocal.value, PrixM2)
  {
    var b := biens[i];
    if TruthyText(b.typeLocal) && b.prixM2.Some? {
      TypesWithMember(biens, b.typeLocal.value, PrixM2);
      ValuesOfMember(biens, b.typeLocal.value, PrixM2, b.prixM2.value);
    }
  }

  /** When every priced record has the type `t`, each price dictionary has the single key `t`. */
  lemma SingleType(biens: seq<Bien>, t: string)
    requires |TypesWith(biens, PrixM2)| > 0
    requires forall i :: 0 <= i < |TypesWith(biens, PrixM2)| ==> TypesWith(biens, PrixM2)[i] == t
    ensures var vs := ValuesOf(biens, t, PrixM2);
      && MinSpec(biens).entries == map[t := MinOf(vs)]
      && MaxSpec(biens).entries == map[t := MaxOf(vs)]
      && MeanSpec(biens, PrixM2).entries == map[t := Some(Mean(vs))]
  {
    var ts := TypesWith(biens, PrixM2);
    assert ts[0] == t;
    forall u ensures u in ts <==> u == t {
      if u in ts {
        var i :| 0 <= i < |ts| && ts[i] == u;
      }
    }
    var vs := ValuesOf(biens, t, PrixM2);
    SingletonMap(MinSpec(biens).entries, t, MinOf(vs));
    SingletonMap(MaxSpec(biens).entries, t, MaxOf(vs));
    SingleTypeMean(biens, t);
  }

  lemma SingleTypeMean(biens: seq<Bien>, t: string)
    requires forall u :: u in TypesWith(biens, PrixM2) <==> u == t
    ensures MeanSpec(biens, PrixM2).entries == map[t := Some(Mean(ValuesOf(biens, t, PrixM2)))]
  {
    var g := GroupSpec(biens, PrixM2);
    assert t in g.entries;
    SingletonMap(MeanSpec(biens, PrixM2).entries, t, Some(Mean(ValuesOf(biens, t, PrixM2))));
  }

  /** A map whose only key is `t`. */
  lemma SingletonMap<V>(m: map<string, V>, t: string, v: V)
    requires forall u :: u in m <==> u == t
    requires t in m && m[t] == v
    ensures m == map[t := v]
  {
    MapsEqual(m, map[t := v]);
  }

  lemma OnePrice(b: Bien, t: string)
    requires KeyFor(PrixM2)(b) == Some(t)
    ensures TypesWith([b], PrixM2) == [t]
    ensures ValuesOf([b], t, PrixM2) == [b.prixM2.value]
  {
    assert [b] == [] + [b];
    TypesWithSnoc([], b, PrixM2);
    ValuesSnoc([], b, t, PrixM2);
  }

  /** A single house sold at a price of 0 gets a minimum, a maximum and a mean of 0. */
  lemma ZeroPriceCounts(b: Bien)
    requires b.typeLocal == Some("Maison") && b.prixM2 == Some(0.0)
    ensures MinSpec([b]).entries == map["Maison" := 0.0]
    ensures MaxSpec([b]).entries == map["Maison" := 0.0]
    ensures MeanSpec([b], PrixM2).entries == map["Maison" := Some(0.0)]
  {
    OnePrice(b, "Maison");
    var vs := ValuesOf([b], "Maison", PrixM2);
    assert Sum(vs) == Sum([]) + 0.0 by {
      assert vs[..0] == [];
    }
    SingleType([b], "Maison");
  }

  // ---------------------------------------------------------------------------------------
  // Key sets

  lemma TypesWithSubsetTypes(biens: seq<Bien>, f: Field, t: string)
    ensures t in TypesWith(biens, f) ==> t in Types(biens)
  {
    TypesWithMember(biens, t, f);
    FilterMapMember(biens, TypeKey, t);
    if t in TypesWith(biens, f) {
      var i :| 0 <= i < |biens| && TruthyText(biens[i].typeLocal) && biens[i].typeLocal.value == t
                                && FieldValue(biens[i], f).Some?;
      assert TypeKey(biens[i]) == Some(t);
    }
  }

  /** The mean, minimum and maximum price dictionaries have the same keys in the same order: the
      types with at least one price. Every one of them is a key of the count dictionary. The mean
      surface and mean number of rooms have the types with at least one such value
      (stat_compute.py:13-15, 32-34, 51-56, 73-75, 92-94, 110-111). */
  lemma KeySets(biens: seq<Bien>, f: Field)
    ensures MeanSpec(biens, PrixM2).order == MinSpec(biens).order == MaxSpec(biens).order
    ensures MeanSpec(biens, PrixM2).entries.Keys == MinSpec(biens).entries.Keys == MaxSpec(biens).entries.Keys
    ensures MeanSpec(biens, f).entries.Keys <= CountSpec(biens).entries.Keys
    ensures forall t :: t in MeanSpec(biens, f).entries <==>
      exists i :: 0 <= i < |biens| && TruthyText(biens[i].typeLocal) && biens[i].typeLocal.value == t
                                    && FieldValue(biens[i], f).Some?
  {
    forall t ensures t in MeanSpec(biens, f).entries <==>
      exists i :: 0 <= i < |biens| && TruthyText(biens[i].typeLocal) && biens[i].typeLocal.value == t
                                    && FieldValue(biens[i], f).Some?
    {
      TypesWithMember(biens, t, f);
    }
    forall t | t in MeanSpec(biens, f).entries ensures t in CountSpec(biens).entries {
      TypesWithSubsetTypes(biens, f, t);
    }
  }

  // ---------------------------------------------------------------------------------------
  // Minimum, maximum and mean

  /** Each per-type minimum is a price of a record of that type and no price of that type is
      smaller; likewise for the maximum (stat_compute.py:49-55, 71-74). */
  lemma MinMaxPerType(biens: seq<Bien>, t: string)
    requires t in MinSpec(biens).entries
    ensures t in MaxSpec(biens).entries
    ensures forall i :: 0 <= i < |biens| && TruthyText(biens[i].typeLocal) && biens[i].typeLocal.value == t
                        && biens[i].prixM2.Some? ==>
      MinSpec(biens).entries[t] <= biens[i].prixM2.value <= MaxSpec(biens).entries[t]
    ensures exists i :: 0 <= i < |biens| && TruthyText(biens[i].typeLocal) && biens[i].typeLocal.value == t
                        && biens[i].prixM2 == Some(MinSpec(biens).entries[t])
    ensures exists i :: 0 <= i < |biens| && TruthyText(biens[i].typeLocal) && biens[i].typeLocal.value == t
                        && biens[i].prixM2 == Some(MaxSpec(biens).entries[t])
  {
    var vs := ValuesOf(biens, t, PrixM2);
    forall i | 0 <= i < |biens| && TruthyText(biens[i].typeLocal) && biens[i].typeLocal.value == t
               && biens[i].prixM2.Some?
      ensures MinOf(vs) <= biens[i].prixM2.value <= MaxOf(vs)
    {
      ValuesOfMember(biens, t, PrixM2, biens[i].prixM2.value);
      var k :| 0 <= k < |vs| && vs[k] == biens[i].prixM2.value;
    }
    ValuesOfMember(biens, t, PrixM2, MinOf(vs));
    ValuesOfMember(biens, t, PrixM2, MaxOf(vs));
  }

  /** The `None` branch of `mean if p else None` is never taken: every list read is non-empty, so
      every type gets the mean of its values (stat_compute.py:14-15, 33-34, 93-94). */
  lemma MeansAreDefined(biens: seq<Bien>, f: Field, t: string)
    requires t in MeanSpec(biens, f).entries
    ensures |ValuesOf(biens, t, f)| > 0
    ensures MeanSpec(biens, f).entries[t] == Some(Mean(ValuesOf(biens, t, f)))
  {
  }

  /** Before rounding, the mean price of a type lies between its minimum and maximum
      (stat_compute.py:15, 55, 74). */
  lemma MeanBetweenMinMax(biens: seq<Bien>, t: string)
    requires t in MeanSpec(biens, PrixM2).entries
    ensures t in MinSpec(biens).entries && t in MaxSpec(biens).entries
    ensures MinSpec(biens).entries[t] <= MeanSpec(biens, PrixM2).entries[t].value <= MaxSpec(biens).entries[t]
  {
    MeanBetweenMinAndMax(ValuesOf(biens, t, PrixM2));
  }

  /** Three flats at 4000, 5000 and 6000 per square metre: mean 5000, minimum 4000, maximum 6000. */
  lemma ThreePrices(a: Bien, b: Bien, c: Bien, t: string)
    requires KeyFor(PrixM2)(a) == KeyFor(PrixM2)(b) == KeyFor(PrixM2)(c) == Some(t)
    ensures TypesWith([a, b, c], PrixM2) == [t, t, t]
    ensures ValuesOf([a, b, c], t, PrixM2) == [a.prixM2.value, b.prixM2.value, c.prixM2.value]
  {
    OnePrice(a, t);
    assert [a, b, c] == [a, b] + [c] && [a, b] == [a] + [b];
    TypesWithSnoc([a], b, PrixM2);
    TypesWithSnoc([a, b], c, PrixM2);
    ValuesSnoc([a], b, t, PrixM2);
    ValuesSnoc([a, b], c, t, PrixM2);
  }

  lemma Statistics456(vs: seq<real>)
    requires vs == [4000.0, 5000.0, 6000.0]
    ensures Mean(vs) == 5000.0 && MinOf(vs) == 4000.0 && MaxOf(vs) == 6000.0
  {
    assert vs[..2] == [4000.0, 5000.0] && vs[..2][..1] == [4000.0] && vs[..2][..1][..0] == [];
    assert Sum(vs) == Sum(vs[..2]) + 6000.0;
    assert Sum(vs[..2]) == Sum(vs[..2][..1]) + 5000.0;
    assert Sum(vs[..2][..1]) == 4000.0;
  }

  /** Three flats at 4000, 5000 and 6000 per square metre: mean 5000, minimum 4000, maximum 6000. */
  lemma ThreeFlats(a: Bien, b: Bien, c: Bien)
    requires a.typeLocal == b.typeLocal == c.typeLocal == Some("Appartement")
    requires a.prixM2 == Some(4000.0) && b.prixM2 == Some(5000.0) && c.prixM2 == Some(6000.0)
    ensures MeanSpec([a, b, c], PrixM2).entries == map["Appartement" := Some(5000.0)]
    ensures MinSpec([a, b, c]).entries == map["Appartement" := 4000.0]
    ensures MaxSpec([a, b, c]).entries == map["Appartement" := 6000.0]
  {
    ThreePrices(a, b, c, "Appartement");
    Statistics456(ValuesOf([a, b, c], "Appartement", PrixM2));
    SingleType([a, b, c], "Appartement");
  }

  /** No record, no statistic: every dictionary is empty (stat_compute.py:9-15, 106-112). */
  lemma EmptyInput(f: Field)
    ensures CountSpec([]) == Empty()
    ensures MeanSpec([], f) == Empty()
    ensures MinSpec([]) == Empty() && MaxSpec([]) == Empty()
  {
  }

  // ---------------------------------------------------------------------------------------
  // Order independence

  lemma TypesPermutation(a: seq<Bien>, b: seq<Bien>, f: Field, t: string)
    requires multiset(a) == multiset(b)
    ensures multiset(Types(a)) == multiset(Types(b))
    ensures t in TypesWith(a, f) <==> t in TypesWith(b, f)
    ensures multiset(ValuesOf(a, t, f)) == multiset(ValuesOf(b, t, f))
  {
    FilterMapPermutation(a, b, TypeKey);
    FilterMapPermutation(a, b, KeyFor(f));
    FilterMapPermutation(a, b, ValueFor(t, f));
    assert t in TypesWith(a, f) <==> t in multiset(TypesWith(a, f));
    assert t in TypesWith(b, f) <==> t in multiset(TypesWith(b, f));
  }

  /** Reordering the records changes only the key order: as Python dictionaries compare (ignoring
      order), every statistic is the same (stat_compute.py:10-15, 50-56, 108-112). */
  lemma CountOrderIndependence(a: seq<Bien>, b: seq<Bien>)
    requires multiset(a) == multiset(b)
    ensures CountSpec(a).entries == CountSpec(b).entries
  {
    FilterMapPermutation(a, b, TypeKey);
    var ta, tb := Types(a), Types(b);
    forall t ensures t in ta <==> t in tb {
      assert t in ta <==> t in multiset(ta);
      assert t in tb <==> t in multiset(tb);
    }
    assert CountSpec(a).entries.Keys == CountSpec(b).entries.Keys;
  }

  lemma MeanAtPermutation(a: seq<Bien>, b: seq<Bien>, f: Field, t: string)
    requires multiset(a) == multiset(b)
    ensures t in MeanSpec(a, f).entries <==> t in MeanSpec(b, f).entries
    ensures t in MeanSpec(a, f).entries ==> MeanSpec(a, f).entries[t] == MeanSpec(b, f).entries[t]
  {
    TypesPermutation(a, b, f, t);
    if t in TypesWith(a, f) {
      StatisticsOfPermutation(ValuesOf(a, t, f), ValuesOf(b, t, f));
    }
  }

  lemma MinMaxAtPermutation(a: seq<Bien>, b: seq<Bien>, t: string)
    requires multiset(a) == multiset(b)
    ensures t in MinSpec(a).entries <==> t in MinSpec(b).entries
    ensures t in MinSpec(a).entries ==> MinSpec(a).entries[t] == MinSpec(b).entries[t]
    ensures t in MaxSpec(a).entries ==> MaxSpec(a).entries[t] == MaxSpec(b).entries[t]
  {
    TypesPermutation(a, b, PrixM2, t);
    if t in TypesWith(a, PrixM2) {
      StatisticsOfPermutation(ValuesOf(a, t, PrixM2), ValuesOf(b, t, PrixM2));
    }
  }

  lemma MeanOrderIndependence(a: seq<Bien>, b: seq<Bien>, f: Field)
    requires multiset(a) == multiset(b)
    ensures MeanSpec(a, f).entries == MeanSpec(b, f).entries
  {
    var ma, mb := MeanSpec(a, f).entries, MeanSpec(b, f).entries;
    forall t ensures t in ma <==> t in mb {
      MeanAtPermutation(a, b, f, t);
    }
    forall t | t in ma ensures ma[t] == mb[t] {
      MeanAtPermutation(a, b, f, t);
    }
    MapsEqual(ma, mb);
  }

  lemma MinMaxOrderIndependence(a: seq<Bien>, b: seq<Bien>)
    requires multiset(a) == multiset(b)
    ensures MinSpec(a).entries == MinSpec(b).entries
    ensures MaxSpec(a).entries == MaxSpec(b).entries
  {
    MinOrderIndependence(a, b);
    MaxOrderIndependence(a, b);
  }

  lemma MinOrderIndependence(a: seq<Bien>, b: seq<Bien>)
    requires multiset(a) == multiset(b)
    ensures MinSpec(a).entries == MinSpec(b).entries
  {
    var ma, mb := MinSpec(a).entries, MinSpec(b).entries;
    forall t ensures t in ma <==> t in mb {
      MinMaxAtPermutation(a, b, t);
    }
    forall t | t in ma ensures ma[t] == mb[t] {
      MinMaxAtPermutation(a, b, t);
    }
    MapsEqual(ma, mb);
  }

  lemma MaxOrderIndependence(a: seq<Bien>, b: seq<Bien>)
    requires multiset(a) == multiset(b)
    ensures MaxSpec(a).entries == MaxSpec(b).entries
  {
    var ma, mb := MaxSpec(a).entries, MaxSpec(b).entries;
    forall t ensures t in ma <==> t in mb {
      MinMaxAtPermutation(a, b, t);
      assert t in ma <==> t in MinSpec(a).entries;
      assert t in mb <==> t in MinSpec(b).entries;
    }
    forall t | t in ma ensures ma[t] == mb[t] {
      MinMaxAtPermutation(a, b, t);
    }
    MapsEqual(ma, mb);
  }
}
