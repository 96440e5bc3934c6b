/** Per-type aggregation of sale records (backend/core/stat_compute.py). Each of the six
    statistics is a loop that fills a dictionary keyed by `type_local`; each loop is proved
    against a declarative specification, and the properties of the statistics are lemmas
    about those specifications. Rounding of the means is not modelled. */
module StatCompute {
  import opened Wrappers
  import opened Seqs
  import opened Numbers
  import opened PyDict
  import opened Records

  /** The record attribute a per-type mean is taken of. */
  datatype Field = PrixM2 | SurfaceReelleBati | NombrePiecesPrincipales

  function FieldValue(b: Bien, f: Field): Option<real> {
    match f
    case PrixM2 => b.prixM2
    case SurfaceReelleBati => b.surfaceReelleBati
    case NombrePiecesPrincipales =>
      if b.nombrePiecesPrincipales.Some? then Some(b.nombrePiecesPrincipales.value as real) else None
  }

  // ---------------------------------------------------------------------------------------
  // Which records take part in which statistic

  /** The type a record is counted under: `if type_local` lets only a non-empty type through. */
  function TypeKey(b: Bien): Option<string> {
    if TruthyText(b.typeLocal) then Some(b.typeLocal.value) else None
  }

  /** The type a record is aggregated under for `f`: `if type_local and v is not None`. */
  function KeyFor(f: Field): Bien -> Option<string> {
    (b: Bien) => if TruthyText(b.typeLocal) && FieldValue(b, f).Some? then Some(b.typeLocal.value) else None
  }

  /** The value of `f` that a record contributes to the list of type `t`. */
  function ValueFor(t: string, f: Field): Bien -> Option<real> {
    (b: Bien) => if KeyFor(f)(b) == Some(t) then FieldValue(b, f) else None
  }

  /** The types of the counted records, one entry per record, in input order. */
  function Types(biens: seq<Bien>): seq<string> {
    FilterMap(biens, TypeKey)
  }

  /** The types of the records that take part in the statistic of `f`, one entry per record. */
  function TypesWith(biens: seq<Bien>, f: Field): seq<string> {
    FilterMap(biens, KeyFor(f))
  }

  /** The list `stats[t]` that the loop of a mean function builds: the values of `f` of the
      records of type `t`, in input order. */
  function ValuesOf(biens: seq<Bien>, t: string, f: Field): (vs: seq<real>)
    ensures |vs| > 0 <==> t in TypesWith(biens, f)
  {
    ValuesPresent(biens, t, f);
    FilterMap(biens, ValueFor(t, f))
  }

  lemma {:induction false} ValuesPresent(biens: seq<Bien>, t: string, f: Field)
    ensures |FilterMap(biens, ValueFor(t, f))| > 0 <==> t in TypesWith(biens, f)
    decreases |biens|
  {
    if biens != [] {
      var p, b := biens[..|biens| - 1], biens[|biens| - 1];
      assert biens == p + [b];
      ValuesPresent(p, t, f);
      FilterMapSnoc(p, b, ValueFor(t, f));
      FilterMapSnoc(p, b, KeyFor(f));
    }
  }

  // ---------------------------------------------------------------------------------------
  // The dictionaries the six functions return

  /** `nombre_biens_par_type`: every non-empty type, in order of first appearance, with the
      number of records of that type. */
  function CountSpec(biens: seq<Bien>): Dict<nat> {
    var ts := Types(biens);
    Dict(Dedup(ts), map t | t in ts :: multiset(ts)[t])
  }

  /** The dictionary of lists that the loop of a mean function builds before averaging. */
  function GroupSpec(biens: seq<Bien>, f: Field): Dict<seq<real>> {
    var ts := TypesWith(biens, f);
    Dict(Dedup(ts), map t | t in ts :: ValuesOf(biens, t, f))
  }

  /** `sum(p) / len(p) if p else None`. */
  function MeanOrNone(p: seq<real>): Option<real> {
    if |p| > 0 then Some(Mean(p)) else None
  }

  /** The final comprehension `{t: mean(p) if p else None for t, p in stats.items()}`. */
  function Means(stats: Dict<seq<real>>): Dict<Option<real>> {
    Dict(stats.order, map t | t in stats.entries :: MeanOrNone(stats.entries[t]))
  }

  /** `prix_m2_moyen_par_type`, `surface_moyenne_par_type`, `nombre_pieces_moyen_par_type`. */
  function MeanSpec(biens: seq<Bien>, f: Field): Dict<Option<real>> {
    Means(GroupSpec(biens, f))
  }

  /** `prix_m2_min_par_type`. */
  function MinSpec(biens: seq<Bien>): Dict<real> {
    var ts := TypesWith(biens, PrixM2);
    Dict(Dedup(ts), map t | t in ts :: MinOf(ValuesOf(biens, t, PrixM2)))
  }

  /** `prix_m2_max_par_type`. */
  function MaxSpec(biens: seq<Bien>): Dict<real> {
    var ts := TypesWith(biens, PrixM2);
    Dict(Dedup(ts), map t | t in ts :: MaxOf(ValuesOf(biens, t, PrixM2)))
  }

  // ---------------------------------------------------------------------------------------
  // One more record: how each specification changes (the step each loop takes)

  lemma TypesSnoc(p: seq<Bien>, b: Bien)
    ensures Types(p + [b]) == Types(p) + (if TruthyText(b.typeLocal) then [b.typeLocal.value] else [])
  {
    FilterMapSnoc(p, b, TypeKey);
  }

  lemma TypesWithSnoc(p: seq<Bien>, b: Bien, f: Field)
    ensures TypesWith(p + [b], f)
         == TypesWith(p, f) + (if KeyFor(f)(b).Some? then [b.typeLocal.value] else [])
  {
    FilterMapSnoc(p, b, KeyFor(f));
  }

  lemma ValuesSnoc(p: seq<Bien>, b: Bien, t: string, f: Field)
    ensures ValuesOf(p + [b], t, f)
         == ValuesOf(p, t, f) + (if KeyFor(f)(b) == Some(t) then [FieldValue(b, f).value] else [])
  {
    FilterMapSnoc(p, b, ValueFor(t, f));
  }

  /** `stats` counts the elements of `ts`: one key per distinct element, in order of first
      occurrence, mapped to its number of occurrences. The invariant of the counting loop. */
  ghost predicate CountsOf(stats: Dict<nat>, ts: seq<string>) {
    && stats.order == Dedup(ts)
    && (forall u :: u in stats.entries <==> u in ts)
    && (forall u | u in stats.entries :: stats.entries[u] == Occurrences(ts, u))
  }

  /** How many times `u` occurs in `ts`. */
  function Occurrences(ts: seq<string>, u: string): nat {
    if ts == [] then 0
    else Occurrences(ts[..|ts| - 1], u) + (if ts[|ts| - 1] == u then 1 else 0)
  }

  lemma {:induction false} OccurrencesIsMultiplicity(ts: seq<string>, u: string)
    ensures Occurrences(ts, u) == multiset(ts)[u]
    decreases |ts|
  {
    if ts != [] {
      var init := ts[..|ts| - 1];
      assert ts == init + [ts[|ts| - 1]];
      OccurrencesIsMultiplicity(init, u);
    }
  }

  /** `stats[t] = stats.get(t, 0) + 1` counts one more occurrence of `t`. */
  lemma CountsOfSnoc(stats: Dict<nat>, ts: seq<string>, t: string)
    requires CountsOf(stats, ts)
    ensures CountsOf(stats.Set(t, stats.Get(t, 0) + 1), ts + [t])
  {
    var d := stats.Set(t, stats.Get(t, 0) + 1);
    CountsOrderSnoc(stats, ts, t, d);
    CountsKeysSnoc(stats, ts, t, d);
    CountsValuesSnoc(stats, ts, t, d);
  }

  lemma CountsOrderSnoc(stats: Dict<nat>, ts: seq<string>, t: string, d: Dict<nat>)
    requires stats.order == Dedup(ts) && (forall u :: u in stats.entries <==> u in ts)
    requires d == stats.Set(t, stats.Get(t, 0) + 1)
    ensures d.order == Dedup(ts + [t])
  {
    DedupSnoc(ts, t);
  }

  lemma CountsKeysSnoc(stats: Dict<nat>, ts: seq<string>, t: string, d: Dict<nat>)
    requires forall u :: u in stats.entries <==> u in ts
    requires d == stats.Set(t, stats.Get(t, 0) + 1)
    ensures forall u :: u in d.entries <==> u in ts + [t]
  {
    forall u ensures u in d.entries <==> u in ts + [t] {
      assert u in ts + [t] <==> u in ts || u == t;
    }
  }

  lemma CountsValuesSnoc(stats: Dict<nat>, ts: seq<string>, t: string, d: Dict<nat>)
    requires forall u :: u in stats.entries <==> u in ts
    requires forall u | u in stats.entries :: stats.entries[u] == Occurrences(ts, u)
    requires d == stats.Set(t, stats.Get(t, 0) + 1)
    ensures forall u | u in d.entries :: d.entries[u] == Occurrences(ts + [t], u)
  {
    assert (ts + [t])[..|ts|] == ts;
    forall u | u in d.entries ensures d.entries[u] == Occurrences(ts + [t], u) {
      if u == t && t !in ts {
        OccurrencesIsMultiplicity(ts, t);
      }
    }
  }

  /** A dictionary that counts the types of `biens` is `CountSpec(biens)`. */
  lemma CountsOfSpec(stats: Dict<nat>, biens: seq<Bien>)
    requires CountsOf(stats, Types(biens))
    ensures stats == CountSpec(biens)
  {
    forall u | u in stats.entries ensures stats.entries[u] == CountSpec(biens).entries[u] {
      OccurrencesIsMultiplicity(Types(biens), u);
    }
    MapsEqual(stats.entries, CountSpec(biens).entries);
  }

  /** A record that does not take part in the statistics of `f` changes none of them. */
  lemma StepSkipped(p: seq<Bien>, b: Bien, f: Field)
    requires KeyFor(f)(b).None?
    ensures GroupSpec(p + [b], f) == GroupSpec(p, f)
    ensures f == PrixM2 ==> MinSpec(p + [b]) == MinSpec(p) && MaxSpec(p + [b]) == MaxSpec(p)
  {
    TypesWithSnoc(p, b, f);
    var ts := TypesWith(p, f);
    assert TypesWith(p + [b], f) == ts;
    forall u | u in ts ensures ValuesOf(p + [b], u, f) == ValuesOf(p, u, f) {
      ValuesSnoc(p, b, u, f);
    }
    SameOnKeys(GroupSpec(p, f), GroupSpec(p + [b], f));
    if f == PrixM2 {
      SameOnKeys(MinSpec(p), MinSpec(p + [b]));
      SameOnKeys(MaxSpec(p), MaxSpec(p + [b]));
    }
  }

  /** Adding a value of type `t` changes only the list of `t`. */
  lemma ValuesKept(p: seq<Bien>, b: Bien, f: Field)
    requires KeyFor(f)(b).Some?
    ensures var t := b.typeLocal.value;
      && TypesWith(p + [b], f) == TypesWith(p, f) + [t]
      && ValuesOf(p + [b], t, f) == ValuesOf(p, t, f) + [FieldValue(b, f).value]
      && forall u :: u != t ==> ValuesOf(p + [b], u, f) == ValuesOf(p, u, f)
  {
    TypesWithSnoc(p, b, f);
    forall u ensures ValuesOf(p + [b], u, f)
                  == ValuesOf(p, u, f) + (if KeyFor(f)(b) == Some(u) then [FieldValue(b, f).value] else []) {
      ValuesSnoc(p, b, u, f);
    }
  }

  lemma GroupStepKept(p: seq<Bien>, b: Bien, f: Field)
    requires KeyFor(f)(b).Some?
    ensures var t, v := b.typeLocal.value, FieldValue(b, f).value;
      GroupSpec(p + [b], f) == GroupSpec(p, f).Set(t, GroupSpec(p, f).Get(t, []) + [v])
  {
    ValuesKept(p, b, f);
    var t := b.typeLocal.value;
    var before := GroupSpec(p, f);
    SetOnKeys(TypesWith(p, f), t, before, GroupSpec(p + [b], f), before.Get(t, []) + [FieldValue(b, f).value]);
  }

  lemma MinStepKept(p: seq<Bien>, b: Bien)
    requires KeyFor(PrixM2)(b).Some?
    ensures var t, prix := b.typeLocal.value, b.prixM2.value;
      MinSpec(p + [b]) == MinSpec(p).Set(t, if t !in MinSpec(p).entries then prix else Min(prix, MinSpec(p).entries[t]))
  {
    ValuesKept(p, b, PrixM2);
    var t, prix := b.typeLocal.value, b.prixM2.value;
    var ts := TypesWith(p, PrixM2);
    var before := MinSpec(p);
    var vs := ValuesOf(p, t, PrixM2);
    if t in ts {
      assert (vs + [prix])[..|vs|] == vs;
    } else {
      assert vs + [prix] == [prix];
    }
    SetOnKeys(ts, t, before, MinSpec(p + [b]), if t !in before.entries then prix else Min(prix, before.entries[t]));
  }

  lemma MaxStepKept(p: seq<Bien>, b: Bien)
    requires KeyFor(PrixM2)(b).Some?
    ensures var t, prix := b.typeLocal.value, b.prixM2.value;
      MaxSpec(p + [b]) == MaxSpec(p).Set(t, Max(prix, MaxSpec(p).Get(t, prix)))
  {
    ValuesKept(p, b, PrixM2);
    var t, prix := b.typeLocal.value, b.prixM2.value;
    var ts := TypesWith(p, PrixM2);
    var before := MaxSpec(p);
    var vs := ValuesOf(p, t, PrixM2);
    if t in ts {
      assert (vs + [prix])[..|vs|] == vs;
    } else {
      assert vs + [prix] == [prix];
    }
    SetOnKeys(ts, t, before, MaxSpec(p + [b]), Max(prix, before.Get(t, prix)));
  }

  // ---------------------------------------------------------------------------------------
  // The six functions

  /** `nombre_biens_par_type` (stat_compute.py:99-114). */
  method NombreBiensParType(biens: seq<Bien>) returns (stats: Dict<nat>)
    ensures stats == CountSpec(biens)
  {
    stats := Empty();
    for i := 0 to |biens|
      invariant CountsOf(stats, Types(biens[..i]))
    {
      var b := biens[i];
      assert biens[..i + 1] == biens[..i] + [b];
      TypesSnoc(biens[..i], b);
      if TruthyText(b.typeLocal) {
        var t := b.typeLocal.value;
        CountsOfSnoc(stats, Types(biens[..i]), t);
        stats := stats.Set(t, stats.Get(t, 0) + 1);
      } else {
        assert Types(biens[..i + 1]) == Types(biens[..i]);
      }
    }
    assert biens[..|biens|] == biens;
    CountsOfSpec(stats, biens);
  }

  /** The loop shared by the three mean functions: `stats.setdefault(type_local, []).append(v)`
      for every record whose type is truthy and whose value of `f` is not `None`. */
  method GroupByType(biens: seq<Bien>, f: Field) returns (stats: Dict<seq<real>>)
    ensures stats == GroupSpec(biens, f)
  {
    stats := Empty();
    for i := 0 to |biens|
      invariant stats == GroupSpec(biens[..i], f)
    {
      var b := biens[i];
      assert biens[..i + 1] == biens[..i] + [b];
      var typeLocal, v := b.typeLocal, FieldValue(b, f);
      if TruthyText(typeLocal) && v.Some? {
        GroupStepKept(biens[..i], b, f);
        var t := typeLocal.value;
        stats := stats.Set(t, stats.Get(t, []) + [v.value]);
      } else {
        StepSkipped(biens[..i], b, f);
      }
    }
    assert biens[..|biens|] == biens;
  }

  /** `prix_m2_moyen_par_type` (stat_compute.py:1-17), without the rounding to 3 decimals. */
  method PrixM2MoyenParType(biens: seq<Bien>) returns (r: Dict<Option<real>>)
    ensures r == MeanSpec(biens, PrixM2)
  {
    var stats := GroupByType(biens, PrixM2);
    r := Means(stats);
  }

  /** `surface_moyenne_par_type` (stat_compute.py:80-96). */
  method SurfaceMoyenneParType(biens: seq<Bien>) returns (r: Dict<Option<real>>)
    ensures r == MeanSpec(biens, SurfaceReelleBati)
  {
    var stats := GroupByType(biens, SurfaceReelleBati);
    r := Means(stats);
  }

  /** `nombre_pieces_moyen_par_type` (stat_compute.py:20-36). */
  method NombrePiecesMoyenParType(biens: seq<Bien>) returns (r: Dict<Option<real>>)
    ensures r == MeanSpec(biens, NombrePiecesPrincipales)
  {
    var stats := GroupByType(biens, NombrePiecesPrincipales);
    r := Means(stats);
  }

  /** `prix_m2_min_par_type` (stat_compute.py:39-58). */
  method PrixM2MinParType(biens: seq<Bien>) returns (stats: Dict<real>)
    ensures stats == MinSpec(biens)
  {
    stats := Empty();
    for i := 0 to |biens|
      invariant stats == MinSpec(biens[..i])
    {
      var b := biens[i];
      assert biens[..i + 1] == biens[..i] + [b];
      var typeLocal, prix := b.typeLocal, b.prixM2;
      if TruthyText(typeLocal) && prix.Some? {
        MinStepKept(biens[..i], b);
        var t := typeLocal.value;
        if t !in stats.entries {
          stats := stats.Set(t, prix.value);
        } else {
          stats := stats.Set(t, Min(prix.value, stats.entries[t]));
        }
      } else {
        StepSkipped(biens[..i], b, PrixM2);
      }
    }
    assert biens[..|biens|] == biens;
  }

  /** `prix_m2_max_par_type` (stat_compute.py:61-77). */
  method PrixM2MaxParType(biens: seq<Bien>) returns (stats: Dict<real>)
    ensures stats == MaxSpec(biens)
  {
    stats := Empty();
    for i := 0 to |biens|
      invariant stats == MaxSpec(biens[..i])
    {
      var b := biens[i];
      assert biens[..i + 1] == biens[..i] + [b];
      var typeLocal, prix := b.typeLocal, b.prixM2;
      if TruthyText(typeLocal) && prix.Some? {
        MaxStepKept(biens[..i], b);
        var t := typeLocal.value;
        stats := stats.Set(t, Max(prix.value, stats.Get(t, prix.value)));
      } else {
        StepSkipped(biens[..i], b, PrixM2);
      }
    }
    assert biens[..|biens|] == biens;
  }
}
