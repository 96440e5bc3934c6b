/** The non-rendering rules of the dashboard in frontend/app_front.py: the search form, the map
    centre and zoom, the grouping of records that share coordinates, and the colours that
    compare a price with the mean price. The records are the list `/biens_proches` returned. */
module Front {
  import opened Wrappers
  import opened Seqs
  import opened Numbers
  import opened PyDict
  import opened Records
  import BackendApp

  // ---------------------------------------------------------------------------------------
  // The search form

  /** A value the radius slider can take: 100 to 1000 metres in steps of 100. */
  predicate SliderValue(rayon: int) {
    100 <= rayon <= 1000 && rayon % 100 == 0
  }

  const SliderDefault: int := 500

  /** Every value of the slider, the default included, is a radius the record search accepts
      unchanged. */
  lemma SliderAccepted(rayon: int)
    requires SliderValue(rayon)
    ensures SliderValue(SliderDefault)
    ensures BackendApp.BiensProchesRayon(Some(rayon)) == Some(rayon)
    ensures BackendApp.AnalyseStreamRayon(Some(rayon)) == Some(rayon)
  {
  }

  /** What pressing the search button does. */
  datatype Action = Warn(message: string) | Request(adresse: string, rayonM: int)

  /** An empty address only shows a warning; otherwise the address and the radius are sent. */
  function OnSearch(adresse: string, rayon: int): (a: Action)
    ensures a.Request? <==> adresse != ""
    ensures a.Request? ==> a == Request(adresse, rayon)
  {
    if adresse == "" then Warn("Veuillez saisir une adresse pour commencer la recherche.")
    else Request(adresse, rayon)
  }

  // ---------------------------------------------------------------------------------------
  // The map

  function Latitudes(biens: seq<Bien>): seq<real> {
    seq(|biens|, i requires 0 <= i < |biens| => biens[i].latitude)
  }

  function Longitudes(biens: seq<Bien>): seq<real> {
    seq(|biens|, i requires 0 <= i < |biens| => biens[i].longitude)
  }

  /** The centre of the map: the mean latitude and the mean longitude of the records, not the
      geocoded address. It lies in the bounding box of the records. */
  function MapCentre(biens: seq<Bien>): (c: (real, real))
    requires |biens| > 0
    ensures MinOf(Latitudes(biens)) <= c.0 <= MaxOf(Latitudes(biens))
    ensures MinOf(Longitudes(biens)) <= c.1 <= MaxOf(Longitudes(biens))
  {
    MeanBetweenMinAndMax(Latitudes(biens));
    MeanBetweenMinAndMax(Longitudes(biens));
    (Mean(Latitudes(biens)), Mean(Longitudes(biens)))
  }

  /** The zoom for a radius: 16 up to 500 metres, 15 up to 1000, 14 up to 2000, 13 beyond. */
  function ZoomLevel(rayon: int): (z: int)
    ensures 13 <= z <= 16
    ensures z == 16 <==> rayon <= 500
    ensures z == 15 <==> 500 < rayon <= 1000
    ensures z == 14 <==> 1000 < rayon <= 2000
    ensures z == 13 <==> 2000 < rayon
  {
    if rayon <= 500 then 16
    else if rayon <= 1000 then 15
    else if rayon <= 2000 then 14
    else 13
  }

  /** A larger radius never zooms in further, and the slider's radii use the two closest zooms. */
  lemma ZoomNonIncreasing(r1: int, r2: int)
    requires r1 <= r2
    ensures ZoomLevel(r2) <= ZoomLevel(r1)
    ensures SliderValue(r1) ==> ZoomLevel(r1) == (if r1 <= 500 then 16 else 15)
  {
  }

  /** The radius of the drawn circle: the search radius and a 100-metre margin. */
  function CircleRadius(rayon: int): (r: int)
    ensures r == rayon + 100
    ensures r > rayon
  {
    rayon + 100
  }

  // ---------------------------------------------------------------------------------------
  // Grouping by coordinates

  /** The positions in `keys` that hold `k`, in increasing order. */
  function IndicesOf(keys: seq<string>, k: string): seq<nat>
    decreases |keys|
  {
    if keys == [] then []
    else
      var n := |keys| - 1;
      IndicesOf(keys[..n], k) + (if keys[n] == k then [n] else [])
  }

  /** The positions `IndicesOf` lists are exactly those holding `k`, in increasing order. */
  lemma {:induction false} IndicesMeaning(keys: seq<string>, k: string)
    ensures var r := IndicesOf(keys, k);
      && (forall j :: 0 <= j < |r| ==> r[j] < |keys| && keys[r[j]] == k)
      && (forall a, b :: 0 <= a < b < |r| ==> r[a] < r[b])
      && (forall i :: 0 <= i < |keys| && keys[i] == k ==> i in r)
    decreases |keys|
  {
    if keys != [] {
      var n := |keys| - 1;
      var init, x := keys[..n], keys[n];
      assert keys == init + [x];
      IndicesMeaning(init, k);
      IndicesSnoc(init, x, k);
      IndicesStep(init, x, k, IndicesOf(init, k), IndicesOf(keys, k));
    }
  }

  /** One more key keeps the meaning of the index list of `k`. */
  lemma IndicesStep(init: seq<string>, x: string, k: string, r0: seq<nat>, r: seq<nat>)
    requires forall j :: 0 <= j < |r0| ==> r0[j] < |init| && init[r0[j]] == k
    requires forall a, b :: 0 <= a < b < |r0| ==> r0[a] < r0[b]
    requires forall i :: 0 <= i < |init| && init[i] == k ==> i in r0
    requires r == r0 + (if x == k then [|init|] else [])
    ensures var keys := init + [x];
      && (forall j :: 0 <= j < |r| ==> r[j] < |keys| && keys[r[j]] == k)
      && (forall a, b :: 0 <= a < b < |r| ==> r[a] < r[b])
      && (forall i :: 0 <= i < |keys| && keys[i] == k ==> i in r)
  {
    var keys := init + [x];
    forall j | 0 <= j < |r| ensures r[j] < |keys| && keys[r[j]] == k {
      if j < |r0| {
        assert r[j] == r0[j];
      }
    }
    forall i | 0 <= i < |keys| && keys[i] == k ensures i in r {
      if i < |init| {
        assert init[i] == keys[i];
        assert i in r0;
      }
    }
  }

  lemma {:induction false} IndicesAbsent(keys: seq<string>, k: string)
    requires k !in keys
    ensures IndicesOf(keys, k) == []
    decreases |keys|
  {
    if keys != [] {
      var n := |keys| - 1;
      assert keys[n] in keys;
      assert forall u :: u in keys[..n] ==> u in keys;
      IndicesAbsent(keys[..n], k);
    }
  }

  lemma IndicesSnoc(keys: seq<string>, x: string, k: string)
    ensures IndicesOf(keys + [x], k) == IndicesOf(keys, k) + (if x == k then [|keys|] else [])
  {
    assert (keys + [x])[..|keys|] == keys;
  }

  /** The dictionary the loop builds, up to the record each index names. */
  function GroupsSpec(keys: seq<string>): Dict<seq<nat>> {
    Dict(Dedup(keys), map k | k in keys :: IndicesOf(keys, k))
  }

  /** The coordinate key of every record; `coordKey` stands for the `:.6f` formatting. */
  function CoordKeys(biens: seq<Bien>, coordKey: (real, real) -> string): seq<string> {
    seq(|biens|, i requires 0 <= i < |biens| => coordKey(biens[i].latitude, biens[i].longitude))
  }

  /** Grouping one more key: its index joins the group of its key, which is created at the end
      of the order when the key is new. */
  lemma GroupsStep(keys: seq<string>, k: string)
    ensures GroupsSpec(keys + [k])
      == GroupsSpec(keys).Set(k, GroupsSpec(keys).Get(k, []) + [|keys|])
  {
    var before, after := GroupsSpec(keys), GroupsSpec(keys + [k]);
    var v := before.Get(k, []) + [|keys|];
    IndicesSnoc(keys, k, k);
    if k !in keys {
      IndicesAbsent(keys, k);
    }
    assert after.entries[k] == v;
    forall u | u in keys && u != k ensures after.entries[u] == before.entries[u] {
      IndicesSnoc(keys, k, u);
    }
    SetOnKeys(keys, k, before, after, v);
  }

  /** The grouping loop (frontend/app_front.py:265-270): each record's index is appended to
      the list of its coordinate key, the list being created when the key is first seen. */
  method GroupByCoordinate(biens: seq<Bien>, coordKey: (real, real) -> string)
    returns (groups: Dict<seq<nat>>)
    ensures groups == GroupsSpec(CoordKeys(biens, coordKey))
  {
    var keys := CoordKeys(biens, coordKey);
    groups := Empty();
    for i := 0 to |biens|
      invariant groups == GroupsSpec(keys[..i])
    {
      var k := coordKey(biens[i].latitude, biens[i].longitude);
      LoopStep(keys, i, groups);
      if k !in groups.entries {
        groups := groups.Set(k, []);
      }
      groups := groups.Set(k, groups.entries[k] + [i]);
    }
    assert keys[..|biens|] == keys;
  }

  lemma LoopStep(keys: seq<string>, i: nat, groups: Dict<seq<nat>>)
    requires i < |keys| && groups == GroupsSpec(keys[..i])
    ensures var k := keys[i];
      var d1 := if k in groups.entries then groups else groups.Set(k, []);
      d1.Set(k, d1.entries[k] + [i]) == GroupsSpec(keys[..i + 1])
  {
    var k := keys[i];
    GroupsStep(keys[..i], k);
    assert keys[..i + 1] == keys[..i] + [k];
    SetDefaultAppend(groups, k, i);
  }

  /** `d.setdefault(k, []).append(x)`, written as the loop writes it, is `d[k] = d.get(k, []) + [x]`. */
  lemma SetDefaultAppend(d: Dict<seq<nat>>, k: string, x: nat)
    ensures var d1 := if k in d.entries then d else d.Set(k, []);
      d1.Set(k, d1.entries[k] + [x]) == d.Set(k, d.Get(k, []) + [x])
  {
    if k !in d.entries {
      var d1 := d.Set(k, []);
      assert d1.entries[k] + [x] == [x];
      assert d1.order == d.order + [k];
      assert d1.entries[k := [x]] == d.entries[k := [x]];
    }
  }

  /** Every index lies in exactly one group, the group of its key, and each group lists its
      indices in increasing order. */
  lemma GroupsPartition(keys: seq<string>, i: int, k: string)
    ensures var g := GroupsSpec(keys);
      && g.Valid()
      && (k in g.entries ==> forall a, b :: 0 <= a < b < |g.entries[k]| ==> g.entries[k][a] < g.entries[k][b])
      && (0 <= i < |keys| ==> (k in g.entries && i in g.entries[k] <==> keys[i] == k))
  {
    var g := GroupsSpec(keys);
    assert forall u :: u in g.entries <==> u in g.order;
    IndicesMeaning(keys, k);
    if 0 <= i < |keys| && keys[i] == k {
      assert k in keys;
    }
  }

  /** The sizes of the groups, in key order. */
  function Sizes(g: Dict<seq<nat>>): (sizes: seq<nat>)
    requires g.Valid()
    ensures |sizes| == |g.order|
  {
    seq(|g.order|, j requires 0 <= j < |g.order| => |g.entries[g.order[j]]|)
  }

  /** A group has as many indices as its key has occurrences. */
  lemma {:induction false} IndicesCount(keys: seq<string>, k: string)
    ensures |IndicesOf(keys, k)| == multiset(keys)[k]
    decreases |keys|
  {
    if keys != [] {
      var n := |keys| - 1;
      assert keys == keys[..n] + [keys[n]];
      IndicesSnoc(keys[..n], keys[n], k);
      IndicesCount(keys[..n], k);
    }
  }

  /** The group sizes add up to the number of records. */
  lemma GroupSizesSum(keys: seq<string>)
    ensures GroupsSpec(keys).Valid()
    ensures SumNat(Sizes(GroupsSpec(keys))) == |keys|
  {
    var g := GroupsSpec(keys);
    GroupsPartition(keys, 0, "");
    forall j | 0 <= j < |g.order| ensures Sizes(g)[j] == multiset(keys)[g.order[j]] {
      IndicesCount(keys, g.order[j]);
    }
    assert Sizes(g) == Multiplicities(Dedup(keys), multiset(keys));
    SumOfMultiplicities(keys);
  }

  /** Every distinct key occurs, and the first occurrences of the distinct keys grow along
      the order of `Dedup`. */
  predicate FirstsIncrease(keys: seq<string>) {
    var d := Dedup(keys);
    forall p, q :: 0 <= p < q < |d| ==>
      |IndicesOf(keys, d[p])| > 0 && |IndicesOf(keys, d[q])| > 0
      && IndicesOf(keys, d[p])[0] < IndicesOf(keys, d[q])[0]
  }

  /** The groups come in order of first occurrence of their keys: the first index of each
      group grows along the key order. */
  lemma GroupsFirstOccurrence(keys: seq<string>)
    ensures var g := GroupsSpec(keys);
      forall p, q :: 0 <= p < q < |g.order| ==>
        g.order[p] in g.entries && g.order[q] in g.entries
        && |g.entries[g.order[p]]| > 0 && |g.entries[g.order[q]]| > 0
        && g.entries[g.order[p]][0] < g.entries[g.order[q]][0]
  {
    FirstOccurrences(keys);
    var g, d := GroupsSpec(keys), Dedup(keys);
    forall p, q | 0 <= p < q < |g.order|
      ensures g.order[p] in g.entries && g.order[q] in g.entries
      ensures g.entries[g.order[p]] == IndicesOf(keys, d[p]) && g.entries[g.order[q]] == IndicesOf(keys, d[q])
    {
      assert d[p] in d && d[q] in d;
    }
  }

  lemma {:induction false} FirstOccurrences(keys: seq<string>)
    ensures FirstsIncrease(keys)
    decreases |keys|
  {
    if keys != [] {
      var n := |keys| - 1;
      var init, k := keys[..n], keys[n];
      assert keys == init + [k];
      FirstOccurrences(init);
      FirstOccurrenceStep(init, k);
    }
  }

  /** A distinct key of `init` keeps its first occurrence, before the end of `init`, when one
      more key is appended. */
  lemma FirstKept(init: seq<string>, k: string, u: string)
    requires u in init
    ensures |IndicesOf(init, u)| > 0 && |IndicesOf(init + [k], u)| > 0
    ensures IndicesOf(init + [k], u)[0] == IndicesOf(init, u)[0] < |init|
  {
    var i :| 0 <= i < |init| && init[i] == u;
    IndicesMeaning(init, u);
    assert i in IndicesOf(init, u);
    IndicesSnoc(init, k, u);
  }

  lemma FirstOccurrenceStep(init: seq<string>, k: string)
    requires FirstsIncrease(init)
    ensures FirstsIncrease(init + [k])
  {
    DedupSnoc(init, k);
    FirstsKept(init, k);
    if k !in init {
      IndicesAbsent(init, k);
      IndicesSnoc(init, k, k);
      FirstOfNewKey(init, k);
    } else {
      FirstOfOldKey(init, k);
    }
  }

  lemma FirstsKept(init: seq<string>, k: string)
    ensures forall u | u in Dedup(init) :: (|IndicesOf(init, u)| > 0 && |IndicesOf(init + [k], u)| > 0
      && IndicesOf(init + [k], u)[0] == IndicesOf(init, u)[0] < |init|)
  {
    forall u | u in Dedup(init) ensures |IndicesOf(init, u)| > 0 && |IndicesOf(init + [k], u)| > 0
      && IndicesOf(init + [k], u)[0] == IndicesOf(init, u)[0] < |init|
    {
      FirstKept(init, k, u);
    }
  }

  lemma FirstOfOldKey(init: seq<string>, k: string)
    requires FirstsIncrease(init)
    requires Dedup(init + [k]) == Dedup(init)
    requires forall u | u in Dedup(init) :: (|IndicesOf(init, u)| > 0 && |IndicesOf(init + [k], u)| > 0
      && IndicesOf(init + [k], u)[0] == IndicesOf(init, u)[0] < |init|)
    ensures FirstsIncrease(init + [k])
  {
    var d := Dedup(init);
    forall p, q | 0 <= p < q < |d|
      ensures |IndicesOf(init + [k], d[p])| > 0 && |IndicesOf(init + [k], d[q])| > 0
      ensures IndicesOf(init + [k], d[p])[0] < IndicesOf(init + [k], d[q])[0]
    {
      assert d[p] in d && d[q] in d;
    }
  }

  lemma FirstOfNewKey(init: seq<string>, k: string)
    requires FirstsIncrease(init)
    requires Dedup(init + [k]) == Dedup(init) + [k]
    requires IndicesOf(init + [k], k) == [|init|]
    requires forall u | u in Dedup(init) :: (|IndicesOf(init, u)| > 0 && |IndicesOf(init + [k], u)| > 0
      && IndicesOf(init + [k], u)[0] == IndicesOf(init, u)[0] < |init|)
    ensures FirstsIncrease(init + [k])
  {
    var d0, d := Dedup(init), Dedup(init + [k]);
    forall p, q | 0 <= p < q < |d|
      ensures |IndicesOf(init + [k], d[p])| > 0 && |IndicesOf(init + [k], d[q])| > 0
      ensures IndicesOf(init + [k], d[p])[0] < IndicesOf(init + [k], d[q])[0]
    {
      assert d[p] == d0[p] && d0[p] in d0;
      if q < |d0| {
        assert d[q] == d0[q] && d0[q] in d0;
      }
    }
  }

  // ---------------------------------------------------------------------------------------
  // Colours

  /** A price compared with a reference price: above `reference * up`, below
      `reference * down`, or in between. */
  datatype Band = Above | Below | Within

  function Classify(prix: real, reference: real, up: real, down: real): Band {
    if prix > reference * up then Above
    else if prix < reference * down then Below
    else Within
  }

  /** A price compared with a mean price, red above 1.2 times it, green below 0.8 times it,
      blue otherwise (frontend/app_front.py:279-290, 385-393). For a positive mean each colour
      is exactly its own price condition, so the three are exclusive and cover every price. */
  function PriceBand(prix: real, prixMoyen: real): (b: Band)
    ensures prixMoyen > 0.0 ==> (b == Above <==> prix > 1.2 * prixMoyen)
    ensures prixMoyen > 0.0 ==> (b == Below <==> prix < 0.8 * prixMoyen)
    ensures prixMoyen > 0.0 ==> (b == Within <==> 0.8 * prixMoyen <= prix <= 1.2 * prixMoyen)
  {
    Classify(prix, prixMoyen, 1.2, 0.8)
  }

  /** The indicator of a record inside a group: compared with the group's mean price, with
      1.1 and 0.9 as factors (frontend/app_front.py:336-341). */
  function GroupIndicator(prix: real, groupMean: real): (b: Band)
    ensures groupMean > 0.0 ==> (b == Above <==> prix > 1.1 * groupMean)
    ensures groupMean > 0.0 ==> (b == Below <==> prix < 0.9 * groupMean)
    ensures groupMean > 0.0 ==> (b == Within <==> 0.9 * groupMean <= prix <= 1.1 * groupMean)
  {
    Classify(prix, groupMean, 1.1, 0.9)
  }

  function PriceOf(b: Bien): Option<real> {
    b.prixM2
  }

  /** The prices the records carry, in order. */
  function Prices(biens: seq<Bien>): seq<real> {
    FilterMap(biens, PriceOf)
  }

  /** A value is among the prices exactly when some record carries it. */
  lemma PricesMember(biens: seq<Bien>, x: real)
    ensures x in Prices(biens) <==> exists i :: 0 <= i < |biens| && biens[i].prixM2 == Some(x)
  {
    FilterMapMember(biens, PriceOf, x);
  }

  /** `df_biens['prix_m2'].mean()` (frontend/app_front.py:173): the mean of the prices present,
      as pandas skips the missing ones; `None` for the NaN of a column without any price. */
  function PrixMoyen(biens: seq<Bien>): (m: Option<real>)
    ensures m.Some? <==> |Prices(biens)| > 0
    ensures m.Some? ==> m.value == Mean(Prices(biens))
    ensures m.Some? ==> MinOf(Prices(biens)) <= m.value <= MaxOf(Prices(biens))
  {
    if |Prices(biens)| == 0 then None
    else
      MeanBetweenMinAndMax(Prices(biens));
      Some(Mean(Prices(biens)))
  }

  predicate Priced(biens: seq<Bien>, j: int) {
    0 <= j < |biens| && biens[j].prixM2.Some?
  }

  /** The colour of the marker of record `i`, alone or inside a group: its price against the
      mean price of all the records. With positive prices the cheapest record is never red,
      the dearest never green, and when all records share one price every marker is blue. */
  function MarkerColour(biens: seq<Bien>, i: int): (b: Band)
    requires Priced(biens, i)
    ensures PrixMoyen(biens).Some?
    ensures (forall j | Priced(biens, j) :: biens[j].prixM2.value > 0.0)
      && (forall j | Priced(biens, j) :: biens[i].prixM2.value <= biens[j].prixM2.value)
      ==> b != Above
    ensures (forall j | Priced(biens, j) :: biens[j].prixM2.value > 0.0)
      && (forall j | Priced(biens, j) :: biens[j].prixM2.value <= biens[i].prixM2.value)
      ==> b != Below
    ensures (forall j | Priced(biens, j) :: biens[j].prixM2 == biens[i].prixM2)
      && biens[i].prixM2.value > 0.0
      ==> b == Within
  {
    var p := biens[i].prixM2.value;
    var ps := Prices(biens);
    PricesMember(biens, p);
    PricesMember(biens, MinOf(ps));
    PricesMember(biens, MaxOf(ps));
    var m := PrixMoyen(biens).value;
    var lo :| Priced(biens, lo) && biens[lo].prixM2 == Some(MinOf(ps));
    var hi :| Priced(biens, hi) && biens[hi].prixM2 == Some(MaxOf(ps));
    PriceBand(p, m)
  }

  /** Inside a group with a positive mean, not every record can be above the group mean and
      not every record can be below it. */
  lemma GroupIndicatorsMixed(prices: seq<real>)
    requires |prices| > 0 && Mean(prices) > 0.0
    ensures exists i :: 0 <= i < |prices| && GroupIndicator(prices[i], Mean(prices)) != Above
    ensures exists i :: 0 <= i < |prices| && GroupIndicator(prices[i], Mean(prices)) != Below
  {
    var m := Mean(prices);
    MeanBetweenMinAndMax(prices);
    var lo :| 0 <= lo < |prices| && prices[lo] == MinOf(prices);
    var hi :| 0 <= hi < |prices| && prices[hi] == MaxOf(prices);
    assert GroupIndicator(prices[lo], m) != Above;
    assert GroupIndicator(prices[hi], m) != Below;
  }

  /** The colour of a group's marker: its mean price compared with the mean price of all the
      records, blue when that mean is NaN (frontend/app_front.py:314-322). When every record of
      the group has the same colour, the group's marker has that colour too. */
  function GroupColour(prices: seq<real>, biens: seq<Bien>): (b: Band)
    requires |prices| > 0
    ensures PrixMoyen(biens).None? ==> b == Within
    ensures PrixMoyen(biens).Some? && PrixMoyen(biens).value > 0.0
      && (forall i :: 0 <= i < |prices| ==> PriceBand(prices[i], PrixMoyen(biens).value) == Above)
      ==> b == Above
    ensures PrixMoyen(biens).Some? && PrixMoyen(biens).value > 0.0
      && (forall i :: 0 <= i < |prices| ==> PriceBand(prices[i], PrixMoyen(biens).value) == Below)
      ==> b == Below
    ensures PrixMoyen(biens).Some? && PrixMoyen(biens).value > 0.0
      && (forall i :: 0 <= i < |prices| ==> PriceBand(prices[i], PrixMoyen(biens).value) == Within)
      ==> b == Within
  {
    match PrixMoyen(biens)
    case None => Within
    case Some(prixMoyen) =>
      MeanBetweenMinAndMax(prices);
      var lo :| 0 <= lo < |prices| && prices[lo] == MinOf(prices);
      var hi :| 0 <= hi < |prices| && prices[hi] == MaxOf(prices);
      PriceBand(Mean(prices), prixMoyen)
  }

  /** The radius of the circle the records of a group are spread on, by group size. */
  function RadiusOffset(n: nat): (r: real)
    ensures 0.0002 <= r <= 0.0005
    ensures r == 0.0002 <==> n <= 3
    ensures r == 0.0003 <==> 3 < n <= 6
    ensures r == 0.0004 <==> 6 < n <= 10
    ensures r == 0.0005 <==> 10 < n
  {
    if n <= 3 then 0.0002
    else if n <= 6 then 0.0003
    else if n <= 10 then 0.0004
    else 0.0005
  }

  /** A larger group is never spread on a smaller circle. */
  lemma RadiusOffsetNonDecreasing(n1: nat, n2: nat)
    requires n1 <= n2
    ensures RadiusOffset(n1) <= RadiusOffset(n2)
  {
  }
}
