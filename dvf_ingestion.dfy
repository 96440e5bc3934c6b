/** The construction of the table `valeurs_foncieres_idf_2024` in
    dataset_builder/dvf_ingestion_to_neon.py: the yearly DVF files of the eight departements of
    Ile-de-France are loaded, reduced to ten columns, restricted to sales of flats and houses,
    cleared of incomplete rows, given a price per square metre per mutation, and restricted to
    plausible prices. Downloading a file is a parameter; the SQL queries are functions. */
module DvfIngestion {
  import opened Wrappers
  import opened Seqs
  import opened Numbers
  import opened PyDict

  // ---------------------------------------------------------------------------------------
  // Loading

  /** The departements whose files are loaded, in loading order. */
  const DepartementsIdf: seq<string> := ["75", "92", "93", "94", "95", "78", "91", "77"]

  /** The ten columns the pipeline keeps, in the order of `features`; any cell may be empty. */
  datatype Sale = Sale(
    surfaceReelleBati: Option<real>,
    nombrePiecesPrincipales: Option<real>,
    typeLocal: Option<string>,
    codePostal: Option<real>,
    longitude: Option<real>,
    latitude: Option<real>,
    natureMutation: Option<string>,
    dateMutation: Option<string>,
    valeurFonciere: Option<real>,
    idMutation: Option<string>)

  /** A row of a DVF file: the ten columns and the others the file carries, by name. */
  datatype CsvRow = CsvRow(sale: Sale, otherColumns: map<string, string>)

  /** A loaded row with the `departement` column the loop adds. */
  datatype Tagged = Tagged(row: CsvRow, departement: string)

  function Tag(rows: seq<CsvRow>, dep: string): seq<Tagged> {
    seq(|rows|, i requires 0 <= i < |rows| => Tagged(rows[i], dep))
  }

  /** The data frame appended for a departement, or `None` when reading its file raises. */
  function Fetched(fetch: string -> Option<seq<CsvRow>>): string -> Option<seq<Tagged>> {
    dep => match fetch(dep) case None => None case Some(rows) => Some(Tag(rows, dep))
  }

  /** `df_list` after the loop over `deps`. */
  function Frames(deps: seq<string>, fetch: string -> Option<seq<CsvRow>>): seq<seq<Tagged>> {
    FilterMap(deps, Fetched(fetch))
  }

  /** `pd.concat(frames, ignore_index=True)`: the rows of the frames, one frame after the other. */
  function Flatten<T>(frames: seq<seq<T>>): seq<T>
    decreases |frames|
  {
    if frames == [] then [] else Flatten(frames[..|frames| - 1]) + frames[|frames| - 1]
  }

  /** The loaded rows, or the `ValueError` `pd.concat` raises on an empty list. */
  function LoadSpec(deps: seq<string>, fetch: string -> Option<seq<CsvRow>>): Result<seq<Tagged>, string> {
    var frames := Frames(deps, fetch);
    if frames == [] then Failure("ValueError") else Success(Flatten(frames))
  }

  /** The loading loop (dataset_builder/dvf_ingestion_to_neon.py:17-31): a file that cannot be
      read is reported and skipped. */
  method Load(deps: seq<string>, fetch: string -> Option<seq<CsvRow>>) returns (r: Result<seq<Tagged>, string>)
    ensures r == LoadSpec(deps, fetch)
  {
    var dfList: seq<seq<Tagged>> := [];
    for i := 0 to |deps|
      invariant dfList == Frames(deps[..i], fetch)
    {
      var dep := deps[i];
      var df := fetch(dep);
      FilterMapSnoc(deps[..i], dep, Fetched(fetch));
      assert deps[..i + 1] == deps[..i] + [dep];
      if df.Some? {
        dfList := dfList + [Tag(df.value, dep)];
      }
    }
    assert deps[..|deps|] == deps;
    if dfList == [] {
      r := Failure("ValueError");
    } else {
      r := Success(Flatten(dfList));
    }
  }

  /** A departement whose file cannot be read contributes nothing and stops nothing: the
      frames of the others are loaded as if it were not in the list. */
  lemma FailedDepartementSkipped(pre: seq<string>, dep: string, post: seq<string>,
                                 fetch: string -> Option<seq<CsvRow>>)
    requires fetch(dep).None?
    ensures Frames(pre + [dep] + post, fetch) == Frames(pre, fetch) + Frames(post, fetch)
  {
    FilterMapAppend(pre + [dep], post, Fetched(fetch));
    FilterMapSnoc(pre, dep, Fetched(fetch));
  }

  /** Loading fails exactly when no file at all can be read. */
  lemma LoadFailsIffAllFail(deps: seq<string>, fetch: string -> Option<seq<CsvRow>>)
    ensures LoadSpec(deps, fetch).Failure? <==> forall i :: 0 <= i < |deps| ==> fetch(deps[i]).None?
  {
    var frames := Frames(deps, fetch);
    if exists i :: 0 <= i < |deps| && fetch(deps[i]).Some? {
      var i :| 0 <= i < |deps| && fetch(deps[i]).Some?;
      FilterMapMember(deps, Fetched(fetch), Fetched(fetch)(deps[i]).value);
    }
    if frames != [] {
      FilterMapMember(deps, Fetched(fetch), frames[0]);
      var i :| 0 <= i < |deps| && Fetched(fetch)(deps[i]) == Some(frames[0]);
    }
  }

  lemma {:induction false} FlattenMember<T>(frames: seq<seq<T>>, x: T)
    ensures x in Flatten(frames) <==> exists j :: 0 <= j < |frames| && x in frames[j]
    decreases |frames|
  {
    if frames != [] {
      var n := |frames| - 1;
      FlattenMember(frames[..n], x);
      assert forall j :: 0 <= j < n ==> frames[..n][j] == frames[j];
    }
  }

  /** Every loaded row comes from the file of a listed departement that could be read, and
      carries that departement; every row of such a file is loaded. */
  lemma LoadedRows(deps: seq<string>, fetch: string -> Option<seq<CsvRow>>, t: Tagged)
    ensures t in Flatten(Frames(deps, fetch)) <==>
      exists i :: 0 <= i < |deps| && fetch(deps[i]).Some? && t.departement == deps[i]
        && t.row in fetch(deps[i]).value
  {
    var frames := Frames(deps, fetch);
    FlattenMember(frames, t);
    if t in Flatten(frames) {
      var j :| 0 <= j < |frames| && t in frames[j];
      FilterMapMember(deps, Fetched(fetch), frames[j]);
      var i :| 0 <= i < |deps| && Fetched(fetch)(deps[i]) == Some(frames[j]);
      var k :| 0 <= k < |frames[j]| && frames[j][k] == t;
      assert t.row == fetch(deps[i]).value[k];
    }
    if exists i :: 0 <= i < |deps| && fetch(deps[i]).Some? && t.departement == deps[i]
        && t.row in fetch(deps[i]).value {
      var i :| 0 <= i < |deps| && fetch(deps[i]).Some? && t.departement == deps[i]
        && t.row in fetch(deps[i]).value;
      var rows := fetch(deps[i]).value;
      var k :| 0 <= k < |rows| && rows[k] == t.row;
      var frame := Tag(rows, deps[i]);
      assert frame[k] == t;
      FilterMapMember(deps, Fetched(fetch), frame);
      var j :| 0 <= j < |frames| && frames[j] == frame;
    }
  }

  // ---------------------------------------------------------------------------------------
  // Cleaning

  /** `df_idf[features]`: the ten columns, which drops `departement` and every other column. */
  function SelectFeatures(loaded: seq<Tagged>): (sales: seq<Sale>)
    ensures |sales| == |loaded|
    ensures forall i :: 0 <= i < |loaded| ==> sales[i] == loaded[i].row.sale
  {
    seq(|loaded|, i requires 0 <= i < |loaded| => loaded[i].row.sale)
  }

  /** The condition of `query_1`; an empty cell satisfies neither comparison. */
  predicate IsHouseSale(s: Sale) {
    (s.typeLocal == Some("Appartement") || s.typeLocal == Some("Maison"))
    && s.natureMutation == Some("Vente")
  }

  /** `query_1` (dataset_builder/dvf_ingestion_to_neon.py:50-56): the sales of flats and houses. */
  function Query1(sales: seq<Sale>): (r: seq<Sale>)
    ensures forall x :: x in r ==>
      (x in sales && x.typeLocal in {Some("Appartement"), Some("Maison")}
       && x.natureMutation == Some("Vente"))
    ensures forall x :: x in sales && IsHouseSale(x) ==> x in r
  {
    Filter(sales, IsHouseSale)
  }

  /** A row without empty cells. */
  datatype CleanSale = CleanSale(
    surfaceReelleBati: real,
    nombrePiecesPrincipales: real,
    typeLocal: string,
    codePostal: real,
    longitude: real,
    latitude: real,
    natureMutation: string,
    dateMutation: string,
    valeurFonciere: real,
    idMutation: string)

  predicate Complete(s: Sale) {
    && s.surfaceReelleBati.Some? && s.nombrePiecesPrincipales.Some? && s.typeLocal.Some?
    && s.codePostal.Some? && s.longitude.Some? && s.latitude.Some? && s.natureMutation.Some?
    && s.dateMutation.Some? && s.valeurFonciere.Some? && s.idMutation.Some?
  }

  /** The values of a row, the same row without its `Option`s, when no cell is empty. */
  function ToClean(s: Sale): (c: Option<CleanSale>)
    ensures c.Some? <==> Complete(s)
  {
    if Complete(s) then
      Some(CleanSale(s.surfaceReelleBati.value, s.nombrePiecesPrincipales.value, s.typeLocal.value,
                     s.codePostal.value, s.longitude.value, s.latitude.value, s.natureMutation.value,
                     s.dateMutation.value, s.valeurFonciere.value, s.idMutation.value))
    else None
  }

  /** The row a clean row stands for. */
  function FromClean(c: CleanSale): Sale {
    Sale(Some(c.surfaceReelleBati), Some(c.nombrePiecesPrincipales), Some(c.typeLocal),
         Some(c.codePostal), Some(c.longitude), Some(c.latitude), Some(c.natureMutation),
         Some(c.dateMutation), Some(c.valeurFonciere), Some(c.idMutation))
  }

  /** `dropna()` (dataset_builder/dvf_ingestion_to_neon.py:59): a clean row comes out exactly
      when the row it stands for is in the input. */
  function DropNa(sales: seq<Sale>): (r: seq<CleanSale>)
    ensures |r| <= |sales|
    ensures forall c :: c in r <==> FromClean(c) in sales
  {
    var r := FilterMap(sales, ToClean);
    CleanRows(sales, r);
    r
  }

  lemma CleanRows(sales: seq<Sale>, r: seq<CleanSale>)
    requires r == FilterMap(sales, ToClean)
    ensures forall c :: c in r <==> FromClean(c) in sales
  {
    forall c ensures c in r <==> FromClean(c) in sales {
      FilterMapMember(sales, ToClean, c);
      if FromClean(c) in sales {
        var i :| 0 <= i < |sales| && sales[i] == FromClean(c);
        assert ToClean(sales[i]) == Some(c);
      }
    }
  }

  /** The rows `dropna` keeps are exactly the rows without an empty cell, values unchanged. */
  lemma DropNaKeepsCompleteRows(sales: seq<Sale>, c: CleanSale)
    ensures c in DropNa(sales) <==> exists i :: 0 <= i < |sales| && Complete(sales[i]) && sales[i] == FromClean(c)
  {
    FilterMapMember(sales, ToClean, c);
    if exists i :: 0 <= i < |sales| && Complete(sales[i]) && sales[i] == FromClean(c) {
      var i :| 0 <= i < |sales| && Complete(sales[i]) && sales[i] == FromClean(c);
      assert ToClean(sales[i]) == Some(c);
    }
  }

  // ---------------------------------------------------------------------------------------
  // Price per square metre

  /** The rows of one mutation. */
  function Mutation(rows: seq<CleanSale>, id: string): seq<CleanSale> {
    Filter(rows, (c: CleanSale) => c.idMutation == id)
  }

  function Valeurs(rows: seq<CleanSale>): seq<real> {
    seq(|rows|, i requires 0 <= i < |rows| => rows[i].valeurFonciere)
  }

  function Surfaces(rows: seq<CleanSale>): seq<real> {
    seq(|rows|, i requires 0 <= i < |rows| => rows[i].surfaceReelleBati)
  }

  /** `MAX(valeur_fonciere) / SUM(surface_reelle_bati)` over the rows of a mutation. The total
      price of a mutation is repeated on each of its rows, hence the `MAX`. A zero total surface
      gives no price: the engine's NULL or infinite quotient fails the price range of
      `query_3` either way. */
  function PrixM2(rows: seq<CleanSale>, id: string): (p: Option<real>)
    ensures p.Some? ==>
      (|Mutation(rows, id)| > 0 && Sum(Surfaces(Mutation(rows, id))) != 0.0
       && p.value == MaxOf(Valeurs(Mutation(rows, id))) / Sum(Surfaces(Mutation(rows, id))))
  {
    var m := Mutation(rows, id);
    if |m| == 0 then None
    else
      var total := Sum(Surfaces(m));
      if total == 0.0 then None else Some(MaxOf(Valeurs(m)) / total)
  }

  function Ids(rows: seq<CleanSale>): seq<string> {
    seq(|rows|, i requires 0 <= i < |rows| => rows[i].idMutation)
  }

  /** The table `prix_par_m2` of `query_2`: one row per mutation. */
  function PrixParM2(rows: seq<CleanSale>): seq<(string, Option<real>)> {
    PriceTable(Dedup(Ids(rows)), rows)
  }

  function PriceTable(ids: seq<string>, rows: seq<CleanSale>): seq<(string, Option<real>)> {
    seq(|ids|, j requires 0 <= j < |ids| => (ids[j], PrixM2(rows, ids[j])))
  }

  /** A clean row with the `prix_m2` column the join adds. */
  datatype PricedSale = PricedSale(sale: CleanSale, prixM2: Option<real>)

  /** The prices of the table rows whose `id_mutation` is `id`. */
  function Matches(table: seq<(string, Option<real>)>, id: string): seq<Option<real>> {
    FilterMap(table, (e: (string, Option<real>)) => if e.0 == id then Some(e.1) else None)
  }

  /** `LEFT JOIN ... USING(id_mutation)` for one row: one output row per matching table row,
      or a single row with an empty price when none matches. */
  function JoinRow(c: CleanSale, table: seq<(string, Option<real>)>): seq<PricedSale> {
    var ms := Matches(table, c.idMutation);
    if ms == [] then [PricedSale(c, None)]
    else seq(|ms|, j requires 0 <= j < |ms| => PricedSale(c, ms[j]))
  }

  function LeftJoin(rows: seq<CleanSale>, table: seq<(string, Option<real>)>): seq<PricedSale>
    decreases |rows|
  {
    if rows == [] then [] else LeftJoin(rows[..|rows| - 1], table) + JoinRow(rows[|rows| - 1], table)
  }

  /** `query_2` (dataset_builder/dvf_ingestion_to_neon.py:62-74): every row, in place, with the
      price of its own mutation. */
  function Query2(rows: seq<CleanSale>): (q: seq<PricedSale>)
    ensures |q| == |rows|
    ensures forall i :: 0 <= i < |rows| ==> q[i].sale == rows[i] && q[i].prixM2 == PrixM2(rows, rows[i].idMutation)
  {
    assert forall i :: 0 <= i < |rows| ==> rows[i].idMutation == Ids(rows)[i];
    JoinKeepsEachRowOnce(rows, rows);
    LeftJoin(rows, PrixParM2(rows))
  }

  /** An identifier listed once in the table matches exactly one of its rows. */
  lemma {:induction false} OneMatch(ids: seq<string>, rows: seq<CleanSale>, id: string)
    requires Distinct(ids) && id in ids
    ensures Matches(PriceTable(ids, rows), id) == [PrixM2(rows, id)]
    decreases |ids|
  {
    var n := |ids| - 1;
    var init := ids[..n];
    var f := (e: (string, Option<real>)) => if e.0 == id then Some(e.1) else None;
    assert PriceTable(ids, rows) == PriceTable(init, rows) + [(ids[n], PrixM2(rows, ids[n]))];
    FilterMapSnoc(PriceTable(init, rows), (ids[n], PrixM2(rows, ids[n])), f);
    assert Distinct(init);
    if ids[n] == id {
      assert id !in init;
      NoMatch(init, rows, id);
    } else {
      assert id in init;
      OneMatch(init, rows, id);
    }
  }

  lemma {:induction false} NoMatch(ids: seq<string>, rows: seq<CleanSale>, id: string)
    requires id !in ids
    ensures Matches(PriceTable(ids, rows), id) == []
    decreases |ids|
  {
    if ids != [] {
      var n := |ids| - 1;
      var init := ids[..n];
      var f := (e: (string, Option<real>)) => if e.0 == id then Some(e.1) else None;
      assert PriceTable(ids, rows) == PriceTable(init, rows) + [(ids[n], PrixM2(rows, ids[n]))];
      FilterMapSnoc(PriceTable(init, rows), (ids[n], PrixM2(rows, ids[n])), f);
      assert ids[n] in ids;
      NoMatch(init, rows, id);
    }
  }

  /** Each row with the price of its own mutation, in the order of `rs`. */
  function WithOwnPrice(rs: seq<CleanSale>, rows: seq<CleanSale>): seq<PricedSale> {
    seq(|rs|, i requires 0 <= i < |rs| => PricedSale(rs[i], PrixM2(rows, rs[i].idMutation)))
  }

  /** The join neither drops nor duplicates a row: each row comes out once, in place, with the
      price of its own mutation. */
  lemma {:induction false} JoinKeepsEachRowOnce(rs: seq<CleanSale>, rows: seq<CleanSale>)
    requires forall i :: 0 <= i < |rs| ==> rs[i].idMutation in Ids(rows)
    ensures LeftJoin(rs, PrixParM2(rows)) == WithOwnPrice(rs, rows)
    decreases |rs|
  {
    if rs != [] {
      var n := |rs| - 1;
      var c := rs[n];
      var init := rs[..n];
      assert init + [c] == rs;
      assert forall i :: 0 <= i < |init| ==> init[i] == rs[i];
      JoinKeepsEachRowOnce(init, rows);
      JoinOneRow(c, rows);
      WithOwnPriceSnoc(init, c, rows);
    }
  }

  lemma JoinOneRow(c: CleanSale, rows: seq<CleanSale>)
    requires c.idMutation in Ids(rows)
    ensures JoinRow(c, PrixParM2(rows)) == [PricedSale(c, PrixM2(rows, c.idMutation))]
  {
    assert c.idMutation in Dedup(Ids(rows));
    OneMatch(Dedup(Ids(rows)), rows, c.idMutation);
  }

  lemma WithOwnPriceSnoc(rs: seq<CleanSale>, c: CleanSale, rows: seq<CleanSale>)
    ensures WithOwnPrice(rs + [c], rows) == WithOwnPrice(rs, rows) + [PricedSale(c, PrixM2(rows, c.idMutation))]
  {
    var a := WithOwnPrice(rs + [c], rows);
    var b := WithOwnPrice(rs, rows) + [PricedSale(c, PrixM2(rows, c.idMutation))];
    assert |a| == |b|;
    forall i | 0 <= i < |a| ensures a[i] == b[i] {
      if i < |rs| {
        assert (rs + [c])[i] == rs[i];
      }
    }
  }

  /** Rows of the same mutation get the same price from `query_2`. */
  lemma Query2Rows(rows: seq<CleanSale>)
    ensures var q := Query2(rows);
      forall i, j :: 0 <= i < |rows| && 0 <= j < |rows| && rows[i].idMutation == rows[j].idMutation
        ==> q[i].prixM2 == q[j].prixM2
  {
  }

  // ---------------------------------------------------------------------------------------
  // Plausible prices and the final table

  predicate InRange(p: PricedSale) {
    p.prixM2.Some? && 1000.0 <= p.prixM2.value <= 25000.0
  }

  /** `query_3` (dataset_builder/dvf_ingestion_to_neon.py:77-82): `BETWEEN` is inclusive. */
  function Query3(priced: seq<PricedSale>): (r: seq<PricedSale>)
    ensures |r| <= |priced|
    ensures forall p :: p in r <==> p in priced && p.prixM2.Some? && 1000.0 <= p.prixM2.value <= 25000.0
  {
    Filter(priced, InRange)
  }

  /** A mutation is kept or dropped as a whole. */
  lemma MutationKeptWhole(rows: seq<CleanSale>, i: int, j: int)
    requires 0 <= i < |rows| && 0 <= j < |rows| && rows[i].idMutation == rows[j].idMutation
    ensures var q := Query2(rows);
      |q| == |rows| && (q[i] in Query3(q) <==> q[j] in Query3(q))
  {
    Query2Rows(rows);
  }

  /** A row of the final table: `valeur_fonciere` and `nature_mutation` are dropped. */
  datatype TableRow = TableRow(
    surfaceReelleBati: real,
    nombrePiecesPrincipales: real,
    typeLocal: string,
    codePostal: real,
    longitude: real,
    latitude: real,
    dateMutation: string,
    idMutation: string,
    prixM2: Option<real>)

  function DropColumn(p: PricedSale): TableRow {
    var c := p.sale;
    TableRow(c.surfaceReelleBati, c.nombrePiecesPrincipales, c.typeLocal, c.codePostal,
             c.longitude, c.latitude, c.dateMutation, c.idMutation, p.prixM2)
  }

  /** `drop(['valeur_fonciere', 'nature_mutation'])` (dataset_builder/dvf_ingestion_to_neon.py:85). */
  function DropColumns(priced: seq<PricedSale>): (t: seq<TableRow>)
    ensures |t| == |priced| && forall i :: 0 <= i < |priced| ==> t[i] == DropColumn(priced[i])
  {
    seq(|priced|, i requires 0 <= i < |priced| => DropColumn(priced[i]))
  }

  /** The whole cleaning, from the loaded rows to the table (dataset_builder/dvf_ingestion_to_neon.py:50-85):
      every row of the table is the sale of a flat or a house with a price per square metre
      between 1000 and 25000 inclusive. */
  function Pipeline(loaded: seq<Tagged>): (t: seq<TableRow>)
    ensures forall i :: 0 <= i < |t| ==>
      && (t[i].typeLocal == "Appartement" || t[i].typeLocal == "Maison")
      && t[i].prixM2.Some? && 1000.0 <= t[i].prixM2.value <= 25000.0
  {
    var clean := DropNa(Query1(SelectFeatures(loaded)));
    CleanHouseSales(SelectFeatures(loaded));
    KeptRows(clean, Query2(clean));
    DropColumns(Query3(Query2(clean)))
  }

  /** The rows `query_3` keeps from priced flats and houses are priced flats and houses in range. */
  lemma KeptRows(clean: seq<CleanSale>, q2: seq<PricedSale>)
    requires forall k :: 0 <= k < |clean| ==> clean[k].typeLocal == "Appartement" || clean[k].typeLocal == "Maison"
    requires |q2| == |clean| && forall k :: 0 <= k < |clean| ==> q2[k].sale == clean[k]
    ensures var t := DropColumns(Query3(q2));
      forall i :: 0 <= i < |t| ==>
        && (t[i].typeLocal == "Appartement" || t[i].typeLocal == "Maison")
        && t[i].prixM2.Some? && 1000.0 <= t[i].prixM2.value <= 25000.0
  {
    var q3 := Query3(q2);
    forall i | 0 <= i < |q3|
      ensures q3[i].sale.typeLocal == "Appartement" || q3[i].sale.typeLocal == "Maison"
      ensures InRange(q3[i])
    {
      assert q3[i] in q3;
      var k :| 0 <= k < |q2| && q2[k] == q3[i];
    }
  }

  /** The clean rows are all flats and houses. */
  lemma CleanHouseSales(sales: seq<Sale>)
    ensures var clean := DropNa(Query1(sales));
      forall k :: 0 <= k < |clean| ==> clean[k].typeLocal == "Appartement" || clean[k].typeLocal == "Maison"
  {
    var q1 := Query1(sales);
    var clean := DropNa(q1);
    forall k | 0 <= k < |clean|
      ensures clean[k].typeLocal == "Appartement" || clean[k].typeLocal == "Maison"
    {
      DropNaKeepsCompleteRows(q1, clean[k]);
      var m :| 0 <= m < |q1| && Complete(q1[m]) && q1[m] == FromClean(clean[k]);
    }
  }

  /** The ingestion up to the upload: loading the eight departements, then the cleaning. */
  method Ingest(fetch: string -> Option<seq<CsvRow>>) returns (r: Result<seq<TableRow>, string>)
    ensures LoadSpec(DepartementsIdf, fetch).Failure? ==> r.Failure?
    ensures LoadSpec(DepartementsIdf, fetch).Success? ==> r == Success(Pipeline(LoadSpec(DepartementsIdf, fetch).value))
  {
    var loaded := Load(DepartementsIdf, fetch);
    match loaded
    case Failure(e) => r := Failure(e);
    case Success(rows) => r := Success(Pipeline(rows));
  }
}
