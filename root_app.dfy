/** The standalone `/biens_proches` endpoint of app.py: every row of the table whose distance
    from the searched point is at most the radius, in the order the query returns them, and
    the analysis of that list. The geocoded point, the rows the query returns and the distance
    function are inputs. */
module RootApp {
  import opened Wrappers
  import opened Seqs
  import opened Records
  import opened Text
  import opened LlmAssistant

  /** `haversine_distance(lat, lon, row.latitude, row.longitude)`. */
  type Haversine = (real, real, real, real) -> real

  function DistanceTo(lat: real, lon: real, haversine: Haversine, row: Row): real {
    haversine(lat, lon, row.latitude, row.longitude)
  }

  /** The dictionary appended for a kept row: its eight columns and `distance_m`. */
  function ToBien(row: Row, d: real): Bien {
    Bien(row.latitude, row.longitude, row.prixM2, row.typeLocal, row.dateMutation,
         row.surfaceReelleBati, row.idMutation, row.nombrePiecesPrincipales, d)
  }

  /** The eight selected columns of a record, without its distance. */
  function RowOf(b: Bien): Row {
    Row(b.latitude, b.longitude, b.prixM2, b.typeLocal, b.dateMutation,
        b.surfaceReelleBati, b.idMutation, b.nombrePiecesPrincipales)
  }

  /** The record for a row, when the row lies within the radius (`if d <= rayon_m`). */
  function Keep(lat: real, lon: real, haversine: Haversine, rayonM: int): Row -> Option<Bien> {
    row =>
      var d := DistanceTo(lat, lon, haversine, row);
      if d <= rayonM as real then Some(ToBien(row, d)) else None
  }

  /** The records the loop collects from `rows`. */
  function Within(rows: seq<Row>, lat: real, lon: real, haversine: Haversine, rayonM: int): seq<Bien> {
    FilterMap(rows, Keep(lat, lon, haversine, rayonM))
  }

  /** The loop of app.py:38-52. */
  method CollectBiens(rows: seq<Row>, lat: real, lon: real, haversine: Haversine, rayonM: int)
    returns (biens: seq<Bien>)
    ensures biens == Within(rows, lat, lon, haversine, rayonM)
  {
    biens := [];
    var i := 0;
    while i < |rows|
      invariant 0 <= i <= |rows|
      invariant biens == Within(rows[..i], lat, lon, haversine, rayonM)
    {
      var row := rows[i];
      var d := haversine(lat, lon, row.latitude, row.longitude);
      FilterMapSnoc(rows[..i], row, Keep(lat, lon, haversine, rayonM));
      assert rows[..i + 1] == rows[..i] + [row];
      if d <= rayonM as real {
        biens := biens + [ToBien(row, d)];
      }
      i := i + 1;
    }
    assert rows[..|rows|] == rows;
  }

  /** A record is in the result exactly when it carries the eight columns of a row within the
      radius, unchanged, and that row's distance: the bound is inclusive, no row within it is
      missed, and nothing else comes out. */
  lemma WithinMember(rows: seq<Row>, lat: real, lon: real, haversine: Haversine, rayonM: int, b: Bien)
    ensures b in Within(rows, lat, lon, haversine, rayonM) <==>
      exists j :: 0 <= j < |rows| && DistanceTo(lat, lon, haversine, rows[j]) <= rayonM as real
        && RowOf(b) == rows[j] && b.distanceM == DistanceTo(lat, lon, haversine, rows[j])
  {
    var keep := Keep(lat, lon, haversine, rayonM);
    FilterMapMember(rows, keep, b);
    if exists j :: 0 <= j < |rows| && keep(rows[j]) == Some(b) {
      var j :| 0 <= j < |rows| && keep(rows[j]) == Some(b);
      assert DistanceTo(lat, lon, haversine, rows[j]) <= rayonM as real;
    }
    if exists j :: 0 <= j < |rows| && DistanceTo(lat, lon, haversine, rows[j]) <= rayonM as real
        && RowOf(b) == rows[j] && b.distanceM == DistanceTo(lat, lon, haversine, rows[j]) {
      var j :| 0 <= j < |rows| && DistanceTo(lat, lon, haversine, rows[j]) <= rayonM as real
        && RowOf(b) == rows[j] && b.distanceM == DistanceTo(lat, lon, haversine, rows[j]);
      assert b == ToBien(rows[j], b.distanceM);
      assert keep(rows[j]) == Some(b);
    }
  }

  /** Every returned record lies within the radius. */
  lemma WithinRadius(rows: seq<Row>, lat: real, lon: real, haversine: Haversine, rayonM: int)
    ensures var biens := Within(rows, lat, lon, haversine, rayonM);
      forall i :: 0 <= i < |biens| ==> biens[i].distanceM <= rayonM as real
  {
    var biens := Within(rows, lat, lon, haversine, rayonM);
    forall i | 0 <= i < |biens| ensures biens[i].distanceM <= rayonM as real {
      WithinMember(rows, lat, lon, haversine, rayonM, biens[i]);
    }
  }

  /** The result of a concatenation of query results is the concatenation of the results: the
      rows come out in the order the query returns them. */
  lemma WithinKeepsOrder(a: seq<Row>, b: seq<Row>, lat: real, lon: real, haversine: Haversine, rayonM: int)
    ensures Within(a + b, lat, lon, haversine, rayonM)
      == Within(a, lat, lon, haversine, rayonM) + Within(b, lat, lon, haversine, rayonM)
  {
    FilterMapAppend(a, b, Keep(lat, lon, haversine, rayonM));
  }

  /** No sorting by distance: two rows within the radius come out in query order whatever
      their distances. */
  lemma TwoRowsInQueryOrder(r1: Row, r2: Row, lat: real, lon: real, haversine: Haversine, rayonM: int)
    requires DistanceTo(lat, lon, haversine, r1) <= rayonM as real
    requires DistanceTo(lat, lon, haversine, r2) <= rayonM as real
    ensures Within([r1, r2], lat, lon, haversine, rayonM)
      == [ToBien(r1, DistanceTo(lat, lon, haversine, r1)), ToBien(r2, DistanceTo(lat, lon, haversine, r2))]
  {
    var keep := Keep(lat, lon, haversine, rayonM);
    FilterMapSnoc([r1], r2, keep);
    FilterMapSnoc([], r1, keep);
    assert [r1, r2] == [r1] + [r2];
    assert [r1] == [] + [r1];
  }

  // ---------------------------------------------------------------------------------------
  // The response

  /** The returned dictionary `{"biens_proches": ..., "analyse": ...}`. */
  datatype Response = Response(biensProches: seq<Bien>, analyse: string)

  /** `biens_proches` (app.py:29-60) as written: the analysis receives `TOGETHER_API_KEY`, a
      string or `None`, as its `param` dictionary. */
  method BiensProches(rows: seq<Row>, lat: real, lon: real, haversine: Haversine, rayonM: int,
                      complete: string -> Option<string>, realText: real -> string)
    returns (r: Result<Response, string>)
    ensures Iterable(StatsOf(Within(rows, lat, lon, haversine, rayonM)))
    ensures var biens := Within(rows, lat, lon, haversine, rayonM);
      var answer := complete(PromptSpec(StatsOf(biens), rayonM, realText));
      && (answer.Some? ==> r == Success(Response(biens, Strip(answer.value))))
      && (answer.None? ==> r == Failure("TypeError"))
  {
    r := Respond(rows, lat, lon, haversine, rayonM, NotADict, complete, realText);
    assert Recover(NotADict) == Raised("TypeError");
  }

  /** `biens_proches` with a `param` dictionary holding a logger, as backend/app.py passes it:
      the endpoint always answers, with the fallback text when the completion fails. */
  method BiensProchesWithLogger(rows: seq<Row>, lat: real, lon: real, haversine: Haversine, rayonM: int,
                                complete: string -> Option<string>, realText: real -> string)
    returns (r: Result<Response, string>)
    ensures Iterable(StatsOf(Within(rows, lat, lon, haversine, rayonM)))
    ensures var biens := Within(rows, lat, lon, haversine, rayonM);
      var answer := complete(PromptSpec(StatsOf(biens), rayonM, realText));
      && (answer.Some? ==> r == Success(Response(biens, Strip(answer.value))))
      && (answer.None? ==> r == Success(Response(biens, Fallback)))
  {
    r := Respond(rows, lat, lon, haversine, rayonM, WithLogger, complete, realText);
    assert Recover(WithLogger) == Returned(Fallback);
  }

  /** The endpoint for a given `param`: the records, then the analysis of those records with
      the same radius; an exception escaping the analysis escapes the endpoint. */
  method Respond(rows: seq<Row>, lat: real, lon: real, haversine: Haversine, rayonM: int, param: Param,
                 complete: string -> Option<string>, realText: real -> string)
    returns (r: Result<Response, string>)
    ensures Iterable(StatsOf(Within(rows, lat, lon, haversine, rayonM)))
    ensures var biens := Within(rows, lat, lon, haversine, rayonM);
      var answer := complete(PromptSpec(StatsOf(biens), rayonM, realText));
      var outcome := if answer.Some? then Returned(Strip(answer.value)) else Recover(param);
      && (outcome.Returned? ==> r == Success(Response(biens, outcome.text)))
      && (outcome.Raised? ==> r == Failure(outcome.exception))
  {
    var biens := CollectBiens(rows, lat, lon, haversine, rayonM);
    var analyse := AnalyseBiensParLlm(biens, rayonM, param, complete, realText);
    match analyse
    case Returned(text) => r := Success(Response(biens, text));
    case Raised(e) => r := Failure(e);
  }
}
