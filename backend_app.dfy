/** The two endpoints of backend/app.py: `/biens_proches` (records and a summary block) and
    `/analyse_stream` (a stream of event frames). Geocoding, the database search and the
    streaming analysis are inputs: their results, or the fact that they raised. */
module BackendApp {
  import opened Wrappers
  import opened Seqs
  import opened Numbers
  import opened Records
  import opened Text
  import opened StatCompute
  import opened StatProperties
  import opened Json

  // ---------------------------------------------------------------------------------------
  // Query parameters

  /** FastAPI's validation of `rayon_m: int = Query(500, ge=lo, le=hi)`: the default when the
      parameter is absent, the given value when it lies in `[lo, hi]`, a 422 rejection otherwise. */
  function CheckRayon(given: Option<int>, lo: int, hi: int): Option<int> {
    if given.None? then Some(500)
    else if lo <= given.value <= hi then Some(given.value)
    else None
  }

  /** `rayon_m` of `/biens_proches` (backend/app.py:60). */
  function BiensProchesRayon(given: Option<int>): (r: Option<int>)
    ensures given.None? ==> r == Some(500)
    ensures given.Some? ==> (r.Some? <==> 100 <= given.value <= 10000)
    ensures r.Some? ==> 100 <= r.value <= 10000
  {
    CheckRayon(given, 100, 10000)
  }

  /** `rayon_m` of `/analyse_stream` (backend/app.py:108). */
  function AnalyseStreamRayon(given: Option<int>): (r: Option<int>)
    ensures given.None? ==> r == Some(500)
    ensures given.Some? ==> (r.Some? <==> 100 <= given.value <= 1000)
    ensures r.Some? ==> 100 <= r.value <= 1000
  {
    CheckRayon(given, 100, 1000)
  }

  /** Every radius the stream accepts, the record search accepts too, with the same value. */
  lemma StreamRadiusWithinSearchRadius(given: Option<int>)
    ensures AnalyseStreamRayon(given).Some? ==> BiensProchesRayon(given) == AnalyseStreamRayon(given)
  {
  }

  // ---------------------------------------------------------------------------------------
  // What the endpoints depend on

  /** The outcome of geocoding the address and searching the records around it:
      `geocode_cached` raised, `get_biens_proches` raised, or the records found. */
  datatype Lookup = GeocodeRaised | SearchRaised | Found(biens: seq<Bien>)

  /** An `HTTPException` that leaves the endpoint. */
  datatype HttpError = HttpError(status: int, detail: string)

  const InternalError: HttpError := HttpError(500, "Erreur interne du serveur")

  /** The 400 that `geocode_cached` raises when `geocode_ban` raises (backend/app.py:52-54). */
  function GeocodeError(adresse: string): HttpError {
    HttpError(400, "Impossible de géocoder l'adresse: " + adresse)
  }

  // ---------------------------------------------------------------------------------------
  // /biens_proches

  /** The `stats` block for found records (without `temps_execution` and the rounding). */
  datatype Summary = Summary(nbBiens: nat, prixMoyen: real, surfaceMoyenne: real, distanceMax: real)

  /** The response: no record and `nb_biens = 0`, or the records and their summary. */
  datatype ProchesResponse = NoRecord | Records(biens: seq<Bien>, stats: Summary)

  function TruthyPrice(b: Bien): Option<real> {
    if TruthyNumber(b.prixM2) then b.prixM2 else None
  }

  function TruthySurface(b: Bien): Option<real> {
    if TruthyNumber(b.surfaceReelleBati) then b.surfaceReelleBati else None
  }

  function Distance(b: Bien): Option<real> {
    Some(b.distanceM)
  }

  /** `sum(xs) / len(xs)` of the values kept by a truthiness test; `None` for the
      `ZeroDivisionError` raised when no value is kept. */
  function AverageOrRaise(xs: seq<real>): (r: Option<real>)
    ensures r.Some? <==> |xs| > 0
    ensures r.Some? ==> r.value == Mean(xs)
    ensures r.Some? ==> MinOf(xs) <= r.value <= MaxOf(xs)
  {
    if |xs| == 0 then None
    else
      MeanBetweenMinAndMax(xs);
      Some(Mean(xs))
  }

  /** The summary (backend/app.py:85-91): the number of records, the average of the truthy
      prices and of the truthy surfaces, and the largest distance; `None` when one of the two
      divisions raises. The `if biens else 0` alternatives are never taken: the records are
      non-empty here. */
  function Summarize(biens: seq<Bien>): (r: Option<Summary>)
    requires |biens| > 0
    ensures r.None? <==> |FilterMap(biens, TruthyPrice)| == 0 || |FilterMap(biens, TruthySurface)| == 0
    ensures r.Some? ==>
      && r.value.nbBiens == |biens|
      && r.value.prixMoyen == Mean(FilterMap(biens, TruthyPrice))
      && r.value.surfaceMoyenne == Mean(FilterMap(biens, TruthySurface))
      && (forall i :: 0 <= i < |biens| ==> biens[i].distanceM <= r.value.distanceMax)
      && (exists i :: 0 <= i < |biens| && biens[i].distanceM == r.value.distanceMax)
    ensures r.Some? ==>
      && MinOf(FilterMap(biens, TruthyPrice)) <= r.value.prixMoyen <= MaxOf(FilterMap(biens, TruthyPrice))
      && MinOf(FilterMap(biens, TruthySurface)) <= r.value.surfaceMoyenne <= MaxOf(FilterMap(biens, TruthySurface))
  {
    var prix := AverageOrRaise(FilterMap(biens, TruthyPrice));
    var surface := AverageOrRaise(FilterMap(biens, TruthySurface));
    DistanceMax(biens);
    var distances := FilterMap(biens, Distance);
    if prix.None? || surface.None? then None
    else Some(Summary(|biens|, prix.value, surface.value, MaxOf(distances)))
  }

  /** The averaged prices are the prices of the records whose `prix_m2` is truthy: a value is
      averaged exactly when some record carries it and it is neither `None` nor zero. */
  lemma TruthyPrices(biens: seq<Bien>, x: real)
    ensures x in FilterMap(biens, TruthyPrice) <==>
      exists i :: 0 <= i < |biens| && biens[i].prixM2 == Some(x) && x != 0.0
  {
    FilterMapMember(biens, TruthyPrice, x);
    if exists i :: 0 <= i < |biens| && biens[i].prixM2 == Some(x) && x != 0.0 {
      var i :| 0 <= i < |biens| && biens[i].prixM2 == Some(x) && x != 0.0;
      assert TruthyPrice(biens[i]) == Some(x);
    }
  }

  /** The same for the averaged surfaces and `surface_reelle_bati`. */
  lemma TruthySurfaces(biens: seq<Bien>, x: real)
    ensures x in FilterMap(biens, TruthySurface) <==>
      exists i :: 0 <= i < |biens| && biens[i].surfaceReelleBati == Some(x) && x != 0.0
  {
    FilterMapMember(biens, TruthySurface, x);
    if exists i :: 0 <= i < |biens| && biens[i].surfaceReelleBati == Some(x) && x != 0.0 {
      var i :| 0 <= i < |biens| && biens[i].surfaceReelleBati == Some(x) && x != 0.0;
      assert TruthySurface(biens[i]) == Some(x);
    }
  }

  lemma {:induction false} FilterMapLength(biens: seq<Bien>, f: Bien -> Option<real>)
    requires forall b :: f(b).Some?
    ensures |FilterMap(biens, f)| == |biens|
    decreases |biens|
  {
    if biens != [] {
      FilterMapLength(biens[..|biens| - 1], f);
    }
  }

  /** `biens_proches` (backend/app.py:57-102): a 400 exactly when geocoding raised, a 500 for
      any other failure, and otherwise the records found with their number. */
  function BiensProches(adresse: string, lookup: Lookup): (r: Result<ProchesResponse, HttpError>)
    ensures r.Success? ==> lookup.Found?
    ensures (r.Failure? && r.error.status == 400) <==> lookup.GeocodeRaised?
    ensures r.Failure? && !lookup.GeocodeRaised? ==> r.error == InternalError
    ensures lookup.Found? ==> (r == Success(NoRecord) <==> |lookup.biens| == 0)
    ensures r.Success? && r.value.Records? ==>
      r.value.biens == lookup.biens && r.value.stats.nbBiens == |lookup.biens|
  {
    match lookup
    case GeocodeRaised => Failure(GeocodeError(adresse))
    case SearchRaised => Failure(InternalError)
    case Found(biens) =>
      if |biens| == 0 then Success(NoRecord)
      else
        var stats := Summarize(biens);
        if stats.None? then Failure(InternalError) else Success(Records(biens, stats.value))
  }

  /** The response lists the records found, unchanged, and a summary in which `nb_biens` is
      their number, `distance_max` the largest distance, and each average is the mean of the
      truthy values it averages, so it lies between the smallest and the largest of them
      (backend/app.py:75-96). */
  lemma BiensProchesSummary(adresse: string, biens: seq<Bien>)
    ensures var r := BiensProches(adresse, Found(biens));
      && (|biens| == 0 <==> r == Success(NoRecord))
      && (r.Success? && r.value.Records? ==>
            var s := r.value.stats;
            && r.value.biens == biens
            && s.nbBiens == |biens|
            && (forall i :: 0 <= i < |biens| ==> biens[i].distanceM <= s.distanceMax)
            && (exists i :: 0 <= i < |biens| && biens[i].distanceM == s.distanceMax)
            && s.prixMoyen == Mean(FilterMap(biens, TruthyPrice))
            && s.surfaceMoyenne == Mean(FilterMap(biens, TruthySurface))
            && MinOf(FilterMap(biens, TruthyPrice)) <= s.prixMoyen <= MaxOf(FilterMap(biens, TruthyPrice))
            && MinOf(FilterMap(biens, TruthySurface)) <= s.surfaceMoyenne <= MaxOf(FilterMap(biens, TruthySurface)))
  {
    if |biens| > 0 {
      DistanceMax(biens);
    }
  }

  /** `max(b["distance_m"] for b in biens)` is the distance of one of the records and no
      record is farther. */
  lemma DistanceMax(biens: seq<Bien>)
    requires |biens| > 0
    ensures |FilterMap(biens, Distance)| == |biens|
    ensures var d := MaxOf(FilterMap(biens, Distance));
      && (forall i :: 0 <= i < |biens| ==> biens[i].distanceM <= d)
      && (exists i :: 0 <= i < |biens| && biens[i].distanceM == d)
  {
    FilterMapLength(biens, Distance);
    var ds := FilterMap(biens, Distance);
    forall i | 0 <= i < |biens| ensures biens[i].distanceM <= MaxOf(ds) {
      FilterMapMember(biens, Distance, biens[i].distanceM);
      var k :| 0 <= k < |ds| && ds[k] == biens[i].distanceM;
    }
    FilterMapMember(biens, Distance, MaxOf(ds));
  }

  /** Found records end in a 500 exactly when none of them has a truthy price or none has a
      truthy surface (backend/app.py:87-88, 100-102). */
  lemma BiensProchesDivisionByZero(adresse: string, biens: seq<Bien>)
    requires |biens| > 0
    ensures BiensProches(adresse, Found(biens)) == Failure(InternalError) <==>
      (forall i :: 0 <= i < |biens| ==> !TruthyNumber(biens[i].prixM2))
      || (forall i :: 0 <= i < |biens| ==> !TruthyNumber(biens[i].surfaceReelleBati))
  {
    NoneKept(biens, TruthyPrice);
    NoneKept(biens, TruthySurface);
  }

  lemma NoneKept(biens: seq<Bien>, f: Bien -> Option<real>)
    ensures |FilterMap(biens, f)| == 0 <==> forall i :: 0 <= i < |biens| ==> f(biens[i]).None?
  {
    if |FilterMap(biens, f)| > 0 {
      var x := FilterMap(biens, f)[0];
      FilterMapMember(biens, f, x);
    }
    if exists i :: 0 <= i < |biens| && f(biens[i]).Some? {
      var i :| 0 <= i < |biens| && f(biens[i]).Some?;
      FilterMapMember(biens, f, f(biens[i]).value);
    }
  }

  /** A house sold at a price of 0: the per-type statistics count its price (it is not `None`),
      while the summary skips it (it is falsy), so that with no other price the summary fails. */
  lemma FalsyPriceContrast(b: Bien)
    requires b.typeLocal == Some("Maison") && b.prixM2 == Some(0.0)
    requires TruthyNumber(b.surfaceReelleBati)
    ensures MinSpec([b]).entries == map["Maison" := 0.0]
    ensures BiensProches("", Found([b])) == Failure(InternalError)
  {
    ZeroPriceCounts(b);
    BiensProchesDivisionByZero("", [b]);
  }

  /** A geocoding failure reaches the client of `/biens_proches` as the 400 of `geocode_cached`,
      which the handler re-raises; any other failure becomes a 500 (backend/app.py:98-102). */
  lemma BiensProchesErrors(adresse: string)
    ensures BiensProches(adresse, GeocodeRaised) == Failure(HttpError(400, "Impossible de géocoder l'adresse: " + adresse))
    ensures BiensProches(adresse, SearchRaised) == Failure(HttpError(500, "Erreur interne du serveur"))
  {
  }

  // ---------------------------------------------------------------------------------------
  // /analyse_stream

  /** One event of the stream, `{"type": ..., "content": ...}`. */
  datatype Frame = Start(content: string) | Content(content: string) | End(content: string) | Error(content: string)

  predicate Terminal(f: Frame) {
    f.End? || f.Error?
  }

  /** The `type` field of a frame. */
  function Kind(f: Frame): string {
    match f
    case Start(_) => "start"
    case Content(_) => "content"
    case End(_) => "end"
    case Error(_) => "error"
  }

  /** The frame a `type` field and a `content` field stand for. */
  function FrameOfKind(kind: string, content: string): Option<Frame> {
    if kind == "start" then Some(Start(content))
    else if kind == "content" then Some(Content(content))
    else if kind == "end" then Some(End(content))
    else if kind == "error" then Some(Error(content))
    else None
  }

  /** The text a frame is sent as: `data: `, the JSON object, and a blank line. Thanks to
      `ensure_ascii` it holds no character other than printable ASCII and the two newlines. */
  function FrameText(f: Frame): (w: string)
    ensures |w| >= 8 && w[..6] == "data: " && w[|w| - 2..] == "\n\n"
    ensures forall i :: 0 <= i < |w| - 2 ==> Printable(w[i])
  {
    var body := DumpsFrame(Kind(f), f.content);
    var w := "data: " + (body + "\n\n");
    assert w[..|w| - 2] == "data: " + body;
    PrintableConcat("data: ", body);
    w
  }

  /** How a client reads one frame's text back. */
  function ReadFrame(w: string): Option<Frame> {
    match After("data: ", w)
    case None => None
    case Some(r) =>
      if |r| < 2 || r[|r| - 2..] != "\n\n" then None
      else
        match LoadsFrame(r[..|r| - 2])
        case None => None
        case Some((kind, content)) => FrameOfKind(kind, content)
  }

  /** Every frame the server sends reads back as that frame, whatever its content. */
  lemma ReadFrameText(f: Frame)
    ensures ReadFrame(FrameText(f)) == Some(f)
  {
    var body := DumpsFrame(Kind(f), f.content);
    var r := body + "\n\n";
    AfterPrefix("data: ", r);
    assert r[|r| - 2..] == "\n\n";
    assert r[..|r| - 2] == body;
    LoadsDumps(Kind(f), f.content);
  }

  /** `empty_stream` (backend/app.py:119-121). */
  const NoRecordStream: seq<Frame> := [Error("Aucun bien trouvé")]

  /** A `content` frame for a non-empty chunk; `if chunk:` skips the empty ones. */
  function ContentFrame(chunk: string): Option<Frame> {
    if chunk != "" then Some(Content(chunk)) else None
  }

  /** The frames `generate_analysis` yields when the analysis produces `chunks` and then either
      finishes or raises: the start frame, at most one non-empty content frame per chunk, and
      one terminal frame, the error frame exactly when the analysis raised. */
  function StreamFrames(chunks: seq<string>, raises: bool): (frames: seq<Frame>)
    ensures 2 <= |frames| <= |chunks| + 2
    ensures frames[0] == Start("Reflexion...")
    ensures forall i :: 0 < i < |frames| - 1 ==> frames[i].Content? && frames[i].content != ""
    ensures Terminal(frames[|frames| - 1]) && (frames[|frames| - 1].Error? <==> raises)
  {
    var cs := FilterMap(chunks, ContentFrame);
    ContentFramesOnly(chunks, cs);
    var frames := [Start("Reflexion...")] + cs
      + [if raises then Error("Erreur lors de l'analyse") else End("Analyse terminée")];
    assert forall i :: 0 < i < |frames| - 1 ==> frames[i] == cs[i - 1] && cs[i - 1].Content?;
    frames
  }

  /** Every frame kept from the chunks is a content frame with non-empty text. */
  lemma ContentFramesOnly(chunks: seq<string>, cs: seq<Frame>)
    requires cs == FilterMap(chunks, ContentFrame)
    ensures forall i :: 0 <= i < |cs| ==> cs[i].Content? && cs[i].content != ""
  {
    forall i | 0 <= i < |cs| ensures cs[i].Content? && cs[i].content != "" {
      FilterMapMember(chunks, ContentFrame, cs[i]);
    }
  }

  /** `generate_analysis` (backend/app.py:134-150): the start frame, a content frame per
      non-empty chunk, and the end frame, or the error frame once the analysis raises. */
  method GenerateAnalysis(chunks: seq<string>, raises: bool) returns (frames: seq<Frame>)
    ensures frames == StreamFrames(chunks, raises)
  {
    frames := [Start("Reflexion...")];
    for i := 0 to |chunks|
      invariant frames == [Start("Reflexion...")] + FilterMap(chunks[..i], ContentFrame)
    {
      var chunk := chunks[i];
      assert chunks[..i + 1] == chunks[..i] + [chunk];
      FilterMapSnoc(chunks[..i], chunk, ContentFrame);
      if chunk != "" {
        frames := frames + [Content(chunk)];
      }
    }
    assert chunks[..|chunks|] == chunks;
    if raises {
      frames := frames + [Error("Erreur lors de l'analyse")];
    } else {
      frames := frames + [End("Analyse terminée")];
    }
  }

  /** `analyse_stream` (backend/app.py:105-164) once the radius is accepted. Its `except
      Exception` catches the 400 that `geocode_cached` raises as well, so a geocoding failure
      answers 500 here. */
  function AnalyseStream(lookup: Lookup, chunks: seq<string>, raises: bool): (r: Result<seq<Frame>, HttpError>)
    ensures r.Failure? <==> !lookup.Found?
    ensures r.Failure? ==> r.error == InternalError
    ensures r.Success? ==> |r.value| > 0 && Terminal(r.value[|r.value| - 1])
    ensures r.Success? && lookup.biens == [] ==> r.value == [Error("Aucun bien trouvé")]
  {
    match lookup
    case GeocodeRaised => Failure(InternalError)
    case SearchRaised => Failure(InternalError)
    case Found(biens) => if |biens| == 0 then Success(NoRecordStream) else Success(StreamFrames(chunks, raises))
  }

  /** `analyse_stream` with the 400 of `geocode_cached` passed through, as `biens_proches` does
      with its `except HTTPException: raise`. */
  function AnalyseStreamCorrected(adresse: string, lookup: Lookup, chunks: seq<string>, raises: bool)
    : (r: Result<seq<Frame>, HttpError>)
    ensures lookup.GeocodeRaised? ==> r.Failure? && r.error == BiensProches(adresse, lookup).error
    ensures !lookup.GeocodeRaised? ==> r == AnalyseStream(lookup, chunks, raises)
  {
    if lookup.GeocodeRaised? then Failure(GeocodeError(adresse)) else AnalyseStream(lookup, chunks, raises)
  }

  /** The two endpoints disagree on a geocoding failure: 400 for the records, 500 for the
      stream. */
  lemma GeocodeFailureStatus(adresse: string, chunks: seq<string>, raises: bool)
    ensures BiensProches(adresse, GeocodeRaised).error.status == 400
    ensures AnalyseStream(GeocodeRaised, chunks, raises).error.status == 500
    ensures AnalyseStreamCorrected(adresse, GeocodeRaised, chunks, raises).error.status == 400
  {
  }

  /** Every stream the endpoint sends is non-empty and ends with exactly one terminal frame, the
      last one; a stream with records opens with the start frame (backend/app.py:118-150). */
  lemma OneTerminalFrame(biens: seq<Bien>, chunks: seq<string>, raises: bool)
    ensures var r := AnalyseStream(Found(biens), chunks, raises);
      && r.Success? && |r.value| > 0
      && Terminal(r.value[|r.value| - 1])
      && (forall i :: 0 <= i < |r.value| - 1 ==> !Terminal(r.value[i]))
      && (|biens| > 0 ==> r.value[0] == Start("Reflexion..."))
  {
    var cs := FilterMap(chunks, ContentFrame);
    forall i | 0 <= i < |cs| ensures cs[i].Content? {
      FilterMapMember(chunks, ContentFrame, cs[i]);
    }
  }

  /** No record: exactly one frame, the error "Aucun bien trouvé" (backend/app.py:118-121). */
  lemma NoRecordFrames(chunks: seq<string>, raises: bool)
    ensures AnalyseStream(Found([]), chunks, raises) == Success([Error("Aucun bien trouvé")])
  {
  }

  function Contents(frames: seq<Frame>): seq<string> {
    seq(|frames|, i requires 0 <= i < |frames| => frames[i].content)
  }

  function Concat(parts: seq<string>): string
    decreases |parts|
  {
    if parts == [] then "" else Concat(parts[..|parts| - 1]) + parts[|parts| - 1]
  }

  lemma ConcatSnoc(parts: seq<string>, p: string)
    ensures Concat(parts + [p]) == Concat(parts) + p
  {
    assert (parts + [p])[..|parts|] == parts;
  }

  /** Dropping empty chunks loses no text: the content frames carry the whole analysis, in
      order (backend/app.py:140-142). */
  lemma {:induction false} ContentFramesCarryText(chunks: seq<string>)
    ensures Concat(Contents(FilterMap(chunks, ContentFrame))) == Concat(chunks)
    decreases |chunks|
  {
    if chunks != [] {
      var init, c := chunks[..|chunks| - 1], chunks[|chunks| - 1];
      assert chunks == init + [c];
      ContentFramesCarryText(init);
      FilterMapSnoc(init, c, ContentFrame);
      ConcatSnoc(init, c);
      var fs := FilterMap(init, ContentFrame);
      if c != "" {
        assert Contents(fs + [Content(c)]) == Contents(fs) + [c];
        ConcatSnoc(Contents(fs), c);
      } else {
        assert FilterMap(chunks, ContentFrame) == fs;
        assert Concat(chunks) == Concat(init) + c == Concat(init);
      }
    }
  }

  /** A failure after some of the chunks sends the frames already sent and then the error frame
      in place of the rest: the stream is a prefix of the successful one, all but its last
      frame (backend/app.py:134-150). */
  lemma FailureKeepsSentFrames(chunks: seq<string>, k: nat)
    requires k <= |chunks|
    ensures var failed, full := StreamFrames(chunks[..k], true), StreamFrames(chunks, false);
      && failed[..|failed| - 1] <= full[..|full| - 1]
      && failed[|failed| - 1] == Error("Erreur lors de l'analyse")
      && full[|full| - 1] == End("Analyse terminée")
  {
    assert chunks == chunks[..k] + chunks[k..];
    FilterMapAppend(chunks[..k], chunks[k..], ContentFrame);
    var failed, full := StreamFrames(chunks[..k], true), StreamFrames(chunks, false);
    var a, b := FilterMap(chunks[..k], ContentFrame), FilterMap(chunks[k..], ContentFrame);
    assert failed[..|failed| - 1] == [Start("Reflexion...")] + a;
    assert full[..|full| - 1] == [Start("Reflexion...")] + a + b;
  }
}
