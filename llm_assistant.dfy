/** The statistics block, the prompt and the fallback of core/llm_assistant.py. The language
    model itself is a parameter: `complete(prompt)` is the content of the first choice, or `None`
    when the client or the call raises. How a float is printed is a parameter too. */
module LlmAssistant {
  import opened Wrappers
  import opened Seqs
  import opened Numbers
  import opened PyDict
  import opened Records
  import opened Text
  import opened StatCompute
  import opened StatProperties

  /** The dictionary `stats` of `analyse_biens_par_llm`, one field per key. */
  datatype Stats = Stats(
    nombreBiens: Dict<nat>,
    prixM2Moyen: Dict<Option<real>>,
    prixM2Max: Dict<real>,
    prixM2Min: Dict<real>,
    surfaceMoyenne: Dict<Option<real>>,
    nombrePiecesMoyen: Dict<Option<real>>)

  /** The six statistics of one list of records (llm_assistant.py:28-35). */
  function StatsOf(biens: seq<Bien>): Stats {
    Stats(CountSpec(biens), MeanSpec(biens, PrixM2), MaxSpec(biens), MinSpec(biens),
          MeanSpec(biens, SurfaceReelleBati), MeanSpec(biens, NombrePiecesPrincipales))
  }

  /** The two dictionaries `formater_prompt` iterates over are well formed. */
  ghost predicate Iterable(stats: Stats) {
    stats.nombreBiens.Valid() && stats.prixM2Moyen.Valid()
  }

  /** Computes the six statistics of `biens` by running the six functions of stat_compute.py. */
  method ComputeStats(biens: seq<Bien>) returns (stats: Stats)
    ensures stats == StatsOf(biens)
    ensures Iterable(stats)
  {
    var nombre := NombreBiensParType(biens);
    var moyen := PrixM2MoyenParType(biens);
    var max := PrixM2MaxParType(biens);
    var min := PrixM2MinParType(biens);
    var surface := SurfaceMoyenneParType(biens);
    var pieces := NombrePiecesMoyenParType(biens);
    stats := Stats(nombre, moyen, max, min, surface, pieces);
    StatsIterable(biens);
  }

  lemma StatsIterable(biens: seq<Bien>)
    ensures Iterable(StatsOf(biens))
  {
    CountPerType(biens, "");
    var ts := TypesWith(biens, PrixM2);
    DedupValid(ts, MeanSpec(biens, PrixM2));
  }

  // ---------------------------------------------------------------------------------------
  // Text of the prompt

  /** An f-string field holding an optional number: `None` or the float's text. */
  function OptText(o: Option<real>, realText: real -> string): string {
    if o.Some? then realText(o.value) else "None"
  }

  /** `d.get(t)` on a dictionary of optional means: `None` when `t` is absent or its mean is `None`. */
  function GetMean(d: Dict<Option<real>>, t: string): Option<real> {
    if t in d.entries then d.entries[t] else None
  }

  /** `d.get(t)` on a dictionary of prices. */
  function GetPrice(d: Dict<real>, t: string): Option<real> {
    if t in d.entries then Some(d.entries[t]) else None
  }

  /** One line of the breakdown by type. */
  function RepartitionLine(t: string, n: nat): string {
    "- " + t + " : " + NatText(n) + " bien(s)"
  }

  function RepartitionLines(counts: Dict<nat>): seq<string>
    requires counts.Valid()
  {
    seq(|counts.order|, i requires 0 <= i < |counts.order| =>
      RepartitionLine(counts.order[i], counts.entries[counts.order[i]]))
  }

  /** The detail block of one type: its count and its five statistics. */
  function Block(t: string, n: nat, moyen: Option<real>, max: Option<real>, min: Option<real>,
                 surface: Option<real>, pieces: Option<real>, realText: real -> string): string
  {
    Join("", [t, " :\n",
              "- Nombre de biens : ", NatText(n), "\n",
              "- Prix moyen au m² : ", OptText(moyen, realText), " €\n",
              "- Prix max au m² : ", OptText(max, realText), " €\n",
              "- Prix min au m² : ", OptText(min, realText), " €\n",
              "- Surface moyenne : ", OptText(surface, realText), " m²\n",
              "- Nombre de pièces moyen : ", OptText(pieces, realText), "\n"])
  }

  /** The block that the loop appends to `parts` for type `t`; a type missing from the count
      dictionary is shown with 0 records. */
  function DetailBlock(stats: Stats, t: string, realText: real -> string): string {
    Block(t, stats.nombreBiens.Get(t, 0), GetMean(stats.prixM2Moyen, t), GetPrice(stats.prixM2Max, t),
          GetPrice(stats.prixM2Min, t), GetMean(stats.surfaceMoyenne, t), GetMean(stats.nombrePiecesMoyen, t),
          realText)
  }

  function DetailBlocks(stats: Stats, realText: real -> string): seq<string> {
    var keys := stats.prixM2Moyen.order;
    seq(|keys|, i requires 0 <= i < |keys| => DetailBlock(stats, keys[i], realText))
  }

  function Header(rayonM: int): string {
    "Voici un résumé détaillé des biens vendus dans un rayon de " + IntText(rayonM) + " mètres :\n\n"
  }

  function TotalLine(total: nat): string {
    "Nombre total de biens : " + NatText(total) + "\n"
  }

  /** The fixed instructions that close every prompt. */
  const Instructions: string :=
    "\n\nAnalyse factuelle en 4-5 phrases :\n"
    + "• Prix par type : écarts min/max/moyen et ce qu'ils révèlent\n"
    + "• Surfaces et pièces : interprétation des moyennes observées\n"
    + "• Traite chaque type séparément, aucune comparaison entre types\n"
    + "• Reste sur les données uniquement, aucune supposition externe\n"
    + "• Si 0 bien : 'Aucun bien vendu en 2024 dans ce rayon'"

  /** The prompt `formater_prompt(stats, rayon_m)` returns, from a total, a breakdown and the
      detail blocks. */
  function Prompt(rayonM: int, total: nat, repartition: string, parts: seq<string>): string {
    (Header(rayonM) + TotalLine(total)) + Body(repartition, parts) + Instructions
  }

  /** The breakdown under its title, then the detail blocks separated by line breaks. */
  function Body(repartition: string, parts: seq<string>): string {
    "Répartition par type :\n" + repartition + "\n\n" + Join("\n", parts)
  }

  function PromptSpec(stats: Stats, rayonM: int, realText: real -> string): string
    requires Iterable(stats)
  {
    Prompt(rayonM, SumNat(stats.nombreBiens.Values()), Join("\n", RepartitionLines(stats.nombreBiens)),
           DetailBlocks(stats, realText))
  }

  /** `formater_prompt` (llm_assistant.py:60-99): the loop over the keys of the mean prices
      appends one detail block per type to `parts`, in key order. */
  method FormaterPrompt(stats: Stats, rayonM: int, realText: real -> string) returns (prompt: string)
    requires Iterable(stats)
    ensures prompt == PromptSpec(stats, rayonM, realText)
  {
    var counts := stats.nombreBiens;
    var total := SumNat(counts.Values());
    var repartition := Join("\n", RepartitionLines(counts));
    var keys := stats.prixM2Moyen.order;
    ghost var blocks := DetailBlocks(stats, realText);
    var parts: seq<string> := [];
    for i := 0 to |keys|
      invariant parts == blocks[..i]
    {
      assert blocks[..i + 1] == blocks[..i] + [blocks[i]];
      parts := parts + [DetailBlock(stats, keys[i], realText)];
    }
    assert blocks[..|keys|] == blocks;
    prompt := Prompt(rayonM, total, repartition, parts);
  }

  // ---------------------------------------------------------------------------------------
  // What the prompt says

  /** Every prompt opens with the radius sentence and the total, and closes with the five
      instructions (llm_assistant.py:88-99). */
  lemma PromptFrame(stats: Stats, rayonM: int, realText: real -> string)
    requires Iterable(stats)
    ensures var p := PromptSpec(stats, rayonM, realText);
      && Header(rayonM) + TotalLine(SumNat(stats.nombreBiens.Values())) <= p
      && |Instructions| <= |p| && p[|p| - |Instructions|..] == Instructions
  {
    var total := SumNat(stats.nombreBiens.Values());
    var body := Body(Join("\n", RepartitionLines(stats.nombreBiens)), DetailBlocks(stats, realText));
    Framed(Header(rayonM) + TotalLine(total), body, Instructions);
  }

  lemma Framed(a: string, b: string, c: string)
    ensures a <= a + b + c
    ensures |c| <= |a + b + c| && (a + b + c)[|a + b + c| - |c|..] == c
  {
    assert (a + b + c)[..|a|] == a;
  }

  /** For the statistics of a list of records, the total is the number of records with a
      truthy type, which reads back from the prompt (llm_assistant.py:70-71, 90). */
  lemma PromptTotal(biens: seq<Bien>, rayonM: int, realText: real -> string)
    ensures Iterable(StatsOf(biens))
    ensures Header(rayonM) + TotalLine(|Filter(biens, IsCounted)|) <= PromptSpec(StatsOf(biens), rayonM, realText)
    ensures ParseNat(NatText(|Filter(biens, IsCounted)|)) == |Filter(biens, IsCounted)|
  {
    StatsIterable(biens);
    CountTotal(biens);
    PromptFrame(StatsOf(biens), rayonM, realText);
    NatTextRoundTrip(|Filter(biens, IsCounted)|);
  }

  /** The breakdown has one line per type in order of first appearance, each with the number of
      records of that type, and splitting it at line breaks gives the lines back
      (llm_assistant.py:74). */
  lemma Repartition(biens: seq<Bien>)
    ensures var counts := CountSpec(biens);
      && counts.Valid()
      && counts.order == Dedup(Types(biens))
      && forall i :: 0 <= i < |counts.order| ==>
           RepartitionLines(counts)[i] == RepartitionLine(counts.order[i], |Filter(biens, HasType(counts.order[i]))|)
  {
    var counts := CountSpec(biens);
    CountPerType(biens, "");
    forall i | 0 <= i < |counts.order|
      ensures counts.entries[counts.order[i]] == |Filter(biens, HasType(counts.order[i]))|
    {
      CountPerType(biens, counts.order[i]);
    }
  }

  /** Lines without a line break are recovered from the breakdown by splitting it. */
  lemma RepartitionSplits(counts: Dict<nat>)
    requires counts.Valid() && |counts.order| > 0
    requires forall i, k :: 0 <= i < |counts.order| && 0 <= k < |counts.order[i]| ==> counts.order[i][k] != '\n'
    ensures Split('\n', Join("\n", RepartitionLines(counts))) == RepartitionLines(counts)
  {
    var lines := RepartitionLines(counts);
    forall i, k | 0 <= i < |lines| && 0 <= k < |lines[i]| ensures lines[i][k] != '\n' {
      var t, n := counts.order[i], counts.entries[counts.order[i]];
      assert lines[i] == "- " + t + " : " + NatText(n) + " bien(s)";
      if k < 2 + |t| {
        if k >= 2 {
          assert lines[i][k] == t[k - 2];
        }
      } else if k >= 2 + |t| + 3 && k < 2 + |t| + 3 + |NatText(n)| {
        assert lines[i][k] == NatText(n)[k - (2 + |t| + 3)];
      }
    }
    assert "\n" == ['\n'];
    SplitJoin('\n', lines);
  }

  /** For the statistics of a list of records there is one detail block per type that has a
      price, in order of first appearance; its count is the number of records of that type (at
      least one, never the default 0) and its prices are the mean, the maximum and the minimum of
      that type's prices (llm_assistant.py:77-86). */
  lemma DetailsOfRecords(biens: seq<Bien>, realText: real -> string, i: nat)
    requires i < |Dedup(TypesWith(biens, PrixM2))|
    ensures var t := Dedup(TypesWith(biens, PrixM2))[i];
      var vs := ValuesOf(biens, t, PrixM2);
      && |DetailBlocks(StatsOf(biens), realText)| == |Dedup(TypesWith(biens, PrixM2))|
      && |vs| > 0 && |Filter(biens, HasType(t))| > 0
      && DetailBlocks(StatsOf(biens), realText)[i]
         == Block(t, |Filter(biens, HasType(t))|, Some(Mean(vs)), Some(MaxOf(vs)), Some(MinOf(vs)),
                  GetMean(MeanSpec(biens, SurfaceReelleBati), t), GetMean(MeanSpec(biens, NombrePiecesPrincipales), t),
                  realText)
  {
    var t := Dedup(TypesWith(biens, PrixM2))[i];
    KeySets(biens, PrixM2);
    assert t in MeanSpec(biens, PrixM2).entries;
    CountPerType(biens, t);
    MeansAreDefined(biens, PrixM2, t);
  }

  /** With no records the prompt has a total of 0, an empty breakdown and no detail block
      (llm_assistant.py:70-77). */
  lemma EmptyPrompt(rayonM: int, realText: real -> string)
    ensures Iterable(StatsOf([]))
    ensures PromptSpec(StatsOf([]), rayonM, realText)
         == Header(rayonM) + "Nombre total de biens : 0\n" + "Répartition par type :\n\n\n" + Instructions
  {
    StatsIterable([]);
    EmptyInput(PrixM2);
    var stats := StatsOf([]);
    assert stats.nombreBiens.Values() == [];
    assert RepartitionLines(stats.nombreBiens) == [];
    assert DetailBlocks(stats, realText) == [];
    EmptyPromptText();
  }

  lemma EmptyPromptText()
    ensures TotalLine(0) == "Nombre total de biens : 0\n"
    ensures Body(Join("\n", []), []) == "Répartition par type :\n\n\n"
  {
    assert NatText(0) == "0";
  }

  // ---------------------------------------------------------------------------------------
  // The analysis call and its fallback

  /** What the caller passed as `param`: a dictionary holding a logger, a dictionary without
      one, or something that is not a dictionary at all (a string or `None`). */
  datatype Param = WithLogger | DictWithoutLogger | NotADict

  /** How `analyse_biens_par_llm` ends: it returns a text, or an exception escapes from it. */
  datatype Outcome = Returned(text: string) | Raised(exception: string)

  const Fallback: string := "Analyse indisponible temporairement."

  /** The `except` branch: `param["logger"].error(...)` and then the fallback text. Indexing a
      dictionary without the key raises `KeyError`; indexing a string or `None` with a string
      raises `TypeError` (llm_assistant.py:56-58). */
  function Recover(param: Param): (r: Outcome)
    ensures r.Returned? <==> param == WithLogger
    ensures r.Returned? ==> r.text == Fallback
  {
    match param
    case WithLogger => Returned(Fallback)
    case DictWithoutLogger => Raised("KeyError")
    case NotADict => Raised("TypeError")
  }

  /** `analyse_biens_par_llm` (llm_assistant.py:16-58): the statistics, the prompt, the call,
      and the stripped content of the first choice, or the fallback when the call raises. With
      a logger in `param` it never raises: it returns either the model's answer, with no
      whitespace left at either end, or exactly the fallback text. */
  method AnalyseBiensParLlm(biens: seq<Bien>, rayonM: int, param: Param,
                            complete: string -> Option<string>, realText: real -> string)
    returns (r: Outcome)
    ensures Iterable(StatsOf(biens))
    ensures param == WithLogger ==> r.Returned?
    ensures var answer := complete(PromptSpec(StatsOf(biens), rayonM, realText));
      && (answer.Some? ==> r == Returned(Strip(answer.value)))
      && (answer.None? ==> r == Recover(param))
      && (param == WithLogger && answer.None? ==> r.text == Fallback)
      && (answer.Some? ==> Strip(r.text) == r.text)
      && (answer.Some? && |r.text| > 0 ==> !IsSpace(r.text[0]) && !IsSpace(r.text[|r.text| - 1]))
  {
    var stats := ComputeStats(biens);
    var prompt := FormaterPrompt(stats, rayonM, realText);
    var answer := complete(prompt);
    if answer.Some? {
      StripIdempotent(answer.value);
      ghost var i: nat :| StrippedAt(answer.value, i, Strip(answer.value));
      r := Returned(Strip(answer.value));
    } else {
      r := Recover(param);
    }
  }
}
