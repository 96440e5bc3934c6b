# Foncier Futur Ile-de-France, modelled in Dafny

The service answers one question: which properties were sold in 2024 near an address in
Ile-de-France, and at what price per square metre? It is built from these parts:

- A dataset builder loads the DVF open-data files of the eight departements. It keeps the sales
  of flats and houses, gives each mutation a price per square metre, and drops implausible
  prices.
- A backend serves two endpoints:
  - `/biens_proches` returns the records within a radius and a summary of them;
  - `/analyse_stream` streams a language-model analysis as server-sent event frames.
- A standalone `app.py` offers a single `/biens_proches` endpoint that returns the records and
  their analysis.
- A module of per-type statistics (count, mean, min and max per `type_local`) feeds the prompt of
  that analysis.
- A Streamlit front end draws the records on a map. It groups records that share a coordinate and
  colours each marker by price.

This project models those rules and proves what they promise.

How each part is modelled:

- Records are datatypes whose nullable columns are `Option`s.
- Python dictionaries are `PyDict.Dict`: an insertion order plus a map. The order matters because
  the prompt and the markers follow it.
- The loops of the source are methods. Each is proved equal to a declarative specification
  function, and the properties are lemmas about those functions.

The following are parameters of the model:

- the geocoder's outcome and the database rows;
- the distance function;
- the language-model completion;
- the streamed chunks;
- the number-to-text conversion of reals;
- the coordinate-key formatting;
- the file download of each departement.

Modules:

- `Wrappers`, `Seqs`, `Numbers`, `PyDict`, `Text` and `Json` hold the general definitions:
  - options and results;
  - filters;
  - sums, means, minima and maxima;
  - ordered dictionaries;
  - decimal text, `join`, `split` and `strip`;
  - the part of `json.dumps`/`json.loads` that the event frames use.
- `Records` holds the record types.
- `StatCompute` and `StatProperties` cover backend/core/stat_compute.py.
- `LlmAssistant` covers core/llm_assistant.py.
- `BackendApp` covers backend/app.py.
- `RootApp` covers app.py.
- `Front` covers frontend/app_front.py.
- `DvfIngestion` covers dataset_builder/dvf_ingestion_to_neon.py.

## Model

| member | source | states |
|---|---|---|
| StatCompute.NombreBiensParType | backend/core/stat_compute.py:99-114 | The counting loop builds exactly `CountSpec`: one entry per truthy type, in first-occurrence order, holding the number of records of that type |
| StatCompute.GroupByType | backend/core/stat_compute.py:8-14 | The `setdefault(t, []).append(v)` loop builds, for each type with a non-None value, the list of its values in input order |
| StatCompute.PrixM2MoyenParType | backend/core/stat_compute.py:1-17 | The result is the mean of each type's non-None prices, over the types with a truthy name |
| StatCompute.SurfaceMoyenneParType | backend/core/stat_compute.py:80-96 | The result is the mean surface of each type, over the records whose surface is not None |
| StatCompute.NombrePiecesMoyenParType | backend/core/stat_compute.py:20-36 | The result is the mean room count of each type, over the records whose room count is not None |
| StatCompute.PrixM2MinParType | backend/core/stat_compute.py:39-58 | The loop that keeps `min(prix, stats[t])` ends with the minimum of each type's prices |
| StatCompute.PrixM2MaxParType | backend/core/stat_compute.py:61-77 | The loop that keeps `max(stats.get(t, prix), prix)` ends with the maximum of each type's prices |
| StatCompute.CountsOfSnoc | backend/core/stat_compute.py:108-111 | `stats[t] = stats.get(t, 0) + 1` keeps the loop invariant: the keys are the distinct types seen, in first-occurrence order, each mapped to its number of occurrences |
| StatCompute.CountsOfSpec | backend/core/stat_compute.py:99-114 | A dictionary satisfying that invariant for all the types of the records is the count specification itself |
| StatCompute.MinStepKept | backend/core/stat_compute.py:49-54 | A priced record sets its type's minimum to the smaller of the old minimum and its price, or to its price for a new type |
| StatProperties.CountPerType | backend/core/stat_compute.py:106-112 | A type is a key exactly when some record has it as a truthy type; its value is the number of such records, and that number is at least 1 |
| StatProperties.CountTotal | backend/core/stat_compute.py:108-112 | The counts add up to the number of records whose type is truthy |
| StatProperties.PriceContributes | backend/core/stat_compute.py:11-14 | A record with a truthy type and a price (even 0) puts its price into its type's list, and its type into the mean, min and max maps |
| StatProperties.ValuesOfMember | backend/core/stat_compute.py:11-14 | A value is in a type's list exactly when some record of that type carries it |
| StatProperties.ZeroPriceCounts | backend/core/stat_compute.py:13 | A price of 0 is kept by `is not None`: a single house at 0 gives min, max and mean 0 |
| StatProperties.KeySets | backend/core/stat_compute.py:13-15 | The mean, min and max price maps have the same keys in the same order: the types with at least one price. Every mean map's keys are among the count map's keys |
| StatProperties.MinMaxPerType | backend/core/stat_compute.py:52-55 | The per-type minimum is at most every price of that type and is one of them; likewise the maximum is at least every price and is one of them |
| StatProperties.MeansAreDefined | backend/core/stat_compute.py:15 | Every list is non-empty when averaged, so a mean is never `None` |
| StatProperties.MeanBetweenMinMax | backend/core/stat_compute.py:15 | For each type, min <= mean <= max |
| StatProperties.ThreeFlats | backend/core/stat_compute.py:15 | Flats at 4000, 5000 and 6000 give mean 5000, min 4000 and max 6000 |
| StatProperties.EmptyInput | backend/core/stat_compute.py:9-15 | An empty input gives empty maps: no type gets a made-up statistic |
| StatProperties.CountOrderIndependence | backend/core/stat_compute.py:106-112 | The counts depend only on the multiset of records |
| StatProperties.MeanOrderIndependence | backend/core/stat_compute.py:10-15 | The means depend only on the multiset of records |
| StatProperties.MinMaxOrderIndependence | backend/core/stat_compute.py:44-56 | The minima and maxima depend only on the multiset of records |
| LlmAssistant.ComputeStats | core/llm_assistant.py:28-35 | The statistics dictionary holds the six results of the six functions on the same records |
| LlmAssistant.FormaterPrompt | core/llm_assistant.py:60-99 | The loop that fills `parts` produces exactly `PromptSpec`: the header, the total, the breakdown, one block per priced type, and the instructions |
| LlmAssistant.PromptFrame | core/llm_assistant.py:70-99 | The prompt starts with the radius sentence and the total, which is the sum of the counts, and ends with the fixed instruction block |
| LlmAssistant.PromptTotal | core/llm_assistant.py:70-71 | The total written in the prompt is the number of records with a truthy type, and its text reads back as that number |
| LlmAssistant.Repartition | core/llm_assistant.py:74 | The breakdown has one line `- t : n bien(s)` per counted type, in first-occurrence order, where n is the number of records of that type |
| LlmAssistant.RepartitionSplits | core/llm_assistant.py:74 | Splitting the joined breakdown at newlines gives back its lines |
| LlmAssistant.DetailsOfRecords | core/llm_assistant.py:77-86 | There is exactly one detail block per priced type, in key order, with that type's count, mean, max and min price, and its mean surface and mean room count |
| LlmAssistant.EmptyPrompt | core/llm_assistant.py:69-99 | With no records the prompt has total 0, an empty breakdown and no detail block |
| LlmAssistant.Recover | core/llm_assistant.py:56-58 | The except branch returns the fallback text exactly when `param` is a dictionary holding a logger. Otherwise it raises |
| LlmAssistant.AnalyseBiensParLlm | core/llm_assistant.py:25-58 | The analysis is the stripped completion of the prompt of the records' statistics, with no whitespace left at either end; when the completion fails, it is the except branch. With a logger in `param` it never raises, and a failed completion gives exactly the fallback text |
| Text.NatTextRoundTrip | core/llm_assistant.py:71 | `str(n)` of a count reads back as n |
| Text.SplitJoin | core/llm_assistant.py:74 | `"\n".join` of lines without a newline splits back into those lines |
| Text.Strip | core/llm_assistant.py:54 | `strip()` removes exactly the leading and trailing whitespace |
| Text.StripIdempotent | core/llm_assistant.py:54 | Stripping twice is stripping once |
| BackendApp.BiensProchesRayon | backend/app.py:60 | `rayon_m` defaults to 500 and is accepted exactly in [100, 10000] |
| BackendApp.AnalyseStreamRayon | backend/app.py:108 | `rayon_m` defaults to 500 and is accepted exactly in [100, 1000] |
| BackendApp.StreamRadiusWithinSearchRadius | backend/app.py:60-108 | Every radius the stream accepts, the record search accepts too, with the same value |
| BackendApp.AverageOrRaise | backend/app.py:87-88 | An average exists exactly when some value is kept; it is their mean, `sum/len`, so it lies between their minimum and maximum |
| BackendApp.Summarize | backend/app.py:85-91 | The summary fails exactly when no price or no surface is truthy. Otherwise `nb_biens` is the number of records, `prix_moyen` and `surface_moyenne` are the means of the truthy prices and the truthy surfaces, and `distance_max` is the distance of a record that no other record exceeds |
| BackendApp.TruthyPrices | backend/app.py:87 | A value is averaged into `prix_moyen` exactly when some record has it as a `prix_m2` that is neither None nor 0 |
| BackendApp.TruthySurfaces | backend/app.py:88 | A value is averaged into `surface_moyenne` exactly when some record has it as a `surface_reelle_bati` that is neither None nor 0 |
| BackendApp.BiensProchesSummary | backend/app.py:75-96 | No record gives the empty response. Records give themselves unchanged, `nb_biens = len(biens)`, `distance_max` the largest distance, and the two averages are the means of the truthy prices and surfaces, lying between the smallest and the largest of them |
| BackendApp.BiensProches | backend/app.py:57-102 | A 400 exactly when geocoding raised, a 500 "Erreur interne du serveur" for any other failure; a success comes from found records, is the empty response exactly when none was found, and otherwise lists the records found with their number |
| BackendApp.BiensProchesDivisionByZero | backend/app.py:87-88 | With records, the endpoint answers 500 exactly when no price or no surface is truthy |
| BackendApp.FalsyPriceContrast | backend/app.py:87 | A house at price 0 counts in the statistics but makes this endpoint fail with a 500 |
| BackendApp.BiensProchesErrors | backend/app.py:47-54 | A geocoding failure answers 400 with the address in the message; any other failure answers 500 "Erreur interne du serveur" |
| BackendApp.AnalyseStream | backend/app.py:105-164 | The stream fails, with a 500, exactly when geocoding or the search raised; otherwise it is non-empty and ends with a terminal frame, and with no record it is the single frame "Aucun bien trouvé" |
| BackendApp.StreamFrames | backend/app.py:134-150 | The frames are the start frame, at most one non-empty content frame per chunk, and one terminal frame last, which is the error frame exactly when the analysis raised |
| BackendApp.FrameText | backend/app.py:137 | Each frame is sent as `data: ` followed by printable ASCII and ending in a blank line |
| BackendApp.GenerateAnalysis | backend/app.py:134-150 | The generator yields the start frame, one content frame per non-empty chunk, then the end frame, or the error frame once the analysis raises |
| BackendApp.OneTerminalFrame | backend/app.py:118-150 | Every stream ends with exactly one `end` or `error` frame, and a non-empty stream begins with `start` |
| BackendApp.NoRecordFrames | backend/app.py:118-121 | With no record, the stream is the single frame `error`/"Aucun bien trouvé" |
| BackendApp.ContentFramesCarryText | backend/app.py:141-142 | The contents of the content frames put together are the chunks put together: dropping empty chunks loses no text |
| BackendApp.FailureKeepsSentFrames | backend/app.py:134-150 | A failure after k chunks yields the frames of the first k chunks, then one `error` frame and no `end` |
| BackendApp.ReadFrameText | backend/app.py:121 | Each frame text `data: {json}` followed by a blank line reads back as that frame, whatever its content |
| Json.DumpsFrame | backend/app.py:137 | `json.dumps` of the frame object is printable ASCII, as `ensure_ascii` promises, and starts with the `type` key |
| Json.LoadsDumps | backend/app.py:137 | `json.loads` of `json.dumps({"type": k, "content": c})` gives back k and c |
| Json.ReadEscaped | backend/app.py:137-142 | Every string escaped with `ensure_ascii` reads back as itself, followed by what comes after its closing quote |
| Json.EscapeChar | backend/app.py:142 | Each character is written in printable ASCII, and a quote is never written raw |
| Json.HexRoundTrip | backend/app.py:142 | The four hexadecimal digits of a `\uXXXX` escape read back as the code unit |
| BackendApp.GeocodeFailureStatus | backend/app.py:113-164 | A geocoding failure answers 400 on `/biens_proches` but 500 on `/analyse_stream`; the corrected stream answers 400 |
| BackendApp.AnalyseStreamCorrected | backend/app.py:98-99 | The stream passes the geocoder's error through, as `/biens_proches` does, and otherwise behaves as written |
| RootApp.CollectBiens | app.py:38-52 | The loop builds exactly the records of the rows within the radius, in query order |
| RootApp.WithinMember | app.py:39-52 | A record is returned exactly when it carries the eight columns of a row within the inclusive radius, unchanged, plus that row's distance |
| RootApp.WithinRadius | app.py:40-41 | Every returned record has `distance_m <= rayon_m` |
| RootApp.WithinKeepsOrder | app.py:38-52 | The filter distributes over concatenation, so rows come out in query order |
| RootApp.TwoRowsInQueryOrder | app.py:39-52 | Two rows within the radius come out in query order whatever their distances: there is no sorting |
| RootApp.Respond | app.py:55-60 | For any `param`, the response holds the records within the radius and the analysis of those same records and radius; an exception escaping the analysis escapes the endpoint |
| RootApp.BiensProches | app.py:29-60 | As written: the response is the records and their stripped analysis; when the completion fails, the endpoint raises a `TypeError` |
| RootApp.BiensProchesWithLogger | app.py:55-60 | With a logger dictionary: the response is the records and the analysis of the same records and radius, or the fallback text |
| Front.SliderAccepted | frontend/app_front.py:107-114 | Every slider value, the default included, is a radius both endpoints accept unchanged |
| Front.OnSearch | frontend/app_front.py:138-147 | An empty address shows a warning and sends no request; otherwise the address and radius are sent |
| Front.MapCentre | frontend/app_front.py:211-212 | The centre is the mean of the records' coordinates, so it lies among them |
| Front.ZoomLevel | frontend/app_front.py:215-222 | The zoom is 16 up to 500 metres, 15 up to 1000, 14 up to 2000 and 13 beyond, each exactly on its range |
| Front.ZoomNonIncreasing | frontend/app_front.py:215-222 | The zoom never grows with the radius; a slider radius gives 16 up to 500 and 15 above |
| Front.CircleRadius | frontend/app_front.py:251 | The circle drawn has the search radius plus 100 metres |
| Front.GroupByCoordinate | frontend/app_front.py:265-270 | The grouping loop builds exactly `GroupsSpec`: for each coordinate key, in first-occurrence order, the indices of its records |
| Front.IndicesMeaning | frontend/app_front.py:266-270 | A group holds exactly the indices with its key, in ascending order |
| Front.GroupsPartition | frontend/app_front.py:265-270 | Every index lies in the group of its own key and in no other, and each group is ascending |
| Front.GroupSizesSum | frontend/app_front.py:265-270 | The group sizes add up to the number of records |
| Front.GroupsFirstOccurrence | frontend/app_front.py:266-270 | The groups come in order of first occurrence of their keys |
| Front.PriceBand | frontend/app_front.py:279-290 | For a positive mean, red means above 1.2 times it, green below 0.8 times it, and blue in between; the three exclude each other and cover every price |
| Front.GroupIndicator | frontend/app_front.py:336-341 | For a positive group mean, the indicator is red above 1.1 times it, green below 0.9 times it, and neutral in between |
| Front.PricesMember | frontend/app_front.py:173 | A value is among the prices averaged by `df_biens['prix_m2'].mean()` exactly when some record carries it |
| Front.PrixMoyen | frontend/app_front.py:173 | The mean price exists exactly when some record has a price; it is the mean of the prices present, between their minimum and maximum |
| Front.MarkerColour | frontend/app_front.py:385-393 | A record's marker compares its price with the mean of all the records' prices: with positive prices the cheapest is never red, the dearest never green, and equal prices are all blue |
| Front.GroupIndicatorsMixed | frontend/app_front.py:314-341 | Not every member of a group is red, and not every member is green |
| Front.GroupColour | frontend/app_front.py:314-322 | The group mean is compared with the mean price of all the records; blue when that mean is NaN, and a group whose members all share a colour gets that colour |
| Front.RadiusOffset | frontend/app_front.py:369-376 | The offset is 0.0002 up to 3 records, 0.0003 up to 6, 0.0004 up to 10 and 0.0005 beyond, each exactly on its range |
| Front.RadiusOffsetNonDecreasing | frontend/app_front.py:369-376 | The offset never shrinks as the group grows |
| DvfIngestion.Load | dataset_builder/dvf_ingestion_to_neon.py:17-31 | The loop builds the list of frames of the files that could be read, each tagged with its departement; the concatenation fails when that list is empty |
| DvfIngestion.FailedDepartementSkipped | dataset_builder/dvf_ingestion_to_neon.py:23-28 | A file that cannot be read contributes nothing and does not stop the others |
| DvfIngestion.LoadFailsIffAllFail | dataset_builder/dvf_ingestion_to_neon.py:31 | Loading fails exactly when no file at all can be read |
| DvfIngestion.LoadedRows | dataset_builder/dvf_ingestion_to_neon.py:19-31 | A loaded row is a row of a file that could be read, tagged with its departement, and every such row is loaded |
| DvfIngestion.SelectFeatures | dataset_builder/dvf_ingestion_to_neon.py:34-47 | Each row keeps exactly its ten selected columns |
| DvfIngestion.Query1 | dataset_builder/dvf_ingestion_to_neon.py:50-56 | Every row kept is a sale of a flat or a house, and every such sale is kept |
| DvfIngestion.ToClean | dataset_builder/dvf_ingestion_to_neon.py:59 | A row survives `dropna` exactly when none of its ten cells is empty |
| DvfIngestion.DropNa | dataset_builder/dvf_ingestion_to_neon.py:59 | A clean row comes out exactly when the row it stands for is in the input; no row is added |
| DvfIngestion.DropNaKeepsCompleteRows | dataset_builder/dvf_ingestion_to_neon.py:59 | The rows kept are exactly the rows without an empty cell, with their values unchanged |
| DvfIngestion.PrixM2 | dataset_builder/dvf_ingestion_to_neon.py:62-69 | A mutation's price is its largest `valeur_fonciere` divided by the sum of its surfaces |
| DvfIngestion.OneMatch | dataset_builder/dvf_ingestion_to_neon.py:68-72 | `GROUP BY id_mutation` gives one table row per mutation, so each row joins with exactly one price |
| DvfIngestion.Query2 | dataset_builder/dvf_ingestion_to_neon.py:62-74 | Every row comes out once, in place, with the price of its own mutation |
| DvfIngestion.Query2Rows | dataset_builder/dvf_ingestion_to_neon.py:62-74 | Rows of the same mutation get the same price |
| DvfIngestion.Query3 | dataset_builder/dvf_ingestion_to_neon.py:77-82 | A row is kept exactly when it has a price in [1000, 25000], bounds included |
| DvfIngestion.MutationKeptWhole | dataset_builder/dvf_ingestion_to_neon.py:77-82 | The price filter keeps or drops a mutation as a whole |
| DvfIngestion.DropColumns | dataset_builder/dvf_ingestion_to_neon.py:85 | Each row keeps its other columns and loses `valeur_fonciere` and `nature_mutation` |
| DvfIngestion.Pipeline | dataset_builder/dvf_ingestion_to_neon.py:50-85 | Every row of the final table is a flat or a house with a price per square metre in [1000, 25000] |
| DvfIngestion.Ingest | dataset_builder/dvf_ingestion_to_neon.py:12-85 | The eight departements are loaded, then cleaned; a failed load stops the script |

## Left out

- Rounding (`round(..., 2)` and `round(..., 3)`) and floating point: every number is an exact `real`.
- `StatCompute.PrixM2MoyenParType`: does not round the means to three decimals, because rounding is left out.
- The `{"error": ...}` branches of the statistics functions: they cannot arise with typed records.
- The geocoder `geocode_ban` (core/geocod.py is not part of this model). Its HTTP call and its `(None, None)` result are not modelled; its outcome is an input.
- The LRU cache of `geocode_cached` and `/clear_cache`.
- `get_biens_proches`, `haversine_distance` and `analyse_biens_par_llm_stream` are defined in none of the files this model covers. The records found, the distance and the streamed chunks are inputs.
- The database: the SQLAlchemy engine, the SELECT of app.py, `to_sql`, and the file downloads. The rows and each file's outcome are inputs.
- The Together completion call and its sampling parameters: the completion is an input.
- Logging, `temps_execution`, and the global exception handler of the backend.
- Streamlit, folium and HTML rendering; the circle-offset trigonometry; the `:.6f` coordinate keys, which are a key function given as a parameter.
- Front.GroupByCoordinate: a group holds the indices of its records rather than `(i, bien)` pairs; the record is `biens[i]`.
- Front.MarkerColour: requires the record to carry a price. A record without one makes the comparison `bien["prix_m2"] > prix_moyen * 1.2` raise `TypeError` in the dashboard, which is not modelled.
- Front.GroupColour: takes the prices of the group as reals, because `sum(...) / len(...)` over the group raises on a missing price.
- Number-to-text of reals (the f-string of a float) is a parameter; integers are written in decimal.
- Json.Head: a lone surrogate escape is rejected, where Python would produce a string holding a lone surrogate.
- DvfIngestion.DropNa, DvfIngestion.DropColumns: `inplace=True` is modelled as a new sequence, since nothing else holds the data frame.
- `DvfIngestion.Query2`: the model keeps the rows in input order, although the SQL engine does not promise any order.
- `DvfIngestion.PrixM2`: a zero total surface gives no price; the engine's NULL or infinite quotient fails the price range of `query_3` either way.
- Non-numeric text in a numeric CSV cell, and pandas' NaN semantics beyond empty cells.

## Findings

| source | as written | input that shows it | evidently intended | confidence | as-written member | corrected member |
|---|---|---|---|---|---|---|
| app.py:55 | `analyse_biens_par_llm(biens, rayon_m, TOGETHER_API_KEY)` passes a string (or `None`) as the `param` dictionary. When the completion fails, the except branch's `param["logger"]` raises `TypeError` and the endpoint fails | any request for which the completion raises, e.g. no network | the fallback text "Analyse indisponible temporairement.", as with the logger dictionary of backend/app.py | high, not executed | RootApp.BiensProches | RootApp.BiensProchesWithLogger |
| backend/app.py:162-164 | the final `except Exception` of `analyse_stream` also catches the `HTTPException(400)` raised by `geocode_cached`, and answers 500 | an address the geocoder cannot resolve | 400 "Impossible de géocoder l'adresse", as `/biens_proches` answers through its `except HTTPException: raise` | high, not executed | BackendApp.GeocodeFailureStatus | BackendApp.AnalyseStreamCorrected |
