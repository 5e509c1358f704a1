# rank-fusion, modelled in Dafny

This project models the core of the `rank-fusion` repository and proves its properties. `rank-fusion` is a Rust library that merges several ranked result lists into one. It covers:

- **Fusion.** Reciprocal Rank Fusion (`rrf`, `rrf_into`, `rrf_multi`), weighted score fusion with optional min-max normalisation (`weighted`), CombSUM, CombMNZ and Borda count.
- **Validation.** The result validators of `rank-fusion/src/validate.rs`.
- **Bindings.** The argument handling of the WebAssembly binding (`rank-fusion/src/wasm.rs`) and the Python binding (`rank-fusion-python/src/lib.rs`). This means decoding the host values, defaulting parameters, guards, and encoding the fused list back.
- **Evaluation crate** (`evals/`):
  - the retrieval metrics of `metrics.rs`;
  - the dataset converters and the TREC run validator of `dataset_converters.rs`;
  - the per-method evaluation of `real_world.rs`;
  - dataset-name normalisation, best-method selection and the summary of `evaluate_real_world.rs`;
  - the dataset registry of `dataset_registry.rs`;
  - the winner selection of the synthetic scenarios in `main.rs`.

Conventions used throughout:

- **Scores.** Scores are real numbers. Where a binding or validator must distinguish NaN and infinities, it uses the `Floats.Float` type (finite value, NaN, +inf or −inf).
- **Hash maps.** The source accumulates scores in a `HashMap` and then sorts. The model therefore states the output by the `Fusion.FusedFrom` predicate:
  - every accumulated `(id, score)` pair appears exactly once;
  - best score first;
  - ties may come in any order, because the source takes them in hash-map iteration order.
- **Iteration order.** Wherever the source iterates a `HashMap` or `HashSet` and the order matters, the model walks an arbitrary duplicate-free enumeration of the keys (`KeyOrder.IterationOrder`). It then proves the result does not depend on that order, or states exactly how it does.
- **Form.** Loops of the source are methods with loop invariants, proved against a specification function. The registry, which the source mutates through `&mut self`, is a class.

Modules:

| module | file | models |
|---|---|---|
| `Wrappers`, `Floats`, `Strings`, `Sorting`, `KeyOrder`, `Grouping`, `Decoding` | shared | `Option`/`Result`, IEEE special values, string order and ASCII helpers, stable insertion sort, sorted and unordered key enumeration, group-by, element-wise decoding |
| `Fusion`, `FusionExamples` | `src/lib.rs` | the fusion algorithms and their unit tests |
| `Validate`, `ValidateExamples` | `rank-fusion/src/validate.rs` | the validators and their unit tests |
| `Metrics`, `MetricsExamples` | `evals/src/metrics.rs` | precision, recall, MRR, nDCG, average precision |
| `BindingParams`, `WasmBinding`, `PythonBinding` | `rank-fusion/src/wasm.rs`, `rank-fusion-python/src/lib.rs` | the binding entry points |
| `Converters`, `ConvertersExamples`, `TrecValidation` | `evals/src/dataset_converters.rs` | HuggingFace/JSONL/BEIR to TREC conversion, `validate_trec_runs` |
| `RealWorld` | `evals/src/real_world.rs` | `compute_metrics`, `evaluate_fusion_method` |
| `EvaluateRealWorld` | `evals/src/evaluate_real_world.rs` | name normalisation, best method, run-file filter, `compute_summary` |
| `DatasetRegistry` | `evals/src/dataset_registry.rs` | the registry |
| `ScenarioEval` | `evals/src/main.rs` | scenario winners and the correct count |

## Model

| member | source | states |
|---|---|---|
| Fusion.NewWeightedConfig | src/lib.rs:85-91 | custom weights keep the given values and turn normalisation on |
| Fusion.Accumulate | src/lib.rs:138-143 | the accumulation loop leaves every id of the list in the map, with its old value plus the sum of its contributions over all its occurrences |
| Fusion.CollectSorted | src/lib.rs:145-146 | collecting the map and sorting by descending score yields each (id, score) pair exactly once, best first |
| Fusion.Fuse2 | src/lib.rs:136-147 | two lists fused under one rule each give exactly the summed-contribution map, sorted |
| Fusion.Rrf | src/lib.rs:129-148 | for k ≥ 1, every id of either list once, with score Σ 1/(k + rank) over its occurrences, best first |
| Fusion.OutputBuffer.constructor | src/lib.rs:155-174 | a fresh output buffer is empty |
| Fusion.RrfInto | src/lib.rs:155-174 | the output buffer afterwards holds exactly the RRF fusion of the two lists |
| Fusion.FusedPairs | src/lib.rs:145-146 | a fused list holds exactly the map's (id, score) pairs and is as long as the map |
| Fusion.RrfIntoAgreesWithRrf | src/lib.rs:155-174 | `rrf_into` and `rrf` produce the same pairs, in the same number, differing at most in the order of ties |
| Fusion.RrfMulti | src/lib.rs:178-195 | every id of any list once, scored Σ 1/(k + rank) over all lists, best first |
| Fusion.RrfMultiOfPairIsRrf | src/lib.rs:178-195 | `rrf_multi` on two lists has the same score map as `rrf` |
| Fusion.FusedManyPermutation | src/lib.rs:178-195 | the multi-list score map does not depend on the order of the lists |
| Fusion.MinScore | src/lib.rs:311-313 | the minimum score is a lower bound of the list and attained |
| Fusion.MaxScore | src/lib.rs:311-313 | the maximum score is an upper bound of the list and attained |
| Fusion.MinMaxParams | src/lib.rs:306-319 | the scale is positive; (1, 0) for an empty list, otherwise the offset is the minimum |
| Fusion.MinMaxNormalizesIntoUnit | src/lib.rs:306-319 | every normalised score lies in [0, 1]; the minimum maps to 0; the maximum maps to 1 unless the range is below 1e-9, in which case the scale is 1 |
| Fusion.Weighted | src/lib.rs:207-231 | each id's score is the sum over its occurrences of its rescaled weight times its (optionally min-max normalised) score, best first |
| Fusion.WeightsSumToOne | src/lib.rs:212-213 | the weights divided by their sum add up to 1 |
| Fusion.UnnormalizedUsesRawScores | src/lib.rs:215-217 | without normalisation each occurrence contributes its rescaled weight times its raw score |
| Fusion.NormalizedTermBounded | src/lib.rs:221-226 | with normalisation one occurrence contributes between 0 and its weight |
| Fusion.RescaledWeightsNonNegative | src/lib.rs:212-213 | non-negative weights stay non-negative after rescaling |
| Fusion.CombSum | src/lib.rs:234-239 | CombSUM is `weighted` with weights 0.5/0.5 and normalisation |
| Fusion.AccumulateCounted | src/lib.rs:254-263 | the CombMNZ loop keeps, per id, the sum of normalised scores and the number of occurrences |
| Fusion.CombMnz | src/lib.rs:245-271 | each id is scored by its summed normalised scores times its number of occurrences, best first |
| Fusion.CombMnzIsScaledCombSum | src/lib.rs:245-271 | a CombMNZ score is twice the CombSUM score times the number of occurrences |
| Fusion.CombSumHalvesNormalizedTotals | src/lib.rs:234-239 | a CombSUM score is half of each list's normalised total |
| Fusion.Borda | src/lib.rs:281-299 | each occurrence at rank r in a list of length n adds n − r; every id once, best first |
| Fusion.BordaScoresPositive | src/lib.rs:281-299 | every id in a Borda fusion scores at least 1 |
| Fusion.FusedSingleton | src/lib.rs:145-146 | a one-id map fuses to the one-element list |
| Fusion.FusedHead | src/lib.rs:145-146 | an id scoring strictly above every other id comes first |
| FusionExamples.RrfBasic | src/lib.rs:336-343 | in `rrf_basic` "d2", present in both lists, ranks first |
| FusionExamples.RrfIntoWorks | src/lib.rs:345-355 | `rrf_into_works`: three results, "d2" first |
| FusionExamples.RrfScoreFormula | src/lib.rs:357-367 | a single occurrence at rank 0 with k = 60 scores exactly 1/60 |
| FusionExamples.CombMnzRewardsOverlap | src/lib.rs:369-376 | the id present in both lists ranks first under CombMNZ |
| FusionExamples.CombSumBasicScores | src/lib.rs:378-386 | the CombSUM map of `combsum_basic` is d1 ↦ 0.5, d2 ↦ 0.5, d3 ↦ 0 |
| FusionExamples.CombSumBasicTies | src/lib.rs:378-386 | both d1-first and d2-first are valid outputs, so the test's expectation that d2 comes first rests on the tie order |
| FusionExamples.WeightedSkewed | src/lib.rs:388-400 | weights 0.9/0.1 put "d1" first, 0.1/0.9 put "d2" first |
| FusionExamples.BordaSymmetric | src/lib.rs:402-412 | reversed lists give all three ids the same Borda score 4 |
| FusionExamples.RrfMultiWorks | src/lib.rs:414-424 | three lists over three ids fuse to three results |
| FusionExamples.RrfWithOneEmptyList | src/lib.rs:426-433 | an empty list on either side gives the other list's single id, scored 1/60 |
| FusionExamples.BothEmpty | src/lib.rs:435-441 | RRF, CombSUM and Borda of two empty lists are empty |
| FusionExamples.DuplicateIdsInSameList | src/lib.rs:443-454 | an id twice in one list gets both contributions, 1/60 + 1/61, and appears once |
| Validate.Valid | rank-fusion/src/validate.rs:23-29 | valid, with no errors and no warnings |
| Validate.Invalid | rank-fusion/src/validate.rs:32-38 | invalid, with exactly the given errors and no warnings |
| Validate.FromErrors | rank-fusion/src/validate.rs:70-74 | valid iff there are no errors; the errors are kept and there are no warnings |
| Validate.ValidationResult.WithWarning | rank-fusion/src/validate.rs:41-44 | appends one warning and keeps validity and errors |
| Validate.ValidateSorted | rank-fusion/src/validate.rs:51-75 | valid iff no adjacent pair rises, with one error per rising pair |
| Validate.SortErrorsExact | rank-fusion/src/validate.rs:51-75 | an error is reported at position i exactly when score i is below score i + 1 |
| Validate.SortedValidIffNoAscent | rank-fusion/src/validate.rs:51-75 | no sorting error iff no adjacent ascent |
| Validate.NoAscentSortedWhenFinite | rank-fusion/src/validate.rs:51-75 | for finite scores, no adjacent ascent means no ascent between any two positions |
| Validate.ValidateNoDuplicates | rank-fusion/src/validate.rs:81-105 | one error per repeated occurrence of an id |
| Validate.DupValidIffDistinct | rank-fusion/src/validate.rs:81-105 | valid iff all ids are distinct |
| Validate.DupErrorCount | rank-fusion/src/validate.rs:81-105 | the number of duplicate errors plus the number of distinct ids is the list length |
| Validate.ValidateFiniteScores | rank-fusion/src/validate.rs:111-131 | one error per NaN or infinite score |
| Validate.FiniteErrorsExact | rank-fusion/src/validate.rs:111-131 | errors name exactly the positions, ids and scores of the non-finite scores |
| Validate.FiniteValidIffAllFinite | rank-fusion/src/validate.rs:111-131 | valid iff every score is finite |
| Validate.ValidateNonNegativeScores | rank-fusion/src/validate.rs:137-159 | always valid; one summary warning with the count iff some score is negative |
| Validate.NegativeScoresExact | rank-fusion/src/validate.rs:137-159 | the counted scores are exactly the negative ones |
| Validate.ValidateBounds | rank-fusion/src/validate.rs:169-182 | always valid; warns, once, iff a maximum is given and the list is longer |
| Validate.ValidateAll | rank-fusion/src/validate.rs:200-249 | errors are the sorting, duplicate and finiteness errors in that order; valid iff there are none; warnings from the optional non-negative check, then the bounds |
| Validate.ValidIffWellFormed | rank-fusion/src/validate.rs:200-249 | the combined validation passes iff the list has no ascent, no repeated id and no non-finite score |
| ValidateExamples.FusedOutputValidates | rank-fusion/src/validate.rs:200-249 | every output of the fusion algorithms passes the sorting, duplicate and finiteness checks |
| ValidateExamples.SortedExamples | rank-fusion/src/validate.rs:256-262 | a descending list passes; an ascending pair at 0 is reported |
| ValidateExamples.NaNIsNotUnsorted | rank-fusion/src/validate.rs:51-75 | a NaN next to a number is not reported as unsorted |
| ValidateExamples.DuplicateExamples | rank-fusion/src/validate.rs:265-271 | the repeated id at position 2 is reported |
| ValidateExamples.FiniteExamples | rank-fusion/src/validate.rs:274-283 | NaN and +inf are reported at their positions |
| ValidateExamples.ComprehensiveExample | rank-fusion/src/validate.rs:286-296 | a list that is unsorted and repeats an id fails validation |
| ValidateExamples.NegativeExample | rank-fusion/src/validate.rs:137-159 | two negative scores are counted |
| Metrics.Take | evals/src/metrics.rs:13-17 | the first min(k, n) ids, as a prefix |
| Metrics.PrecisionAtK | evals/src/metrics.rs:12-18 | in [0, 1]; 0 for k = 0; otherwise precision × k is the number of relevant ids among the first k |
| Metrics.RecallAtK | evals/src/metrics.rs:23-29 | non-negative; 0 without relevant ids; otherwise recall × \|relevant\| is the number of hits among the first k |
| Metrics.RecallAtMostOne | evals/src/metrics.rs:23-29 | without repeated ids recall is at most 1 |
| Metrics.FirstRelevant | evals/src/metrics.rs:35-42 | the position of the first relevant id, none if there is none |
| Metrics.Mrr | evals/src/metrics.rs:35-42 | in [0, 1], and 0 exactly when no id is relevant |
| Metrics.NdcgAtK | evals/src/metrics.rs:69-75 | 0 when the ideal DCG is 0; otherwise nDCG × IDCG = DCG |
| Metrics.IdealZeroIff | evals/src/metrics.rs:60-64 | the ideal DCG is 0 iff k = 0 or nothing is relevant |
| Metrics.NdcgWithinUnit | evals/src/metrics.rs:49-75 | without repeated ids nDCG lies in [0, 1] |
| Metrics.AveragePrecision | evals/src/metrics.rs:80-96 | 0 without relevant ids; otherwise AP × \|relevant\| is the sum of precision at each relevant position |
| Metrics.AveragePrecisionWithinUnit | evals/src/metrics.rs:80-96 | without repeated ids AP lies in [0, 1] |
| Metrics.Compute | evals/src/metrics.rs:113-125 | precision at 1/5/10, recall at 5/10, MRR, nDCG at 5/10 and AP, each within [0, 1] for rankings without repeats |
| Metrics.MetricSetWithinUnit | evals/src/metrics.rs:113-125 | every field of the metric set lies in [0, 1] |
| MetricsExamples.PrecisionExample | evals/src/metrics.rs:133-140 | precision at 1, 2 and 5 is 1, 0.5 and 0.6 |
| MetricsExamples.ShortRankingPrecision | evals/src/metrics.rs:12-18 | precision divides by k, not by the ranking length: one hit in a one-id ranking at k = 5 gives 0.2 |
| MetricsExamples.MrrExample | evals/src/metrics.rs:143-148 | the first relevant id at rank 2 gives 0.5 |
| MetricsExamples.NdcgExample | evals/src/metrics.rs:151-161 | nDCG@4 with hits at ranks 1 and 3 is (g(0) + g(2)) / (g(0) + g(1)) |
| BindingParams.CheckWeights | rank-fusion/src/wasm.rs:269-277 | accepts iff both weights are finite and not both below 1e-9 in magnitude; non-finite is reported first |
| BindingParams.CheckWeightsAdmitsZeroSum | rank-fusion/src/wasm.rs:269-277 | the guard lets weights 1 and −1 through, whose sum is 0 |
| BindingParams.NormalizationName | rank-fusion/src/wasm.rs:412-423 | every normalisation name is lower case |
| BindingParams.ParseNormalization | rank-fusion/src/wasm.rs:412-423 | a name parses iff its lower-case form is one of the known names; unknown names give an error |
| BindingParams.ParseNormalizationName | rank-fusion/src/wasm.rs:412-423 | parsing a normalisation's name gives it back |
| BindingParams.NormalizationNameInjective | rank-fusion/src/wasm.rs:412-423 | no two normalisations share a name |
| BindingParams.ParseNormalizationIgnoresCase | rank-fusion-python/src/lib.rs:624-635 | parsing is case-insensitive |
| BindingParams.DefaultNormalizationIsMinMax | rank-fusion/src/wasm.rs:408-411 | the default name "minmax" (and "MinMax") parses to min-max |
| Decoding.DecodeAllKeepsError | rank-fusion/src/wasm.rs:319-323 | the first failing element decides the error of the whole decoding |
| Decoding.DecodeAllExact | rank-fusion/src/wasm.rs:319-323 | decoding succeeds iff every element decodes, then element-wise; otherwise it fails with the first element's error |
| WasmBinding.JsToResults | rank-fusion/src/wasm.rs:80-121 | decodes an array of [id, score] pairs, failing on the first malformed item |
| WasmBinding.Encode | rank-fusion/src/wasm.rs:125-134 | one [id, score] pair per result, in order |
| WasmBinding.ResultsToJs | rank-fusion/src/wasm.rs:125-134 | the loop builds exactly that encoding |
| WasmBinding.DecodeEncode | rank-fusion/src/wasm.rs:80-134 | decoding an encoded result list gives it back |
| WasmBinding.ReciprocalFusion | rank-fusion/src/wasm.rs:151-205 | decode errors first; then the defaulted k must be at least 1; then the fused list, encoded |
| WasmBinding.Rrf | rank-fusion/src/wasm.rs:151-171 | decode errors first; then an explicit k = 0 is refused; else, with a missing k defaulting to 60, the encoded RRF fusion of the decoded lists |
| WasmBinding.Isr | rank-fusion/src/wasm.rs:185-205 | decode errors first; then an explicit k = 0 is refused; else, with a missing k defaulting to 1, the encoded ISR fusion of the decoded lists |
| WasmBinding.PlainFusion | rank-fusion/src/wasm.rs:210-245 | CombSUM, CombMNZ, Borda and DBSF: decode errors, else the encoded fusion |
| WasmBinding.Weighted | rank-fusion/src/wasm.rs:261-291 | the weight guard is checked before decoding; then decode errors; then the fusion |
| WasmBinding.Standardized | rank-fusion/src/wasm.rs:353-375 | the clip range defaults to (−3, 3) |
| WasmBinding.AdditiveMultiTask | rank-fusion/src/wasm.rs:397-434 | weights default to 1, normalisation to "minmax"; an unknown normalisation is an error; the default never fails |
| WasmBinding.JsToLists | rank-fusion/src/wasm.rs:319-323 | decodes every list, failing on the first bad one |
| WasmBinding.ReciprocalMulti | rank-fusion/src/wasm.rs:304-336 | a non-array is refused; an empty array gives an empty result before k is checked; then decode, then k ≥ 1 |
| WasmBinding.PlainMulti | rank-fusion/src/wasm.rs:491-607 | non-array refused, empty array gives empty result, else decode and fuse |
| WasmBinding.StandardizedMulti | rank-fusion/src/wasm.rs:623-657 | as above, with the clip range defaulting to (−3, 3) |
| PythonBinding.PyListToRanked | rank-fusion-python/src/lib.rs:193-207 | converts a list of (str, number) tuples, failing on the first malformed item |
| PythonBinding.WrongArityFails | rank-fusion-python/src/lib.rs:193-207 | a tuple not of length 2 anywhere makes the conversion fail |
| PythonBinding.NumericIdRefused | rank-fusion-python/src/lib.rs:193-207 | ids must be strings |
| PythonBinding.ToPy | rank-fusion-python/src/lib.rs:135-139 | one (id, score) tuple per fused item, in order |
| PythonBinding.RankedToPy | rank-fusion-python/src/lib.rs:135-139 | the output loop builds exactly those tuples |
| PythonBinding.ConvertToPy | rank-fusion-python/src/lib.rs:135-139 | converting the returned list back gives the fused list |
| PythonBinding.ReciprocalPy | rank-fusion-python/src/lib.rs:111-238 | k = 0 is refused before any conversion; otherwise conversion errors, then the fusion |
| PythonBinding.RrfPy | rank-fusion-python/src/lib.rs:109-141 | k = 0 is refused; else conversion errors; else, with k defaulting to 60, the RRF fusion as (id, score) tuples |
| PythonBinding.IsrPy | rank-fusion-python/src/lib.rs:211-238 | k = 0 is refused; else conversion errors; else, with k defaulting to 1, the ISR fusion as (id, score) tuples |
| PythonBinding.PlainPy | rank-fusion-python/src/lib.rs:278-494 | CombSUM, CombMNZ, Borda and DBSF: conversion errors, else the fusion |
| PythonBinding.WeightedPy | rank-fusion-python/src/lib.rs:437-469 | the weight guard comes before conversion |
| PythonBinding.StandardizedPy | rank-fusion-python/src/lib.rs:570-594 | the clip range defaults to (−3, 3) |
| PythonBinding.AdditiveMultiTaskPy | rank-fusion-python/src/lib.rs:613-649 | conversion errors first; weights default to 1; normalisation defaults to "minmax" and unknown names are refused |
| PythonBinding.PyListsToRanked | rank-fusion-python/src/lib.rs:167-171 | converts every list, failing on the first bad one |
| PythonBinding.ReciprocalMultiPy | rank-fusion-python/src/lib.rs:153-272 | the defaulted k = 0 is refused before the lists are converted; else conversion errors; else the multi-list fusion as tuples |
| PythonBinding.RrfMultiPy | rank-fusion-python/src/lib.rs:153-190 | k = 0 is refused; else conversion errors; else, with k defaulting to 60, the multi-list RRF fusion as tuples |
| PythonBinding.IsrMultiPy | rank-fusion-python/src/lib.rs:242-272 | k = 0 is refused; else conversion errors; else, with k defaulting to 1, the multi-list ISR fusion as tuples |
| PythonBinding.PlainMultiPy | rank-fusion-python/src/lib.rs:303-522 | conversion errors, else the multi-list fusion |
| PythonBinding.StandardizedMultiPy | rank-fusion-python/src/lib.rs:528-553 | clip range defaulting to (−3, 3) |
| PythonBinding.ExplainPy | rank-fusion-python/src/lib.rs:700-811 | list errors, then retriever-id errors; as many retriever ids as lists, else an error |
| PythonBinding.RrfExplainPy | rank-fusion-python/src/lib.rs:653-694 | k = 0 is refused first; then list errors, then retriever-id errors, then the length check; else the explained fusion with k defaulting to 60 |
| Converters.GroupLines | evals/src/dataset_converters.rs:46-59 | one line per example of the query |
| Converters.AppendGroupLines | evals/src/dataset_converters.rs:46-59 | the j-th example of the query gets rank j + 1 |
| Converters.EmitSortedGroups | evals/src/dataset_converters.rs:43-59 | the lines are the per-query lines in the order of the given query ids |
| Converters.SortGroups | evals/src/dataset_converters.rs:34-36 | each query's group is sorted by descending score |
| Converters.ConvertHfToTrecRuns | evals/src/dataset_converters.rs:17-63 | queries in ascending order, each with its examples ranked 1, 2, … by descending score |
| Converters.RankedGroupLines | evals/src/dataset_converters.rs:34-59 | a query's lines are a permutation of its examples with ranks 1, 2, … and non-increasing scores |
| Converters.RunsOneLinePerExample | evals/src/dataset_converters.rs:17-63 | exactly one line per input example |
| Converters.EmitRunsQueryOrder | evals/src/dataset_converters.rs:43-59 | every line carries a listed query and the run tag, and queries never go backwards |
| Converters.EmitRunsSize | evals/src/dataset_converters.rs:46-59 | the number of lines is the total size of the listed groups |
| Converters.ConvertHfToTrecQrels | evals/src/dataset_converters.rs:66-92 | a permutation of the qrels sorted by (query, doc) |
| Converters.QrelsFor | evals/src/dataset_converters.rs:185-198 | one qrel per document |
| Converters.AppendDocLines | evals/src/dataset_converters.rs:185-198 | appends a query's qrels for the given documents |
| Converters.AppendQueryQrels | evals/src/dataset_converters.rs:185-198 | appends a query's qrels with its documents in ascending order |
| Converters.ConvertBeirQrelsToTrec | evals/src/dataset_converters.rs:170-201 | the BEIR nested map emitted query by query, ascending |
| Converters.DocLinesExact | evals/src/dataset_converters.rs:185-198 | a query's lines are exactly its (doc, relevance) entries, in strictly ascending doc order |
| Converters.BeirQrelsExact | evals/src/dataset_converters.rs:170-201 | the output holds exactly the entries of the nested map, each once, in (query, doc) order |
| Converters.Trim | evals/src/dataset_converters.rs:122 | the result is empty iff the line is all Unicode white space, else it starts and ends with a non-space |
| Converters.TrimStripsOuterSpace | evals/src/dataset_converters.rs:122 | the trimmed line is `s[a..b]` for some `a <= b`, with every character before `a` and from `b` on Unicode white space: only leading and trailing white space is removed |
| Converters.ParseJsonLines | evals/src/dataset_converters.rs:120-130 | blank lines are skipped, the first malformed line is an error |
| Converters.BlankInputHasNoRecords | evals/src/dataset_converters.rs:120-130 | an all-blank input parses to no records |
| Converters.ConvertJsonlToTrecRuns | evals/src/dataset_converters.rs:113-137 | parse errors; no examples is an error; otherwise the runs conversion |
| Converters.ConvertJsonlToTrecQrels | evals/src/dataset_converters.rs:140-163 | parse errors; no qrels is an error; otherwise the qrels sorted |
| Converters.ConvertDataset | evals/src/dataset_converters.rs:221-241 | "jsonl" converts to qrels iff the output path contains "qrels", runs otherwise: a parse error is returned, no records is an error, else the qrels sorted by (query, doc) or the runs with every line tagged by the run tag, defaulting to "converted"; "trec" copies; any other format is refused |
| ConvertersExamples.GroupsByQuery | evals/src/dataset_converters.rs:363-399 | interleaved queries are grouped, queries ascending, ranks by score |
| ConvertersExamples.RanksWithinQuery | evals/src/dataset_converters.rs:328-361 | two examples of query "1" get ranks 1 and 2, query "2" rank 1 |
| TrecValidation.DuplicateScan | evals/src/dataset_converters.rs:262-268 | one warning per entry whose (query, doc, tag) was seen before |
| TrecValidation.DuplicateWarningsCount | evals/src/dataset_converters.rs:262-268 | warnings plus distinct triples equal the number of entries |
| TrecValidation.NoDuplicateWarningsIffDistinct | evals/src/dataset_converters.rs:262-268 | no warning iff no triple repeats |
| TrecValidation.KeyAsWrittenCollides | evals/src/dataset_converters.rs:262-268 | the joined key reports a duplicate for two different entries |
| TrecValidation.DuplicateKeysAsWrittenCount | evals/src/dataset_converters.rs:262-268 | as written, warnings plus distinct joined keys equal the number of entries |
| TrecValidation.JoinedKeyInjective | evals/src/dataset_converters.rs:262 | without ':' in any field, equal joined keys mean equal (query, doc, tag) |
| TrecValidation.AsWrittenAgreesWithoutColons | evals/src/dataset_converters.rs:262-268 | without ':' in any field, the joined-key scan and the triple scan warn about the same entries with the same keys |
| TrecValidation.RankWarningsExact | evals/src/dataset_converters.rs:276-288 | a warning for position p exactly when the p-th smallest rank is not p + 1 |
| TrecValidation.RankWarningsEmptyIff | evals/src/dataset_converters.rs:276-288 | no rank warnings iff the sorted ranks are 1, 2, …, n |
| TrecValidation.AppendRankWarnings | evals/src/dataset_converters.rs:280-287 | the scan appends those warnings |
| TrecValidation.CheckQueryRanks | evals/src/dataset_converters.rs:277-288 | a query's runs sorted by rank, then scanned |
| TrecValidation.RankScan | evals/src/dataset_converters.rs:276-288 | the queries in the given order, each contributing its rank warnings |
| TrecValidation.ValidateTrecRuns | evals/src/dataset_converters.rs:244-303 | an empty file is invalid with one error; otherwise valid, with the duplicate warnings then the rank warnings, and the counts of entries, queries, documents and tags; duplicates are keyed by the (query, doc, tag) triple, the corrected key of Findings, which agrees with the joined key when no field contains ':' |
| TrecValidation.StatsBounds | evals/src/dataset_converters.rs:290-295 | for a non-empty file each distinct count is between 1 and the number of entries |
| Grouping.GroupBy | evals/src/dataset_converters.rs:23-31 | one group per key, holding the elements of that key in input order |
| Grouping.GroupOfExact | evals/src/dataset_converters.rs:23-31 | a group holds every element of its key, as often as in the input, and nothing else |
| Grouping.GroupSizesCover | evals/src/dataset_converters.rs:23-31 | the group sizes over all keys add up to the input length |
| Grouping.KeySetBounds | evals/src/dataset_converters.rs:290-295 | at least one and at most n distinct keys for n > 0 entries |
| KeyOrder.SortedElems | evals/src/dataset_converters.rs:43-44 | the keys in strictly ascending order, each once |
| KeyOrder.AscendingUnique | evals/src/dataset_converters.rs:43-44 | there is only one strictly ascending listing of a set |
| KeyOrder.SortedKeys | evals/src/dataset_converters.rs:43-44 | collecting and sorting the keys gives that listing |
| KeyOrder.IterationOrder | src/lib.rs:145 | a map's keys, each once, in an unspecified order |
| KeyOrder.SameKeysPermutation | src/lib.rs:145 | any two iteration orders are permutations of each other |
| Sorting.Insert | src/lib.rs:146 | inserting keeps a sorted list sorted and adds exactly the element |
| Sorting.SortBy | evals/src/dataset_converters.rs:34-36 | a permutation of the input, sorted for every total preorder |
| Sorting.SortByStable | evals/src/dataset_converters.rs:34-36 | stable: for every x, the elements tied with x come out in their input order |
| Strings.ToLower | evals/src/evaluate_real_world.rs:58 | ASCII lower-casing, character by character |
| Strings.ToLowerIdempotent | evals/src/evaluate_real_world.rs:58 | lower-casing twice changes nothing |
| Strings.ReplaceAll | evals/src/evaluate_real_world.rs:58-59 | a string without the pattern is unchanged |
| Strings.ReplaceCharRemoves | evals/src/evaluate_real_world.rs:58-59 | replacing a character by a string without it leaves no occurrence of it |
| EvaluateRealWorld.Normalized | evals/src/evaluate_real_world.rs:58-59 | the normalised name has no upper-case letter, '_' or ' ' |
| EvaluateRealWorld.NormalizedIdempotent | evals/src/evaluate_real_world.rs:58-59 | normalising twice is normalising once |
| EvaluateRealWorld.FirstKnown | evals/src/evaluate_real_world.rs:61-83 | the first registered candidate, none if there is none |
| EvaluateRealWorld.NormalizeDatasetName | evals/src/evaluate_real_world.rs:57-86 | the result is a registered name or the normalised name |
| EvaluateRealWorld.NormalizeDatasetNameChoice | evals/src/evaluate_real_world.rs:57-86 | the result is the first registered variation, or the normalised name when none is registered |
| EvaluateRealWorld.NormalizeDatasetNameAvoids | evals/src/evaluate_real_world.rs:57-86 | the result never holds an upper-case letter, '_' or ' ' |
| EvaluateRealWorld.NormalizeDirectExample | evals/src/evaluate_real_world.rs:57-86 | "Fi_QA" normalises to the registered "fi-qa" |
| EvaluateRealWorld.MaxBy | evals/src/evaluate_real_world.rs:105-109 | the position of a maximal score, the last one among equal maxima |
| EvaluateRealWorld.EvaluateDatasetBest | evals/src/evaluate_real_world.rs:105-109 | ("none", 0) without methods; otherwise a method whose nDCG@10 is the largest |
| EvaluateRealWorld.IsRunFileExactly | evals/src/evaluate_real_world.rs:148-156 | a run file ends in ".run" or ".txt" and does not contain "qrels"; the exact-name exclusions add nothing |
| EvaluateRealWorld.RunFiles | evals/src/evaluate_real_world.rs:148-156 | exactly the run files of the directory listing |
| EvaluateRealWorld.RunFilesTaken | evals/src/evaluate_real_world.rs:148-156 | "bm25.run" and "dense.txt" are run files |
| EvaluateRealWorld.OtherFilesSkipped | evals/src/evaluate_real_world.rs:148-156 | "test.qrels.txt" and "bm25.json" are not |
| EvaluateRealWorld.ComputeSummary | evals/src/evaluate_real_world.rs:231-292 | dataset and query totals; one average per method, over the datasets reporting it; the best method of each dataset, a later dataset of the same name overriding |
| EvaluateRealWorld.MethodCounted | evals/src/evaluate_real_world.rs:243-278 | a method is averaged over at least one dataset iff some dataset reports it |
| EvaluateRealWorld.BestMethodsLastWins | evals/src/evaluate_real_world.rs:281-284 | the last dataset of a name sets its best method |
| EvaluateRealWorld.BestMethodsKeys | evals/src/evaluate_real_world.rs:281-284 | one entry per dataset name |
| EvaluateRealWorld.AveragesInUnit | evals/src/evaluate_real_world.rs:243-278 | averages of metrics in [0, 1] stay in [0, 1] |
| RealWorld.ComputeMetrics | evals/src/real_world.rs:267-316 | all zero without relevant documents; otherwise P@10, R@100 and reciprocal rank of the fused ids, with nDCG/MAP from the evaluator |
| RealWorld.PrecisionBounds | evals/src/real_world.rs:291-293 | P@10 × 10 is at most min(10, length) |
| RealWorld.MrrBounds | evals/src/real_world.rs:301-306 | the reciprocal rank is in [0, 1] and positive iff some fused id is relevant |
| RealWorld.RecallBounds | evals/src/real_world.rs:296-298 | R@100 is non-negative, and at most 1 without repeated ids |
| RealWorld.EvaluateFusionMethod | evals/src/real_world.rs:107-208 | the run orders it hands to the fusion enumerate each query's runs; the result is the average, over the counted queries, of their metrics under those run orders, whatever order the queries come in; averaged P@10 and MRR in [0, 1], recall non-negative; when the fusion ignores the order of its runs, the result is the one fixed value `DatasetMetrics` |
| RealWorld.EvaluationOutcome | evals/src/real_world.rs:126-205 | the tally over any query order averages to the metrics under the given run orders, within those bounds, and to `DatasetMetrics` when the fusion ignores run order |
| RealWorld.RunListsPermutation | evals/src/real_world.rs:136 | listing a query's runs in another tag order lists the same runs, permuted |
| RealWorld.RunOrderIrrelevant | evals/src/real_world.rs:136-170 | when the fusion ignores the order of its runs, any two run orders give the same metrics |
| RealWorld.TallyOfPermutation | evals/src/real_world.rs:107-208 | the sums and the count do not depend on the order the queries are visited |
| RealWorld.AveragesIgnoreOrder | evals/src/real_world.rs:107-208 | for fixed run orders, the averages are the same for every iteration order of the queries |
| RealWorld.NothingCountedIsZero | evals/src/real_world.rs:192-205 | no counted query gives all-zero averages |
| RealWorld.CountIsCountedQueries | evals/src/real_world.rs:128-189 | the count is the number of queries with at least two runs, a non-empty fusion (of the runs in their given order) and qrels |
| RealWorld.ContributionCounted | evals/src/real_world.rs:128-189 | a query contributes iff it has at least two runs, a non-empty fusion (of the runs in their given order) and qrels |
| RealWorld.AveragedBounds | evals/src/real_world.rs:192-205 | the averaged P@10 and MRR are in [0, 1] and the averaged recall is non-negative |
| DatasetRegistry.Where | evals/src/dataset_registry.rs:472-485 | exactly the entries the filter accepts, without introducing duplicate names |
| DatasetRegistry.Registry.constructor | evals/src/dataset_registry.rs:64-465 | the registry holds the built-in entries, added in order |
| DatasetRegistry.Registry.AddDataset | evals/src/dataset_registry.rs:467-469 | the entry is filed under its name, replacing any previous one, nothing else changes |
| DatasetRegistry.Registry.Get | evals/src/dataset_registry.rs:488-490 | found iff registered, and then the entry carries that name |
| DatasetRegistry.Registry.Values | evals/src/dataset_registry.rs:500-502 | every entry once |
| DatasetRegistry.Registry.ByPriority | evals/src/dataset_registry.rs:472-477 | exactly the entries of that priority, each once |
| DatasetRegistry.Registry.ByCategory | evals/src/dataset_registry.rs:480-485 | exactly the entries of that category, each once |
| DatasetRegistry.Registry.ListNames | evals/src/dataset_registry.rs:493-497 | every name once, ascending |
| DatasetRegistry.Registry.All | evals/src/dataset_registry.rs:500-508 | every entry once, strictly ascending by (priority, name) |
| DatasetRegistry.RegisterAllKeyedByName | evals/src/dataset_registry.rs:467-469 | every entry is filed under its own name |
| DatasetRegistry.RegisterAllNames | evals/src/dataset_registry.rs:64-469 | the registered names are exactly the names added |
| DatasetRegistry.LastOfNameWins | evals/src/dataset_registry.rs:467-469 | a later entry of the same name replaces an earlier one |
| DatasetRegistry.NewRegistryLookups | evals/src/dataset_registry.rs:537-557 | the new registry knows "msmarco-passage" at priority 1, "beir", and the multilingual "miracl" |
| DatasetRegistry.SortedDistinctIsStrict | evals/src/dataset_registry.rs:500-508 | sorting entries with distinct names gives a strictly ordered list of the same entries |
| ScenarioEval.BestNdcg | evals/src/main.rs:249-252 | the fold from 0 with max: at least 0 and every score, and 0 or one of them |
| ScenarioEval.BestUnique | evals/src/main.rs:249-252 | the best score does not depend on the iteration order |
| ScenarioEval.WinnersNonEmpty | evals/src/main.rs:255-259 | a scenario with methods and non-negative scores has a winner |
| ScenarioEval.Winner | evals/src/main.rs:262 | the alphabetically first winner, or "none" |
| ScenarioEval.WinnerUnique | evals/src/main.rs:262 | the reported winner does not depend on the iteration order |
| ScenarioEval.ExpectedWinsByPrefix | evals/src/main.rs:265-268 | correct iff "all_equal" is expected or some winner's name starts with the expected one |
| ScenarioEval.FamilyPrefixWins | evals/src/main.rs:265-268 | a "weighted_0.7" winner satisfies an expected "weighted" |
| ScenarioEval.EvaluateOutcome | evals/src/main.rs:245-286 | the recorded result of one scenario |
| ScenarioEval.OutcomeDeterministic | evals/src/main.rs:245-286 | a scenario's result is the same whatever the hash-map orders |
| ScenarioEval.AllEqualAlwaysCorrect | evals/src/main.rs:265-268 | an "all_equal" scenario is always correct |
| ScenarioEval.CorrectCount | evals/src/main.rs:300-301 | at most the number of results, and equal to it iff all are correct |
| ScenarioEval.EvaluateScenarios | evals/src/main.rs:245-301 | one result per scenario, in order, and the number of correct ones |

## Left out

- Floating point: `f32`/`f64` rounding is not modelled; scores are exact reals. NaN and the infinities are modelled only where the source tests for them (validators, binding guards).
- `partial_cmp(...).unwrap_or(Equal)` is modelled for finite scores only; the order in which the source's sorts place NaN scores is not modelled.
- Fusion.Rrf, Fusion.RrfInto, Fusion.RrfMulti: require k ≥ 1. `rrf` with k = 0 divides by zero at rank 0 and gives an `f32` infinity, which reals cannot express; both bindings refuse k = 0.
- Fusion.Weighted: requires a non-zero weight sum. The source does not guard this case and divides by zero, producing NaN or infinities that reals cannot express. `BindingParams.CheckWeightsAdmitsZeroSum` shows the binding guard lets such weights through.
- Hash-map iteration order is an arbitrary enumeration (`KeyOrder.IterationOrder`), not Rust's randomised hashing. The tie order of fused lists is left open (`FusedFrom`). The `combsum_basic` test (src/lib.rs:378-386) expects "d2" first, although "d1" and "d2" tie at 0.5; the model proves both orders admissible.
- `isr`, `dbsf`, `standardized`, `additive_multi_task`, the `*_explain` functions, `fuse_multi`, the `*_with_config` variants and `top_k` truncation are defined in the unshown `rank-fusion` library crate (rank-fusion/src/lib.rs is not part of this model). The bindings receive them as function parameters.
- The Python `pyclass` configuration wrappers and `From` conversions (rank-fusion-python/src/lib.rs:815-1120) are not modelled beyond the shared normalisation-name parsing. The `validate_*_py` wrappers (rank-fusion-python/src/lib.rs:1132-1185) only forward to `Validate`. src/python.rs is not part of this model.
- JSON and JavaScript values are datatypes; serde parsing, `Reflect`/`js_sys` calls and PyO3 extraction are abstracted to what their success or failure yields. Error messages are structured values, not formatted strings.
- Metrics.NdcgAtK: the log2 discount `1/log2(i + 2)` is a parameter `gain`, assumed positive and non-increasing. Exact logarithms are not modelled.
- RealWorld: nDCG@10, nDCG@100 and MAP come from the external `rank_eval` crate and are an opaque evaluator. `FusionMethod::fuse_multi` is a parameter that receives a query's runs in the iteration order of its `HashMap`, which the model leaves open (`runOrders`). The result is pinned to one value only when that fusion ignores the order of its runs. `evaluate_all_methods` (evals/src/real_world.rs:215-261) and `FusionMethod::name` only enumerate methods and are not modelled. `eprintln!` diagnostics are left out.
- File I/O: reading and writing TREC, JSONL and JSON files, directory listing, and the TREC text format are left out. Converters take parsed records and produce records. The `rank` field of a HuggingFace example is not read by the converter and is not modelled.
- The JSONL record parser (`serde_json::from_str`) is a parameter.
- Dataset registry: the descriptive metadata (description, URL, sizes, languages) and `save`/`load` (evals/src/dataset_registry.rs:511-524) are left out. `priority` is a `u8` modelled as `nat`.
- EvaluateRealWorld: `normalize_dataset_name` consults a fresh registry. The model passes the set of registered names as a parameter. HTML report generation, dataset statistics and `evaluate_datasets_dir`'s file handling are left out.
- ScenarioEval: running each scenario's fusion methods (`evaluate_scenario`, evals/src/main.rs:14-43) is left out; each scenario comes with its nDCG@5 per method. The HTML report and printing are left out.
- Strings.ToLower: ASCII-only; Unicode case mapping of `to_lowercase` is not modelled. BindingParams.ParseNormalization, WasmBinding.AdditiveMultiTask, PythonBinding.AdditiveMultiTaskPy and EvaluateRealWorld.Normalized inherit this: a name such as "RAN\u{212A}" (with the Kelvin sign), which the source lower-cases to "rank", is refused or left unchanged by the model.
- PythonBinding.ExtractScore: every Python `int` converts to a finite score. PyO3 raises `OverflowError` for an integer beyond the floating-point range, which the model does not reproduce.
- TrecValidation.ValidateTrecRuns: keys duplicates by the (query, doc, tag) triple, the corrected key of Findings, not by the source's joined string `query:doc:tag`. The two agree whenever no field contains ':' (`TrecValidation.AsWrittenAgreesWithoutColons`); otherwise the source's extra warnings are modelled only by `TrecValidation.DuplicateKeysAsWritten`.

## Findings

| source | as written | input that shows it | evidently intended | confidence | as-written member | corrected member |
|---|---|---|---|---|---|---|
| evals/src/dataset_converters.rs:262-268 | the duplicate check keys each entry by the string `query:doc:tag`, which is not injective when ids contain ':' | entries ("a:b", "c", "t") and ("a", "b:c", "t") are distinct but share the key "a:b:c:t", so a duplicate is reported | warn only when the (query, doc, tag) triple repeats | medium, not executed | TrecValidation.KeyAsWrittenCollides | TrecValidation.DuplicateScan |
