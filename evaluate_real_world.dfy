/**
 * The dataset-level evaluation of `evals/src/evaluate_real_world.rs`:
 * dataset-name normalisation for registry lookup, the choice of each
 * dataset's best fusion method, the run-file name filter, and the summary
 * across datasets.
 *
 * Loading runs and qrels, the dataset statistics of the evaluation library
 * and the per-method evaluation are outside this model; a dataset result
 * carries what the summary reads from them.
 */
module EvaluateRealWorld {
  import opened Wrappers
  import opened Strings
  import opened KeyOrder
  import opened RealWorld
  import Metrics

  // ─── normalize_dataset_name ───────────────────────────────────────────────

  /** The characters normalisation removes: upper-case ASCII letters, '_' and ' '. */
  predicate Unnormal(c: char) {
    'A' <= c <= 'Z' || c == '_' || c == ' '
  }

  /** `name.to_lowercase().replace("_", "-").replace(" ", "-")`. */
  function Normalized(name: string): (n: string)
    ensures Avoids(n, Unnormal)
  {
    var lower := ToLower(name);
    var dashed := ReplaceAll(lower, "_", "-");
    var n := ReplaceAll(dashed, " ", "-");
    NormalizedAvoids(lower, dashed, n);
    n
  }

  lemma NormalizedAvoids(lower: string, dashed: string, n: string)
    requires forall i :: 0 <= i < |lower| ==> !('A' <= lower[i] <= 'Z')
    requires dashed == ReplaceAll(lower, "_", "-")
    requires n == ReplaceAll(dashed, " ", "-")
    ensures Avoids(n, Unnormal)
  {
    var upper := (c: char) => 'A' <= c <= 'Z';
    var upperOrUnderscore := (c: char) => 'A' <= c <= 'Z' || c == '_';
    ReplaceAllAvoids(lower, "_", "-", upper);
    ReplaceCharRemoves(lower, '_', "-");
    assert Avoids(dashed, upperOrUnderscore);
    ReplaceAllAvoids(dashed, " ", "-", upperOrUnderscore);
    ReplaceCharRemoves(dashed, ' ', "-");
  }

  /** The candidates tried after the normalised name itself, in order. */
  function Variations(n: string): seq<string> {
    [ n,
      ReplaceAll(n, "-passage", ""),
      ReplaceAll(n, "-document", ""),
      ReplaceAll(n, "trec-", ""),
      ReplaceAll(n, "trec", "") ]
  }

  /** The position of the first candidate from position `from` on that is a registered name, if any. */
  function FirstKnown(candidates: seq<string>, known: set<string>, from: nat): (r: Option<nat>)
    ensures r.None? ==> forall j :: from <= j < |candidates| ==> candidates[j] !in known
    ensures r.Some? ==> from <= r.value < |candidates| && candidates[r.value] in known
    ensures r.Some? ==> forall j :: from <= j < r.value ==> candidates[j] !in known
    decreases |candidates| - from
  {
    if from >= |candidates| then None
    else if candidates[from] in known then Some(from)
    else FirstKnown(candidates, known, from + 1)
  }

  /**
   * `normalize_dataset_name`: the normalised name if `known` (the names of
   * the built-in registry) has it, else the first variation it has, else the
   * normalised name.
   */
  function NormalizeDatasetName(name: string, known: set<string>): (r: string)
    ensures r in known || r == Normalized(name)
  {
    var n := Normalized(name);
    if n in known then n
    else
      match FirstKnown(Variations(n), known, 0)
      case Some(i) => Variations(n)[i]
      case None => n
  }

  /**
   * The result is registered and is the first registered variation of the
   * normalised name, or nothing is registered and it is the normalised name.
   */
  lemma NormalizeDatasetNameChoice(name: string, known: set<string>)
    ensures var r := NormalizeDatasetName(name, known); var vs := Variations(Normalized(name));
      (r in known && exists i :: 0 <= i < |vs| && vs[i] == r && (forall j :: 0 <= j < i ==> vs[j] !in known))
      || (r == Normalized(name) && forall i :: 0 <= i < |vs| ==> vs[i] !in known)
  {
    var n := Normalized(name);
    var vs := Variations(n);
    if n in known {
      assert vs[0] == n;
    }
  }

  /** Whatever is returned has no upper-case ASCII letter, '_' or ' '. */
  lemma NormalizeDatasetNameAvoids(name: string, known: set<string>)
    ensures Avoids(NormalizeDatasetName(name, known), Unnormal)
  {
    var n := Normalized(name);
    var vs := Variations(n);
    ReplaceAllAvoids(n, "-passage", "", Unnormal);
    ReplaceAllAvoids(n, "-document", "", Unnormal);
    ReplaceAllAvoids(n, "trec-", "", Unnormal);
    ReplaceAllAvoids(n, "trec", "", Unnormal);
    assert forall i :: 0 <= i < |vs| ==> Avoids(vs[i], Unnormal);
  }

  /** Normalising a normalised name changes nothing. */
  lemma NormalizedIdempotent(name: string)
    ensures Normalized(Normalized(name)) == Normalized(name)
  {
    var n := Normalized(name);
    LowerFixed(n, Unnormal);
    AvoidsNotContains(n, '_', Unnormal);
    AvoidsNotContains(n, ' ', Unnormal);
  }

  /** "Fi_QA" normalises to the registered "fi-qa" directly. */
  lemma NormalizeDirectExample(name: string, known: set<string>)
    requires name == "Fi_QA" && known == {"fi-qa"}
    ensures NormalizeDatasetName(name, known) == "fi-qa"
  {
    assert ToLower(name) == "fi_qa";
    assert ReplaceAll("fi_qa", "_", "-") == "fi-qa";
    assert ReplaceAll("fi-qa", " ", "-") == "fi-qa";
  }

  // ─── evaluate_dataset: best method ────────────────────────────────────────

  /**
   * `max_by` on the first `n` (method, nDCG@10) pairs: the later of two equal
   * scores wins, so the result is the position of the last maximum.
   */
  function MaxBy(scored: seq<(string, real)>, n: nat): (i: nat)
    requires 0 < n <= |scored|
    ensures i < n
    ensures forall j :: 0 <= j < n ==> scored[j].1 <= scored[i].1
    ensures forall j :: i < j < n ==> scored[j].1 < scored[i].1
  {
    if n == 1 then 0
    else
      var acc := MaxBy(scored, n - 1);
      if scored[acc].1 > scored[n - 1].1 then acc else n - 1
  }

  /** The pair `evaluate_dataset` reports; ("none", 0.0) when no method was evaluated. */
  function BestMethod(scored: seq<(string, real)>): (string, real) {
    if |scored| == 0 then ("none", 0.0) else scored[MaxBy(scored, |scored|)]
  }

  /**
   * Best method of a dataset by nDCG@10, the methods visited in the map's
   * unspecified iteration order.
   */
  method EvaluateDatasetBest(methodResults: map<string, FusionMetrics>) returns (best: string, bestNdcg: real)
    ensures methodResults == map[] ==> best == "none" && bestNdcg == 0.0
    ensures methodResults != map[] ==> best in methodResults && methodResults[best].ndcgAt10 == bestNdcg
    ensures forall m :: m in methodResults ==> methodResults[m].ndcgAt10 <= bestNdcg
  {
    var order := IterationOrder(methodResults.Keys);
    var scored := seq(|order|, i requires 0 <= i < |order| => (order[i], methodResults[order[i]].ndcgAt10));
    var b := BestMethod(scored);
    best, bestNdcg := b.0, b.1;
    forall m | m in methodResults
      ensures methodResults[m].ndcgAt10 <= bestNdcg
    {
      var i :| 0 <= i < |order| && order[i] == m;
      assert scored[i].1 == methodResults[m].ndcgAt10;
    }
    if methodResults != map[] {
      var m :| m in methodResults;
      assert m in order;
    }
  }

  // ─── evaluate_datasets_dir: run files ─────────────────────────────────────

  /** A directory entry is taken as a run file. */
  predicate IsRunFile(name: string) {
    (EndsWith(name, ".run") || EndsWith(name, ".txt"))
      && !Contains(name, "qrels") && name != "qrels.txt" && name != "qrels"
  }

  /** The two exact-name exclusions add nothing to the "qrels" substring test. */
  lemma IsRunFileExactly(name: string)
    ensures IsRunFile(name) <==> (EndsWith(name, ".run") || EndsWith(name, ".txt")) && !Contains(name, "qrels")
  {
    if name == "qrels.txt" || name == "qrels" {
      StartsWithContains(name, "qrels");
    }
  }

  /** The run files of a directory listing, in listing order. */
  function RunFiles(names: seq<string>): (r: seq<string>)
    ensures forall x :: x in r <==> x in names && IsRunFile(x)
    ensures |r| <= |names|
  {
    if |names| == 0 then []
    else
      var rest := RunFiles(names[1..]);
      if IsRunFile(names[0]) then [names[0]] + rest else rest
  }

  /** Run and text files are taken. */
  lemma RunFilesTaken(run: string, txt: string)
    requires run == "bm25.run" && txt == "dense.txt"
    ensures IsRunFile(run) && IsRunFile(txt)
  {
    AvoidsNotQrels(run);
    AvoidsNotQrels(txt);
  }

  /** A qrels file with a run-file extension, and a file of another extension, are not. */
  lemma OtherFilesSkipped(qrels: string, json: string)
    requires qrels == "test.qrels.txt" && json == "bm25.json"
    ensures !IsRunFile(qrels) && !IsRunFile(json)
  {
    assert qrels[5..][..5] == "qrels";
    StartsWithContains(qrels[5..], "qrels");
    ContainsSuffix(qrels, 5, "qrels");
  }

  /** A name without the letter 'q' does not contain "qrels". */
  lemma AvoidsNotQrels(s: string)
    requires forall i :: 0 <= i < |s| ==> s[i] != 'q'
    ensures !Contains(s, "qrels")
  {
    NoQNoQrels(s);
  }

  lemma {:induction false} NoQNoQrels(s: string)
    requires forall i :: 0 <= i < |s| ==> s[i] != 'q'
    ensures !Contains(s, "qrels")
    decreases |s|
  {
    if |s| > 0 {
      NoQNoQrels(s[1..]);
    }
    if |s| >= 5 {
      assert s[..5][0] == s[0];
    }
  }

  /** A suffix's occurrence is an occurrence. */
  lemma {:induction false} ContainsSuffix(s: string, k: nat, pattern: string)
    requires k <= |s| && Contains(s[k..], pattern)
    ensures Contains(s, pattern)
    decreases k
  {
    if k > 0 {
      assert s[1..][k - 1..] == s[k..];
      ContainsSuffix(s[1..], k - 1, pattern);
    }
  }

  // ─── compute_summary ──────────────────────────────────────────────────────

  /** What the summary reads from a `DatasetEvaluationResult`. */
  datatype DatasetResult = DatasetResult(
    datasetName: string, uniqueQueries: nat,
    methodResults: map<string, FusionMetrics>, bestMethod: string)

  /** `EvaluationSummary`; an average is a `FusionMetrics` of averaged fields. */
  datatype Summary = Summary(
    totalDatasets: nat, totalQueries: nat,
    methodAverages: map<string, FusionMetrics>,
    bestMethodsPerDataset: map<string, string>)

  /** Σ `unique_queries`. */
  function TotalQueries(results: seq<DatasetResult>): nat {
    if |results| == 0 then 0
    else TotalQueries(results[..|results| - 1]) + results[|results| - 1].uniqueQueries
  }

  /** Every method some dataset reports. */
  function AllMethods(results: seq<DatasetResult>): set<string> {
    set r, m | r in results && m in r.methodResults :: m
  }

  /** What dataset `r` reports for method `name`, if it reports it. */
  function Reported(r: DatasetResult, name: string): Option<FusionMetrics> {
    if name in r.methodResults then Some(r.methodResults[name]) else None
  }

  /** The sums and count of method `name`'s metrics over the datasets that report it. */
  function MethodTally(results: seq<DatasetResult>, name: string): Tally {
    if |results| == 0 then Tally(Zero, 0)
    else Add(MethodTally(results[..|results| - 1], name), Reported(results[|results| - 1], name))
  }

  /** Dataset name to best method; of two results with one name, the later one's. */
  function BestMethods(results: seq<DatasetResult>): map<string, string> {
    if |results| == 0 then map[]
    else
      var last := results[|results| - 1];
      BestMethods(results[..|results| - 1])[last.datasetName := last.bestMethod]
  }

  /**
   * `compute_summary`.  The methods are visited in the unspecified order of
   * a hash set; each average is taken over the datasets reporting the method.
   */
  method ComputeSummary(results: seq<DatasetResult>) returns (s: Summary)
    ensures s.totalDatasets == |results|
    ensures s.totalQueries == TotalQueries(results)
    ensures s.methodAverages.Keys == AllMethods(results)
    ensures forall m :: m in s.methodAverages ==> s.methodAverages[m] == Averaged(MethodTally(results, m))
    ensures s.bestMethodsPerDataset == BestMethods(results)
  {
    var allMethods := AllMethods(results);
    var order := IterationOrder(allMethods);
    var methodAverages: map<string, FusionMetrics> := map[];
    for n := 0 to |order|
      invariant methodAverages.Keys == set m | m in order[..n]
      invariant forall m :: m in methodAverages ==> methodAverages[m] == Averaged(MethodTally(results, m))
    {
      var methodName := order[n];
      var sum := Zero;
      var count: nat := 0;
      for i := 0 to |results|
        invariant Tally(sum, count) == MethodTally(results[..i], methodName)
      {
        assert results[..i + 1][..i] == results[..i];
        if methodName in results[i].methodResults {
          sum := Plus(sum, results[i].methodResults[methodName]);
          count := count + 1;
        }
      }
      assert results[..|results|] == results;
      MethodCounted(results, methodName);
      if count > 0 {
        methodAverages := methodAverages[methodName := Averaged(Tally(sum, count))];
      }
      assert order[..n + 1] == order[..n] + [methodName];
    }
    assert order[..|order|] == order;
    s := Summary(|results|, TotalQueries(results), methodAverages, BestMethods(results));
  }

  /** A method is counted by some dataset exactly when some dataset reports it: every divisor is at least 1. */
  lemma {:induction false} MethodCounted(results: seq<DatasetResult>, name: string)
    ensures MethodTally(results, name).count >= 1 <==> name in AllMethods(results)
  {
    if |results| > 0 {
      var front := results[..|results| - 1];
      var last := results[|results| - 1];
      MethodCounted(front, name);
      assert forall r :: r in front ==> r in results;
      if name in AllMethods(results) && name !in last.methodResults {
        var r :| r in results && name in r.methodResults;
        assert r in front;
      }
    }
  }

  /** The summary's best-method map has one key per dataset name, holding the last such dataset's best method. */
  lemma {:induction false} BestMethodsLastWins(results: seq<DatasetResult>, i: nat)
    requires i < |results|
    requires forall j :: i < j < |results| ==> results[j].datasetName != results[i].datasetName
    ensures results[i].datasetName in BestMethods(results)
    ensures BestMethods(results)[results[i].datasetName] == results[i].bestMethod
  {
    if i < |results| - 1 {
      BestMethodsLastWins(results[..|results| - 1], i);
    }
  }

  /** The summary's best-method map is keyed by exactly the dataset names. */
  lemma {:induction false} BestMethodsKeys(results: seq<DatasetResult>)
    ensures forall n :: n in BestMethods(results) <==> exists r :: r in results && r.datasetName == n
  {
    if |results| > 0 {
      var front := results[..|results| - 1];
      BestMethodsKeys(front);
      assert forall r :: r in front ==> r in results;
      forall n | exists r :: r in results && r.datasetName == n
        ensures n in BestMethods(results)
      {
        var r :| r in results && r.datasetName == n;
        if r != results[|results| - 1] {
          assert r in front;
        }
      }
    }
  }

  /** All six fields lie in [0, 1]. */
  predicate InUnit(m: FusionMetrics) {
    0.0 <= m.ndcgAt10 <= 1.0 && 0.0 <= m.ndcgAt100 <= 1.0 && 0.0 <= m.meanAveragePrecision <= 1.0
      && 0.0 <= m.mrr <= 1.0 && 0.0 <= m.precisionAt10 <= 1.0 && 0.0 <= m.recallAt100 <= 1.0
  }

  /** Each field of `s` lies in [0, n]. */
  predicate WithinCount(s: FusionMetrics, n: real) {
    0.0 <= s.ndcgAt10 <= n && 0.0 <= s.ndcgAt100 <= n && 0.0 <= s.meanAveragePrecision <= n
      && 0.0 <= s.mrr <= n && 0.0 <= s.precisionAt10 <= n && 0.0 <= s.recallAt100 <= n
  }

  lemma {:induction false} MethodTallyWithin(results: seq<DatasetResult>, name: string)
    requires forall r :: r in results && name in r.methodResults ==> InUnit(r.methodResults[name])
    ensures WithinCount(MethodTally(results, name).sum, MethodTally(results, name).count as real)
  {
    if |results| > 0 {
      var front := results[..|results| - 1];
      assert forall r :: r in front ==> r in results;
      MethodTallyWithin(front, name);
    }
  }

  /** When every reported metric lies in [0, 1], so does every average of the summary. */
  lemma AveragesInUnit(results: seq<DatasetResult>, name: string)
    requires forall r :: r in results && name in r.methodResults ==> InUnit(r.methodResults[name])
    requires name in AllMethods(results)
    ensures InUnit(Averaged(MethodTally(results, name)))
  {
    var t := MethodTally(results, name);
    MethodCounted(results, name);
    MethodTallyWithin(results, name);
    var n := t.count as real;
    Metrics.DivWithinUnit(t.sum.ndcgAt10, n);
    Metrics.DivWithinUnit(t.sum.ndcgAt100, n);
    Metrics.DivWithinUnit(t.sum.meanAveragePrecision, n);
    Metrics.DivWithinUnit(t.sum.mrr, n);
    Metrics.DivWithinUnit(t.sum.precisionAt10, n);
    Metrics.DivWithinUnit(t.sum.recallAt100, n);
  }
}
