/**
 * The checks `validate_trec_runs` (`evals/src/dataset_converters.rs`) makes
 * once the run file is loaded: an empty file is invalid, repeated
 * (query, doc, run tag) entries and non-sequential ranks within a query are
 * warnings, and the statistics count entries, queries, documents and tags.
 * Loading the file is not modelled: the validator receives the parsed runs.
 */
module TrecValidation {
  import opened Wrappers
  import opened Sorting
  import opened KeyOrder
  import opened Grouping

  /** A loaded TREC run line. */
  datatype TrecRun = TrecRun(queryId: string, docId: string, rank: nat, score: real, runTag: string)

  datatype TrecError = FileEmpty   // "File is empty"

  datatype Warning =
    | DuplicateEntry(queryId: string, docId: string, runTag: string)   // "Duplicate entry: …"
    | RankNotSequential(queryId: string, rank: nat, expected: nat)    // "Query {q}: rank {r} not sequential (expected {e})"

  datatype ConversionStats = ConversionStats(totalEntries: nat, uniqueQueries: nat, uniqueDocuments: nat, uniqueRunTags: nat)

  datatype ValidationResult = ValidationResult(
    isValid: bool, errors: seq<TrecError>, warnings: seq<Warning>, stats: Option<ConversionStats>)

  function QueryOf(r: TrecRun): string {
    r.queryId
  }

  function DocOf(r: TrecRun): string {
    r.docId
  }

  function TagOf(r: TrecRun): string {
    r.runTag
  }

  // ─── duplicate entries ────────────────────────────────────────────────────

  /** The identity of an entry: its query, document and run tag. */
  function Triple(r: TrecRun): (string, string, string) {
    (r.queryId, r.docId, r.runTag)
  }

  function Triples(runs: seq<TrecRun>): set<(string, string, string)> {
    set i | 0 <= i < |runs| :: Triple(runs[i])
  }

  /** One warning per entry whose (query, doc, tag) already occurred earlier. */
  function DuplicateWarnings(runs: seq<TrecRun>): seq<Warning> {
    if |runs| == 0 then []
    else
      var r := runs[|runs| - 1];
      DuplicateWarnings(runs[..|runs| - 1])
        + (if Triple(r) in Triples(runs[..|runs| - 1]) then [DuplicateEntry(r.queryId, r.docId, r.runTag)] else [])
  }

  lemma TriplesSnoc(runs: seq<TrecRun>, i: nat)
    requires i < |runs|
    ensures Triples(runs[..i + 1]) == Triples(runs[..i]) + {Triple(runs[i])}
  {
    var p := runs[..i + 1];
    assert p[i] == runs[i];
    forall t | t in Triples(p)
      ensures t in Triples(runs[..i]) + {Triple(runs[i])}
    {
      var j :| 0 <= j < |p| && Triple(p[j]) == t;
      if j < i {
        assert runs[..i][j] == p[j];
      }
    }
  }

  /** The duplicate scan: a `seen` set of entry identities and a warning for each repeat. */
  method DuplicateScan(runs: seq<TrecRun>) returns (warnings: seq<Warning>)
    ensures warnings == DuplicateWarnings(runs)
  {
    var seen: set<(string, string, string)> := {};
    warnings := [];
    for i := 0 to |runs|
      invariant seen == Triples(runs[..i])
      invariant warnings == DuplicateWarnings(runs[..i])
    {
      var run := runs[i];
      assert runs[..i + 1][..i] == runs[..i];
      TriplesSnoc(runs, i);
      var key := Triple(run);
      if key in seen {
        warnings := warnings + [DuplicateEntry(run.queryId, run.docId, run.runTag)];
      }
      seen := seen + {key};
    }
    assert runs[..|runs|] == runs;
  }

  /** Every entry is either the first with its identity or warned about: one warning per repeat. */
  lemma {:induction false} DuplicateWarningsCount(runs: seq<TrecRun>)
    ensures |DuplicateWarnings(runs)| + |Triples(runs)| == |runs|
  {
    if |runs| > 0 {
      var p := runs[..|runs| - 1];
      DuplicateWarningsCount(p);
      TriplesSnoc(runs, |runs| - 1);
      assert runs[..|runs|] == runs;
      var t := Triple(runs[|runs| - 1]);
      if t in Triples(p) {
        assert Triples(runs) == Triples(p);
      } else {
        assert |Triples(p) + {t}| == |Triples(p)| + 1;
      }
    }
  }

  /** No entry identity repeats. */
  predicate DistinctEntries(runs: seq<TrecRun>) {
    forall i, j :: 0 <= i < j < |runs| ==> Triple(runs[i]) != Triple(runs[j])
  }

  /** There is no duplicate warning exactly when no (query, doc, tag) repeats. */
  lemma {:induction false} NoDuplicateWarningsIffDistinct(runs: seq<TrecRun>)
    ensures DuplicateWarnings(runs) == [] <==> DistinctEntries(runs)
  {
    if |runs| > 0 {
      var p := runs[..|runs| - 1];
      var last := |runs| - 1;
      NoDuplicateWarningsIffDistinct(p);
      if DistinctEntries(runs) {
        assert DistinctEntries(p) by {
          forall i, j | 0 <= i < j < |p|
            ensures Triple(p[i]) != Triple(p[j])
          {
            assert p[i] == runs[i] && p[j] == runs[j];
          }
        }
      }
      if DuplicateWarnings(runs) == [] {
        forall i, j | 0 <= i < j < |runs|
          ensures Triple(runs[i]) != Triple(runs[j])
        {
          assert runs[i] == p[i];
          if j < last {
            assert runs[j] == p[j];
          } else {
            assert Triple(p[i]) in Triples(p);
          }
        }
      }
    }
  }

  // ─── the duplicate key as written ─────────────────────────────────────────

  /** The key as the source builds it: the three fields joined by ':'. */
  function KeyAsWritten(r: TrecRun): string {
    r.queryId + ":" + r.docId + ":" + r.runTag
  }

  function KeysAsWritten(runs: seq<TrecRun>): set<string> {
    set i | 0 <= i < |runs| :: KeyAsWritten(runs[i])
  }

  /** The keys the source warns about: an entry whose joined key already occurred. */
  function DuplicateKeysAsWritten(runs: seq<TrecRun>): seq<string> {
    if |runs| == 0 then []
    else
      var r := runs[|runs| - 1];
      DuplicateKeysAsWritten(runs[..|runs| - 1])
        + (if KeyAsWritten(r) in KeysAsWritten(runs[..|runs| - 1]) then [KeyAsWritten(r)] else [])
  }

  lemma KeysSnoc(runs: seq<TrecRun>, i: nat)
    requires i < |runs|
    ensures KeysAsWritten(runs[..i + 1]) == KeysAsWritten(runs[..i]) + {KeyAsWritten(runs[i])}
  {
    var p := runs[..i + 1];
    assert p[i] == runs[i];
    forall k | k in KeysAsWritten(p)
      ensures k in KeysAsWritten(runs[..i]) + {KeyAsWritten(runs[i])}
    {
      var j :| 0 <= j < |p| && KeyAsWritten(p[j]) == k;
      if j < i {
        assert runs[..i][j] == p[j];
      }
    }
  }

  /** As written, one warning per entry whose joined key already occurred. */
  lemma {:induction false} DuplicateKeysAsWrittenCount(runs: seq<TrecRun>)
    ensures |DuplicateKeysAsWritten(runs)| + |KeysAsWritten(runs)| == |runs|
  {
    if |runs| > 0 {
      var p := runs[..|runs| - 1];
      DuplicateKeysAsWrittenCount(p);
      KeysSnoc(runs, |runs| - 1);
      assert runs[..|runs|] == runs;
      var k := KeyAsWritten(runs[|runs| - 1]);
      if k in KeysAsWritten(p) {
        assert KeysAsWritten(runs) == KeysAsWritten(p);
      } else {
        assert |KeysAsWritten(p) + {k}| == |KeysAsWritten(p)| + 1;
      }
    }
  }

  /**
   * Joining with ':' is not injective: two different entries whose ids contain
   * ':' get the same key, so the source reports a duplicate that is not one.
   */
  lemma KeyAsWrittenCollides()
    ensures var runs := [TrecRun("a:b", "c", 1, 1.0, "t"), TrecRun("a", "b:c", 1, 1.0, "t")];
      && DistinctEntries(runs)
      && DuplicateWarnings(runs) == []
      && DuplicateKeysAsWritten(runs) == ["a:b:c:t"]
  {
    var r1, r2 := TrecRun("a:b", "c", 1, 1.0, "t"), TrecRun("a", "b:c", 1, 1.0, "t");
    var runs := [r1, r2];
    assert KeyAsWritten(r1) == "a:b:c:t" == KeyAsWritten(r2);
    assert Triple(r1) != Triple(r2);
    assert runs[..1] == [r1] && [r1][..0] == [];
    assert KeyAsWritten(r2) in KeysAsWritten([r1]) by {
      assert KeyAsWritten([r1][0]) == KeyAsWritten(r2);
    }
    assert Triples([r1]) == {Triple(r1)};
    NoDuplicateWarningsIffDistinct(runs);
  }

  /** The joined key a duplicate warning names, as the source prints it. */
  function JoinedKey(w: Warning): string {
    if w.DuplicateEntry? then w.queryId + ":" + w.docId + ":" + w.runTag else ""
  }

  function JoinedKeys(ws: seq<Warning>): (keys: seq<string>)
    ensures |keys| == |ws|
  {
    if |ws| == 0 then [] else JoinedKeys(ws[..|ws| - 1]) + [JoinedKey(ws[|ws| - 1])]
  }

  predicate ColonFree(r: TrecRun) {
    ':' !in r.queryId && ':' !in r.docId && ':' !in r.runTag
  }

  /** Two colon-free heads joined by ':' to tails agree only when heads and tails agree. */
  lemma JoinSplits(a: string, x: string, b: string, y: string)
    requires ':' !in a && ':' !in b
    requires a + ":" + x == b + ":" + y
    ensures a == b && x == y
  {
    var s := a + ":" + x;
    assert s == b + ":" + y;
    // the first ':' of the joined key sits just after its head
    assert forall i :: 0 <= i < |a| ==> s[i] == a[i] && a[i] in a;
    assert forall i :: 0 <= i < |b| ==> s[i] == b[i] && b[i] in b;
    assert s[|a|] == ':' && s[|b|] == ':';
    assert a == s[..|a|] && b == (b + ":" + y)[..|b|];
    assert x == s[|a| + 1..] && y == (b + ":" + y)[|b| + 1..];
  }

  /** Without ':' in any field, the joined key determines the entry's identity. */
  lemma JoinedKeyInjective(r1: TrecRun, r2: TrecRun)
    requires ColonFree(r1) && ColonFree(r2)
    requires KeyAsWritten(r1) == KeyAsWritten(r2)
    ensures Triple(r1) == Triple(r2)
  {
    var x1, x2 := r1.docId + ":" + r1.runTag, r2.docId + ":" + r2.runTag;
    assert KeyAsWritten(r1) == r1.queryId + ":" + x1;
    assert KeyAsWritten(r2) == r2.queryId + ":" + x2;
    JoinSplits(r1.queryId, x1, r2.queryId, x2);
    JoinSplits(r1.docId, r1.runTag, r2.docId, r2.runTag);
  }

  lemma SeenAgree(p: seq<TrecRun>, r: TrecRun)
    requires ColonFree(r) && forall i :: 0 <= i < |p| ==> ColonFree(p[i])
    ensures KeyAsWritten(r) in KeysAsWritten(p) <==> Triple(r) in Triples(p)
  {
    if KeyAsWritten(r) in KeysAsWritten(p) {
      var i :| 0 <= i < |p| && KeyAsWritten(p[i]) == KeyAsWritten(r);
      JoinedKeyInjective(p[i], r);
    }
    if Triple(r) in Triples(p) {
      var i :| 0 <= i < |p| && Triple(p[i]) == Triple(r);
      assert KeyAsWritten(p[i]) == KeyAsWritten(r);
    }
  }

  /**
   * When no query, document or run tag contains ':', the source's joined key
   * and the (query, doc, tag) identity give the same duplicate warnings.
   */
  lemma {:induction false} AsWrittenAgreesWithoutColons(runs: seq<TrecRun>)
    requires forall i :: 0 <= i < |runs| ==> ColonFree(runs[i])
    ensures DuplicateKeysAsWritten(runs) == JoinedKeys(DuplicateWarnings(runs))
  {
    if |runs| > 0 {
      var p, r := runs[..|runs| - 1], runs[|runs| - 1];
      AsWrittenAgreesWithoutColons(p);
      SeenAgree(p, r);
      var ws := DuplicateWarnings(p);
      if Triple(r) in Triples(p) {
        var w := DuplicateEntry(r.queryId, r.docId, r.runTag);
        assert (ws + [w])[..|ws|] == ws;
        assert JoinedKeys(ws + [w]) == JoinedKeys(ws) + [KeyAsWritten(r)];
      } else {
        assert ws + [] == ws;
      }
    }
  }

  // ─── rank order within each query ─────────────────────────────────────────

  /** `sort_by_key(|r| r.rank)`: smaller rank first, stably. */
  predicate RankLe(a: TrecRun, b: TrecRun) {
    a.rank <= b.rank
  }

  lemma RankLeTotalPreorder()
    ensures TotalPreorder(RankLe)
  {
  }

  /** The warnings of one query's rank-sorted runs: position p expects rank p + 1. */
  function RankWarnings(q: string, sorted: seq<TrecRun>): seq<Warning> {
    if |sorted| == 0 then []
    else
      var r := sorted[|sorted| - 1];
      RankWarnings(q, sorted[..|sorted| - 1])
        + (if r.rank != |sorted| then [RankNotSequential(q, r.rank, |sorted|)] else [])
  }

  /** `by_query`: each query's runs (over every run tag), in input order. */
  function GroupsOf(runs: seq<TrecRun>): map<string, seq<TrecRun>> {
    map q | q in KeySet(runs, QueryOf) :: GroupOf(runs, QueryOf, q)
  }

  /** The rank warnings of the queries `order`, query by query, each group sorted by rank. */
  function RankWarningsIn(order: seq<string>, groups: map<string, seq<TrecRun>>): seq<Warning>
    requires forall q :: q in order ==> q in groups
  {
    if |order| == 0 then []
    else
      var q := order[|order| - 1];
      RankWarningsIn(order[..|order| - 1], groups) + RankWarnings(q, SortBy(groups[q], RankLe))
  }

  /** A warning names exactly a position whose rank is not its 1-based position. */
  lemma {:induction false} RankWarningsExact(q: string, sorted: seq<TrecRun>)
    ensures forall w :: w in RankWarnings(q, sorted) <==>
      exists p :: 0 <= p < |sorted| && sorted[p].rank != p + 1 && w == RankNotSequential(q, sorted[p].rank, p + 1)
  {
    if |sorted| > 0 {
      var s := sorted[..|sorted| - 1];
      RankWarningsExact(q, s);
      forall w
        ensures w in RankWarnings(q, sorted) <==>
          exists p :: 0 <= p < |sorted| && sorted[p].rank != p + 1 && w == RankNotSequential(q, sorted[p].rank, p + 1)
      {
        if w in RankWarnings(q, s) {
          var p :| 0 <= p < |s| && s[p].rank != p + 1 && w == RankNotSequential(q, s[p].rank, p + 1);
          assert sorted[p] == s[p];
        }
        if exists p :: 0 <= p < |sorted| && sorted[p].rank != p + 1 && w == RankNotSequential(q, sorted[p].rank, p + 1) {
          var p :| 0 <= p < |sorted| && sorted[p].rank != p + 1 && w == RankNotSequential(q, sorted[p].rank, p + 1);
          if p < |s| {
            assert s[p] == sorted[p];
          }
        }
      }
    }
  }

  /** A query has no rank warning exactly when its rank-sorted runs have ranks 1, 2, 3, … */
  lemma RankWarningsEmptyIff(q: string, sorted: seq<TrecRun>)
    ensures RankWarnings(q, sorted) == [] <==> forall p :: 0 <= p < |sorted| ==> sorted[p].rank == p + 1
  {
    RankWarningsExact(q, sorted);
    if RankWarnings(q, sorted) != [] {
      assert RankWarnings(q, sorted)[0] in RankWarnings(q, sorted);
    }
  }

  /** The check of one query: its runs, already sorted by rank, position by position. */
  method AppendRankWarnings(warnings: seq<Warning>, q: string, sorted: seq<TrecRun>) returns (out: seq<Warning>)
    ensures out == warnings + RankWarnings(q, sorted)
  {
    out := warnings;
    for expectedRank := 0 to |sorted|
      invariant out == warnings + RankWarnings(q, sorted[..expectedRank])
    {
      var run := sorted[expectedRank];
      assert sorted[..expectedRank + 1][..expectedRank] == sorted[..expectedRank];
      if run.rank != expectedRank + 1 {
        out := out + [RankNotSequential(q, run.rank, expectedRank + 1)];
      }
    }
    assert sorted[..|sorted|] == sorted;
  }

  /** One iteration of the per-query loop: sort the query's runs by rank, then check them. */
  method CheckQueryRanks(warnings: seq<Warning>, queryId: string, queryRuns: seq<TrecRun>) returns (out: seq<Warning>)
    ensures out == warnings + RankWarnings(queryId, SortBy(queryRuns, RankLe))
  {
    var sorted := SortBy(queryRuns, RankLe);
    out := AppendRankWarnings(warnings, queryId, sorted);
  }

  lemma ConcatAssoc<T>(a: seq<T>, b: seq<T>, c: seq<T>)
    ensures (a + b) + c == a + (b + c)
  {
  }

  lemma RankWarningsInSnoc(order: seq<string>, q: string, groups: map<string, seq<TrecRun>>)
    requires forall x :: x in order ==> x in groups
    requires q in groups
    ensures RankWarningsIn(order + [q], groups) == RankWarningsIn(order, groups) + RankWarnings(q, SortBy(groups[q], RankLe))
  {
    assert (order + [q])[..|order|] == order;
  }

  lemma RankScanStep(warnings: seq<Warning>, order: seq<string>, n: nat, groups: map<string, seq<TrecRun>>)
    requires n < |order| && forall q :: q in order ==> q in groups
    ensures order[n] in groups
    ensures warnings + RankWarningsIn(order[..n + 1], groups)
         == (warnings + RankWarningsIn(order[..n], groups)) + RankWarnings(order[n], SortBy(groups[order[n]], RankLe))
  {
    assert order[n] in order;
    assert order[..n + 1] == order[..n] + [order[n]];
    RankWarningsInSnoc(order[..n], order[n], groups);
    ConcatAssoc(warnings, RankWarningsIn(order[..n], groups), RankWarnings(order[n], SortBy(groups[order[n]], RankLe)));
  }

  /** The per-query loop, `for (query_id, query_runs) in &by_query`, in the order `order`. */
  method RankScan(byQuery: map<string, seq<TrecRun>>, order: seq<string>, warnings: seq<Warning>)
    returns (out: seq<Warning>)
    requires forall q :: q in order ==> q in byQuery
    ensures out == warnings + RankWarningsIn(order, byQuery)
  {
    out := warnings;
    for n := 0 to |order|
      invariant out == warnings + RankWarningsIn(order[..n], byQuery)
    {
      var queryId := order[n];
      assert queryId in order;
      out := CheckQueryRanks(out, queryId, byQuery[queryId]);
      RankScanStep(warnings, order, n, byQuery);
    }
    assert order[..|order|] == order;
  }

  // ─── validate_trec_runs ───────────────────────────────────────────────────

  function Docs(runs: seq<TrecRun>): set<string> {
    set i | 0 <= i < |runs| :: runs[i].docId
  }

  function Tags(runs: seq<TrecRun>): set<string> {
    set i | 0 <= i < |runs| :: runs[i].runTag
  }

  /**
   * `validate_trec_runs` after loading.  The queries' rank warnings come in
   * the iteration order of the grouping map, which `order` names.
   */
  method ValidateTrecRuns(runs: seq<TrecRun>) returns (result: ValidationResult, ghost order: seq<string>)
    ensures |runs| == 0 ==> result == ValidationResult(false, [FileEmpty], [], None)
    ensures |runs| > 0 ==> result.isValid && result.errors == []
    ensures |runs| > 0 ==> NoRepeats(order) && forall q :: q in order <==> q in KeySet(runs, QueryOf)
    ensures |runs| > 0 ==> result.warnings == DuplicateWarnings(runs) + RankWarningsIn(order, GroupsOf(runs))
    ensures |runs| > 0 ==> result.stats == Some(ConversionStats(|runs|, |KeySet(runs, QueryOf)|, |Docs(runs)|, |Tags(runs)|))
  {
    if |runs| == 0 {
      return ValidationResult(false, [FileEmpty], [], None), [];
    }
    var errors: seq<TrecError> := [];
    var warnings := DuplicateScan(runs);
    var byQuery := GroupBy(runs, QueryOf);
    assert byQuery == GroupsOf(runs);
    var queryOrder := IterationOrder(byQuery.Keys);
    warnings := RankScan(byQuery, queryOrder, warnings);
    order := queryOrder;
    var stats := ConversionStats(|runs|, |byQuery|, |Docs(runs)|, |Tags(runs)|);
    result := ValidationResult(errors == [], errors, warnings, Some(stats));
  }

  /** The statistics are consistent: at least one and at most `total` queries, documents and tags. */
  lemma StatsBounds(runs: seq<TrecRun>)
    requires |runs| > 0
    ensures 1 <= |KeySet(runs, QueryOf)| <= |runs|
    ensures 1 <= |Docs(runs)| <= |runs|
    ensures 1 <= |Tags(runs)| <= |runs|
  {
    KeySetBounds(runs, QueryOf);
    assert Docs(runs) == KeySet(runs, DocOf);
    KeySetBounds(runs, DocOf);
    assert Tags(runs) == KeySet(runs, TagOf);
    KeySetBounds(runs, TagOf);
  }
}
