/**
 * The dataset converters of `evals/src/dataset_converters.rs`, as generators
 * of the TREC lines they write.  File reading, JSON parsing and writing are
 * not modelled: the converters receive the parsed records (or the input
 * lines and a parser) and return the lines in the order they are written.
 */
module Converters {
  import opened Wrappers
  import opened Strings
  import opened Sorting
  import opened KeyOrder
  import opened Decoding
  import opened Grouping

  /** `HuggingFaceExample` (its unused `rank` field left out). */
  datatype HfExample = HfExample(queryId: string, docId: string, score: real)

  /** `HuggingFaceQrel`, which is also the content of a qrels line `{query} 0 {doc} {relevance}`. */
  datatype Qrel = Qrel(queryId: string, docId: string, relevance: nat)

  /** A runs line `{query} Q0 {doc} {rank} {score:.6} {tag}` (score formatting not modelled). */
  datatype RunLine = RunLine(queryId: string, docId: string, rank: nat, score: real, runTag: string)

  // ─── convert_hf_to_trec_runs ──────────────────────────────────────────────

  function QueryOf(e: HfExample): string {
    e.queryId
  }

  function QueryIds(data: seq<HfExample>): set<string> {
    KeySet(data, QueryOf)
  }

  /** The examples of one query, in input order (`by_query[q]` after grouping). */
  function QueryGroup(data: seq<HfExample>, q: string): seq<HfExample> {
    GroupOf(data, QueryOf, q)
  }

  /** `b.score.partial_cmp(&a.score)`: a higher score may come first. */
  predicate ScoreDesc(a: HfExample, b: HfExample) {
    a.score >= b.score
  }

  /** The examples of one query after the stable descending sort. */
  function RankedGroup(data: seq<HfExample>, q: string): seq<HfExample> {
    SortBy(QueryGroup(data, q), ScoreDesc)
  }

  /** The lines of one query: the j-th example gets rank j + 1. */
  function GroupLines(q: string, group: seq<HfExample>, tag: string): (lines: seq<RunLine>)
    ensures |lines| == |group|
  {
    seq(|group|, j requires 0 <= j < |group| => RunLine(q, group[j].docId, j + 1, group[j].score, tag))
  }

  /** The lines of the queries `qids`, one block per query, in that order. */
  function EmitRuns(qids: seq<string>, data: seq<HfExample>, tag: string): seq<RunLine> {
    if |qids| == 0 then []
    else
      var q := qids[|qids| - 1];
      EmitRuns(qids[..|qids| - 1], data, tag) + GroupLines(q, RankedGroup(data, q), tag)
  }

  /** The emitting loop for one query: appends its lines with ranks 1, 2, 3, … */
  method AppendGroupLines(lines: seq<RunLine>, queryId: string, examples: seq<HfExample>, runTag: string)
    returns (out: seq<RunLine>)
    ensures out == lines + GroupLines(queryId, examples, runTag)
  {
    out := lines;
    for rank := 0 to |examples|
      invariant out == lines + GroupLines(queryId, examples[..rank], runTag)
    {
      var example := examples[rank];
      out := out + [RunLine(queryId, example.docId, rank + 1, example.score, runTag)];
      assert GroupLines(queryId, examples[..rank + 1], runTag)
        == GroupLines(queryId, examples[..rank], runTag) + [RunLine(queryId, example.docId, rank + 1, example.score, runTag)];
    }
    assert examples[..|examples|] == examples;
  }

  /** The emitting loop of `convert_hf_to_trec_runs`, over the already sorted groups. */
  method EmitSortedGroups(queryIds: seq<string>, sortedGroups: map<string, seq<HfExample>>,
                          ghost data: seq<HfExample>, runTag: string) returns (lines: seq<RunLine>)
    requires forall i :: 0 <= i < |queryIds| ==> queryIds[i] in sortedGroups
    requires forall q :: q in sortedGroups ==> sortedGroups[q] == RankedGroup(data, q)
    ensures lines == EmitRuns(queryIds, data, runTag)
  {
    lines := [];
    for n := 0 to |queryIds|
      invariant lines == EmitRuns(queryIds[..n], data, runTag)
    {
      var queryId := queryIds[n];
      lines := AppendGroupLines(lines, queryId, sortedGroups[queryId], runTag);
      assert queryIds[..n + 1][..n] == queryIds[..n];
    }
    assert queryIds[..|queryIds|] == queryIds;
  }

  /** `convert_hf_to_trec_runs`: group by query, sort each group, emit the queries in ascending order. */
  method ConvertHfToTrecRuns(data: seq<HfExample>, runTag: string) returns (lines: seq<RunLine>)
    ensures lines == EmitRuns(SortedElems(QueryIds(data)), data, runTag)
  {
    var byQuery := GroupBy(data, QueryOf);
    var sortedGroups := SortGroups(data, byQuery);
    var queryIds := SortedKeys(byQuery.Keys);
    SortedKeysListed(queryIds, sortedGroups);
    lines := EmitSortedGroups(queryIds, sortedGroups, data, runTag);
  }

  /** The sorting pass of `convert_hf_to_trec_runs`: every query's group, descending by score. */
  method SortGroups(ghost data: seq<HfExample>, byQuery: map<string, seq<HfExample>>)
    returns (sortedGroups: map<string, seq<HfExample>>)
    requires forall q :: q in byQuery ==> byQuery[q] == GroupOf(data, QueryOf, q)
    ensures sortedGroups.Keys == byQuery.Keys
    ensures forall q :: q in sortedGroups ==> sortedGroups[q] == RankedGroup(data, q)
  {
    sortedGroups := map q | q in byQuery :: SortBy(byQuery[q], ScoreDesc);
    SortedGroupsRanked(data, byQuery, sortedGroups);
  }

  /** Sorting every group of the grouped examples gives each query's ranked group. */
  lemma SortedGroupsRanked(data: seq<HfExample>, byQuery: map<string, seq<HfExample>>,
                           sortedGroups: map<string, seq<HfExample>>)
    requires forall q :: q in byQuery ==> byQuery[q] == GroupOf(data, QueryOf, q)
    requires sortedGroups == map q | q in byQuery :: SortBy(byQuery[q], ScoreDesc)
    ensures sortedGroups.Keys == byQuery.Keys
    ensures forall q :: q in sortedGroups ==> sortedGroups[q] == RankedGroup(data, q)
  {
    forall q | q in sortedGroups
      ensures sortedGroups[q] == RankedGroup(data, q)
    {
      assert QueryGroup(data, q) == byQuery[q];
    }
  }

  lemma SortedKeysListed(r: seq<string>, m: map<string, seq<HfExample>>)
    requires r == SortedElems(m.Keys)
    ensures forall i :: 0 <= i < |r| ==> r[i] in m
  {
  }

  /** Within one query's block the ranks are 1, 2, 3, … and the scores do not increase. */
  lemma RankedGroupLines(data: seq<HfExample>, q: string, tag: string)
    ensures |GroupLines(q, RankedGroup(data, q), tag)| == |QueryGroup(data, q)|
    ensures multiset(RankedGroup(data, q)) == multiset(QueryGroup(data, q))
    ensures forall j :: 0 <= j < |GroupLines(q, RankedGroup(data, q), tag)| ==>
      GroupLines(q, RankedGroup(data, q), tag)[j] == RunLine(q, RankedGroup(data, q)[j].docId, j + 1, RankedGroup(data, q)[j].score, tag)
    ensures forall i, j :: 0 <= i < j < |GroupLines(q, RankedGroup(data, q), tag)| ==>
      GroupLines(q, RankedGroup(data, q), tag)[i].score >= GroupLines(q, RankedGroup(data, q), tag)[j].score
  {
    ScoreDescTotalPreorder();
    assert SortedBy(RankedGroup(data, q), ScoreDesc);
  }

  lemma ScoreDescTotalPreorder()
    ensures TotalPreorder(ScoreDesc)
  {
    forall a: HfExample, b: HfExample
      ensures ScoreDesc(a, b) || ScoreDesc(b, a)
    {
    }
    forall a: HfExample, b: HfExample, c: HfExample | ScoreDesc(a, b) && ScoreDesc(b, c)
      ensures ScoreDesc(a, c)
    {
    }
  }

  lemma {:induction false} EmitRunsSize(qids: seq<string>, data: seq<HfExample>, tag: string)
    ensures |EmitRuns(qids, data, tag)| == GroupSizes(qids, data, QueryOf)
  {
    if |qids| > 0 {
      EmitRunsSize(qids[..|qids| - 1], data, tag);
      RankedGroupLines(data, qids[|qids| - 1], tag);
    }
  }

  /** One line per input example. */
  lemma RunsOneLinePerExample(data: seq<HfExample>, tag: string)
    ensures |EmitRuns(SortedElems(QueryIds(data)), data, tag)| == |data|
  {
    var qids := SortedElems(QueryIds(data));
    EmitRunsSize(qids, data, tag);
    GroupSizesCover(qids, data, QueryOf);
  }

  /** Queries come out in ascending order (each query's lines form one block), all with the run tag. */
  lemma EmitRunsQueryOrder(qids: seq<string>, data: seq<HfExample>, tag: string)
    requires StrictlyAscending(qids)
    ensures forall i :: 0 <= i < |EmitRuns(qids, data, tag)| ==>
      EmitRuns(qids, data, tag)[i].queryId in qids && EmitRuns(qids, data, tag)[i].runTag == tag
    ensures forall i, j :: 0 <= i < j < |EmitRuns(qids, data, tag)| ==>
      StrLe(EmitRuns(qids, data, tag)[i].queryId, EmitRuns(qids, data, tag)[j].queryId)
  {
    EmitRunsMembers(qids, data, tag);
    EmitRunsAscending(qids, data, tag);
  }

  /** Every line belongs to one of the queries and carries the run tag. */
  lemma {:induction false} EmitRunsMembers(qids: seq<string>, data: seq<HfExample>, tag: string)
    ensures forall i :: 0 <= i < |EmitRuns(qids, data, tag)| ==>
      EmitRuns(qids, data, tag)[i].queryId in qids && EmitRuns(qids, data, tag)[i].runTag == tag
  {
    if |qids| > 0 {
      var p := qids[..|qids| - 1];
      var q := qids[|qids| - 1];
      EmitRunsMembers(p, data, tag);
      var e := EmitRuns(p, data, tag);
      var g := GroupLines(q, RankedGroup(data, q), tag);
      var lines := e + g;
      assert EmitRuns(qids, data, tag) == lines;
      forall i | 0 <= i < |lines|
        ensures lines[i].queryId in qids && lines[i].runTag == tag
      {
        if i < |e| {
          assert lines[i] == e[i];
          var k :| 0 <= k < |p| && p[k] == lines[i].queryId;
          assert qids[k] == p[k];
        } else {
          assert lines[i] == g[i - |e|];
        }
      }
    }
  }

  /** The query ids of the lines do not decrease. */
  lemma {:induction false} EmitRunsAscending(qids: seq<string>, data: seq<HfExample>, tag: string)
    requires StrictlyAscending(qids)
    ensures forall i, j :: 0 <= i < j < |EmitRuns(qids, data, tag)| ==>
      StrLe(EmitRuns(qids, data, tag)[i].queryId, EmitRuns(qids, data, tag)[j].queryId)
  {
    if |qids| > 0 {
      var p := qids[..|qids| - 1];
      var q := qids[|qids| - 1];
      assert StrictlyAscending(p);
      EmitRunsAscending(p, data, tag);
      EmitRunsMembers(p, data, tag);
      var e := EmitRuns(p, data, tag);
      var g := GroupLines(q, RankedGroup(data, q), tag);
      var lines := e + g;
      assert EmitRuns(qids, data, tag) == lines;
      forall i, j | 0 <= i < j < |lines|
        ensures StrLe(lines[i].queryId, lines[j].queryId)
      {
        if j >= |e| {
          assert lines[j] == g[j - |e|];
          if i >= |e| {
            assert lines[i] == g[i - |e|];
            StrLeReflexive(q);
          } else {
            assert lines[i] == e[i];
            var k :| 0 <= k < |p| && p[k] == lines[i].queryId;
            assert StrLt(qids[k], qids[|qids| - 1]);
          }
        } else {
          assert lines[i] == e[i] && lines[j] == e[j];
        }
      }
    }
  }

  // ─── convert_hf_to_trec_qrels ─────────────────────────────────────────────

  /** `a.query_id.cmp(&b.query_id).then_with(|| a.doc_id.cmp(&b.doc_id))`, as "may come before". */
  predicate QrelLe(a: Qrel, b: Qrel) {
    StrLt(a.queryId, b.queryId) || (a.queryId == b.queryId && StrLe(a.docId, b.docId))
  }

  lemma QrelLeTotalPreorder()
    ensures TotalPreorder(QrelLe)
  {
    forall a: Qrel, b: Qrel
      ensures QrelLe(a, b) || QrelLe(b, a)
    {
      StrLeTotal(a.queryId, b.queryId);
      StrLeTotal(a.docId, b.docId);
    }
    forall a: Qrel, b: Qrel, c: Qrel | QrelLe(a, b) && QrelLe(b, c)
      ensures QrelLe(a, c)
    {
      if a.queryId == b.queryId && b.queryId == c.queryId {
        StrLeTransitive(a.docId, b.docId, c.docId);
      } else {
        StrLeReflexive(a.queryId);
        StrLeReflexive(b.queryId);
        StrLeTransitive(a.queryId, b.queryId, c.queryId);
        if a.queryId == c.queryId {
          StrLeAntisymmetric(a.queryId, b.queryId);
        }
      }
    }
  }

  /** `convert_hf_to_trec_qrels`: every qrel once, ordered by (query id, doc id), stably. */
  method ConvertHfToTrecQrels(data: seq<Qrel>) returns (lines: seq<Qrel>)
    ensures lines == SortBy(data, QrelLe)
    ensures multiset(lines) == multiset(data)
    ensures SortedBy(lines, QrelLe)
  {
    QrelLeTotalPreorder();
    var sortedData := SortBy(data, QrelLe);
    lines := [];
    for i := 0 to |sortedData|
      invariant lines == sortedData[..i]
    {
      lines := lines + [sortedData[i]];
      assert sortedData[..i + 1] == sortedData[..i] + [sortedData[i]];
    }
    assert sortedData[..|sortedData|] == sortedData;
  }

  // ─── convert_beir_qrels_to_trec ───────────────────────────────────────────

  /** BEIR qrels: query id to (doc id to relevance). */
  type BeirQrels = map<string, map<string, nat>>

  /** The lines of one query for the doc ids `docIds`, in that order. */
  function QrelsFor(q: string, docIds: seq<string>, rels: map<string, nat>): (lines: seq<Qrel>)
    requires forall j :: 0 <= j < |docIds| ==> docIds[j] in rels
    ensures |lines| == |docIds|
  {
    seq(|docIds|, j requires 0 <= j < |docIds| => Qrel(q, docIds[j], rels[docIds[j]]))
  }

  /** The lines of one query: its doc ids in ascending order. */
  ghost function DocLines(q: string, rels: map<string, nat>): seq<Qrel> {
    QrelsFor(q, SortedElems(rels.Keys), rels)
  }

  /** The lines of the queries `qids`, in that order. */
  ghost function BeirLines(qids: seq<string>, beir: BeirQrels): seq<Qrel>
    requires forall q :: q in qids ==> q in beir
  {
    if |qids| == 0 then []
    else BeirLines(qids[..|qids| - 1], beir) + DocLines(qids[|qids| - 1], beir[qids[|qids| - 1]])
  }

  /** The inner loop of `convert_beir_qrels_to_trec`: one line per doc id, in the given order. */
  method AppendDocLines(lines: seq<Qrel>, queryId: string, docIds: seq<string>, docRelevance: map<string, nat>)
    returns (out: seq<Qrel>)
    requires forall j :: 0 <= j < |docIds| ==> docIds[j] in docRelevance
    ensures out == lines + QrelsFor(queryId, docIds, docRelevance)
  {
    out := lines;
    for j := 0 to |docIds|
      invariant out == lines + QrelsFor(queryId, docIds[..j], docRelevance)
    {
      out := out + [Qrel(queryId, docIds[j], docRelevance[docIds[j]])];
      assert QrelsFor(queryId, docIds[..j + 1], docRelevance)
        == QrelsFor(queryId, docIds[..j], docRelevance) + [Qrel(queryId, docIds[j], docRelevance[docIds[j]])];
    }
    assert docIds[..|docIds|] == docIds;
  }

  /** The body of the query loop of `convert_beir_qrels_to_trec`: sort the doc ids, emit their lines. */
  method AppendQueryQrels(lines: seq<Qrel>, queryId: string, docRelevance: map<string, nat>) returns (out: seq<Qrel>)
    ensures out == lines + DocLines(queryId, docRelevance)
  {
    var docIds := SortedKeys(docRelevance.Keys);
    assert forall j :: 0 <= j < |docIds| ==> docIds[j] in docRelevance;
    out := AppendDocLines(lines, queryId, docIds, docRelevance);
  }

  /** `convert_beir_qrels_to_trec`: queries ascending, and doc ids ascending within each. */
  method ConvertBeirQrelsToTrec(beir: BeirQrels) returns (lines: seq<Qrel>)
    ensures lines == BeirLines(SortedElems(beir.Keys), beir)
  {
    var queryIds := SortedKeys(beir.Keys);
    lines := [];
    for n := 0 to |queryIds|
      invariant lines == BeirLines(queryIds[..n], beir)
    {
      var queryId := queryIds[n];
      assert queryId in beir;
      lines := AppendQueryQrels(lines, queryId, beir[queryId]);
      BeirLinesStep(queryIds, n, beir);
    }
    assert queryIds[..|queryIds|] == queryIds;
  }

  lemma BeirLinesStep(qids: seq<string>, n: nat, beir: BeirQrels)
    requires n < |qids| && forall q :: q in qids ==> q in beir
    ensures qids[n] in beir
    ensures BeirLines(qids[..n + 1], beir) == BeirLines(qids[..n], beir) + DocLines(qids[n], beir[qids[n]])
  {
    assert qids[..n + 1][..n] == qids[..n];
    assert qids[..n + 1][n] == qids[n];
  }

  /** One query's lines are exactly its (doc, relevance) pairs, doc ids strictly ascending. */
  lemma DocLinesExact(q: string, rels: map<string, nat>)
    ensures forall l: Qrel :: l in DocLines(q, rels) <==> l.queryId == q && l.docId in rels && l.relevance == rels[l.docId]
    ensures forall i, j :: 0 <= i < j < |DocLines(q, rels)| ==> StrLt(DocLines(q, rels)[i].docId, DocLines(q, rels)[j].docId)
  {
    var docIds := SortedElems(rels.Keys);
    var lines := DocLines(q, rels);
    forall l: Qrel | l.queryId == q && l.docId in rels && l.relevance == rels[l.docId]
      ensures l in lines
    {
      assert l.docId in docIds;
      var j :| 0 <= j < |docIds| && docIds[j] == l.docId;
      assert lines[j] == l;
    }
  }

  /** Every line of the queries `qids` belongs to one of them and holds that query's relevance. */
  lemma {:induction false} BeirLinesMembers(qids: seq<string>, beir: BeirQrels)
    requires forall q :: q in qids ==> q in beir
    ensures forall l: Qrel :: l in BeirLines(qids, beir) <==>
      l.queryId in qids && l.docId in beir[l.queryId] && l.relevance == beir[l.queryId][l.docId]
  {
    if |qids| > 0 {
      var p := qids[..|qids| - 1];
      var q := qids[|qids| - 1];
      BeirLinesMembers(p, beir);
      DocLinesExact(q, beir[q]);
      forall l: Qrel
        ensures l in BeirLines(qids, beir) <==>
          l.queryId in qids && l.docId in beir[l.queryId] && l.relevance == beir[l.queryId][l.docId]
      {
        assert l.queryId in qids <==> l.queryId in p || l.queryId == q;
      }
    }
  }

  /** The lines of strictly ascending queries are strictly ascending by (query id, doc id). */
  lemma {:induction false} BeirLinesOrdered(qids: seq<string>, beir: BeirQrels)
    requires StrictlyAscending(qids)
    requires forall q :: q in qids ==> q in beir
    ensures forall i, j :: 0 <= i < j < |BeirLines(qids, beir)| ==>
      QrelLe(BeirLines(qids, beir)[i], BeirLines(qids, beir)[j]) && BeirLines(qids, beir)[i] != BeirLines(qids, beir)[j]
  {
    if |qids| > 0 {
      var p := qids[..|qids| - 1];
      var q := qids[|qids| - 1];
      assert StrictlyAscending(p);
      BeirLinesOrdered(p, beir);
      BeirLinesMembers(p, beir);
      DocLinesExact(q, beir[q]);
      var e := BeirLines(p, beir);
      var d := DocLines(q, beir[q]);
      var lines := e + d;
      forall i, j | 0 <= i < j < |lines|
        ensures QrelLe(lines[i], lines[j]) && lines[i] != lines[j]
      {
        if i < |e| && j < |e| {
          assert lines[i] == e[i] && lines[j] == e[j];
        } else if i < |e| {
          assert lines[i] == e[i] && lines[j] == d[j - |e|];
          assert lines[i] in e;
          var k :| 0 <= k < |p| && p[k] == lines[i].queryId;
          assert StrLt(qids[k], qids[|qids| - 1]);
        } else {
          assert lines[i] == d[i - |e|] && lines[j] == d[j - |e|];
        }
      }
    }
  }

  /** What `convert_beir_qrels_to_trec` writes: every input triple once, strictly ascending by (query, doc). */
  lemma BeirQrelsExact(beir: BeirQrels)
    ensures forall l: Qrel :: l in BeirLines(SortedElems(beir.Keys), beir) <==>
      l.queryId in beir && l.docId in beir[l.queryId] && l.relevance == beir[l.queryId][l.docId]
    ensures forall i, j :: 0 <= i < j < |BeirLines(SortedElems(beir.Keys), beir)| ==>
      QrelLe(BeirLines(SortedElems(beir.Keys), beir)[i], BeirLines(SortedElems(beir.Keys), beir)[j])
      && BeirLines(SortedElems(beir.Keys), beir)[i] != BeirLines(SortedElems(beir.Keys), beir)[j]
  {
    BeirLinesMembers(SortedElems(beir.Keys), beir);
    BeirLinesOrdered(SortedElems(beir.Keys), beir);
  }

  // ─── JSON lines ───────────────────────────────────────────────────────────

  /** The errors of the JSONL converters and of `convert_dataset`. */
  datatype ConvertError =
    | ParseFailed(lineNumber: nat)      // "Failed to parse JSON line {n}: …"
    | NoExamples                        // "No valid examples found in input file"
    | NoQrels                           // "No valid qrels found in input file"
    | UnsupportedFormat(format: string) // "Unsupported input format: {f}"

  /**
   * `char::is_whitespace`: the characters with the Unicode White_Space
   * property (U+0009 to U+000D, U+0020, U+0085, U+00A0, U+1680, U+2000 to
   * U+200A, U+2028, U+2029, U+202F, U+205F and U+3000).
   */
  predicate IsSpace(c: char) {
    ('\t' <= c <= '\r') || c == ' ' || c == '\U{0085}' || c == '\U{00A0}' || c == '\U{1680}'
    || ('\U{2000}' <= c <= '\U{200A}') || c == '\U{2028}' || c == '\U{2029}' || c == '\U{202F}'
    || c == '\U{205F}' || c == '\U{3000}'
  }

  /** `r` is `s[a..b]`, and everything of `s` outside `a..b` is white space. */
  predicate StripsOuterSpace(s: string, r: string, a: int, b: int) {
    0 <= a <= b <= |s| && r == s[a..b]
    && (forall i :: 0 <= i < a ==> IsSpace(s[i]))
    && (forall i :: b <= i < |s| ==> IsSpace(s[i]))
  }

  /** `str::trim`: strips white space from both ends. */
  function Trim(s: string): (r: string)
    ensures |r| <= |s|
    ensures |r| > 0 ==> !IsSpace(r[0]) && !IsSpace(r[|r| - 1])
    ensures |r| == 0 <==> forall i :: 0 <= i < |s| ==> IsSpace(s[i])
    decreases |s|
  {
    if |s| > 0 && IsSpace(s[0]) then Trim(s[1..])
    else if |s| > 0 && IsSpace(s[|s| - 1]) then
      var r := Trim(s[..|s| - 1]);
      assert forall i :: 0 <= i < |s| - 1 ==> s[..|s| - 1][i] == s[i];
      r
    else
      s
  }

  /** `Trim(s)` is a contiguous piece of `s` with only white space cut off either end. */
  lemma {:induction false} TrimStripsOuterSpace(s: string) returns (a: nat, b: nat)
    ensures StripsOuterSpace(s, Trim(s), a, b)
    decreases |s|
  {
    if |s| > 0 && IsSpace(s[0]) {
      a, b := TrimStripsOuterSpace(s[1..]);
      StripsFront(s, Trim(s[1..]), a, b);
      a, b := a + 1, b + 1;
    } else if |s| > 0 && IsSpace(s[|s| - 1]) {
      a, b := TrimStripsOuterSpace(s[..|s| - 1]);
      StripsBack(s, Trim(s[..|s| - 1]), a, b);
    } else {
      a, b := 0, |s|;
    }
  }

  lemma StripsFront(s: string, r: string, a: int, b: int)
    requires |s| > 0 && IsSpace(s[0]) && StripsOuterSpace(s[1..], r, a, b)
    ensures StripsOuterSpace(s, r, a + 1, b + 1)
  {
    assert s[1..][a..b] == s[a + 1..b + 1];
    forall i | 0 <= i < a + 1 ensures IsSpace(s[i]) {
      if i > 0 { assert s[i] == s[1..][i - 1]; }
    }
    forall i | b + 1 <= i < |s| ensures IsSpace(s[i]) {
      assert s[i] == s[1..][i - 1];
    }
  }

  lemma StripsBack(s: string, r: string, a: int, b: int)
    requires |s| > 0 && IsSpace(s[|s| - 1]) && StripsOuterSpace(s[..|s| - 1], r, a, b)
    ensures StripsOuterSpace(s, r, a, b)
  {
    assert s[..|s| - 1][a..b] == s[a..b];
    forall i | 0 <= i < a ensures IsSpace(s[i]) {
      assert s[i] == s[..|s| - 1][i];
    }
    forall i | b <= i < |s| ensures IsSpace(s[i]) {
      if i < |s| - 1 { assert s[i] == s[..|s| - 1][i]; }
    }
  }

  /** One input line (number `index + 1`): blank lines are skipped, others must parse. */
  function ParseLine<T>(index: nat, line: string, parse: string -> Option<T>): Result<Option<T>, ConvertError> {
    var trimmed := Trim(line);
    if |trimmed| == 0 then Ok(None)
    else match parse(trimmed)
      case Some(record) => Ok(Some(record))
      case None => Err(ParseFailed(index + 1))
  }

  function Present<T>(s: seq<Option<T>>): seq<T> {
    if |s| == 0 then []
    else Present(s[..|s| - 1]) + (if s[|s| - 1].Some? then [s[|s| - 1].value] else [])
  }

  /** The records of the non-blank lines, or the first parse failure. */
  function ParseRecords<T>(lines: seq<string>, parse: string -> Option<T>): Result<seq<T>, ConvertError> {
    match DecodeAll(lines, (i: nat, line: string) => ParseLine(i, line, parse))
    case Err(e) => Err(e)
    case Ok(parsed) => Ok(Present(parsed))
  }

  /** The parse loop of both JSONL converters. */
  method ParseJsonLines<T>(lines: seq<string>, parse: string -> Option<T>) returns (r: Result<seq<T>, ConvertError>)
    ensures r == ParseRecords(lines, parse)
  {
    var f := (i: nat, line: string) => ParseLine(i, line, parse);
    var records: seq<T> := [];
    ghost var parsed: seq<Option<T>> := [];
    for lineNum := 0 to |lines|
      invariant DecodeAll(lines[..lineNum], f) == Ok(parsed)
      invariant records == Present(parsed)
    {
      assert lines[..lineNum + 1][..lineNum] == lines[..lineNum];
      var line := Trim(lines[lineNum]);
      if |line| == 0 {
        parsed := parsed + [None];
        assert parsed[..|parsed| - 1] == parsed[..|parsed| - 1];
        continue;
      }
      var record := parse(line);
      if record.None? {
        DecodeAllKeepsError(lines, lineNum + 1, f);
        return Err(ParseFailed(lineNum + 1));
      }
      records := records + [record.value];
      parsed := parsed + [record];
    }
    assert lines[..|lines|] == lines;
    return Ok(records);
  }

  /** Input made only of blank lines yields no record. */
  lemma {:induction false} BlankInputHasNoRecords<T>(lines: seq<string>, parse: string -> Option<T>)
    requires forall i :: 0 <= i < |lines| ==> |Trim(lines[i])| == 0
    ensures ParseRecords(lines, parse) == Ok([])
  {
    var f := (i: nat, line: string) => ParseLine(i, line, parse);
    DecodeAllExact(lines, f);
    var parsed := DecodeAll(lines, f).value;
    assert forall i :: 0 <= i < |parsed| ==> parsed[i].None?;
    PresentOfNones(parsed);
  }

  lemma {:induction false} PresentOfNones<T>(s: seq<Option<T>>)
    requires forall i :: 0 <= i < |s| ==> s[i].None?
    ensures Present(s) == []
  {
    if |s| > 0 {
      PresentOfNones(s[..|s| - 1]);
    }
  }

  /** `convert_jsonl_to_trec_runs`: parse, refuse an input without examples, then convert. */
  method ConvertJsonlToTrecRuns(lines: seq<string>, runTag: string, parse: string -> Option<HfExample>)
    returns (r: Result<seq<RunLine>, ConvertError>)
    ensures ParseRecords(lines, parse).Err? ==> r == Err(ParseRecords(lines, parse).error)
    ensures ParseRecords(lines, parse) == Ok([]) ==> r == Err(NoExamples)
    ensures ParseRecords(lines, parse).Ok? && ParseRecords(lines, parse).value != [] ==>
      var examples := ParseRecords(lines, parse).value;
      r == Ok(EmitRuns(SortedElems(QueryIds(examples)), examples, runTag))
  {
    var examples :- ParseJsonLines(lines, parse);
    if |examples| == 0 {
      return Err(NoExamples);
    }
    var out := ConvertHfToTrecRuns(examples, runTag);
    return Ok(out);
  }

  /** `convert_jsonl_to_trec_qrels`: parse, refuse an input without qrels, then convert. */
  method ConvertJsonlToTrecQrels(lines: seq<string>, parse: string -> Option<Qrel>)
    returns (r: Result<seq<Qrel>, ConvertError>)
    ensures ParseRecords(lines, parse).Err? ==> r == Err(ParseRecords(lines, parse).error)
    ensures ParseRecords(lines, parse) == Ok([]) ==> r == Err(NoQrels)
    ensures ParseRecords(lines, parse).Ok? && ParseRecords(lines, parse).value != [] ==>
      r == Ok(SortBy(ParseRecords(lines, parse).value, QrelLe))
  {
    var qrels :- ParseJsonLines(lines, parse);
    if |qrels| == 0 {
      return Err(NoQrels);
    }
    var out := ConvertHfToTrecQrels(qrels);
    return Ok(out);
  }

  // ─── convert_dataset ──────────────────────────────────────────────────────

  /** `ConversionConfig` (the output format field, never read, left out). */
  datatype ConversionConfig = ConversionConfig(inputFormat: string, outputPath: string, runTag: Option<string>)

  /** What `convert_dataset` writes. */
  datatype Converted = RunsFile(runs: seq<RunLine>) | QrelsFile(qrels: seq<Qrel>) | CopiedFile

  const DefaultRunTag: string := "converted"

  /**
   * `convert_dataset`: "jsonl" writes qrels when the output path mentions
   * "qrels" and runs otherwise; "trec" copies the file; anything else fails.
   */
  method ConvertDataset(config: ConversionConfig, inputLines: seq<string>,
                        parseExample: string -> Option<HfExample>, parseQrel: string -> Option<Qrel>)
    returns (r: Result<Converted, ConvertError>)
    ensures config.inputFormat != "jsonl" && config.inputFormat != "trec" ==> r == Err(UnsupportedFormat(config.inputFormat))
    ensures config.inputFormat == "trec" ==> r == Ok(CopiedFile)
    ensures config.inputFormat == "jsonl" && Contains(config.outputPath, "qrels") ==>
      r == match ParseRecords(inputLines, parseQrel)
           case Err(e) => Err(e)
           case Ok(qrels) => if qrels == [] then Err(NoQrels) else Ok(QrelsFile(SortBy(qrels, QrelLe)))
    ensures config.inputFormat == "jsonl" && !Contains(config.outputPath, "qrels") ==>
      r == match ParseRecords(inputLines, parseExample)
           case Err(e) => Err(e)
           case Ok(examples) =>
             if examples == [] then Err(NoExamples)
             else Ok(RunsFile(EmitRuns(SortedElems(QueryIds(examples)), examples, config.runTag.GetOr(DefaultRunTag))))
    ensures config.inputFormat == "jsonl" && !Contains(config.outputPath, "qrels") && r.Ok? ==>
      forall i :: 0 <= i < |r.value.runs| ==> r.value.runs[i].runTag == config.runTag.GetOr(DefaultRunTag)
  {
    if config.inputFormat == "jsonl" {
      if Contains(config.outputPath, "qrels") {
        var qrels :- ConvertJsonlToTrecQrels(inputLines, parseQrel);
        return Ok(QrelsFile(qrels));
      } else {
        var runTag := config.runTag.GetOr(DefaultRunTag);
        var runs :- ConvertJsonlToTrecRuns(inputLines, runTag, parseExample);
        var examples := ParseRecords(inputLines, parseExample).value;
        EmitRunsQueryOrder(SortedElems(QueryIds(examples)), examples, runTag);
        return Ok(RunsFile(runs));
      }
    } else if config.inputFormat == "trec" {
      return Ok(CopiedFile);
    } else {
      return Err(UnsupportedFormat(config.inputFormat));
    }
  }
}
