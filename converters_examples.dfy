/** The converter tests of `evals/src/dataset_converters.rs`, as statements about the model. */
module ConvertersExamples {
  import opened Strings
  import opened Sorting
  import opened KeyOrder
  import opened Grouping
  import opened Converters

  /** Two query ids, in ascending order. */
  lemma SortedPair(a: string, b: string)
    requires StrLt(a, b)
    ensures SortedElems({a, b}) == [a, b]
  {
    AscendingUnique(SortedElems({a, b}), [a, b]);
  }

  /** Grouping three examples where the first and last share a query. */
  lemma GroupsOfThree(e1: HfExample, e2: HfExample, e3: HfExample)
    requires e1.queryId == e3.queryId != e2.queryId
    ensures QueryIds([e1, e2, e3]) == {e1.queryId, e2.queryId}
    ensures QueryGroup([e1, e2, e3], e1.queryId) == [e1, e3]
    ensures QueryGroup([e1, e2, e3], e2.queryId) == [e2]
  {
    var data := [e1, e2, e3];
    assert data[..2] == [e1, e2] && [e1, e2][..1] == [e1] && [e1][..0] == [];
    KeySetOfPrefix(data, QueryOf);
    KeySetOfPrefix([e1, e2], QueryOf);
    KeySetOfPrefix([e1], QueryOf);
    assert GroupOf([e1], QueryOf, e1.queryId) == [e1];
    assert GroupOf([e1], QueryOf, e2.queryId) == [];
    assert GroupOf([e1, e2], QueryOf, e1.queryId) == [e1];
    assert GroupOf([e1, e2], QueryOf, e2.queryId) == [e2];
  }

  /** Grouping three examples where the first two share a query. */
  lemma GroupsOfThreeAdjacent(e1: HfExample, e2: HfExample, e3: HfExample)
    requires e1.queryId == e2.queryId != e3.queryId
    ensures QueryIds([e1, e2, e3]) == {e1.queryId, e3.queryId}
    ensures QueryGroup([e1, e2, e3], e1.queryId) == [e1, e2]
    ensures QueryGroup([e1, e2, e3], e3.queryId) == [e3]
  {
    var data := [e1, e2, e3];
    assert data[..2] == [e1, e2] && [e1, e2][..1] == [e1] && [e1][..0] == [];
    KeySetOfPrefix(data, QueryOf);
    KeySetOfPrefix([e1, e2], QueryOf);
    KeySetOfPrefix([e1], QueryOf);
    assert GroupOf([e1], QueryOf, e1.queryId) == [e1];
    assert GroupOf([e1], QueryOf, e3.queryId) == [];
    assert GroupOf([e1, e2], QueryOf, e1.queryId) == [e1, e2];
    assert GroupOf([e1, e2], QueryOf, e3.queryId) == [];
  }

  /** The descending sort of two examples. */
  lemma SortTwo(a: HfExample, b: HfExample)
    ensures SortBy([a, b], ScoreDesc) == if a.score >= b.score then [a, b] else [b, a]
  {
    SortPair(a, b, ScoreDesc);
  }

  /** A stable sort of two elements swaps them only when the first may not come first. */
  lemma SortPair<T(!new)>(a: T, b: T, le: (T, T) -> bool)
    ensures SortBy([a, b], le) == if le(a, b) then [a, b] else [b, a]
  {
    var s := [a, b];
    assert s[..1] == [a] && [a][..0] == [];
    assert SortBy([a], le) == Insert([], a, le) == [a];
    var p := InsertPos([a], b, le);
    assert p == if le(a, b) then 1 else 0;
    assert SortBy(s, le) == [a][..p] + [b] + [a][p..];
  }

  /** The lines of two queries: the first query's block, then the second's. */
  lemma EmitTwo(q1: string, q2: string, data: seq<HfExample>, tag: string)
    ensures EmitRuns([q1, q2], data, tag)
      == GroupLines(q1, RankedGroup(data, q1), tag) + GroupLines(q2, RankedGroup(data, q2), tag)
  {
    assert [q1, q2][..1] == [q1] && [q1][..0] == [];
    assert EmitRuns([q1], data, tag) == GroupLines(q1, RankedGroup(data, q1), tag);
  }

  lemma GroupLinesOne(q: string, a: HfExample, tag: string)
    ensures GroupLines(q, [a], tag) == [RunLine(q, a.docId, 1, a.score, tag)]
  {
  }

  lemma GroupLinesTwo(q: string, a: HfExample, b: HfExample, tag: string)
    ensures GroupLines(q, [a, b], tag) == [RunLine(q, a.docId, 1, a.score, tag), RunLine(q, b.docId, 2, b.score, tag)]
  {
  }

  /** Three examples, the first and last of the smaller query, the last scoring higher. */
  lemma InterleavedQueries(e1: HfExample, e2: HfExample, e3: HfExample, tag: string)
    requires e1.queryId == e3.queryId && StrLt(e1.queryId, e2.queryId)
    requires e3.score > e1.score
    ensures EmitRuns(SortedElems(QueryIds([e1, e2, e3])), [e1, e2, e3], tag)
      == [RunLine(e1.queryId, e3.docId, 1, e3.score, tag), RunLine(e1.queryId, e1.docId, 2, e1.score, tag),
          RunLine(e2.queryId, e2.docId, 1, e2.score, tag)]
  {
    var data := [e1, e2, e3];
    InterleavedGroups(e1, e2, e3);
    SortedPair(e1.queryId, e2.queryId);
    EmitTwo(e1.queryId, e2.queryId, data, tag);
    GroupLinesTwo(e1.queryId, e3, e1, tag);
    GroupLinesOne(e2.queryId, e2, tag);
  }

  lemma InterleavedGroups(e1: HfExample, e2: HfExample, e3: HfExample)
    requires e1.queryId == e3.queryId && e1.queryId != e2.queryId
    requires e3.score > e1.score
    ensures QueryIds([e1, e2, e3]) == {e1.queryId, e2.queryId}
    ensures RankedGroup([e1, e2, e3], e1.queryId) == [e3, e1]
    ensures RankedGroup([e1, e2, e3], e2.queryId) == [e2]
  {
    GroupsOfThree(e1, e2, e3);
    SortTwo(e1, e3);
    SortOne(e2);
  }

  /** Three examples, the first two of the smaller query, already in descending order. */
  lemma AdjacentQueries(e1: HfExample, e2: HfExample, e3: HfExample, tag: string)
    requires e1.queryId == e2.queryId && StrLt(e1.queryId, e3.queryId)
    requires e1.score >= e2.score
    ensures EmitRuns(SortedElems(QueryIds([e1, e2, e3])), [e1, e2, e3], tag)
      == [RunLine(e1.queryId, e1.docId, 1, e1.score, tag), RunLine(e1.queryId, e2.docId, 2, e2.score, tag),
          RunLine(e3.queryId, e3.docId, 1, e3.score, tag)]
  {
    var data := [e1, e2, e3];
    AdjacentGroups(e1, e2, e3);
    SortedPair(e1.queryId, e3.queryId);
    EmitTwo(e1.queryId, e3.queryId, data, tag);
    GroupLinesTwo(e1.queryId, e1, e2, tag);
    GroupLinesOne(e3.queryId, e3, tag);
  }

  lemma AdjacentGroups(e1: HfExample, e2: HfExample, e3: HfExample)
    requires e1.queryId == e2.queryId && e1.queryId != e3.queryId
    requires e1.score >= e2.score
    ensures QueryIds([e1, e2, e3]) == {e1.queryId, e3.queryId}
    ensures RankedGroup([e1, e2, e3], e1.queryId) == [e1, e2]
    ensures RankedGroup([e1, e2, e3], e3.queryId) == [e3]
  {
    GroupsOfThreeAdjacent(e1, e2, e3);
    SortTwo(e1, e2);
    SortOne(e3);
  }

  lemma SortOne(e: HfExample)
    ensures SortBy([e], ScoreDesc) == [e]
  {
    assert [e][..0] == [];
  }

  /** `test_convert_hf_to_trec_runs_groups_by_query`: q1 gets d3 then d1, q2 gets d2. */
  lemma GroupsByQuery()
    ensures var data := [HfExample("q1", "d1", 0.5), HfExample("q2", "d2", 0.9), HfExample("q1", "d3", 0.8)];
      EmitRuns(SortedElems(QueryIds(data)), data, "test")
      == [RunLine("q1", "d3", 1, 0.8, "test"), RunLine("q1", "d1", 2, 0.5, "test"), RunLine("q2", "d2", 1, 0.9, "test")]
  {
    assert StrLt("q1", "q2");
    InterleavedQueries(HfExample("q1", "d1", 0.5), HfExample("q2", "d2", 0.9), HfExample("q1", "d3", 0.8), "test");
  }

  /** `test_convert_hf_to_trec_runs`: query "1" gets doc1 then doc2, query "2" gets doc3. */
  lemma RanksWithinQuery()
    ensures var data := [HfExample("1", "doc1", 0.95), HfExample("1", "doc2", 0.87), HfExample("2", "doc3", 0.92)];
      EmitRuns(SortedElems(QueryIds(data)), data, "test_run")
      == [RunLine("1", "doc1", 1, 0.95, "test_run"), RunLine("1", "doc2", 2, 0.87, "test_run"), RunLine("2", "doc3", 1, 0.92, "test_run")]
  {
    assert StrLt("1", "2");
    AdjacentQueries(HfExample("1", "doc1", 0.95), HfExample("1", "doc2", 0.87), HfExample("2", "doc3", 0.92), "test_run");
  }
}
