/**
 * The behaviour the unit tests of `src/lib.rs` pin down, stated for every
 * output the fusion methods may return.
 */
module FusionExamples {
  import opened Fusion

  lemma Total1(x: Entry, id: string, rule: Rule)
    requires rule.Valid()
    ensures ListTotal([x], id, rule) == (if x.0 == id then Term(rule, 0, x.1) else 0.0)
  {
    assert [x][..0] == [];
  }

  lemma Total2(x: Entry, y: Entry, id: string, rule: Rule)
    requires rule.Valid()
    ensures ListTotal([x, y], id, rule)
      == (if x.0 == id then Term(rule, 0, x.1) else 0.0) + (if y.0 == id then Term(rule, 1, y.1) else 0.0)
  {
    assert [x, y][..1] == [x];
    Total1(x, id, rule);
  }

  lemma Total3(x: Entry, y: Entry, z: Entry, id: string, rule: Rule)
    requires rule.Valid()
    ensures ListTotal([x, y, z], id, rule)
      == (if x.0 == id then Term(rule, 0, x.1) else 0.0) + (if y.0 == id then Term(rule, 1, y.1) else 0.0)
         + (if z.0 == id then Term(rule, 2, z.1) else 0.0)
  {
    assert [x, y, z][..2] == [x, y];
    Total2(x, y, id, rule);
  }

  /** Min-max parameters of a two-item list sorted best first. */
  lemma Params2(list: Ranked, x: Entry, y: Entry)
    requires list == [x, y] && y.1 <= x.1 && x.1 - y.1 >= FlatRange
    ensures MinMaxParams(list) == (1.0 / (x.1 - y.1), y.1)
  {
    assert list[..1] == [x];
    assert MinScore(list) == y.1;
    assert MaxScore(list) == x.1;
  }

  /** Three entries with distinct ids, best first, are the fusion of their own map. */
  lemma Fused3(x: Entry, y: Entry, z: Entry)
    requires x.0 != y.0 && y.0 != z.0 && x.0 != z.0
    requires x.1 >= y.1 >= z.1
    ensures FusedFrom([x, y, z], map[x.0 := x.1, y.0 := y.1, z.0 := z.1])
  {
    Ids3(x, y, z);
  }

  lemma Occurrences2(x: Entry, y: Entry, id: string)
    ensures Occurrences([x, y], id) == (if x.0 == id then 1 else 0) + (if y.0 == id then 1 else 0)
  {
    assert [x, y][..1] == [x] && [x][..0] == [];
    assert Occurrences([x], id) == (if x.0 == id then 1 else 0);
  }

  lemma Ids2(x: Entry, y: Entry)
    ensures Ids([x, y]) == {x.0, y.0}
  {
    assert [x, y][0] == x && [x, y][1] == y;
  }

  lemma Ids3(x: Entry, y: Entry, z: Entry)
    ensures Ids([x, y, z]) == {x.0, y.0, z.0}
  {
    assert [x, y, z][0] == x && [x, y, z][1] == y && [x, y, z][2] == z;
  }

  /** A single rank-0 item with k = 60 scores exactly 1/60. */
  lemma RrfScoreFormula(r: Ranked)
    requires FusedFrom(r, RrfScores([("d1", 1.0)], [], 60))
    ensures r == [("d1", 1.0 / 60.0)]
  {
    assert Ids([("d1", 1.0)]) == {"d1"} by {
      assert [("d1", 1.0)][0].0 == "d1";
    }
    assert Ids([]) == {};
    Total1(("d1", 1.0), "d1", Reciprocal(60));
    assert RrfScores([("d1", 1.0)], [], 60) == map["d1" := 1.0 / 60.0];
    FusedSingleton(r, "d1", 1.0 / 60.0);
  }

  /** An id listed twice in one list is emitted once, with both contributions. */
  lemma DuplicateIdsInSameList(r: Ranked)
    requires FusedFrom(r, RrfScores([("d1", 1.0), ("d1", 0.5)], [], 60))
    ensures r == [("d1", 1.0 / 60.0 + 1.0 / 61.0)]
  {
    Ids2(("d1", 1.0), ("d1", 0.5));
    assert Ids([]) == {};
    Total2(("d1", 1.0), ("d1", 0.5), "d1", Reciprocal(60));
    assert RrfScores([("d1", 1.0), ("d1", 0.5)], [], 60) == map["d1" := 1.0 / 60.0 + 1.0 / 61.0];
    FusedSingleton(r, "d1", 1.0 / 60.0 + 1.0 / 61.0);
  }

  lemma RrfIntoScores(a: Ranked, b: Ranked)
    requires a == [("d1", 1.0), ("d2", 0.9)] && b == [("d2", 1.0), ("d3", 0.9)]
    ensures RrfScores(a, b, 60) == map["d1" := 1.0 / 60.0, "d2" := 1.0 / 60.0 + 1.0 / 61.0, "d3" := 1.0 / 61.0]
  {
    Ids2(a[0], a[1]);
    Ids2(b[0], b[1]);
    forall id | id in {"d1", "d2", "d3"}
      ensures ListTotal(a, id, Reciprocal(60)) == (if id == "d1" then 1.0 / 60.0 else if id == "d2" then 1.0 / 61.0 else 0.0)
      ensures ListTotal(b, id, Reciprocal(60)) == (if id == "d2" then 1.0 / 60.0 else if id == "d3" then 1.0 / 61.0 else 0.0)
    {
      Total2(a[0], a[1], id, Reciprocal(60));
      Total2(b[0], b[1], id, Reciprocal(60));
    }
  }

  /** `rrf_into_works`: three distinct ids, and the one in both lists first. */
  lemma RrfIntoWorks(a: Ranked, b: Ranked, out: Ranked)
    requires a == [("d1", 1.0), ("d2", 0.9)] && b == [("d2", 1.0), ("d3", 0.9)]
    requires FusedFrom(out, RrfScores(a, b, 60))
    ensures |out| == 3 && out[0].0 == "d2"
  {
    RrfIntoScores(a, b);
    LeadsAmongThree(out, RrfScores(a, b, 60), "d2", "d1", "d3");
  }

  /** A fusion of three ids, one of which outscores the other two. */
  lemma LeadsAmongThree(r: Ranked, scores: map<string, real>, first: string, x: string, y: string)
    requires FusedFrom(r, scores)
    requires scores.Keys == {first, x, y} && first != x && first != y && x != y
    requires scores[x] < scores[first] && scores[y] < scores[first]
    ensures |r| == 3 && r[0].0 == first
  {
    FusedPairs(r, scores);
    FusedHead(r, scores, first);
  }

  lemma RrfBasicScores(a: Ranked, b: Ranked)
    requires a == [("d1", 1.0), ("d2", 0.9), ("d3", 0.8)] && b == [("d2", 1.0), ("d3", 0.9), ("d4", 0.8)]
    ensures RrfScores(a, b, 60)
      == map["d1" := 1.0 / 60.0, "d2" := 1.0 / 61.0 + 1.0 / 60.0,
             "d3" := 1.0 / 62.0 + 1.0 / 61.0, "d4" := 1.0 / 62.0]
  {
    Ids3(a[0], a[1], a[2]);
    Ids3(b[0], b[1], b[2]);
    forall id | id in {"d1", "d2", "d3", "d4"}
      ensures ListTotal(a, id, Reciprocal(60)) == ReciprocalTotal3(a, id)
      ensures ListTotal(b, id, Reciprocal(60)) == ReciprocalTotal3(b, id)
    {
      RrfTotal3(a, id);
      RrfTotal3(b, id);
    }
  }

  /** What `rrf` with k = 60 gives `id` from a three-item list. */
  function ReciprocalTotal3(list: Ranked, id: string): real
    requires |list| == 3
  {
    (if list[0].0 == id then 1.0 / 60.0 else 0.0)
    + (if list[1].0 == id then 1.0 / 61.0 else 0.0)
    + (if list[2].0 == id then 1.0 / 62.0 else 0.0)
  }

  lemma RrfTotal3(list: Ranked, id: string)
    requires |list| == 3
    ensures ListTotal(list, id, Reciprocal(60)) == ReciprocalTotal3(list, id)
  {
    assert list == [list[0], list[1], list[2]];
    Total3(list[0], list[1], list[2], id, Reciprocal(60));
  }

  /** `rrf_basic`: "d2", ranked high in both lists, comes first. */
  lemma RrfBasic(a: Ranked, b: Ranked, r: Ranked)
    requires a == [("d1", 1.0), ("d2", 0.9), ("d3", 0.8)] && b == [("d2", 1.0), ("d3", 0.9), ("d4", 0.8)]
    requires FusedFrom(r, RrfScores(a, b, 60))
    ensures |r| > 0 && r[0].0 == "d2"
  {
    RrfBasicScores(a, b);
    FusedHead(r, RrfScores(a, b, 60), "d2");
  }

  /** `empty_inputs`: one empty list leaves the other list's ids. */
  lemma RrfWithOneEmptyList(r1: Ranked, r2: Ranked)
    requires FusedFrom(r1, RrfScores([], [("d1", 1.0)], 60))
    requires FusedFrom(r2, RrfScores([("d1", 1.0)], [], 60))
    ensures r1 == r2 == [("d1", 1.0 / 60.0)]
  {
    assert Ids([("d1", 1.0)]) == {"d1"} by {
      assert [("d1", 1.0)][0].0 == "d1";
    }
    assert Ids([]) == {};
    Total1(("d1", 1.0), "d1", Reciprocal(60));
    assert RrfScores([], [("d1", 1.0)], 60) == map["d1" := 1.0 / 60.0];
    assert RrfScores([("d1", 1.0)], [], 60) == map["d1" := 1.0 / 60.0];
    FusedSingleton(r1, "d1", 1.0 / 60.0);
    FusedSingleton(r2, "d1", 1.0 / 60.0);
  }

  /** `both_empty`: fusing two empty lists gives nothing, for every algorithm. */
  lemma BothEmpty(r1: Ranked, r2: Ranked, r3: Ranked)
    requires FusedFrom(r1, RrfScores([], [], 60))
    requires FusedFrom(r2, WeightedScores([], [], DefaultWeightedConfig))
    requires FusedFrom(r3, BordaScores([], []))
    ensures r1 == r2 == r3 == []
  {
    assert Ids([]) == {};
    FusedPairs(r1, RrfScores([], [], 60));
    FusedPairs(r2, WeightedScores([], [], DefaultWeightedConfig));
    FusedPairs(r3, BordaScores([], []));
  }

  lemma WeightedSkewedScores(a: Ranked, b: Ranked, wa: real, wb: real)
    requires a == [("d1", 1.0)] && b == [("d2", 1.0)] && wa + wb == 1.0
    ensures WeightedScores(a, b, WeightedConfig(wa, wb, false)) == map["d1" := wa, "d2" := wb]
  {
    assert Ids(a) == {"d1"} by {
      assert a[0].0 == "d1";
    }
    assert Ids(b) == {"d2"} by {
      assert b[0].0 == "d2";
    }
    UnitSumRules(a, b, wa, wb);
    UnitTotal1(a, "d1", wa);
    UnitTotal1(a, "d2", wa);
    UnitTotal1(b, "d1", wb);
    UnitTotal1(b, "d2", wb);
    Fused2Of2(a, Affine(wa, 0.0, 1.0), b, Affine(wb, 0.0, 1.0), "d1", "d2", wa, wb);
  }

  /** A two-list fusion over exactly two ids, given each id's total. */
  lemma Fused2Of2(a: Ranked, ruleA: Rule, b: Ranked, ruleB: Rule, k1: string, k2: string, v1: real, v2: real)
    requires ruleA.Valid() && ruleB.Valid()
    requires Ids(a) + Ids(b) == {k1, k2}
    requires ListTotal(a, k1, ruleA) + ListTotal(b, k1, ruleB) == v1
    requires ListTotal(a, k2, ruleA) + ListTotal(b, k2, ruleB) == v2
    ensures Fused2(a, ruleA, b, ruleB) == map[k1 := v1, k2 := v2]
  {
    var m := Fused2(a, ruleA, b, ruleB);
    var want := map[k1 := v1, k2 := v2];
    assert m.Keys == want.Keys;
    forall k | k in m
      ensures m[k] == want[k]
    {
      assert k == k1 || k == k2;
    }
  }

  /** Weights that already sum to 1 are used as they are. */
  lemma UnitSumRules(a: Ranked, b: Ranked, wa: real, wb: real)
    requires wa + wb == 1.0
    ensures WeightedRules(a, b, WeightedConfig(wa, wb, false)) == (Affine(wa, 0.0, 1.0), Affine(wb, 0.0, 1.0))
  {
    var total := wa + wb;
    assert wa / total == wa && wb / total == wb;
  }

  /** A one-item list with score 1, unnormalised, contributes its weight. */
  lemma UnitTotal1(list: Ranked, id: string, w: real)
    requires |list| == 1 && list[0].1 == 1.0
    ensures ListTotal(list, id, Affine(w, 0.0, 1.0)) == (if list[0].0 == id then w else 0.0)
  {
    assert list == [list[0]];
    Total1(list[0], id, Affine(w, 0.0, 1.0));
  }

  /** `weighted_skewed`: without normalisation the heavier list's item wins. */
  lemma WeightedSkewed(a: Ranked, b: Ranked, r1: Ranked, r2: Ranked)
    requires a == [("d1", 1.0)] && b == [("d2", 1.0)]
    requires FusedFrom(r1, WeightedScores(a, b, WeightedConfig(0.9, 0.1, false)))
    requires FusedFrom(r2, WeightedScores(a, b, WeightedConfig(0.1, 0.9, false)))
    ensures |r1| > 0 && r1[0].0 == "d1" && |r2| > 0 && r2[0].0 == "d2"
  {
    WeightedSkewedScores(a, b, 0.9, 0.1);
    FusedHead(r1, WeightedScores(a, b, WeightedConfig(0.9, 0.1, false)), "d1");
    WeightedSkewedScores(a, b, 0.1, 0.9);
    FusedHead(r2, WeightedScores(a, b, WeightedConfig(0.1, 0.9, false)), "d2");
  }

  lemma BordaSymmetricScores(a: Ranked, b: Ranked)
    requires a == [("d1", 1.0), ("d2", 0.9), ("d3", 0.8)] && b == [("d3", 1.0), ("d2", 0.9), ("d1", 0.8)]
    ensures BordaScores(a, b) == map["d1" := 4.0, "d2" := 4.0, "d3" := 4.0]
  {
    Ids3(a[0], a[1], a[2]);
    Ids3(b[0], b[1], b[2]);
    forall id | id in {"d1", "d2", "d3"}
      ensures ListTotal(a, id, Positional(3)) == (if id == "d1" then 3.0 else if id == "d2" then 2.0 else 1.0)
      ensures ListTotal(b, id, Positional(3)) == (if id == "d3" then 3.0 else if id == "d2" then 2.0 else 1.0)
    {
      BordaTotal3(a, id);
      BordaTotal3(b, id);
    }
  }

  /** Borda points of `id` in a three-item list. */
  lemma BordaTotal3(list: Ranked, id: string)
    requires |list| == 3
    ensures ListTotal(list, id, Positional(3))
      == (if list[0].0 == id then 3.0 else 0.0) + (if list[1].0 == id then 2.0 else 0.0)
         + (if list[2].0 == id then 1.0 else 0.0)
  {
    assert list == [list[0], list[1], list[2]];
    Total3(list[0], list[1], list[2], id, Positional(3));
  }

  /** `borda_symmetric`: a list fused with its reverse gives every id 4 points. */
  lemma BordaSymmetric(a: Ranked, b: Ranked, r: Ranked)
    requires a == [("d1", 1.0), ("d2", 0.9), ("d3", 0.8)] && b == [("d3", 1.0), ("d2", 0.9), ("d1", 0.8)]
    requires FusedFrom(r, BordaScores(a, b))
    ensures |r| == 3
    ensures forall i :: 0 <= i < |r| ==> r[i].1 == 4.0
  {
    BordaSymmetricScores(a, b);
    FusedPairs(r, BordaScores(a, b));
  }

  /** `rrf_multi_works`: three lists over three ids give three entries. */
  lemma RrfMultiWorks(lists: seq<Ranked>, r: Ranked)
    requires lists == [[("d1", 1.0), ("d2", 0.9)], [("d2", 1.0), ("d3", 0.9)], [("d1", 1.0), ("d3", 0.9)]]
    requires FusedFrom(r, FusedMany(lists, Reciprocal(60)))
    ensures |r| == 3
  {
    var l1, l2, l3 := lists[0], lists[1], lists[2];
    Ids2(l1[0], l1[1]);
    Ids2(l2[0], l2[1]);
    Ids2(l3[0], l3[1]);
    assert l1 == [l1[0], l1[1]] && l2 == [l2[0], l2[1]] && l3 == [l3[0], l3[1]];
    AllIds3(lists);
    var m := FusedMany(lists, Reciprocal(60));
    assert m.Keys == {"d1", "d2", "d3"};
    assert |m| == |m.Keys| == 3;
    FusedPairs(r, m);
  }

  lemma AllIds3(lists: seq<Ranked>)
    requires |lists| == 3
    ensures AllIds(lists) == Ids(lists[0]) + Ids(lists[1]) + Ids(lists[2])
  {
    assert lists[..2][..1] == lists[..1] && lists[..1][..0] == [];
    assert lists[..2][1] == lists[1] && lists[..1][0] == lists[0];
    assert AllIds(lists[..1]) == Ids(lists[0]);
    assert AllIds(lists[..2]) == Ids(lists[0]) + Ids(lists[1]);
  }

  lemma CombMnzOverlapScores(a: Ranked, b: Ranked)
    requires a == [("d1", 1.0), ("d2", 0.9)] && b == [("d2", 1.0), ("d3", 0.9)]
    ensures CombMnzScores(a, b) == map["d1" := 1.0, "d2" := 2.0, "d3" := 0.0]
  {
    Ids2(a[0], a[1]);
    Ids2(b[0], b[1]);
    var rule := Affine(1.0, 0.9, 10.0);
    assert NormalizedRule(a) == rule && NormalizedRule(b) == rule by {
      Params2(a, a[0], a[1]);
      Params2(b, b[0], b[1]);
    }
    forall id | id in {"d1", "d2", "d3"}
      ensures CombMnzScore(a, b, id) == (if id == "d1" then 1.0 else if id == "d2" then 2.0 else 0.0)
    {
      CombMnzOverlapAt(a, b, rule, id);
    }
  }

  lemma CombMnzOverlapAt(a: Ranked, b: Ranked, rule: Rule, id: string)
    requires a == [("d1", 1.0), ("d2", 0.9)] && b == [("d2", 1.0), ("d3", 0.9)]
    requires rule == Affine(1.0, 0.9, 10.0) && NormalizedRule(a) == rule && NormalizedRule(b) == rule
    requires id in {"d1", "d2", "d3"}
    ensures CombMnzScore(a, b, id) == (if id == "d1" then 1.0 else if id == "d2" then 2.0 else 0.0)
  {
    var xa := ListTotal(a, id, rule);
    var xb := ListTotal(b, id, rule);
    var n := Occurrences(a, id) + Occurrences(b, id);
    assert xa == (if id == "d1" then 1.0 else 0.0) by {
      assert a == [a[0], a[1]];
      Total2(a[0], a[1], id, rule);
    }
    assert xb == (if id == "d2" then 1.0 else 0.0) by {
      assert b == [b[0], b[1]];
      Total2(b[0], b[1], id, rule);
    }
    assert n == (if id == "d2" then 2 else 1) by {
      assert a == [a[0], a[1]] && b == [b[0], b[1]];
      Occurrences2(a[0], a[1], id);
      Occurrences2(b[0], b[1], id);
    }
    assert CombMnzScore(a, b, id) == MnzScore((xa + xb, n));
  }

  /** `combmnz_rewards_overlap`: the id in both lists is multiplied by two and wins. */
  lemma CombMnzRewardsOverlap(a: Ranked, b: Ranked, r: Ranked)
    requires a == [("d1", 1.0), ("d2", 0.9)] && b == [("d2", 1.0), ("d3", 0.9)]
    requires FusedFrom(r, CombMnzScores(a, b))
    ensures |r| > 0 && r[0].0 == "d2"
  {
    CombMnzOverlapScores(a, b);
    LeadsAmongThree(r, CombMnzScores(a, b), "d2", "d1", "d3");
  }

  lemma CombSumBasicScores(a: Ranked, b: Ranked)
    requires a == [("d1", 1.0), ("d2", 0.5)] && b == [("d2", 1.0), ("d3", 0.5)]
    ensures WeightedScores(a, b, DefaultWeightedConfig) == map["d1" := 0.5, "d2" := 0.5, "d3" := 0.0]
  {
    Ids2(a[0], a[1]);
    Ids2(b[0], b[1]);
    var rule := Affine(0.5, 0.5, 2.0);
    assert WeightedRules(a, b, DefaultWeightedConfig) == (rule, rule) by {
      Params2(a, a[0], a[1]);
      Params2(b, b[0], b[1]);
    }
    forall id | id in {"d1", "d2", "d3"}
      ensures ListTotal(a, id, rule) == (if id == "d1" then 0.5 else 0.0)
      ensures ListTotal(b, id, rule) == (if id == "d2" then 0.5 else 0.0)
    {
      assert a == [a[0], a[1]] && b == [b[0], b[1]];
      Total2(a[0], a[1], id, rule);
      Total2(b[0], b[1], id, rule);
    }
  }

  /**
   * `combsum_basic`: "d1" and "d2" both score 0.5, so either may come first;
   * the list below, led by "d1", is as valid an output as one led by "d2".
   */
  lemma CombSumBasicTies(a: Ranked, b: Ranked)
    requires a == [("d1", 1.0), ("d2", 0.5)] && b == [("d2", 1.0), ("d3", 0.5)]
    ensures FusedFrom([("d1", 0.5), ("d2", 0.5), ("d3", 0.0)], WeightedScores(a, b, DefaultWeightedConfig))
    ensures FusedFrom([("d2", 0.5), ("d1", 0.5), ("d3", 0.0)], WeightedScores(a, b, DefaultWeightedConfig))
  {
    CombSumBasicScores(a, b);
    Fused3(("d1", 0.5), ("d2", 0.5), ("d3", 0.0));
    Fused3(("d2", 0.5), ("d1", 0.5), ("d3", 0.0));
    assert map["d2" := 0.5, "d1" := 0.5, "d3" := 0.0] == map["d1" := 0.5, "d2" := 0.5, "d3" := 0.0];
  }
}
