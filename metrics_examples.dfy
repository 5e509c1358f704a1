/** The metrics on the concrete rankings of the unit tests of `evals/src/metrics.rs`. */
module MetricsExamples {
  import opened Wrappers
  import opened Metrics

  function Abcde(): seq<string> { ["a", "b", "c", "d", "e"] }

  lemma HitsAbcde()
    ensures Hits(Take(Abcde(), 1), {"a", "c", "e"}) == 1
    ensures Hits(Take(Abcde(), 2), {"a", "c", "e"}) == 1
    ensures Hits(Take(Abcde(), 5), {"a", "c", "e"}) == 3
  {
    var s := Abcde();
    var rel := {"a", "c", "e"};
    assert Take(s, 1) == ["a"];
    assert Take(s, 2) == ["a", "b"];
    assert Take(s, 5) == s;
    assert ["a"][..0] == [];
    assert ["a", "b"][..1] == ["a"];
    assert s[..4] == ["a", "b", "c", "d"];
    assert s[..4][..3] == ["a", "b", "c"];
    assert s[..4][..3][..2] == ["a", "b"];
    assert Hits(["a", "b"], rel) == 1;
  }

  /** test_precision_at_k: P@1 = 1, P@2 = 0.5, P@5 = 0.6. */
  lemma PrecisionExample()
    ensures PrecisionAtK(Abcde(), {"a", "c", "e"}, 1) == 1.0
    ensures PrecisionAtK(Abcde(), {"a", "c", "e"}, 2) == 0.5
    ensures PrecisionAtK(Abcde(), {"a", "c", "e"}, 5) == 0.6
  {
    HitsAbcde();
  }

  /** A ranking shorter than k is still divided by k. */
  lemma ShortRankingPrecision()
    ensures PrecisionAtK(["a"], {"a"}, 5) == 0.2
  {
    assert Take(["a"], 5) == ["a"];
    assert ["a"][..0] == [];
  }

  /** test_mrr: the first relevant id at position 1 gives 0.5. */
  lemma MrrExample()
    ensures Mrr(["a", "b", "c"], {"b"}) == 0.5
  {
    var s := ["a", "b", "c"];
    assert s[1..] == ["b", "c"];
    assert FirstRelevant(s, {"b"}) == Some(1);
  }

  /** test_ndcg: "a" at 0 and "c" at 2 against the ideal of positions 0 and 1. */
  lemma NdcgExample(gain: nat -> real)
    requires DiscountGain(gain)
    ensures NdcgAtK(["a", "b", "c", "d"], {"a", "c"}, 4, gain) == (gain(0) + gain(2)) / (gain(0) + gain(1))
  {
    var s := ["a", "b", "c", "d"];
    var rel := {"a", "c"};
    assert Take(s, 4) == s;
    assert s[..3] == ["a", "b", "c"];
    assert s[..3][..2] == ["a", "b"];
    assert s[..3][..2][..1] == ["a"];
    assert ["a"][..0] == [];
    assert RelevantGains(["a", "b"], rel, gain) == gain(0);
    assert |rel| == 2;
    assert IdcgAtK(2, 4, gain) == gain(0) + gain(1);
    assert gain(0) > 0.0 && gain(1) > 0.0;
  }
}
