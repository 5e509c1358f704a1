/**
 * The validators applied to concrete lists (the unit tests of
 * `rank-fusion/src/validate.rs`), and to the output of the fusion
 * algorithms.
 */
module ValidateExamples {
  import opened Floats
  import opened Validate
  import Fusion
  import Sorting

  /** A fused list as the validators see it (every real score is a finite float). */
  function AsScored(r: Fusion.Ranked): (s: Scored)
    ensures |s| == |r|
    ensures forall i :: 0 <= i < |r| ==> s[i] == (r[i].0, Finite(r[i].1))
  {
    seq(|r|, i requires 0 <= i < |r| => (r[i].0, Finite(r[i].1)))
  }

  /** Every list a fusion algorithm returns passes `validate` without errors. */
  lemma FusedOutputValidates(r: Fusion.Ranked, scores: map<string, real>)
    requires Fusion.FusedFrom(r, scores)
    ensures var s := AsScored(r); SortErrors(s) + DupErrors(s) + FiniteErrors(s) == []
  {
    var s := AsScored(r);
    forall i | 0 <= i < |s| - 1
      ensures !Less(s[i].1, s[i + 1].1)
    {
      assert Fusion.ByScoreDesc(r[i], r[i + 1]);
    }
    ValidIffWellFormed(s);
  }

  function Sorted3(): Scored {
    [("a", Finite(0.9)), ("b", Finite(0.8)), ("c", Finite(0.7))]
  }

  function Unsorted3(): Scored {
    [("a", Finite(0.9)), ("b", Finite(0.95)), ("c", Finite(0.7))]
  }

  /** test_validate_sorted: a descending list passes; one rise at position 0 is the one error. */
  lemma SortedExamples()
    ensures SortErrors(Sorted3()) == []
    ensures SortErrors(Unsorted3()) == [NotSorted(0, Finite(0.9), Finite(0.95))]
  {
    assert Sorted3()[..2] == [("a", Finite(0.9)), ("b", Finite(0.8))];
    assert Sorted3()[..2][..1] == [("a", Finite(0.9))];
    assert Unsorted3()[..2] == [("a", Finite(0.9)), ("b", Finite(0.95))];
    assert Unsorted3()[..2][..1] == [("a", Finite(0.9))];
  }

  /** A NaN never counts as out of order, so `validate_sorted` alone passes it. */
  lemma NaNIsNotUnsorted()
    ensures SortErrors([("a", Finite(0.1)), ("b", NaN)]) == []
  {
    var r := [("a", Finite(0.1)), ("b", NaN)];
    assert r[..1] == [("a", Finite(0.1))];
  }

  /** test_validate_no_duplicates: the repeated "a" at position 2 is the one error. */
  lemma DuplicateExamples()
    ensures DupErrors(Sorted3()) == []
    ensures DupErrors([("a", Finite(0.9)), ("b", Finite(0.8)), ("a", Finite(0.7))]) == [DuplicateId(2, "a")]
  {
    DupValidIffDistinct(Sorted3());
    var d := [("a", Finite(0.9)), ("b", Finite(0.8)), ("a", Finite(0.7))];
    assert d[..2] == [("a", Finite(0.9)), ("b", Finite(0.8))];
    DupValidIffDistinct(d[..2]);
    assert d[..2][0].0 == "a";
    assert "a" in Ids(d[..2]);
  }

  /** test_validate_finite_scores: NaN and infinity at position 1 are reported. */
  lemma FiniteExamples()
    ensures FiniteErrors([("a", Finite(0.9)), ("b", Finite(0.8))]) == []
    ensures FiniteErrors([("a", Finite(0.9)), ("b", NaN)]) == [NonFinite(1, "b", NaN)]
    ensures FiniteErrors([("a", Finite(0.9)), ("b", PosInf)]) == [NonFinite(1, "b", PosInf)]
  {
    assert [("a", Finite(0.9)), ("b", Finite(0.8))][..1] == [("a", Finite(0.9))];
    assert [("a", Finite(0.9)), ("b", NaN)][..1] == [("a", Finite(0.9))];
    assert [("a", Finite(0.9)), ("b", PosInf)][..1] == [("a", Finite(0.9))];
  }

  /** test_validate_comprehensive: a list both unsorted and with a duplicate has errors. */
  lemma ComprehensiveExample()
    ensures var d := [("a", Finite(0.9)), ("b", Finite(0.95)), ("a", Finite(0.7))];
      SortErrors(d) + DupErrors(d) + FiniteErrors(d) != []
  {
    var d := [("a", Finite(0.9)), ("b", Finite(0.95)), ("a", Finite(0.7))];
    ValidIffWellFormed(d);
    assert d[0].0 == d[2].0;
  }

  /** Negative scores produce one summary warning counting them. */
  lemma NegativeExample()
    ensures |NegativeScores([("a", Finite(0.5)), ("b", Finite(-0.1)), ("c", Finite(-0.2))])| == 2
  {
    var r := [("a", Finite(0.5)), ("b", Finite(-0.1)), ("c", Finite(-0.2))];
    assert r[..2] == [("a", Finite(0.5)), ("b", Finite(-0.1))];
    assert r[..2][..1] == [("a", Finite(0.5))];
    assert NegativeScores(r[..2][..1]) == [];
    assert |NegativeScores(r[..2])| == 1;
  }
}
