/**
 * The IR metrics of `evals/src/metrics.rs` over a ranked list of ids and a
 * set of relevant ids (binary relevance).
 *
 * `dcg_at_k` and `idcg_at_k` weight position i by 1 / log2(i + 2); the model
 * takes that weight as a parameter `gain`, so logarithms are not modelled.
 * Results are reals, so `f64` rounding is not modelled either.
 */
module Metrics {
  import opened Wrappers

  /** The gain per position: positive and not increasing, as 1 / log2(i + 2) is. */
  ghost predicate DiscountGain(gain: nat -> real) {
    && (forall i :: gain(i) > 0.0)
    && (forall i, j :: i <= j ==> gain(j) <= gain(i))
  }

  predicate Distinct<T(==)>(s: seq<T>) {
    forall i, j :: 0 <= i < j < |s| ==> s[i] != s[j]
  }

  function Min(a: nat, b: nat): nat {
    if a <= b then a else b
  }

  /** `ranked.iter().take(k)`. */
  function Take<T>(s: seq<T>, k: nat): (t: seq<T>)
    ensures |t| == Min(k, |s|)
    ensures t == s[..|t|]
  {
    s[..Min(k, |s|)]
  }

  /** The number of positions of `s` holding a relevant id. */
  function Hits<T(==)>(s: seq<T>, relevant: set<T>): nat {
    if |s| == 0 then 0
    else Hits(s[..|s| - 1], relevant) + (if s[|s| - 1] in relevant then 1 else 0)
  }

  lemma {:induction false} HitsAtMostLength<T>(s: seq<T>, relevant: set<T>)
    ensures Hits(s, relevant) <= |s|
  {
    if |s| > 0 {
      HitsAtMostLength(s[..|s| - 1], relevant);
    }
  }

  /** The relevant ids that occur in `s`. */
  function HitIds<T(==)>(s: seq<T>, relevant: set<T>): set<T> {
    set i | 0 <= i < |s| && s[i] in relevant :: s[i]
  }

  /** Without repeated ids, the hits are distinct relevant ids, so at most |relevant| of them. */
  lemma {:induction false} HitsOfDistinct<T>(s: seq<T>, relevant: set<T>)
    requires Distinct(s)
    ensures Hits(s, relevant) == |HitIds(s, relevant)|
    ensures Hits(s, relevant) <= |relevant|
  {
    if |s| > 0 {
      var p := s[..|s| - 1];
      var x := s[|s| - 1];
      HitsOfDistinct(p, relevant);
      assert forall j :: 0 <= j < |p| ==> p[j] == s[j];
      if x in relevant {
        assert HitIds(s, relevant) == HitIds(p, relevant) + {x};
        assert x !in HitIds(p, relevant);
      } else {
        assert HitIds(s, relevant) == HitIds(p, relevant);
      }
    }
    assert HitIds(s, relevant) <= relevant;
    SubsetCardinality(HitIds(s, relevant), relevant);
  }

  lemma SubsetCardinality<T>(a: set<T>, b: set<T>)
    requires a <= b
    ensures |a| <= |b|
  {
    assert b == a + (b - a);
  }

  // ─── precision, recall, MRR ───────────────────────────────────────────────

  /** `precision_at_k`: 0 for k = 0, else the relevant share of the first k, always over k. */
  function PrecisionAtK<T(==)>(ranked: seq<T>, relevant: set<T>, k: nat): (r: real)
    ensures 0.0 <= r <= 1.0
    ensures k == 0 ==> r == 0.0
    ensures k > 0 ==> r * (k as real) == Hits(Take(ranked, k), relevant) as real
  {
    if k == 0 then 0.0
    else
      HitsAtMostLength(Take(ranked, k), relevant);
      Hits(Take(ranked, k), relevant) as real / k as real
  }

  /** `recall_at_k`: 0 for no relevant ids, else the relevant hits of the first k over |relevant|. */
  function RecallAtK<T(==)>(ranked: seq<T>, relevant: set<T>, k: nat): (r: real)
    ensures 0.0 <= r
    ensures |relevant| == 0 ==> r == 0.0
    ensures |relevant| > 0 ==> r * (|relevant| as real) == Hits(Take(ranked, k), relevant) as real
  {
    if |relevant| == 0 then 0.0
    else Hits(Take(ranked, k), relevant) as real / |relevant| as real
  }

  /** Recall is at most 1 when the ranking repeats no id. */
  lemma RecallAtMostOne<T>(ranked: seq<T>, relevant: set<T>, k: nat)
    requires Distinct(ranked)
    ensures RecallAtK(ranked, relevant, k) <= 1.0
  {
    if |relevant| > 0 {
      var hits := Hits(Take(ranked, k), relevant);
      HitsOfDistinct(Take(ranked, k), relevant);
      DivWithinUnit(hits as real, |relevant| as real);
    }
  }

  /** The first position holding a relevant id, if any. */
  function FirstRelevant<T(==)>(ranked: seq<T>, relevant: set<T>): (r: Option<nat>)
    ensures r.Some? ==>
      && r.value < |ranked| && ranked[r.value] in relevant
      && forall j :: 0 <= j < r.value ==> ranked[j] !in relevant
    ensures r.None? ==> forall j :: 0 <= j < |ranked| ==> ranked[j] !in relevant
  {
    if |ranked| == 0 then None
    else if ranked[0] in relevant then Some(0)
    else
      match FirstRelevant(ranked[1..], relevant)
      case Some(i) => Some(i + 1)
      case None => None
  }

  /** `mrr`: 1/(i+1) for the first relevant position i, 0 if none. */
  function Mrr<T(==)>(ranked: seq<T>, relevant: set<T>): (r: real)
    ensures 0.0 <= r <= 1.0
    ensures r == 0.0 <==> forall j :: 0 <= j < |ranked| ==> ranked[j] !in relevant
  {
    match FirstRelevant(ranked, relevant)
    case Some(i) => 1.0 / (i + 1) as real
    case None => 0.0
  }

  // ─── DCG, IDCG, nDCG ──────────────────────────────────────────────────────

  /** The gains of the first n positions. */
  function GainSum(gain: nat -> real, n: nat): real {
    if n == 0 then 0.0 else GainSum(gain, n - 1) + gain(n - 1)
  }

  /** Sum of the gains of the positions of `s` that hold a relevant id. */
  function RelevantGains<T(==)>(s: seq<T>, relevant: set<T>, gain: nat -> real): real {
    if |s| == 0 then 0.0
    else RelevantGains(s[..|s| - 1], relevant, gain) + (if s[|s| - 1] in relevant then gain(|s| - 1) else 0.0)
  }

  /** `dcg_at_k`. */
  function DcgAtK<T(==)>(ranked: seq<T>, relevant: set<T>, k: nat, gain: nat -> real): real {
    RelevantGains(Take(ranked, k), relevant, gain)
  }

  /** `idcg_at_k`: the gains of the first min(k, n_relevant) positions. */
  function IdcgAtK(nRelevant: nat, k: nat, gain: nat -> real): real {
    GainSum(gain, Min(k, nRelevant))
  }

  /** `ndcg_at_k`: 0 when the ideal is 0, otherwise DCG over the ideal. */
  function NdcgAtK<T(==)>(ranked: seq<T>, relevant: set<T>, k: nat, gain: nat -> real): (r: real)
    ensures IdcgAtK(|relevant|, k, gain) == 0.0 ==> r == 0.0
    ensures IdcgAtK(|relevant|, k, gain) != 0.0 ==> r * IdcgAtK(|relevant|, k, gain) == DcgAtK(ranked, relevant, k, gain)
  {
    var ideal := IdcgAtK(|relevant|, k, gain);
    if ideal == 0.0 then 0.0 else DcgAtK(ranked, relevant, k, gain) / ideal
  }

  lemma {:induction false} GainSumMonotone(gain: nat -> real, m: nat, n: nat)
    requires DiscountGain(gain)
    requires m <= n
    ensures 0.0 <= GainSum(gain, m) <= GainSum(gain, n)
    ensures 0 < m ==> 0.0 < GainSum(gain, m)
  {
    if m < n {
      GainSumMonotone(gain, m, n - 1);
      assert gain(n - 1) > 0.0;
    } else if m > 0 {
      GainSumMonotone(gain, m - 1, m - 1);
      assert gain(m - 1) > 0.0;
    }
  }

  /** The ideal is zero exactly when k = 0 or nothing is relevant. */
  lemma IdealZeroIff(nRelevant: nat, k: nat, gain: nat -> real)
    requires DiscountGain(gain)
    ensures IdcgAtK(nRelevant, k, gain) == 0.0 <==> k == 0 || nRelevant == 0
  {
    GainSumMonotone(gain, Min(k, nRelevant), Min(k, nRelevant));
  }

  /** The relevant gains of a prefix never exceed the gains of as many top positions as it has hits. */
  lemma {:induction false} RelevantGainsAtMostIdeal<T>(s: seq<T>, relevant: set<T>, gain: nat -> real)
    requires DiscountGain(gain)
    ensures 0.0 <= RelevantGains(s, relevant, gain) <= GainSum(gain, Hits(s, relevant))
  {
    if |s| > 0 {
      var p := s[..|s| - 1];
      RelevantGainsAtMostIdeal(p, relevant, gain);
      HitsAtMostLength(p, relevant);
      if s[|s| - 1] in relevant {
        assert gain(|s| - 1) <= gain(Hits(p, relevant));
      }
    }
  }

  /** With a decreasing gain and no repeated id, nDCG lies in [0, 1]. */
  lemma NdcgWithinUnit<T>(ranked: seq<T>, relevant: set<T>, k: nat, gain: nat -> real)
    requires DiscountGain(gain)
    requires Distinct(ranked)
    ensures 0.0 <= NdcgAtK(ranked, relevant, k, gain) <= 1.0
  {
    var t := Take(ranked, k);
    assert Distinct(t);
    RelevantGainsAtMostIdeal(t, relevant, gain);
    HitsOfDistinct(t, relevant);
    HitsAtMostLength(t, relevant);
    var h := Hits(t, relevant);
    assert h <= Min(k, |relevant|);
    GainSumMonotone(gain, h, Min(k, |relevant|));
    var ideal := IdcgAtK(|relevant|, k, gain);
    if ideal != 0.0 {
      DivWithinUnit(DcgAtK(ranked, relevant, k, gain), ideal);
    }
  }

  lemma DivWithinUnit(a: real, b: real)
    requires 0.0 <= a <= b && b > 0.0
    ensures 0.0 <= a / b <= 1.0
  {
  }

  // ─── average precision ────────────────────────────────────────────────────

  /** Σ over relevant positions i of (hits up to and including i) / (i + 1). */
  function PrecisionSum<T(==)>(s: seq<T>, relevant: set<T>): real {
    if |s| == 0 then 0.0
    else
      PrecisionSum(s[..|s| - 1], relevant)
      + (if s[|s| - 1] in relevant then Hits(s, relevant) as real / |s| as real else 0.0)
  }

  /** `average_precision`, with the source's running `sum` and `hits`. */
  method AveragePrecision<T(==)>(ranked: seq<T>, relevant: set<T>) returns (ap: real)
    ensures |relevant| == 0 ==> ap == 0.0
    ensures |relevant| > 0 ==> ap * (|relevant| as real) == PrecisionSum(ranked, relevant)
  {
    if |relevant| == 0 {
      return 0.0;
    }
    var sum := 0.0;
    var hits: nat := 0;
    for i := 0 to |ranked|
      invariant hits == Hits(ranked[..i], relevant)
      invariant sum == PrecisionSum(ranked[..i], relevant)
    {
      assert ranked[..i + 1][..i] == ranked[..i];
      if ranked[i] in relevant {
        hits := hits + 1;
        sum := sum + hits as real / (i + 1) as real;
      }
    }
    assert ranked[..|ranked|] == ranked;
    ap := sum / |relevant| as real;
  }

  /** Each term of the precision sum is at most 1, so the sum is at most the hits. */
  lemma {:induction false} PrecisionSumAtMostHits<T>(s: seq<T>, relevant: set<T>)
    ensures 0.0 <= PrecisionSum(s, relevant) <= Hits(s, relevant) as real
  {
    if |s| > 0 {
      PrecisionSumAtMostHits(s[..|s| - 1], relevant);
      HitsAtMostLength(s, relevant);
      DivWithinUnit(Hits(s, relevant) as real, |s| as real);
    }
  }

  /** With no repeated id, average precision lies in [0, 1]. */
  lemma AveragePrecisionWithinUnit<T>(ranked: seq<T>, relevant: set<T>)
    requires Distinct(ranked) && |relevant| > 0
    ensures 0.0 <= PrecisionSum(ranked, relevant) / |relevant| as real <= 1.0
  {
    PrecisionSumAtMostHits(ranked, relevant);
    HitsOfDistinct(ranked, relevant);
    DivWithinUnit(PrecisionSum(ranked, relevant), |relevant| as real);
  }

  // ─── Metrics::compute ─────────────────────────────────────────────────────

  datatype MetricSet = MetricSet(
    precisionAt1: real, precisionAt5: real, precisionAt10: real,
    recallAt5: real, recallAt10: real,
    mrr: real,
    ndcgAt5: real, ndcgAt10: real,
    averagePrecision: real)
  {
    predicate WithinUnit() {
      && 0.0 <= precisionAt1 <= 1.0 && 0.0 <= precisionAt5 <= 1.0 && 0.0 <= precisionAt10 <= 1.0
      && 0.0 <= recallAt5 <= 1.0 && 0.0 <= recallAt10 <= 1.0
      && 0.0 <= mrr <= 1.0
      && 0.0 <= ndcgAt5 <= 1.0 && 0.0 <= ndcgAt10 <= 1.0
      && 0.0 <= averagePrecision <= 1.0
    }
  }

  /** `Metrics::compute`: cut-offs 1, 5, 10 for precision, 5, 10 for recall and nDCG. */
  method Compute<T(==)>(ranked: seq<T>, relevant: set<T>, gain: nat -> real) returns (m: MetricSet)
    ensures m.precisionAt1 == PrecisionAtK(ranked, relevant, 1)
    ensures m.precisionAt5 == PrecisionAtK(ranked, relevant, 5)
    ensures m.precisionAt10 == PrecisionAtK(ranked, relevant, 10)
    ensures m.recallAt5 == RecallAtK(ranked, relevant, 5)
    ensures m.recallAt10 == RecallAtK(ranked, relevant, 10)
    ensures m.mrr == Mrr(ranked, relevant)
    ensures m.ndcgAt5 == NdcgAtK(ranked, relevant, 5, gain)
    ensures m.ndcgAt10 == NdcgAtK(ranked, relevant, 10, gain)
    ensures m.averagePrecision == (if |relevant| == 0 then 0.0 else PrecisionSum(ranked, relevant) / |relevant| as real)
    ensures DiscountGain(gain) && Distinct(ranked) ==> m.WithinUnit()
  {
    var ap := AveragePrecision(ranked, relevant);
    if |relevant| > 0 {
      QuotientOfProduct(ap, |relevant| as real, PrecisionSum(ranked, relevant));
    }
    m := MetricSet(
      PrecisionAtK(ranked, relevant, 1), PrecisionAtK(ranked, relevant, 5), PrecisionAtK(ranked, relevant, 10),
      RecallAtK(ranked, relevant, 5), RecallAtK(ranked, relevant, 10),
      Mrr(ranked, relevant),
      NdcgAtK(ranked, relevant, 5, gain), NdcgAtK(ranked, relevant, 10, gain),
      ap);
    if DiscountGain(gain) && Distinct(ranked) {
      MetricSetWithinUnit(ranked, relevant, gain);
    }
  }

  /** Every field `Metrics::compute` fills lies in [0, 1]. */
  lemma MetricSetWithinUnit<T>(ranked: seq<T>, relevant: set<T>, gain: nat -> real)
    requires DiscountGain(gain) && Distinct(ranked)
    ensures MetricSet(
      PrecisionAtK(ranked, relevant, 1), PrecisionAtK(ranked, relevant, 5), PrecisionAtK(ranked, relevant, 10),
      RecallAtK(ranked, relevant, 5), RecallAtK(ranked, relevant, 10),
      Mrr(ranked, relevant),
      NdcgAtK(ranked, relevant, 5, gain), NdcgAtK(ranked, relevant, 10, gain),
      if |relevant| == 0 then 0.0 else PrecisionSum(ranked, relevant) / |relevant| as real).WithinUnit()
  {
    RecallAtMostOne(ranked, relevant, 5);
    RecallAtMostOne(ranked, relevant, 10);
    NdcgWithinUnit(ranked, relevant, 5, gain);
    NdcgWithinUnit(ranked, relevant, 10, gain);
    if |relevant| > 0 {
      AveragePrecisionWithinUnit(ranked, relevant);
    }
  }

  lemma QuotientOfProduct(x: real, n: real, p: real)
    requires n > 0.0 && x * n == p
    ensures x == p / n
  {
  }
}
