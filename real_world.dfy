/**
 * Per-query metrics and their averaging over a dataset, as in
 * `evals/src/real_world.rs`.
 *
 * A ranked list is a sequence of (document id, score) pairs and a query's
 * qrels map document ids to graded relevance.  The graded nDCG and MAP of
 * the evaluation library, and the multi-list fusion that produces a query's
 * ranked list, are outside this model: an `Evaluator` carries them as
 * functions.
 */
module RealWorld {
  import opened Wrappers
  import opened KeyOrder
  import Metrics

  type Ranked = seq<(string, real)>

  /** A query's qrels: document id to relevance grade (`u32`). */
  type QueryQrels = map<string, nat>

  /** `FusionMetrics`; `meanAveragePrecision` is the source's `map` field. */
  datatype FusionMetrics = FusionMetrics(
    ndcgAt10: real, ndcgAt100: real, meanAveragePrecision: real,
    mrr: real, precisionAt10: real, recallAt100: real)

  const Zero := FusionMetrics(0.0, 0.0, 0.0, 0.0, 0.0, 0.0)

  /** The functions the evaluation calls but does not define. */
  datatype Evaluator = Evaluator(
    fuse: seq<Ranked> -> Ranked,                   // `fuse_multi` over a query's runs, in the order given
    ndcg: (Ranked, QueryQrels, nat) -> real,       // `compute_ndcg(ranked, qrels, k)`
    meanAp: (Ranked, QueryQrels) -> real)          // `compute_map(ranked, qrels)`

  // ─── compute_metrics ──────────────────────────────────────────────────────

  /** `qrels.get(id).unwrap_or(&0)`. */
  function Grade(qrels: QueryQrels, id: string): nat {
    if id in qrels then qrels[id] else 0
  }

  /** The documents with a positive grade. */
  function Relevant(qrels: QueryQrels): set<string> {
    set d | d in qrels && qrels[d] > 0
  }

  function Ids(ranked: Ranked): (ids: seq<string>)
    ensures |ids| == |ranked|
  {
    seq(|ranked|, i requires 0 <= i < |ranked| => ranked[i].0)
  }

  /**
   * What `compute_metrics` returns, in the terms of the binary metrics of
   * `evals/src/metrics.rs` over the documents with a positive grade.
   */
  function QueryMetrics(ranked: Ranked, qrels: QueryQrels, ev: Evaluator): FusionMetrics {
    var relevant := Relevant(qrels);
    if |relevant| == 0 then Zero
    else
      FusionMetrics(
        ev.ndcg(ranked, qrels, 10), ev.ndcg(ranked, qrels, 100), ev.meanAp(ranked, qrels),
        Metrics.Mrr(Ids(ranked), relevant),
        Metrics.PrecisionAtK(Ids(ranked), relevant, 10),
        Metrics.RecallAtK(Ids(ranked), relevant, 100))
  }

  /** `compute_metrics`: counts over the first 10 and 100 ids, then a scan that stops at the first relevant id. */
  method ComputeMetrics(ranked: Ranked, qrels: QueryQrels, ev: Evaluator) returns (m: FusionMetrics)
    ensures m == QueryMetrics(ranked, qrels, ev)
  {
    m := Zero;
    var relevant := Relevant(qrels);
    if |relevant| == 0 {
      return;
    }
    var ids := Ids(ranked);
    var top10 := Metrics.Take(ids, 10);
    m := m.(precisionAt10 := Metrics.Hits(top10, relevant) as real / 10.0);
    var top100 := Metrics.Take(ids, 100);
    m := m.(recallAt100 := Metrics.Hits(top100, relevant) as real / |relevant| as real);
    var rank := 0;
    while rank < |ranked|
      invariant rank <= |ranked|
      invariant forall j :: 0 <= j < rank ==> ids[j] !in relevant
      invariant m.mrr == 0.0
    {
      if Grade(qrels, ranked[rank].0) > 0 {
        assert ids[rank] in relevant;
        assert Metrics.FirstRelevant(ids, relevant) == Some(rank);
        m := m.(mrr := 1.0 / (rank + 1) as real);
        break;
      }
      rank := rank + 1;
    }
    m := m.(ndcgAt10 := ev.ndcg(ranked, qrels, 10), ndcgAt100 := ev.ndcg(ranked, qrels, 100));
    m := m.(meanAveragePrecision := ev.meanAp(ranked, qrels));
  }

  /** Precision@10 always divides by 10, so it lies in [0, 1] and a list shorter than 10 cannot reach 1. */
  lemma PrecisionBounds(ranked: Ranked, qrels: QueryQrels, ev: Evaluator)
    ensures 0.0 <= QueryMetrics(ranked, qrels, ev).precisionAt10
    ensures QueryMetrics(ranked, qrels, ev).precisionAt10 * 10.0 <= (if |ranked| < 10 then |ranked| else 10) as real
  {
    var relevant := Relevant(qrels);
    if |relevant| > 0 {
      Metrics.HitsAtMostLength(Metrics.Take(Ids(ranked), 10), relevant);
    }
  }

  /** The reciprocal rank lies in [0, 1] and is positive exactly when some listed document has a positive grade. */
  lemma MrrBounds(ranked: Ranked, qrels: QueryQrels, ev: Evaluator)
    ensures 0.0 <= QueryMetrics(ranked, qrels, ev).mrr <= 1.0
    ensures QueryMetrics(ranked, qrels, ev).mrr > 0.0 <==> exists i :: 0 <= i < |ranked| && Grade(qrels, ranked[i].0) > 0
  {
    var relevant := Relevant(qrels);
    var ids := Ids(ranked);
    forall i | 0 <= i < |ranked|
      ensures ids[i] in relevant <==> Grade(qrels, ranked[i].0) > 0
    {
    }
    if |relevant| == 0 {
      forall i | 0 <= i < |ranked|
        ensures Grade(qrels, ranked[i].0) == 0
      {
        assert ids[i] !in relevant;
      }
    }
  }

  /** Recall is not negative, and at most 1 when the ranked list repeats no id. */
  lemma RecallBounds(ranked: Ranked, qrels: QueryQrels, ev: Evaluator)
    ensures 0.0 <= QueryMetrics(ranked, qrels, ev).recallAt100
    ensures Metrics.Distinct(Ids(ranked)) ==> QueryMetrics(ranked, qrels, ev).recallAt100 <= 1.0
  {
    var relevant := Relevant(qrels);
    if |relevant| > 0 && Metrics.Distinct(Ids(ranked)) {
      Metrics.RecallAtMostOne(Ids(ranked), relevant, 100);
    }
  }

  // ─── evaluate_fusion_method ───────────────────────────────────────────────

  /** A query's runs: run tag to that run's ranked list for the query. */
  type QueryRuns = map<string, Ranked>

  /** Query id to that query's runs. */
  type GroupedRuns = map<string, QueryRuns>

  /** Query id to that query's qrels. */
  type AllQrels = map<string, QueryQrels>

  /** Query id to the order its runs' map yields the run tags in. */
  type RunOrders = map<string, seq<string>>

  function Lookup(runs: QueryRuns, tag: string): Ranked {
    if tag in runs then runs[tag] else []
  }

  /** `runs.values().collect()`, the runs' map yielding its tags in the order `tags`. */
  function RunLists(runs: QueryRuns, tags: seq<string>): (lists: seq<Ranked>)
    ensures |lists| == |tags|
  {
    if |tags| == 0 then []
    else RunLists(runs, tags[..|tags| - 1]) + [Lookup(runs, tags[|tags| - 1])]
  }

  /** `tags` lists every key of `keys` once: one iteration order of a map with those keys. */
  ghost predicate IsEnumeration(tags: seq<string>, keys: set<string>) {
    NoRepeats(tags) && forall t :: t in tags <==> t in keys
  }

  /** Each listed query's entry is an iteration order of its runs. */
  ghost predicate EnumeratesRuns(grouped: GroupedRuns, orders: RunOrders) {
    forall q :: q in orders ==> q in grouped && IsEnumeration(orders[q], grouped[q].Keys)
  }

  /** An iteration order of every query's runs. */
  ghost predicate ValidRunOrders(grouped: GroupedRuns, orders: RunOrders) {
    orders.Keys == grouped.Keys && EnumeratesRuns(grouped, orders)
  }

  lemma EnumeratesRunsUpdate(grouped: GroupedRuns, orders: RunOrders, q: string, tags: seq<string>)
    requires EnumeratesRuns(grouped, orders)
    requires q in grouped && IsEnumeration(tags, grouped[q].Keys)
    ensures EnumeratesRuns(grouped, orders[q := tags])
  {
  }

  /** Every set of tags has an iteration order: the ascending one, say. */
  lemma SomeEnumeration(keys: set<string>) returns (tags: seq<string>)
    ensures IsEnumeration(tags, keys)
  {
    tags := SortedElems(keys);
  }

  /** The runs in ascending tag order, one iteration order among the others. */
  ghost function SortedRunOrders(grouped: GroupedRuns): (orders: RunOrders)
    ensures ValidRunOrders(grouped, orders)
  {
    map q | q in grouped :: SortedElems(grouped[q].Keys)
  }

  /** The runs of query `q`; a query absent from `grouped` has none. */
  function RunsOf(q: string, grouped: GroupedRuns): QueryRuns {
    if q in grouped then grouped[q] else map[]
  }

  /** The run order `orders` gives query `q`; none for a query it does not list. */
  function TagsOf(q: string, orders: RunOrders): seq<string> {
    if q in orders then orders[q] else []
  }

  /** What `fuse_multi` returns for query `q`, its runs listed in the order `orders` gives. */
  function FusedQuery(q: string, grouped: GroupedRuns, ev: Evaluator, orders: RunOrders): Ranked {
    ev.fuse(RunLists(RunsOf(q, grouped), TagsOf(q, orders)))
  }

  /**
   * The metrics query `q` adds to the average, its runs fused in the order
   * `tags`: none when it has fewer than two runs, when fusion returns
   * nothing, or when it has no qrels.
   */
  function ContributionWith(q: string, grouped: GroupedRuns, qrels: AllQrels, ev: Evaluator, tags: seq<string>)
    : Option<FusionMetrics>
  {
    if |RunsOf(q, grouped)| < 2 then None
    else
      var fused := ev.fuse(RunLists(RunsOf(q, grouped), tags));
      if |fused| == 0 || q !in qrels then None
      else Some(QueryMetrics(fused, qrels[q], ev))
  }

  /** The metrics query `q` adds, its runs fused in the order `orders` gives. */
  function Contribution(q: string, grouped: GroupedRuns, qrels: AllQrels, ev: Evaluator, orders: RunOrders)
    : Option<FusionMetrics>
  {
    ContributionWith(q, grouped, qrels, ev, TagsOf(q, orders))
  }

  function Plus(a: FusionMetrics, b: FusionMetrics): FusionMetrics {
    FusionMetrics(
      a.ndcgAt10 + b.ndcgAt10, a.ndcgAt100 + b.ndcgAt100, a.meanAveragePrecision + b.meanAveragePrecision,
      a.mrr + b.mrr, a.precisionAt10 + b.precisionAt10, a.recallAt100 + b.recallAt100)
  }

  /** The running sums and `query_count`. */
  datatype Tally = Tally(sum: FusionMetrics, count: nat)

  function Add(t: Tally, c: Option<FusionMetrics>): Tally {
    match c
    case Some(m) => Tally(Plus(t.sum, m), t.count + 1)
    case None => t
  }

  /** `Contribution` for fixed runs, run orders, qrels and evaluator. */
  function ContributionOf(grouped: GroupedRuns, qrels: AllQrels, ev: Evaluator, orders: RunOrders)
    : string -> Option<FusionMetrics>
  {
    q => Contribution(q, grouped, qrels, ev, orders)
  }

  /** The tally after visiting the queries `order` in turn, query q adding `c(q)`. */
  function TallyOf(order: seq<string>, c: string -> Option<FusionMetrics>): Tally {
    if |order| == 0 then Tally(Zero, 0)
    else Add(TallyOf(order[..|order| - 1], c), c(order[|order| - 1]))
  }

  /** The final division by `query_count`, skipped when no query counted. */
  function Averaged(t: Tally): FusionMetrics {
    if t.count == 0 then t.sum
    else
      var n := t.count as real;
      FusionMetrics(
        t.sum.ndcgAt10 / n, t.sum.ndcgAt100 / n, t.sum.meanAveragePrecision / n,
        t.sum.mrr / n, t.sum.precisionAt10 / n, t.sum.recallAt100 / n)
  }

  /**
   * The averaged metrics of a dataset, its runs fused in the iteration
   * orders `orders`; by `AveragesIgnoreOrder` the order the queries are
   * visited in does not matter, so they are tallied in ascending order.
   */
  ghost function MetricsUnder(grouped: GroupedRuns, qrels: AllQrels, ev: Evaluator, orders: RunOrders)
    : FusionMetrics
  {
    Averaged(TallyOf(SortedElems(grouped.Keys), ContributionOf(grouped, qrels, ev, orders)))
  }

  /** The averaged metrics of a dataset, every query's runs fused in ascending tag order. */
  ghost function DatasetMetrics(grouped: GroupedRuns, qrels: AllQrels, ev: Evaluator): FusionMetrics {
    MetricsUnder(grouped, qrels, ev, SortedRunOrders(grouped))
  }

  /** The fusion gives the same list for any two orderings of the same runs. */
  ghost predicate FusionIgnoresOrder(ev: Evaluator) {
    forall a: seq<Ranked>, b: seq<Ranked> :: multiset(a) == multiset(b) ==> ev.fuse(a) == ev.fuse(b)
  }

  /**
   * `evaluate_fusion_method`.  Queries are visited, and each query's runs
   * are handed to the fusion, in the iteration orders of the hash maps,
   * which are unspecified; `runOrders` names the run orders taken.  The
   * query order does not change the result; the run order changes it only
   * through the fusion.
   */
  method EvaluateFusionMethod(grouped: GroupedRuns, qrels: AllQrels, ev: Evaluator)
    returns (metrics: FusionMetrics, ghost runOrders: RunOrders)
    ensures ValidRunOrders(grouped, runOrders)
    ensures metrics == MetricsUnder(grouped, qrels, ev, runOrders)
    ensures 0.0 <= metrics.precisionAt10 <= 1.0 && 0.0 <= metrics.mrr <= 1.0 && 0.0 <= metrics.recallAt100
    ensures FusionIgnoresOrder(ev) ==> metrics == DatasetMetrics(grouped, qrels, ev)
  {
    var queryOrder := IterationOrder(grouped.Keys);
    metrics := Zero;
    var queryCount: nat := 0;
    runOrders := map[];
    for n := 0 to |queryOrder|
      invariant Visited(queryOrder, n, grouped, qrels, ev, runOrders, Tally(metrics, queryCount))
    {
      ghost var before := Tally(metrics, queryCount);
      var queryId := queryOrder[n];
      assert queryId in queryOrder;
      var runs := grouped[queryId];
      ghost var tags: seq<string>;
      ghost var contribution: Option<FusionMetrics> := None;
      if |runs| >= 2 {
        var runTags := IterationOrder(runs.Keys);
        tags := runTags;
        var fused := ev.fuse(RunLists(runs, runTags));
        if |fused| > 0 && queryId in qrels {
          var queryMetrics := ComputeMetrics(fused, qrels[queryId], ev);
          contribution := Some(queryMetrics);
          metrics := Plus(metrics, queryMetrics);
          queryCount := queryCount + 1;
        }
      } else {
        tags := SomeEnumeration(runs.Keys);
      }
      VisitStep(queryOrder, n, grouped, qrels, ev, runOrders, tags, before, contribution);
      runOrders := runOrders[queryId := tags];
    }
    VisitedAll(queryOrder, grouped, qrels, ev, runOrders, Tally(metrics, queryCount));
    if queryCount > 0 {
      var n := queryCount as real;
      metrics := FusionMetrics(
        metrics.ndcgAt10 / n, metrics.ndcgAt100 / n, metrics.meanAveragePrecision / n,
        metrics.mrr / n, metrics.precisionAt10 / n, metrics.recallAt100 / n);
    }
    EvaluationOutcome(queryOrder, grouped, qrels, ev, runOrders);
  }

  /** What the tally over one query order yields, whichever the query and run orders are. */
  lemma EvaluationOutcome(queryOrder: seq<string>, grouped: GroupedRuns, qrels: AllQrels, ev: Evaluator,
                          runOrders: RunOrders)
    requires IsEnumeration(queryOrder, grouped.Keys) && ValidRunOrders(grouped, runOrders)
    ensures var m := Averaged(TallyOf(queryOrder, ContributionOf(grouped, qrels, ev, runOrders)));
      && m == MetricsUnder(grouped, qrels, ev, runOrders)
      && 0.0 <= m.precisionAt10 <= 1.0 && 0.0 <= m.mrr <= 1.0 && 0.0 <= m.recallAt100
      && (FusionIgnoresOrder(ev) ==> m == DatasetMetrics(grouped, qrels, ev))
  {
    AveragesIgnoreOrder(queryOrder, SortedElems(grouped.Keys), grouped, qrels, ev, runOrders);
    AveragedBounds(SortedElems(grouped.Keys), grouped, qrels, ev, runOrders);
    if FusionIgnoresOrder(ev) {
      RunOrderIrrelevant(grouped, qrels, ev, runOrders, SortedRunOrders(grouped));
    }
  }

  /**
   * The loop state after visiting `order[..n]`: the run orders fixed so far
   * are those of the visited queries, and `t` is their tally.
   */
  ghost predicate Visited(order: seq<string>, n: nat, grouped: GroupedRuns, qrels: AllQrels, ev: Evaluator,
                          orders: RunOrders, t: Tally)
    requires n <= |order|
  {
    && (forall q :: q in orders <==> q in order[..n])
    && EnumeratesRuns(grouped, orders)
    && t == TallyOf(order[..n], ContributionOf(grouped, qrels, ev, orders))
  }

  /**
   * One visit: fixing query `order[n]`'s run order adds its contribution,
   * leaves the earlier ones alone and keeps the run orders valid.
   */
  lemma VisitStep(order: seq<string>, n: nat, grouped: GroupedRuns, qrels: AllQrels, ev: Evaluator,
                  orders: RunOrders, tags: seq<string>, t: Tally, c: Option<FusionMetrics>)
    requires n < |order| && NoRepeats(order)
    requires Visited(order, n, grouped, qrels, ev, orders, t)
    requires order[n] in grouped && IsEnumeration(tags, grouped[order[n]].Keys)
    requires c == ContributionWith(order[n], grouped, qrels, ev, tags)
    ensures Visited(order, n + 1, grouped, qrels, ev, orders[order[n] := tags], Add(t, c))
  {
    var next := orders[order[n] := tags];
    NotInPrefix(order, n);
    VisitedKeys(order, n, orders, next, tags);
    EnumeratesRunsUpdate(grouped, orders, order[n], tags);
    TallyStep(order, n, grouped, qrels, ev, orders, tags);
  }

  lemma NotInPrefix(order: seq<string>, n: nat)
    requires n < |order| && NoRepeats(order)
    ensures order[n] !in order[..n]
  {
  }

  /** After the last visit every query has its run order and the tally covers them all. */
  lemma VisitedAll(order: seq<string>, grouped: GroupedRuns, qrels: AllQrels, ev: Evaluator, orders: RunOrders, t: Tally)
    requires IsEnumeration(order, grouped.Keys)
    requires Visited(order, |order|, grouped, qrels, ev, orders, t)
    ensures ValidRunOrders(grouped, orders)
    ensures t == TallyOf(order, ContributionOf(grouped, qrels, ev, orders))
  {
    assert order[..|order|] == order;
    assert orders.Keys == grouped.Keys;
  }

  lemma VisitedKeys(order: seq<string>, n: nat, orders: RunOrders, next: RunOrders, tags: seq<string>)
    requires n < |order|
    requires forall q :: q in orders <==> q in order[..n]
    requires next == orders[order[n] := tags]
    ensures forall q :: q in next <==> q in order[..n + 1]
  {
    assert order[..n + 1] == order[..n] + [order[n]];
  }

  lemma TallyStep(order: seq<string>, n: nat, grouped: GroupedRuns, qrels: AllQrels, ev: Evaluator,
                  orders: RunOrders, tags: seq<string>)
    requires n < |order| && order[n] !in order[..n]
    ensures TallyOf(order[..n + 1], ContributionOf(grouped, qrels, ev, orders[order[n] := tags]))
         == Add(TallyOf(order[..n], ContributionOf(grouped, qrels, ev, orders)), ContributionWith(order[n], grouped, qrels, ev, tags))
  {
    var next := orders[order[n] := tags];
    forall q | q in order[..n]
      ensures Contribution(q, grouped, qrels, ev, next) == Contribution(q, grouped, qrels, ev, orders)
    {
      assert q != order[n];
    }
    TallyOfAgree(order[..n], ContributionOf(grouped, qrels, ev, next), ContributionOf(grouped, qrels, ev, orders));
    assert order[..n + 1][..n] == order[..n];
  }

  /** The tally only reads the contributions of the visited queries. */
  lemma {:induction false} TallyOfAgree(order: seq<string>, c: string -> Option<FusionMetrics>, d: string -> Option<FusionMetrics>)
    requires forall q :: q in order ==> c(q) == d(q)
    ensures TallyOf(order, c) == TallyOf(order, d)
  {
    if |order| > 0 {
      assert order[|order| - 1] in order;
      TallyOfAgree(order[..|order| - 1], c, d);
    }
  }

  lemma {:induction false} RunListsAppend(runs: QueryRuns, s: seq<string>, t: seq<string>)
    ensures RunLists(runs, s + t) == RunLists(runs, s) + RunLists(runs, t)
    decreases |t|
  {
    if |t| == 0 {
      assert s + t == s;
    } else {
      var p := t[..|t| - 1];
      assert (s + t)[..|s + t| - 1] == s + p;
      RunListsAppend(runs, s, p);
    }
  }

  /** Listing the same run tags in another order lists the same runs in another order. */
  lemma {:induction false} RunListsPermutation(runs: QueryRuns, s: seq<string>, t: seq<string>)
    requires multiset(s) == multiset(t)
    ensures multiset(RunLists(runs, s)) == multiset(RunLists(runs, t))
    decreases |t|
  {
    if |t| > 0 {
      var x := t[|t| - 1];
      assert x in multiset(s) by {
        assert x in multiset(t);
      }
      var i :| 0 <= i < |s| && s[i] == x;
      var front, back, p := s[..i], s[i + 1..], t[..|t| - 1];
      RemoveMatching(s, t, i);
      RunListsPermutation(runs, front + back, p);
      assert s == front + [x] + back;
      RunListsSplit(runs, front, x, back);
      RunListsAppend(runs, front, back);
      MultisetMiddle(RunLists(runs, front), Lookup(runs, x), RunLists(runs, back));
    }
  }

  lemma RunListsSplit(runs: QueryRuns, front: seq<string>, x: string, back: seq<string>)
    ensures RunLists(runs, front + [x] + back) == RunLists(runs, front) + [Lookup(runs, x)] + RunLists(runs, back)
  {
    RunListsAppend(runs, front + [x], back);
    RunListsAppend(runs, front, [x]);
  }

  lemma MultisetMiddle<T>(a: seq<T>, x: T, b: seq<T>)
    ensures multiset(a + [x] + b) == multiset(a + b) + multiset{x}
  {
  }

  /** When the fusion ignores the order of its runs, so do the contributions. */
  lemma RunOrderIrrelevant(grouped: GroupedRuns, qrels: AllQrels, ev: Evaluator, o1: RunOrders, o2: RunOrders)
    requires FusionIgnoresOrder(ev)
    requires ValidRunOrders(grouped, o1) && ValidRunOrders(grouped, o2)
    ensures MetricsUnder(grouped, qrels, ev, o1) == MetricsUnder(grouped, qrels, ev, o2)
  {
    forall q
      ensures ContributionOf(grouped, qrels, ev, o1)(q) == ContributionOf(grouped, qrels, ev, o2)(q)
    {
      if q in grouped {
        SameKeysPermutation(o1[q], o2[q]);
        RunListsPermutation(grouped[q], o1[q], o2[q]);
        assert FusedQuery(q, grouped, ev, o1) == FusedQuery(q, grouped, ev, o2);
      }
    }
    var order := SortedElems(grouped.Keys);
    TallyOfAgree(order, ContributionOf(grouped, qrels, ev, o1), ContributionOf(grouped, qrels, ev, o2));
  }

  lemma {:induction false} TallyOfAppend(a: seq<string>, b: seq<string>, c: string -> Option<FusionMetrics>)
    ensures TallyOf(a + b, c).sum == Plus(TallyOf(a, c).sum, TallyOf(b, c).sum)
    ensures TallyOf(a + b, c).count == TallyOf(a, c).count + TallyOf(b, c).count
  {
    if |b| == 0 {
      assert a + b == a;
    } else {
      var p := b[..|b| - 1];
      assert (a + b)[..|a + b| - 1] == a + p;
      TallyOfAppend(a, p, c);
    }
  }

  /** Moving one query to the end of the visit order leaves the tally unchanged. */
  lemma TallyOfMoveLast(front: seq<string>, x: string, back: seq<string>, c: string -> Option<FusionMetrics>)
    ensures TallyOf(front + [x] + back, c).sum == TallyOf(front + back + [x], c).sum
    ensures TallyOf(front + [x] + back, c).count == TallyOf(front + back + [x], c).count
  {
    var f, y, b := TallyOf(front, c), TallyOf([x], c), TallyOf(back, c);
    TallyOfAppend(front + [x], back, c);
    TallyOfAppend(front, [x], c);
    assert TallyOf(front + [x] + back, c).sum == Plus(Plus(f.sum, y.sum), b.sum);
    TallyOfAppend(front + back, [x], c);
    TallyOfAppend(front, back, c);
    assert TallyOf(front + back + [x], c).sum == Plus(Plus(f.sum, b.sum), y.sum);
    PlusSwap(f.sum, y.sum, b.sum);
  }

  /** Adding `y` and then `b` to a running sum is adding `b` and then `y`. */
  lemma PlusSwap(f: FusionMetrics, y: FusionMetrics, b: FusionMetrics)
    ensures Plus(Plus(f, y), b) == Plus(Plus(f, b), y)
  {
  }

  /** The tally is a sum, so it does not depend on the order the queries are visited in. */
  lemma {:induction false} TallyOfPermutation(s: seq<string>, t: seq<string>, c: string -> Option<FusionMetrics>)
    requires multiset(s) == multiset(t)
    ensures TallyOf(s, c).sum == TallyOf(t, c).sum
    ensures TallyOf(s, c).count == TallyOf(t, c).count
    decreases |t|
  {
    if |t| > 0 {
      var x := t[|t| - 1];
      assert x in multiset(s) by {
        assert x in multiset(t);
      }
      var i :| 0 <= i < |s| && s[i] == x;
      var front, back := s[..i], s[i + 1..];
      RemoveMatching(s, t, i);
      TallyOfPermutation(front + back, t[..|t| - 1], c);
      assert s == front + [x] + back;
      TallyOfMoveLast(front, x, back, c);
      assert (front + back + [x])[..|front + back|] == front + back;
    }
  }

  /** Taking a matching element out of two permutations leaves permutations. */
  lemma RemoveMatching(s: seq<string>, t: seq<string>, i: nat)
    requires multiset(s) == multiset(t) && |t| > 0
    requires i < |s| && s[i] == t[|t| - 1]
    ensures multiset(s[..i] + s[i + 1..]) == multiset(t[..|t| - 1])
  {
    var front, back, p := s[..i], s[i + 1..], t[..|t| - 1];
    assert s == front + [s[i]] + back;
    assert t == p + [t[|t| - 1]];
    assert multiset(s) == multiset(front) + multiset{s[i]} + multiset(back);
    assert multiset(t) == multiset(p) + multiset{s[i]};
    assert multiset(front + back) == multiset(front) + multiset(back);
    forall y
      ensures multiset(front + back)[y] == multiset(p)[y]
    {
      assert multiset(s)[y] == multiset(t)[y];
    }
  }

  /** Any two iteration orders of the queries give the same averages. */
  lemma AveragesIgnoreOrder(s: seq<string>, t: seq<string>, grouped: GroupedRuns, qrels: AllQrels, ev: Evaluator,
                            orders: RunOrders)
    requires NoRepeats(s) && forall q :: q in s <==> q in grouped
    requires NoRepeats(t) && forall q :: q in t <==> q in grouped
    ensures Averaged(TallyOf(s, ContributionOf(grouped, qrels, ev, orders))) == Averaged(TallyOf(t, ContributionOf(grouped, qrels, ev, orders)))
  {
    SameKeysPermutation(s, t);
    TallyOfPermutation(s, t, ContributionOf(grouped, qrels, ev, orders));
  }

  /** When no query counts, nothing was added, so every averaged metric is 0. */
  lemma {:induction false} NothingCountedIsZero(order: seq<string>, c: string -> Option<FusionMetrics>)
    ensures TallyOf(order, c).count == 0 ==> Averaged(TallyOf(order, c)) == Zero
  {
    if |order| > 0 {
      NothingCountedIsZero(order[..|order| - 1], c);
    }
  }

  lemma {:induction false} CountOfSome(order: seq<string>, c: string -> Option<FusionMetrics>)
    requires NoRepeats(order)
    ensures TallyOf(order, c).count == |set q | q in order && c(q).Some?|
  {
    if |order| > 0 {
      var p, x := order[..|order| - 1], order[|order| - 1];
      CountOfSome(p, c);
      CountSnoc(order, c);
      var before := set q | q in p && c(q).Some?;
      var after := set q | q in order && c(q).Some?;
      assert order == p + [x];
      assert x !in p;
      if c(x).Some? {
        assert after == before + {x};
      } else {
        assert after == before;
      }
    }
  }

  lemma CountSnoc(order: seq<string>, c: string -> Option<FusionMetrics>)
    requires |order| > 0
    ensures TallyOf(order, c).count
         == TallyOf(order[..|order| - 1], c).count + (if c(order[|order| - 1]).Some? then 1 else 0)
  {
  }

  /** `query_count` is the number of visited queries that have two runs, a non-empty fusion and qrels. */
  lemma CountIsCountedQueries(order: seq<string>, grouped: GroupedRuns, qrels: AllQrels, ev: Evaluator,
    orders: RunOrders)
    requires NoRepeats(order)
    ensures TallyOf(order, ContributionOf(grouped, qrels, ev, orders)).count
         == |set q | q in order && q in grouped && |grouped[q]| >= 2 && |FusedQuery(q, grouped, ev, orders)| > 0 && q in qrels|
  {
    var c := ContributionOf(grouped, qrels, ev, orders);
    CountOfSome(order, c);
    forall q
      ensures c(q).Some? <==> q in grouped && |grouped[q]| >= 2 && |FusedQuery(q, grouped, ev, orders)| > 0 && q in qrels
    {
      ContributionCounted(q, grouped, qrels, ev, orders);
    }
    assert (set q | q in order && c(q).Some?)
        == (set q | q in order && q in grouped && |grouped[q]| >= 2 && |FusedQuery(q, grouped, ev, orders)| > 0 && q in qrels);
  }

  /** A query contributes exactly when it has two runs, a non-empty fusion and qrels. */
  lemma ContributionCounted(q: string, grouped: GroupedRuns, qrels: AllQrels, ev: Evaluator, orders: RunOrders)
    ensures Contribution(q, grouped, qrels, ev, orders).Some?
        <==> q in grouped && |grouped[q]| >= 2 && |FusedQuery(q, grouped, ev, orders)| > 0 && q in qrels
  {
  }

  /** Each counted query's precision and reciprocal rank lie in [0, 1], so their sums lie in [0, count]. */
  lemma {:induction false} TallyBounds(order: seq<string>, grouped: GroupedRuns, qrels: AllQrels, ev: Evaluator,
    orders: RunOrders)
    ensures var t := TallyOf(order, ContributionOf(grouped, qrels, ev, orders));
      && 0.0 <= t.sum.precisionAt10 <= t.count as real
      && 0.0 <= t.sum.mrr <= t.count as real
      && 0.0 <= t.sum.recallAt100
  {
    if |order| > 0 {
      var q := order[|order| - 1];
      TallyBounds(order[..|order| - 1], grouped, qrels, ev, orders);
      var fused := FusedQuery(q, grouped, ev, orders);
      if |RunsOf(q, grouped)| >= 2 && |fused| > 0 && q in qrels {
        PrecisionBounds(fused, qrels[q], ev);
        MrrBounds(fused, qrels[q], ev);
        RecallBounds(fused, qrels[q], ev);
      }
    }
  }

  /** The averaged precision@10 and MRR lie in [0, 1]; the averaged recall is not negative. */
  lemma AveragedBounds(order: seq<string>, grouped: GroupedRuns, qrels: AllQrels, ev: Evaluator,
    orders: RunOrders)
    ensures 0.0 <= Averaged(TallyOf(order, ContributionOf(grouped, qrels, ev, orders))).precisionAt10 <= 1.0
    ensures 0.0 <= Averaged(TallyOf(order, ContributionOf(grouped, qrels, ev, orders))).mrr <= 1.0
    ensures 0.0 <= Averaged(TallyOf(order, ContributionOf(grouped, qrels, ev, orders))).recallAt100
  {
    var t := TallyOf(order, ContributionOf(grouped, qrels, ev, orders));
    TallyBounds(order, grouped, qrels, ev, orders);
    if t.count > 0 {
      var n := t.count as real;
      Metrics.DivWithinUnit(t.sum.precisionAt10, n);
      Metrics.DivWithinUnit(t.sum.mrr, n);
      DivNonNegative(t.sum.recallAt100, n);
    }
  }

  lemma DivNonNegative(a: real, b: real)
    requires 0.0 <= a && b > 0.0
    ensures 0.0 <= a / b
  {
  }
}
