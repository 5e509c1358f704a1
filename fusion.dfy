/**
 * The fusion algorithms of the `rank-fusion` crate (`src/lib.rs`).
 *
 * Each algorithm walks its input lists, adding one contribution per
 * occurrence of an identifier into an identifier -> score map, then emits the
 * map's entries sorted by descending score.  Scores are real numbers here;
 * `f32` rounding is not modelled.
 */
module Fusion {
  import opened Sorting

  /** A (document id, score) pair. */
  type Entry = (string, real)

  /** A result list, best first. */
  type Ranked = seq<Entry>

  /** `RrfConfig`: the smoothing constant `k` (a `u32`). */
  datatype RrfConfig = RrfConfig(k: nat)

  /** `RrfConfig::default()`. */
  const DefaultRrfConfig := RrfConfig(60)

  /** `WeightedConfig`: per-list weights and whether to min-max normalise. */
  datatype WeightedConfig = WeightedConfig(weightA: real, weightB: real, normalize: bool)

  /** `WeightedConfig::default()`. */
  const DefaultWeightedConfig := WeightedConfig(0.5, 0.5, true)

  /** `WeightedConfig::new`: custom weights, normalisation on. */
  function NewWeightedConfig(weightA: real, weightB: real): (c: WeightedConfig)
    ensures c.weightA == weightA && c.weightB == weightB && c.normalize
  {
    WeightedConfig(weightA, weightB, true)
  }

  /** What one occurrence at 0-based `rank` with `score` adds to its id. */
  datatype Rule =
    | Reciprocal(k: nat)                              // 1 / (k + rank)
    | Affine(weight: real, offset: real, scale: real) // weight * (score - offset) * scale
    | Positional(n: nat)                              // n - rank
  {
    predicate Valid() {
      Reciprocal? ==> k >= 1
    }
  }

  function Term(rule: Rule, rank: nat, score: real): real
    requires rule.Valid()
  {
    match rule
    case Reciprocal(k) => 1.0 / ((k + rank) as real)
    case Affine(w, off, scale) => w * (score - off) * scale
    case Positional(n) => n as real - rank as real
  }

  /** The identifiers occurring in a list. */
  function Ids(list: Ranked): set<string> {
    set i | 0 <= i < |list| :: list[i].0
  }

  /** The sum of `rule`'s contributions over every occurrence of `id` in `list`. */
  function ListTotal(list: Ranked, id: string, rule: Rule): real
    requires rule.Valid()
  {
    if |list| == 0 then 0.0
    else
      var last := |list| - 1;
      ListTotal(list[..last], id, rule)
      + (if list[last].0 == id then Term(rule, last, list[last].1) else 0.0)
  }

  /** How many times `id` occurs in `list`. */
  function Occurrences(list: Ranked, id: string): nat {
    if |list| == 0 then 0
    else
      var last := |list| - 1;
      Occurrences(list[..last], id) + (if list[last].0 == id then 1 else 0)
  }

  /** `*scores.entry(id).or_default()`. */
  function Get(scores: map<string, real>, id: string): real {
    if id in scores then scores[id] else 0.0
  }

  /** The score map of two lists fused under one rule each. */
  function Fused2(a: Ranked, ruleA: Rule, b: Ranked, ruleB: Rule): map<string, real>
    requires ruleA.Valid() && ruleB.Valid()
  {
    map id | id in Ids(a) + Ids(b) :: ListTotal(a, id, ruleA) + ListTotal(b, id, ruleB)
  }

  predicate DistinctIds(r: Ranked) {
    forall i, j :: 0 <= i < j < |r| ==> r[i].0 != r[j].0
  }

  /** "May come before" for a result list: a higher or equal score. */
  predicate ByScoreDesc(x: Entry, y: Entry) {
    x.1 >= y.1
  }

  predicate NonIncreasing(r: Ranked) {
    SortedBy(r, ByScoreDesc)
  }

  /**
   * `r` is the output of a fusion whose accumulated map is `scores`: every
   * entry of the map exactly once, best score first.  Ties may come in any
   * order (the source takes them in hash-map iteration order).
   */
  predicate FusedFrom(r: Ranked, scores: map<string, real>) {
    && DistinctIds(r)
    && Ids(r) == scores.Keys
    && (forall i :: 0 <= i < |r| ==> r[i].0 in scores && r[i].1 == scores[r[i].0])
    && NonIncreasing(r)
  }

  // ─── Accumulation ─────────────────────────────────────────────────────────

  lemma IdsSnoc(list: Ranked, i: nat)
    requires i < |list|
    ensures Ids(list[..i + 1]) == Ids(list[..i]) + {list[i].0}
  {
    var p := list[..i + 1];
    assert p[i] == list[i];
    forall id | id in Ids(p)
      ensures id in Ids(list[..i]) + {list[i].0}
    {
      var j :| 0 <= j < |p| && p[j].0 == id;
      if j < i {
        assert list[..i][j] == p[j];
      }
    }
  }

  /**
   * The loop `for (rank, (id, s)) in list.iter().enumerate() { *scores
   * .entry(id).or_default() += term }`: afterwards every id's score has grown
   * by its list total and the ids of `list` have been added.
   */
  method Accumulate(scores: map<string, real>, list: Ranked, rule: Rule) returns (out: map<string, real>)
    requires rule.Valid()
    ensures out.Keys == scores.Keys + Ids(list)
    ensures forall id :: Get(out, id) == Get(scores, id) + ListTotal(list, id, rule)
  {
    out := scores;
    for i := 0 to |list|
      invariant out.Keys == scores.Keys + Ids(list[..i])
      invariant forall id :: Get(out, id) == Get(scores, id) + ListTotal(list[..i], id, rule)
    {
      var (id, s) := list[i];
      out := out[id := Get(out, id) + Term(rule, i, s)];
      assert list[..i + 1][..i] == list[..i];
      IdsSnoc(list, i);
    }
    assert list[..|list|] == list;
  }

  /** The entries of `scores`, collected and sorted by descending score. */
  method CollectSorted(scores: map<string, real>) returns (r: Ranked)
    ensures FusedFrom(r, scores)
  {
    r := [];
    var rest := scores.Keys;
    while rest != {}
      invariant rest <= scores.Keys
      invariant CollectedSoFar(r, scores, rest)
      decreases |rest|
    {
      var id :| id in rest;
      var next := Insert(r, (id, scores[id]), ByScoreDesc);
      CollectStep(r, scores, rest, id, next);
      r := next;
      rest := rest - {id};
    }
  }

  /** The collection loop's invariant: the entries of every key no longer in `rest`, sorted. */
  predicate CollectedSoFar(r: Ranked, scores: map<string, real>, rest: set<string>) {
    && Ids(r) == scores.Keys - rest
    && DistinctIds(r)
    && (forall i :: 0 <= i < |r| ==> r[i].0 in scores && r[i].1 == scores[r[i].0])
    && NonIncreasing(r)
  }

  lemma ByScoreDescTotalPreorder()
    ensures TotalPreorder(ByScoreDesc)
  {
  }

  /** One iteration of the collection loop keeps its invariant. */
  lemma CollectStep(r: Ranked, scores: map<string, real>, rest: set<string>, id: string, next: Ranked)
    requires rest <= scores.Keys && id in rest
    requires CollectedSoFar(r, scores, rest)
    requires next == Insert(r, (id, scores[id]), ByScoreDesc)
    ensures CollectedSoFar(next, scores, rest - {id})
  {
    var x := (id, scores[id]);
    InsertKeepsDistinct(r, x);
    InsertAddsId(r, x);
    InsertTakesFrom(r, x);
    ByScoreDescTotalPreorder();
    forall i | 0 <= i < |next|
      ensures next[i].0 in scores && next[i].1 == scores[next[i].0]
    {
      if next[i] != x {
        var j :| 0 <= j < |r| && r[j] == next[i];
      }
    }
  }

  /** Inserting an entry whose id is new keeps the ids distinct. */
  lemma InsertKeepsDistinct(r: Ranked, x: Entry)
    requires DistinctIds(r) && x.0 !in Ids(r)
    ensures DistinctIds(Insert(r, x, ByScoreDesc))
  {
    var p := InsertPos(r, x, ByScoreDesc);
    SpliceKeepsDistinct(r, x, p, Insert(r, x, ByScoreDesc));
  }

  /** Placing an entry with a new id at position `p` keeps the ids distinct. */
  lemma SpliceKeepsDistinct(r: Ranked, x: Entry, p: nat, s: Ranked)
    requires DistinctIds(r) && x.0 !in Ids(r)
    requires p <= |r| && s == r[..p] + [x] + r[p..]
    ensures DistinctIds(s)
  {
    forall i, j | 0 <= i < j < |s|
      ensures s[i].0 != s[j].0
    {
      if i < p && j > p {
        assert s[i] == r[i] && s[j] == r[j - 1];
      } else if i < p && j == p {
        assert s[i] == r[i];
      } else if i == p {
        assert s[j] == r[j - 1];
      } else if i > p {
        assert s[i] == r[i - 1] && s[j] == r[j - 1];
      }
    }
  }

  /** Inserting an entry adds exactly its id. */
  lemma InsertAddsId(r: Ranked, x: Entry)
    ensures Ids(Insert(r, x, ByScoreDesc)) == Ids(r) + {x.0}
  {
    var p := InsertPos(r, x, ByScoreDesc);
    var s := Insert(r, x, ByScoreDesc);
    assert s == r[..p] + [x] + r[p..];
    assert s[p] == x;
    forall id | id in Ids(s)
      ensures id in Ids(r) + {x.0}
    {
      var j :| 0 <= j < |s| && s[j].0 == id;
      if j < p {
        assert s[j] == r[j];
      } else if j > p {
        assert s[j] == r[j - 1];
      }
    }
    forall id | id in Ids(r)
      ensures id in Ids(s)
    {
      var j :| 0 <= j < |r| && r[j].0 == id;
      if j < p {
        assert s[j] == r[j];
      } else {
        assert s[j + 1] == r[j];
      }
    }
  }

  /** Every entry after an insertion is the inserted one or an old one. */
  lemma InsertTakesFrom(r: Ranked, x: Entry)
    ensures var s := Insert(r, x, ByScoreDesc);
      forall i :: 0 <= i < |s| ==> s[i] == x || exists j :: 0 <= j < |r| && r[j] == s[i]
  {
    var p := InsertPos(r, x, ByScoreDesc);
    var s := Insert(r, x, ByScoreDesc);
    assert s == r[..p] + [x] + r[p..];
    forall i | 0 <= i < |s|
      ensures s[i] == x || exists j :: 0 <= j < |r| && r[j] == s[i]
    {
      if i < p {
        assert s[i] == r[i];
      } else if i > p {
        assert s[i] == r[i - 1];
      }
    }
  }

  /** The map two accumulation passes leave behind is `Fused2`. */
  lemma AccumulatedIsFused2(scores: map<string, real>, a: Ranked, ruleA: Rule, b: Ranked, ruleB: Rule)
    requires ruleA.Valid() && ruleB.Valid()
    requires scores.Keys == Ids(a) + Ids(b)
    requires forall id :: Get(scores, id) == ListTotal(a, id, ruleA) + ListTotal(b, id, ruleB)
    ensures scores == Fused2(a, ruleA, b, ruleB)
  {
    forall id | id in scores
      ensures scores[id] == Fused2(a, ruleA, b, ruleB)[id]
    {
      assert Get(scores, id) == scores[id];
    }
  }

  /** Accumulate `a` then `b` into a fresh map and emit it sorted. */
  method Fuse2(a: Ranked, ruleA: Rule, b: Ranked, ruleB: Rule) returns (r: Ranked)
    requires ruleA.Valid() && ruleB.Valid()
    ensures FusedFrom(r, Fused2(a, ruleA, b, ruleB))
  {
    var scores := Accumulate(map[], a, ruleA);
    scores := Accumulate(scores, b, ruleB);
    AccumulatedIsFused2(scores, a, ruleA, b, ruleB);
    r := CollectSorted(scores);
  }

  // ─── RRF ──────────────────────────────────────────────────────────────────

  /** The RRF map: each id's sum of 1 / (k + rank) over its occurrences in both lists. */
  function RrfScores(a: Ranked, b: Ranked, k: nat): map<string, real>
    requires k >= 1
  {
    Fused2(a, Reciprocal(k), b, Reciprocal(k))
  }

  /** `rrf`. */
  method Rrf(a: Ranked, b: Ranked, config: RrfConfig) returns (r: Ranked)
    requires config.k >= 1
    ensures FusedFrom(r, RrfScores(a, b, config.k))
  {
    r := Fuse2(a, Reciprocal(config.k), b, Reciprocal(config.k));
  }

  /** The caller-owned `Vec` that `rrf_into` fills. */
  class OutputBuffer {
    var items: Ranked

    constructor()
      ensures items == []
    {
      items := [];
    }
  }

  /** `rrf_into`: clears `output`, then fills it with what `rrf` returns. */
  method RrfInto(a: Ranked, b: Ranked, config: RrfConfig, output: OutputBuffer)
    requires config.k >= 1
    modifies output
    ensures FusedFrom(output.items, RrfScores(a, b, config.k))
  {
    output.items := [];
    var scores := Accumulate(map[], a, Reciprocal(config.k));
    scores := Accumulate(scores, b, Reciprocal(config.k));
    AccumulatedIsFused2(scores, a, Reciprocal(config.k), b, Reciprocal(config.k));
    var sorted := CollectSorted(scores);
    assert output.items + sorted == sorted;
    output.items := output.items + sorted;
  }

  /** The pairs of a result list. */
  function Pairs(r: Ranked): set<Entry> {
    set i | 0 <= i < |r| :: r[i]
  }

  /** A fused list holds exactly the map's (id, score) pairs. */
  lemma FusedPairs(r: Ranked, scores: map<string, real>)
    requires FusedFrom(r, scores)
    ensures Pairs(r) == set id | id in scores :: (id, scores[id])
    ensures |r| == |scores|
  {
    var want := set id | id in scores :: (id, scores[id]);
    forall e | e in want
      ensures e in Pairs(r)
    {
      assert e.0 in Ids(r);
      var i :| 0 <= i < |r| && r[i].0 == e.0;
      assert r[i] == e;
    }
    IdsCardinality(r);
  }

  /** With distinct ids, a list has as many entries as ids. */
  lemma {:induction false} IdsCardinality(r: Ranked)
    requires DistinctIds(r)
    ensures |Ids(r)| == |r|
  {
    if |r| > 0 {
      var last := |r| - 1;
      IdsCardinality(r[..last]);
      IdsSnoc(r, last);
      assert r[..last + 1] == r;
      assert r[last].0 !in Ids(r[..last]);
    }
  }

  /** What `rrf_into` leaves in the buffer are the pairs `rrf` returns. */
  lemma RrfIntoAgreesWithRrf(a: Ranked, b: Ranked, k: nat, fromRrf: Ranked, fromInto: Ranked)
    requires k >= 1
    requires FusedFrom(fromRrf, RrfScores(a, b, k))
    requires FusedFrom(fromInto, RrfScores(a, b, k))
    ensures Pairs(fromRrf) == Pairs(fromInto) && |fromRrf| == |fromInto|
  {
    FusedPairs(fromRrf, RrfScores(a, b, k));
    FusedPairs(fromInto, RrfScores(a, b, k));
  }

  /** Ids of every list. */
  function AllIds(lists: seq<Ranked>): set<string> {
    if |lists| == 0 then {}
    else AllIds(lists[..|lists| - 1]) + Ids(lists[|lists| - 1])
  }

  /** `id`'s total over every list, under one rule. */
  function Total(lists: seq<Ranked>, id: string, rule: Rule): real
    requires rule.Valid()
  {
    if |lists| == 0 then 0.0
    else Total(lists[..|lists| - 1], id, rule) + ListTotal(lists[|lists| - 1], id, rule)
  }

  /** The score map of any number of lists fused under one rule. */
  function FusedMany(lists: seq<Ranked>, rule: Rule): map<string, real>
    requires rule.Valid()
  {
    map id | id in AllIds(lists) :: Total(lists, id, rule)
  }

  /** `rrf_multi`. */
  method RrfMulti(lists: seq<Ranked>, config: RrfConfig) returns (r: Ranked)
    requires config.k >= 1
    ensures FusedFrom(r, FusedMany(lists, Reciprocal(config.k)))
  {
    var rule := Reciprocal(config.k);
    var scores: map<string, real> := map[];
    for j := 0 to |lists|
      invariant scores.Keys == AllIds(lists[..j])
      invariant forall id :: Get(scores, id) == Total(lists[..j], id, rule)
    {
      scores := Accumulate(scores, lists[j], rule);
      assert lists[..j + 1][..j] == lists[..j];
    }
    assert lists[..|lists|] == lists;
    forall id | id in scores
      ensures scores[id] == FusedMany(lists, rule)[id]
    {
      assert Get(scores, id) == scores[id];
    }
    r := CollectSorted(scores);
  }

  /** `rrf_multi` on two lists computes the same map as `rrf`. */
  lemma RrfMultiOfPairIsRrf(a: Ranked, b: Ranked, k: nat)
    requires k >= 1
    ensures FusedMany([a, b], Reciprocal(k)) == RrfScores(a, b, k)
  {
    var lists := [a, b];
    assert lists[..1] == [a] && [a][..0] == [];
    assert AllIds([a]) == Ids(a);
    assert AllIds(lists) == Ids(a) + Ids(b);
    forall id
      ensures Total(lists, id, Reciprocal(k)) == ListTotal(a, id, Reciprocal(k)) + ListTotal(b, id, Reciprocal(k))
    {
      assert Total([a], id, Reciprocal(k)) == ListTotal(a, id, Reciprocal(k));
    }
  }

  /** Removing one list from the sequence removes exactly its contribution. */
  lemma {:induction false} TotalRemove(lists: seq<Ranked>, j: nat, id: string, rule: Rule)
    requires rule.Valid() && j < |lists|
    ensures Total(lists, id, rule) == Total(lists[..j] + lists[j + 1..], id, rule) + ListTotal(lists[j], id, rule)
  {
    var last := |lists| - 1;
    var rest := lists[..j] + lists[j + 1..];
    if j == last {
      assert rest == lists[..last];
    } else {
      TotalRemove(lists[..last], j, id, rule);
      assert rest[..|rest| - 1] == lists[..last][..j] + lists[..last][j + 1..];
      assert rest[|rest| - 1] == lists[last];
    }
  }

  /** Removing one list from the sequence removes exactly its ids, unless another list has them. */
  lemma {:induction false} AllIdsRemove(lists: seq<Ranked>, j: nat)
    requires j < |lists|
    ensures AllIds(lists) == AllIds(lists[..j] + lists[j + 1..]) + Ids(lists[j])
  {
    var last := |lists| - 1;
    var rest := lists[..j] + lists[j + 1..];
    if j == last {
      assert rest == lists[..last];
    } else {
      AllIdsRemove(lists[..last], j);
      assert rest[..|rest| - 1] == lists[..last][..j] + lists[..last][j + 1..];
      assert rest[|rest| - 1] == lists[last];
    }
  }

  /** The fused map does not depend on the order of the lists. */
  lemma FusedManyPermutation(l1: seq<Ranked>, l2: seq<Ranked>, rule: Rule)
    requires rule.Valid() && multiset(l1) == multiset(l2)
    ensures FusedMany(l1, rule) == FusedMany(l2, rule)
  {
    forall id
      ensures Total(l1, id, rule) == Total(l2, id, rule)
    {
      TotalPermutationAt(l1, l2, id, rule);
    }
    AllIdsPermutation(l1, l2);
  }

  /** Per-id form of `FusedManyPermutation`. */
  lemma {:induction false} TotalPermutationAt(l1: seq<Ranked>, l2: seq<Ranked>, id: string, rule: Rule)
    requires rule.Valid() && multiset(l1) == multiset(l2)
    ensures Total(l1, id, rule) == Total(l2, id, rule)
    decreases |l1|
  {
    if |l1| == 0 {
      assert |l2| == |multiset(l2)| == 0;
    } else {
      var last := |l1| - 1;
      var j, rest := RemoveLastMatch(l1, l2);
      TotalPermutationAt(l1[..last], rest, id, rule);
      TotalRemove(l2, j, id, rule);
    }
  }

  /** The ids of a permutation of lists are the same. */
  lemma {:induction false} AllIdsPermutation(l1: seq<Ranked>, l2: seq<Ranked>)
    requires multiset(l1) == multiset(l2)
    ensures AllIds(l1) == AllIds(l2)
    decreases |l1|
  {
    if |l1| == 0 {
      assert |l2| == |multiset(l2)| == 0;
    } else {
      var last := |l1| - 1;
      var j, rest := RemoveLastMatch(l1, l2);
      AllIdsPermutation(l1[..last], rest);
      AllIdsRemove(l2, j);
    }
  }

  /** The last element of `l1` sits at some `j` of its permutation `l2`; the rests are permutations too. */
  lemma RemoveLastMatch<T>(l1: seq<T>, l2: seq<T>) returns (j: nat, rest: seq<T>)
    requires |l1| > 0 && multiset(l1) == multiset(l2)
    ensures j < |l2| && l2[j] == l1[|l1| - 1]
    ensures rest == l2[..j] + l2[j + 1..]
    ensures multiset(l1[..|l1| - 1]) == multiset(rest)
  {
    var last := |l1| - 1;
    var x := l1[last];
    MultisetRemove(l1, last);
    assert x in multiset(l2);
    j :| 0 <= j < |l2| && l2[j] == x;
    rest := l2[..j] + l2[j + 1..];
    MultisetRemove(l2, j);
    assert l1[..last] + l1[last + 1..] == l1[..last];
  }

  /** Removing position `j` removes one copy of its element. */
  lemma MultisetRemove<T>(s: seq<T>, j: nat)
    requires j < |s|
    ensures multiset(s[..j] + s[j + 1..]) == multiset(s) - multiset{s[j]}
  {
    assert s == s[..j] + [s[j]] + s[j + 1..];
  }

  // ─── Score normalisation ──────────────────────────────────────────────────

  /** The range below which `min_max_params` treats a list as flat (`1e-9`). */
  const FlatRange: real := 0.000000001

  function MinScore(list: Ranked): (m: real)
    requires |list| > 0
    ensures forall i :: 0 <= i < |list| ==> m <= list[i].1
    ensures exists i :: 0 <= i < |list| && list[i].1 == m
  {
    var last := |list| - 1;
    if last == 0 then list[0].1
    else
      var m := MinScore(list[..last]);
      assert forall i :: 0 <= i < last ==> list[..last][i] == list[i];
      if list[last].1 < m then list[last].1 else m
  }

  function MaxScore(list: Ranked): (m: real)
    requires |list| > 0
    ensures forall i :: 0 <= i < |list| ==> list[i].1 <= m
    ensures exists i :: 0 <= i < |list| && list[i].1 == m
  {
    var last := |list| - 1;
    if last == 0 then list[0].1
    else
      var m := MaxScore(list[..last]);
      assert forall i :: 0 <= i < last ==> list[..last][i] == list[i];
      if m < list[last].1 then list[last].1 else m
  }

  lemma MulNonNegative(x: real, c: real)
    requires x >= 0.0 && c >= 0.0
    ensures x * c >= 0.0
  {
  }

  lemma MulMonotone(x: real, y: real, c: real)
    requires x <= y && c >= 0.0
    ensures x * c <= y * c
  {
    MulNonNegative(y - x, c);
    assert (y - x) * c == y * c - x * c;
  }

  lemma InverseOfPositive(r: real)
    requires r > 0.0
    ensures 1.0 / r > 0.0 && r * (1.0 / r) == 1.0
  {
  }

  lemma ScaledIntoUnit(x: real, range: real)
    requires 0.0 <= x <= range && range > 0.0
    ensures 0.0 <= x * (1.0 / range) <= 1.0
  {
    InverseOfPositive(range);
    MulNonNegative(x, 1.0 / range);
    MulMonotone(x, range, 1.0 / range);
  }

  /** `min_max_params`: the (scale, offset) of min-max normalisation, `(s - offset) * scale`. */
  function MinMaxParams(list: Ranked): (p: (real, real))
    ensures p.0 > 0.0
    ensures |list| == 0 ==> p == (1.0, 0.0)
    ensures |list| > 0 ==> p.1 == MinScore(list)
  {
    if |list| == 0 then (1.0, 0.0)
    else
      var lo := MinScore(list);
      var hi := MaxScore(list);
      FlatOrScaled(lo, hi)
  }

  /** A score after normalisation with `p`. */
  function Normalized(score: real, p: (real, real)): real {
    (score - p.1) * p.0
  }

  /**
   * Min-max normalisation maps every score of the list into [0, 1], the
   * smallest to 0 and, unless the list is flat, the largest to 1.
   */
  lemma MinMaxNormalizesIntoUnit(list: Ranked)
    requires |list| > 0
    ensures forall i :: 0 <= i < |list| ==> 0.0 <= Normalized(list[i].1, MinMaxParams(list)) <= 1.0
    ensures Normalized(MinScore(list), MinMaxParams(list)) == 0.0
    ensures MaxScore(list) - MinScore(list) >= FlatRange ==>
      Normalized(MaxScore(list), MinMaxParams(list)) == 1.0
    ensures MaxScore(list) - MinScore(list) < FlatRange ==> MinMaxParams(list).0 == 1.0
  {
    var lo := MinScore(list);
    var hi := MaxScore(list);
    var p := MinMaxParams(list);
    assert p == FlatOrScaled(lo, hi);
    forall i | 0 <= i < |list|
      ensures 0.0 <= Normalized(list[i].1, p) <= 1.0
    {
      NormalizedWithin(list[i].1, lo, hi);
    }
    NormalizedWithin(lo, lo, hi);
    NormalizedWithin(hi, lo, hi);
  }

  /** The parameters for a list whose scores run from `lo` to `hi`. */
  function FlatOrScaled(lo: real, hi: real): (p: (real, real))
    ensures p.0 > 0.0 && p.1 == lo
  {
    if hi - lo < FlatRange then (1.0, lo)
    else
      InverseOfPositive(hi - lo);
      (1.0 / (hi - lo), lo)
  }

  /** One score between the minimum and the maximum, normalised. */
  lemma NormalizedWithin(s: real, lo: real, hi: real)
    requires lo <= s <= hi
    ensures 0.0 <= Normalized(s, FlatOrScaled(lo, hi)) <= 1.0
    ensures s == lo ==> Normalized(s, FlatOrScaled(lo, hi)) == 0.0
    ensures s == hi && hi - lo >= FlatRange ==> Normalized(s, FlatOrScaled(lo, hi)) == 1.0
  {
    if hi - lo < FlatRange {
      assert FlatOrScaled(lo, hi) == (1.0, lo);
      FlatWithin(s, lo, hi);
    } else {
      assert FlatOrScaled(lo, hi) == (1.0 / (hi - lo), lo);
      ScaledWithin(s, lo, hi);
    }
  }

  lemma FlatWithin(s: real, lo: real, hi: real)
    requires lo <= s <= hi && hi - lo < FlatRange
    ensures 0.0 <= Normalized(s, (1.0, lo)) <= 1.0
    ensures s == lo ==> Normalized(s, (1.0, lo)) == 0.0
  {
    assert Normalized(s, (1.0, lo)) == s - lo;
  }

  lemma ScaledWithin(s: real, lo: real, hi: real)
    requires lo <= s <= hi && hi - lo >= FlatRange
    ensures 0.0 <= Normalized(s, (1.0 / (hi - lo), lo)) <= 1.0
    ensures s == lo ==> Normalized(s, (1.0 / (hi - lo), lo)) == 0.0
    ensures s == hi ==> Normalized(s, (1.0 / (hi - lo), lo)) == 1.0
  {
    ScaledIntoUnit(s - lo, hi - lo);
    InverseOfPositive(hi - lo);
  }

  // ─── Weighted / CombSUM / CombMNZ ─────────────────────────────────────────

  /** The (scale, offset) a list is normalised with: min-max, or none. */
  function ScaleOffset(list: Ranked, normalize: bool): (real, real) {
    if normalize then MinMaxParams(list) else (1.0, 0.0)
  }

  /** The per-list rules of `weighted`: the weights rescaled by their sum. */
  function WeightedRules(a: Ranked, b: Ranked, config: WeightedConfig): (Rule, Rule)
    requires config.weightA + config.weightB != 0.0
  {
    var total := config.weightA + config.weightB;
    var (scaleA, offA) := ScaleOffset(a, config.normalize);
    var (scaleB, offB) := ScaleOffset(b, config.normalize);
    (Affine(config.weightA / total, offA, scaleA), Affine(config.weightB / total, offB, scaleB))
  }

  /** The `weighted` score map. */
  function WeightedScores(a: Ranked, b: Ranked, config: WeightedConfig): map<string, real>
    requires config.weightA + config.weightB != 0.0
  {
    var rules := WeightedRules(a, b, config);
    Fused2(a, rules.0, b, rules.1)
  }

  /** `weighted`. */
  method Weighted(a: Ranked, b: Ranked, config: WeightedConfig) returns (r: Ranked)
    requires config.weightA + config.weightB != 0.0
    ensures FusedFrom(r, WeightedScores(a, b, config))
  {
    var (normA, offA) := if config.normalize then MinMaxParams(a) else (1.0, 0.0);
    var (normB, offB) := if config.normalize then MinMaxParams(b) else (1.0, 0.0);
    var total := config.weightA + config.weightB;
    var wa := config.weightA / total;
    var wb := config.weightB / total;
    r := Fuse2(a, Affine(wa, offA, normA), b, Affine(wb, offB, normB));
  }

  /** The rescaled weights of `weighted` always sum to 1. */
  lemma WeightsSumToOne(a: Ranked, b: Ranked, config: WeightedConfig)
    requires config.weightA + config.weightB != 0.0
    ensures WeightedRules(a, b, config).0.weight + WeightedRules(a, b, config).1.weight == 1.0
  {
    var total := config.weightA + config.weightB;
    assert config.weightA / total + config.weightB / total == total / total;
  }

  /** Without normalisation each occurrence adds its weight times its raw score. */
  lemma UnnormalizedUsesRawScores(a: Ranked, b: Ranked, config: WeightedConfig, rank: nat, score: real)
    requires config.weightA + config.weightB != 0.0 && !config.normalize
    ensures Term(WeightedRules(a, b, config).0, rank, score)
      == config.weightA / (config.weightA + config.weightB) * score
    ensures Term(WeightedRules(a, b, config).1, rank, score)
      == config.weightB / (config.weightA + config.weightB) * score
  {
  }

  /** An affine term is its weight times the normalised score. */
  lemma AffineTerm(w: real, off: real, scale: real, rank: nat, score: real)
    ensures Term(Affine(w, off, scale), rank, score) == w * Normalized(score, (scale, off))
  {
    assert w * (score - off) * scale == w * ((score - off) * scale);
  }

  lemma MulAtMost(w: real, x: real)
    requires w >= 0.0 && 0.0 <= x <= 1.0
    ensures 0.0 <= w * x <= w
  {
    MulNonNegative(w, x);
    MulMonotone(x, 1.0, w);
  }

  /** Under min-max normalisation an occurrence adds between 0 and its (non-negative) weight. */
  lemma NormalizedTermBounded(list: Ranked, w: real, i: nat)
    requires w >= 0.0 && i < |list|
    ensures 0.0 <= Term(Affine(w, MinMaxParams(list).1, MinMaxParams(list).0), i, list[i].1) <= w
  {
    var p := MinMaxParams(list);
    var x := Normalized(list[i].1, p);
    assert 0.0 <= x <= 1.0 by {
      MinMaxNormalizesIntoUnit(list);
    }
    MulAtMost(w, x);
    AffineTerm(w, p.1, p.0, i, list[i].1);
    assert (p.0, p.1) == p;
    assert Term(Affine(w, p.1, p.0), i, list[i].1) == w * Normalized(list[i].1, (p.0, p.1));
    assert Term(Affine(w, p.1, p.0), i, list[i].1) == w * x;
  }

  /** Non-negative weights stay non-negative once rescaled. */
  lemma RescaledWeightsNonNegative(a: Ranked, b: Ranked, config: WeightedConfig)
    requires config.weightA >= 0.0 && config.weightB >= 0.0 && config.weightA + config.weightB > 0.0
    ensures WeightedRules(a, b, config).0.weight >= 0.0
    ensures WeightedRules(a, b, config).1.weight >= 0.0
  {
    var total := config.weightA + config.weightB;
    InverseOfPositive(total);
    MulNonNegative(config.weightA, 1.0 / total);
    MulNonNegative(config.weightB, 1.0 / total);
    assert config.weightA / total == config.weightA * (1.0 / total);
    assert config.weightB / total == config.weightB * (1.0 / total);
  }

  /** `combsum`: `weighted` with the default configuration. */
  method CombSum(a: Ranked, b: Ranked) returns (r: Ranked)
    ensures FusedFrom(r, WeightedScores(a, b, DefaultWeightedConfig))
  {
    r := Weighted(a, b, DefaultWeightedConfig);
  }

  /** `min_max_params`'s rule with unit weight, as `combmnz` applies it. */
  function NormalizedRule(list: Ranked): (rule: Rule) {
    var (scale, off) := MinMaxParams(list);
    Affine(1.0, off, scale)
  }

  /** `id`'s `combmnz` score: its summed normalised scores times its occurrences. */
  function CombMnzScore(a: Ranked, b: Ranked, id: string): real {
    MnzScore((ListTotal(a, id, NormalizedRule(a)) + ListTotal(b, id, NormalizedRule(b)),
              Occurrences(a, id) + Occurrences(b, id)))
  }

  /** The `combmnz` map: the sum of normalised scores times the number of occurrences. */
  function CombMnzScores(a: Ranked, b: Ranked): map<string, real> {
    map id | id in Ids(a) + Ids(b) :: CombMnzScore(a, b, id)
  }

  /** A (sum, count) accumulator entry, `or_default` included. */
  function GetPair(acc: map<string, (real, nat)>, id: string): (real, nat) {
    if id in acc then acc[id] else (0.0, 0)
  }

  /** `combmnz`'s loop: adds each occurrence's term to the sum and one to the count. */
  method AccumulateCounted(acc: map<string, (real, nat)>, list: Ranked, rule: Rule)
    returns (out: map<string, (real, nat)>)
    requires rule.Valid()
    ensures out.Keys == acc.Keys + Ids(list)
    ensures forall id :: GetPair(out, id).0 == GetPair(acc, id).0 + ListTotal(list, id, rule)
    ensures forall id :: GetPair(out, id).1 == GetPair(acc, id).1 + Occurrences(list, id)
  {
    out := acc;
    for i := 0 to |list|
      invariant CountedSoFar(acc, list[..i], rule, out)
    {
      var (id, s) := list[i];
      var e := GetPair(out, id);
      var next := out[id := (e.0 + Term(rule, i, s), e.1 + 1)];
      CountStep(acc, list, rule, i, out, next);
      out := next;
    }
    assert list[..|list|] == list;
  }

  /** `AccumulateCounted`'s loop invariant after the occurrences in `done`. */
  ghost predicate CountedSoFar(acc: map<string, (real, nat)>, done: Ranked, rule: Rule, out: map<string, (real, nat)>)
    requires rule.Valid()
  {
    && out.Keys == acc.Keys + Ids(done)
    && (forall id :: GetPair(out, id).0 == GetPair(acc, id).0 + ListTotal(done, id, rule))
    && (forall id :: GetPair(out, id).1 == GetPair(acc, id).1 + Occurrences(done, id))
  }

  lemma CountStep(acc: map<string, (real, nat)>, list: Ranked, rule: Rule, i: nat,
                  out: map<string, (real, nat)>, next: map<string, (real, nat)>)
    requires rule.Valid() && i < |list|
    requires CountedSoFar(acc, list[..i], rule, out)
    requires next == out[list[i].0 := (GetPair(out, list[i].0).0 + Term(rule, i, list[i].1),
                                       GetPair(out, list[i].0).1 + 1)]
    ensures CountedSoFar(acc, list[..i + 1], rule, next)
  {
    var done := list[..i + 1];
    assert done[..i] == list[..i];
    IdsSnoc(list, i);
    forall id
      ensures GetPair(next, id).0 == GetPair(acc, id).0 + ListTotal(done, id, rule)
      ensures GetPair(next, id).1 == GetPair(acc, id).1 + Occurrences(done, id)
    {
      assert ListTotal(done, id, rule)
        == ListTotal(list[..i], id, rule) + (if list[i].0 == id then Term(rule, i, list[i].1) else 0.0);
      assert Occurrences(done, id) == Occurrences(list[..i], id) + (if list[i].0 == id then 1 else 0);
    }
  }

  /** `sum * n as f32`: a (sum, count) entry's final `combmnz` score. */
  function MnzScore(e: (real, nat)): real {
    e.0 * e.1 as real
  }

  /** The map `combmnz`'s two passes leave behind, scored, is `CombMnzScores`. */
  lemma CountedIsCombMnz(acc: map<string, (real, nat)>, a: Ranked, b: Ranked)
    requires acc.Keys == Ids(a) + Ids(b)
    requires forall id :: GetPair(acc, id).0 == ListTotal(a, id, NormalizedRule(a)) + ListTotal(b, id, NormalizedRule(b))
    requires forall id :: GetPair(acc, id).1 == Occurrences(a, id) + Occurrences(b, id)
    ensures (map id | id in acc :: MnzScore(acc[id])) == CombMnzScores(a, b)
  {
    forall id | id in acc
      ensures MnzScore(acc[id]) == CombMnzScores(a, b)[id]
    {
      assert GetPair(acc, id) == acc[id];
      CombMnzAt(a, b, id);
      MnzOfParts(acc[id], CombMnzScores(a, b)[id],
        ListTotal(a, id, NormalizedRule(a)) + ListTotal(b, id, NormalizedRule(b)),
        Occurrences(a, id) + Occurrences(b, id));
    }
  }

  lemma MnzOfParts(e: (real, nat), mnz: real, sum: real, n: nat)
    requires e.0 == sum && e.1 == n && mnz == MnzScore((sum, n))
    ensures MnzScore(e) == mnz
  {
    assert e == (sum, n);
  }

  /** `combmnz`. */
  method CombMnz(a: Ranked, b: Ranked) returns (r: Ranked)
    ensures FusedFrom(r, CombMnzScores(a, b))
  {
    var acc: map<string, (real, nat)> := map[];
    acc := AccumulateCounted(acc, a, NormalizedRule(a));
    acc := AccumulateCounted(acc, b, NormalizedRule(b));
    CountedIsCombMnz(acc, a, b);
    r := CollectSorted(map id | id in acc :: MnzScore(acc[id]));
  }

  /** Scaling an affine rule's weight scales the list total. */
  lemma {:induction false} ListTotalLinear(list: Ranked, id: string, w: real, off: real, scale: real)
    ensures ListTotal(list, id, Affine(w, off, scale)) == w * ListTotal(list, id, Affine(1.0, off, scale))
  {
    if |list| > 0 {
      ListTotalLinear(list[..|list| - 1], id, w, off, scale);
    }
  }

  /** `combmnz` is `combsum` doubled (undoing its 0.5 weights) times the occurrence count. */
  lemma CombMnzIsScaledCombSum(a: Ranked, b: Ranked, id: string)
    requires id in Ids(a) + Ids(b)
    ensures CombMnzScores(a, b)[id]
      == MnzScore((2.0 * WeightedScores(a, b, DefaultWeightedConfig)[id], Occurrences(a, id) + Occurrences(b, id)))
  {
    CombSumHalvesNormalizedTotals(a, b, id);
    CombMnzAt(a, b, id);
    MnzOfDoubledHalves(CombMnzScores(a, b)[id], WeightedScores(a, b, DefaultWeightedConfig)[id],
      ListTotal(a, id, NormalizedRule(a)), ListTotal(b, id, NormalizedRule(b)),
      Occurrences(a, id) + Occurrences(b, id));
  }

  lemma MnzOfDoubledHalves(mnz: real, w: real, xa: real, xb: real, n: nat)
    requires mnz == MnzScore((xa + xb, n))
    requires w == 0.5 * xa + 0.5 * xb
    ensures mnz == MnzScore((2.0 * w, n))
  {
    assert xa + xb == 2.0 * w;
  }

  lemma CombMnzAt(a: Ranked, b: Ranked, id: string)
    requires id in Ids(a) + Ids(b)
    ensures CombMnzScores(a, b)[id]
      == MnzScore((ListTotal(a, id, NormalizedRule(a)) + ListTotal(b, id, NormalizedRule(b)),
                   Occurrences(a, id) + Occurrences(b, id)))
  {
    assert CombMnzScores(a, b)[id] == CombMnzScore(a, b, id);
  }

  /** `combsum` gives each id half of its summed normalised scores. */
  lemma CombSumHalvesNormalizedTotals(a: Ranked, b: Ranked, id: string)
    requires id in Ids(a) + Ids(b)
    ensures WeightedScores(a, b, DefaultWeightedConfig)[id]
      == 0.5 * ListTotal(a, id, NormalizedRule(a)) + 0.5 * ListTotal(b, id, NormalizedRule(b))
  {
    var (sa, oa) := MinMaxParams(a);
    var (sb, ob) := MinMaxParams(b);
    assert WeightedRules(a, b, DefaultWeightedConfig) == (Affine(0.5, oa, sa), Affine(0.5, ob, sb));
    ListTotalLinear(a, id, 0.5, oa, sa);
    ListTotalLinear(b, id, 0.5, ob, sb);
  }

  // ─── Borda ────────────────────────────────────────────────────────────────

  /** The Borda map: each occurrence adds the list's length minus its rank. */
  function BordaScores(a: Ranked, b: Ranked): map<string, real> {
    Fused2(a, Positional(|a|), b, Positional(|b|))
  }

  /** `borda`. */
  method Borda(a: Ranked, b: Ranked) returns (r: Ranked)
    ensures FusedFrom(r, BordaScores(a, b))
  {
    r := Fuse2(a, Positional(|a|), b, Positional(|b|));
  }

  /** Within a list, Borda points total at least the number of occurrences. */
  lemma {:induction false} BordaListTotalAtLeastOccurrences(list: Ranked, prefix: nat, id: string)
    requires prefix <= |list|
    ensures ListTotal(list[..prefix], id, Positional(|list|)) >= Occurrences(list[..prefix], id) as real
  {
    if prefix > 0 {
      var p := list[..prefix];
      assert p[..prefix - 1] == list[..prefix - 1];
      BordaListTotalAtLeastOccurrences(list, prefix - 1, id);
    }
  }

  lemma OccursInIds(list: Ranked, id: string)
    requires id in Ids(list)
    ensures Occurrences(list, id) >= 1
  {
    var i :| 0 <= i < |list| && list[i].0 == id;
    OccurrencesAt(list, i);
  }

  lemma {:induction false} OccurrencesAt(list: Ranked, i: nat)
    requires i < |list|
    ensures Occurrences(list, list[i].0) >= 1
  {
    var last := |list| - 1;
    if i < last {
      assert list[..last][i] == list[i];
      OccurrencesAt(list[..last], i);
    }
  }

  /** Every id in a Borda result scores at least 1. */
  lemma BordaScoresPositive(a: Ranked, b: Ranked, id: string)
    requires id in BordaScores(a, b)
    ensures BordaScores(a, b)[id] >= 1.0
  {
    assert a[..|a|] == a && b[..|b|] == b;
    BordaListTotalAtLeastOccurrences(a, |a|, id);
    BordaListTotalAtLeastOccurrences(b, |b|, id);
    if id in Ids(a) {
      OccursInIds(a, id);
    } else {
      OccursInIds(b, id);
    }
  }

  // ─── Reading a fused list ─────────────────────────────────────────────────

  /** A map with one entry fuses to exactly that entry. */
  lemma FusedSingleton(r: Ranked, id: string, score: real)
    requires FusedFrom(r, map[id := score])
    ensures r == [(id, score)]
  {
    FusedPairs(r, map[id := score]);
    assert r[0].0 in Ids(r);
  }

  /** The id whose score beats every other comes first. */
  lemma FusedHead(r: Ranked, scores: map<string, real>, id: string)
    requires FusedFrom(r, scores) && id in scores
    requires forall other :: other in scores && other != id ==> scores[other] < scores[id]
    ensures |r| > 0 && r[0].0 == id
  {
    assert id in Ids(r);
    var j :| 0 <= j < |r| && r[j].0 == id;
  }
}
