/**
 * Winner selection of the synthetic-scenario evaluation in `evals/src/main.rs`.
 *
 * Each scenario has been scored already: every fusion method has an nDCG@5
 * (running the fusion methods and computing the metrics is outside this
 * part of the model).  The best score is folded from 0.0 with `max`, the
 * winners are the methods within 1e-9 of it, the reported winner is the
 * alphabetically first, and the scenario is correct when its expected
 * winner is among them.
 */
module ScenarioEval {
  import opened Strings
  import opened KeyOrder

  /** Method name to nDCG@5 (`evaluate_scenario`'s result, metrics reduced to the one compared). */
  type Evaluations = map<string, real>

  /** The tie tolerance 1e-9. */
  const Tolerance: real := 0.000000001

  function Abs(x: real): real {
    if x < 0.0 then -x else x
  }

  /** `best` is what `fold(0.0, f64::max)` yields: at least 0.0 and every score, and 0.0 or one of them. */
  ghost predicate IsBest(evals: Evaluations, best: real) {
    0.0 <= best
    && (forall m :: m in evals ==> evals[m] <= best)
    && (best == 0.0 || exists m :: m in evals && evals[m] == best)
  }

  /** The best nDCG@5, the scores visited in the map's unspecified iteration order. */
  method BestNdcg(evals: Evaluations) returns (best: real)
    ensures IsBest(evals, best)
  {
    var order := IterationOrder(evals.Keys);
    best := 0.0;
    for n := 0 to |order|
      invariant 0.0 <= best
      invariant forall i :: 0 <= i < n ==> evals[order[i]] <= best
      invariant best == 0.0 || exists i :: 0 <= i < n && evals[order[i]] == best
    {
      if evals[order[n]] > best {
        best := evals[order[n]];
      }
    }
    forall m | m in evals
      ensures evals[m] <= best
    {
      var i :| 0 <= i < |order| && order[i] == m;
    }
  }

  /** Whatever order the scores are folded in, the best score is the same. */
  lemma BestUnique(evals: Evaluations, b1: real, b2: real)
    requires IsBest(evals, b1) && IsBest(evals, b2)
    ensures b1 == b2
  {
    if b1 != 0.0 {
      var m :| m in evals && evals[m] == b1;
    }
    if b2 != 0.0 {
      var m :| m in evals && evals[m] == b2;
    }
  }

  /** The methods whose score is within the tolerance of `best`. */
  function Winners(evals: Evaluations, best: real): set<string> {
    set m | m in evals && Abs(evals[m] - best) < Tolerance
  }

  /** nDCG is never negative, so a scenario with any method has a winner: the method holding the best score, or every method when all score 0. */
  lemma WinnersNonEmpty(evals: Evaluations, best: real)
    requires IsBest(evals, best)
    requires evals != map[]
    requires forall m :: m in evals ==> 0.0 <= evals[m]
    ensures Winners(evals, best) != {}
  {
    if best == 0.0 {
      var m :| m in evals;
      assert m in Winners(evals, best);
    } else {
      var m :| m in evals && evals[m] == best;
      assert m in Winners(evals, best);
    }
  }

  /** `w` is `winners.iter().min()`, or "none" when there is no winner. */
  predicate IsWinner(winners: set<string>, w: string) {
    (winners == {} ==> w == "none")
    && (winners != {} ==> w in winners && forall x :: x in winners ==> StrLe(w, x))
  }

  /** The alphabetically first winner, the winners visited in an unspecified order. */
  method Winner(winners: set<string>) returns (w: string)
    ensures IsWinner(winners, w)
  {
    var order := IterationOrder(winners);
    if |order| == 0 {
      return "none";
    }
    w := order[0];
    StrLeReflexive(w);
    for n := 1 to |order|
      invariant w in winners
      invariant forall i :: 0 <= i < n ==> StrLe(w, order[i])
    {
      StrLeTotal(w, order[n]);
      if !StrLe(w, order[n]) {
        forall i | 0 <= i < n
          ensures StrLe(order[n], order[i])
        {
          StrLeTransitive(order[n], w, order[i]);
        }
        w := order[n];
        StrLeReflexive(w);
      }
    }
    forall x | x in winners
      ensures StrLe(w, x)
    {
      var i :| 0 <= i < |order| && order[i] == x;
    }
  }

  /** The reported winner does not depend on the order the winners were listed in. */
  lemma WinnerUnique(winners: set<string>, w1: string, w2: string)
    requires IsWinner(winners, w1) && IsWinner(winners, w2)
    ensures w1 == w2
  {
    if winners != {} {
      StrLeAntisymmetric(w1, w2);
    }
  }

  /** `expected_wins`. */
  predicate ExpectedWins(expected: string, winners: set<string>) {
    expected == "all_equal" || exists w :: w in winners && (w == expected || StartsWith(w, expected))
  }

  /** The equality test is subsumed by the prefix test: a winner matches when its name starts with the expected one. */
  lemma ExpectedWinsByPrefix(expected: string, winners: set<string>)
    ensures ExpectedWins(expected, winners) <==> expected == "all_equal" || exists w :: w in winners && StartsWith(w, expected)
  {
    if expected != "all_equal" && ExpectedWins(expected, winners) {
      var w :| w in winners && (w == expected || StartsWith(w, expected));
      assert w[..|w|] == w;
      assert StartsWith(w, expected);
    }
  }

  /** An expected family name such as "weighted" is met by any winner of that family, such as "weighted_0.7". */
  lemma FamilyPrefixWins(expected: string, winner: string, winners: set<string>)
    requires expected == "weighted" && winner == "weighted_0.7" && winner in winners
    ensures ExpectedWins(expected, winners)
  {
    assert winner[..|expected|] == expected;
  }

  datatype Scenario = Scenario(name: string, expectedWinner: string, evaluations: Evaluations)

  /** `ScenarioResult`, without the copied description, insight and per-method rankings. */
  datatype ScenarioResult = ScenarioResult(name: string, expectedWinner: string, actualWinner: string, correct: bool)

  /** `r` is what the loop body of `main` records for scenario `s` when its best score is `best`. */
  ghost predicate OutcomeWith(s: Scenario, r: ScenarioResult, best: real) {
    r.name == s.name && r.expectedWinner == s.expectedWinner
    && IsBest(s.evaluations, best)
    && IsWinner(Winners(s.evaluations, best), r.actualWinner)
    && r.correct == ExpectedWins(s.expectedWinner, Winners(s.evaluations, best))
  }

  /** `r` is what the loop body of `main` records for scenario `s`. */
  ghost predicate Outcome(s: Scenario, r: ScenarioResult) {
    exists best :: OutcomeWith(s, r, best)
  }

  /** One scenario's result. */
  method EvaluateOutcome(s: Scenario) returns (r: ScenarioResult)
    ensures Outcome(s, r)
  {
    var best := BestNdcg(s.evaluations);
    var winners := Winners(s.evaluations, best);
    var winner := Winner(winners);
    r := ScenarioResult(s.name, s.expectedWinner, winner, ExpectedWins(s.expectedWinner, winners));
    assert OutcomeWith(s, r, best);
  }

  /** A scenario's result is fully determined, whatever the hash-map iteration orders. */
  lemma OutcomeDeterministic(s: Scenario, r1: ScenarioResult, r2: ScenarioResult)
    requires Outcome(s, r1) && Outcome(s, r2)
    ensures r1 == r2
  {
    var b1 :| OutcomeWith(s, r1, b1);
    var b2 :| OutcomeWith(s, r2, b2);
    BestUnique(s.evaluations, b1, b2);
    WinnerUnique(Winners(s.evaluations, b1), r1.actualWinner, r2.actualWinner);
  }

  /** A scenario expecting "all_equal" is always correct. */
  lemma AllEqualAlwaysCorrect(s: Scenario, r: ScenarioResult)
    requires s.expectedWinner == "all_equal" && Outcome(s, r)
    ensures r.correct
  {
    var b :| OutcomeWith(s, r, b);
  }

  /** The number of correct results. */
  function CorrectCount(results: seq<ScenarioResult>): (n: nat)
    ensures n <= |results|
    ensures n == |results| <==> forall i :: 0 <= i < |results| ==> results[i].correct
  {
    if |results| == 0 then 0
    else
      var front := results[..|results| - 1];
      assert forall i :: 0 <= i < |front| ==> front[i] == results[i];
      CorrectCount(front) + (if results[|results| - 1].correct then 1 else 0)
  }

  /** `main`'s loop over the scenarios and the final count of correct ones. */
  method EvaluateScenarios(scenarios: seq<Scenario>) returns (results: seq<ScenarioResult>, correct: nat)
    ensures |results| == |scenarios|
    ensures forall i :: 0 <= i < |scenarios| ==> Outcome(scenarios[i], results[i])
    ensures correct == CorrectCount(results)
  {
    results := [];
    for n := 0 to |scenarios|
      invariant |results| == n
      invariant forall i :: 0 <= i < n ==> Outcome(scenarios[i], results[i])
    {
      var r := EvaluateOutcome(scenarios[n]);
      results := results + [r];
    }
    correct := CorrectCount(results);
  }
}
