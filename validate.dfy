/**
 * Result validation for fusion output (`rank-fusion/src/validate.rs`):
 * sortedness, duplicate ids, finite scores, negative scores and size bounds.
 *
 * Messages are kept structured (the fields the source formats into its
 * strings); the formatting itself is not modelled.
 */
module Validate {
  import opened Wrappers
  import opened Floats

  /** A result list as the validators see it: ids with `f32` scores. */
  type Scored = seq<(string, Float)>

  /** The errors and warnings the validators report. */
  datatype Message =
    | NotSorted(position: nat, score: Float, nextScore: Float)   // "Results not sorted: position …"
    | DuplicateId(position: nat, id: string)                     // "Duplicate document ID at position …"
    | NonFinite(position: nat, id: string, score: Float)         // "Non-finite score at position …"
    | NegativeScore(position: nat, id: string, score: Float)     // "Negative score at position …"
    | NegativeSummary(count: nat)                                // "Found {n} negative scores …"
    | ExceedsMax(length: nat, max: nat)                          // "Results exceed expected maximum: …"

  /** `ValidationResult`. */
  datatype ValidationResult = ValidationResult(isValid: bool, errors: seq<Message>, warnings: seq<Message>)
  {
    /** `with_warning`: appends one warning and changes nothing else. */
    function WithWarning(warning: Message): (r: ValidationResult)
      ensures r.isValid == isValid && r.errors == errors
      ensures r.warnings == warnings + [warning]
    {
      this.(warnings := warnings + [warning])
    }
  }

  /** `ValidationResult::valid()`. */
  function Valid(): (r: ValidationResult)
    ensures r.isValid && r.errors == [] && r.warnings == []
  {
    ValidationResult(true, [], [])
  }

  /** `ValidationResult::invalid(errors)`. */
  function Invalid(errors: seq<Message>): (r: ValidationResult)
    ensures !r.isValid && r.errors == errors && r.warnings == []
  {
    ValidationResult(false, errors, [])
  }

  /** The result the single-check validators return for a list of errors. */
  function FromErrors(errors: seq<Message>): (r: ValidationResult)
    ensures r.isValid <==> errors == []
    ensures r.errors == errors && r.warnings == []
  {
    if errors == [] then Valid() else Invalid(errors)
  }

  // ─── validate_sorted ──────────────────────────────────────────────────────

  /** One error for each adjacent pair whose first score is below the second. */
  function SortErrors(r: Scored): seq<Message> {
    if |r| < 2 then []
    else
      var i := |r| - 2;
      SortErrors(r[..i + 1]) + (if Less(r[i].1, r[i + 1].1) then [NotSorted(i, r[i].1, r[i + 1].1)] else [])
  }

  /** `validate_sorted`. */
  method ValidateSorted(results: Scored) returns (v: ValidationResult)
    ensures v == FromErrors(SortErrors(results))
  {
    if |results| == 0 {
      return Valid();
    }
    var errors: seq<Message> := [];
    for i := 0 to |results| - 1
      invariant errors == SortErrors(results[..i + 1])
    {
      var scoreA := results[i].1;
      var scoreB := results[i + 1].1;
      if Less(scoreA, scoreB) {
        errors := errors + [NotSorted(i, scoreA, scoreB)];
      }
      assert results[..i + 2][..i + 1] == results[..i + 1];
    }
    assert results[..|results|] == results;
    if errors == [] {
      v := Valid();
    } else {
      v := Invalid(errors);
    }
  }

  /** No adjacent pair rises: what `validate_sorted` accepts. */
  predicate NoAscent(r: Scored) {
    forall i :: 0 <= i < |r| - 1 ==> !Less(r[i].1, r[i + 1].1)
  }

  /**
   * `validate_sorted` reports exactly the rising adjacent pairs: an error at
   * position i iff score i is below score i + 1, and no other error.
   */
  lemma {:induction false} SortErrorsExact(r: Scored)
    ensures forall e :: e in SortErrors(r) ==>
      e.NotSorted? && e.position + 1 < |r| && e.score == r[e.position].1 && e.nextScore == r[e.position + 1].1
      && Less(e.score, e.nextScore)
    ensures forall i :: 0 <= i < |r| - 1 && Less(r[i].1, r[i + 1].1) ==> NotSorted(i, r[i].1, r[i + 1].1) in SortErrors(r)
  {
    if |r| >= 2 {
      var i := |r| - 2;
      var p := r[..i + 1];
      SortErrorsExact(p);
      assert forall j :: 0 <= j < |p| ==> p[j] == r[j];
    }
  }

  /** `validate_sorted` is valid iff no adjacent pair rises. */
  lemma SortedValidIffNoAscent(r: Scored)
    ensures SortErrors(r) == [] <==> NoAscent(r)
  {
    SortErrorsExact(r);
    if SortErrors(r) != [] {
      assert SortErrors(r)[0] in SortErrors(r);
    }
  }

  /** For finite scores, no rising adjacent pair means sorted non-increasing overall. */
  lemma {:induction false} NoAscentSortedWhenFinite(r: Scored)
    requires forall i :: 0 <= i < |r| ==> IsFinite(r[i].1)
    requires NoAscent(r)
    ensures forall i, j :: 0 <= i < j < |r| ==> !Less(r[i].1, r[j].1)
  {
    if |r| >= 2 {
      var last := |r| - 1;
      var p := r[..last];
      assert forall j :: 0 <= j < |p| ==> p[j] == r[j];
      NoAscentSortedWhenFinite(p);
      forall i | 0 <= i < last
        ensures !Less(r[i].1, r[last].1)
      {
        if i < last - 1 {
          assert !Less(p[i].1, p[last - 1].1);
        }
        assert !Less(r[last - 1].1, r[last].1);
      }
    }
  }

  // ─── validate_no_duplicates ───────────────────────────────────────────────

  function Ids(r: Scored): set<string> {
    set i | 0 <= i < |r| :: r[i].0
  }

  /** One error for each position whose id already occurred earlier. */
  function DupErrors(r: Scored): seq<Message> {
    if |r| == 0 then []
    else
      var last := |r| - 1;
      DupErrors(r[..last]) + (if r[last].0 in Ids(r[..last]) then [DuplicateId(last, r[last].0)] else [])
  }

  lemma IdsSnoc(r: Scored, i: nat)
    requires i < |r|
    ensures Ids(r[..i + 1]) == Ids(r[..i]) + {r[i].0}
  {
    var p := r[..i + 1];
    assert p[i] == r[i];
    forall id | id in Ids(p)
      ensures id in Ids(r[..i]) + {r[i].0}
    {
      var j :| 0 <= j < |p| && p[j].0 == id;
      if j < i {
        assert r[..i][j] == p[j];
      }
    }
  }

  /** `validate_no_duplicates`, keeping the `seen` set of the source. */
  method ValidateNoDuplicates(results: Scored) returns (v: ValidationResult)
    ensures v == FromErrors(DupErrors(results))
  {
    var seen: set<string> := {};
    var errors: seq<Message> := [];
    for i := 0 to |results|
      invariant seen == Ids(results[..i])
      invariant errors == DupErrors(results[..i])
    {
      var id := results[i].0;
      assert results[..i + 1][..i] == results[..i];
      IdsSnoc(results, i);
      if id in seen {
        errors := errors + [DuplicateId(i, id)];
      } else {
        seen := seen + {id};
      }
    }
    assert results[..|results|] == results;
    if errors == [] {
      v := Valid();
    } else {
      v := Invalid(errors);
    }
  }

  predicate DistinctIds(r: Scored) {
    forall i, j :: 0 <= i < j < |r| ==> r[i].0 != r[j].0
  }

  /** `validate_no_duplicates` is valid iff all ids are distinct. */
  lemma {:induction false} DupValidIffDistinct(r: Scored)
    ensures DupErrors(r) == [] <==> DistinctIds(r)
  {
    if |r| > 0 {
      var last := |r| - 1;
      var p := r[..last];
      DupValidIffDistinct(p);
      assert forall j :: 0 <= j < |p| ==> p[j] == r[j];
      if r[last].0 in Ids(p) {
        var j :| 0 <= j < |p| && p[j].0 == r[last].0;
        assert r[j].0 == r[last].0;
      } else if DupErrors(p) == [] {
        forall i, j | 0 <= i < j < |r|
          ensures r[i].0 != r[j].0
        {
          if j == last {
            assert r[i].0 == p[i].0;
          }
        }
      } else {
        assert !DistinctIds(p);
      }
    }
  }

  /** One duplicate error per repeated occurrence: errors + distinct ids = length. */
  lemma {:induction false} DupErrorCount(r: Scored)
    ensures |DupErrors(r)| + |Ids(r)| == |r|
  {
    if |r| > 0 {
      var last := |r| - 1;
      var p := r[..last];
      DupErrorCount(p);
      IdsSnoc(r, last);
      assert r[..last + 1] == r;
      if r[last].0 in Ids(p) {
        assert Ids(r) == Ids(p);
      } else {
        assert |Ids(p) + {r[last].0}| == |Ids(p)| + 1;
      }
    }
  }

  // ─── validate_finite_scores ───────────────────────────────────────────────

  /** One error for each non-finite score. */
  function FiniteErrors(r: Scored): seq<Message> {
    if |r| == 0 then []
    else
      var last := |r| - 1;
      FiniteErrors(r[..last]) + (if !IsFinite(r[last].1) then [NonFinite(last, r[last].0, r[last].1)] else [])
  }

  /** `validate_finite_scores`. */
  method ValidateFiniteScores(results: Scored) returns (v: ValidationResult)
    ensures v == FromErrors(FiniteErrors(results))
  {
    var errors: seq<Message> := [];
    for i := 0 to |results|
      invariant errors == FiniteErrors(results[..i])
    {
      var (id, score) := results[i];
      if !IsFinite(score) {
        errors := errors + [NonFinite(i, id, score)];
      }
      assert results[..i + 1][..i] == results[..i];
    }
    assert results[..|results|] == results;
    if errors == [] {
      v := Valid();
    } else {
      v := Invalid(errors);
    }
  }

  /** `validate_finite_scores` reports exactly the positions holding a non-finite score. */
  lemma {:induction false} FiniteErrorsExact(r: Scored)
    ensures forall e :: e in FiniteErrors(r) ==>
      e.NonFinite? && e.position < |r| && e.id == r[e.position].0 && e.score == r[e.position].1 && !IsFinite(e.score)
    ensures forall i :: 0 <= i < |r| && !IsFinite(r[i].1) ==> NonFinite(i, r[i].0, r[i].1) in FiniteErrors(r)
  {
    if |r| > 0 {
      var p := r[..|r| - 1];
      FiniteErrorsExact(p);
      assert forall j :: 0 <= j < |p| ==> p[j] == r[j];
    }
  }

  predicate AllFinite(r: Scored) {
    forall i :: 0 <= i < |r| ==> IsFinite(r[i].1)
  }

  /** `validate_finite_scores` is valid iff every score is finite. */
  lemma FiniteValidIffAllFinite(r: Scored)
    ensures FiniteErrors(r) == [] <==> AllFinite(r)
  {
    FiniteErrorsExact(r);
    if FiniteErrors(r) != [] {
      assert FiniteErrors(r)[0] in FiniteErrors(r);
    }
  }

  // ─── validate_non_negative_scores ─────────────────────────────────────────

  /** The per-item negative-score warnings the source collects before summarising. */
  function NegativeScores(r: Scored): seq<Message> {
    if |r| == 0 then []
    else
      var last := |r| - 1;
      NegativeScores(r[..last]) + (if IsNegative(r[last].1) then [NegativeScore(last, r[last].0, r[last].1)] else [])
  }

  /** `validate_non_negative_scores`: valid, with one summary warning iff some score is negative. */
  method ValidateNonNegativeScores(results: Scored) returns (v: ValidationResult)
    ensures v.isValid && v.errors == []
    ensures v.warnings == if NegativeScores(results) == [] then [] else [NegativeSummary(|NegativeScores(results)|)]
  {
    var warnings: seq<Message> := [];
    for i := 0 to |results|
      invariant warnings == NegativeScores(results[..i])
    {
      var (id, score) := results[i];
      if IsNegative(score) {
        warnings := warnings + [NegativeScore(i, id, score)];
      }
      assert results[..i + 1][..i] == results[..i];
    }
    assert results[..|results|] == results;
    if warnings == [] {
      v := Valid();
    } else {
      v := Valid().WithWarning(NegativeSummary(|warnings|));
    }
  }

  /** The summary counts exactly the negative scores. */
  lemma {:induction false} NegativeScoresExact(r: Scored)
    ensures forall e :: e in NegativeScores(r) ==>
      e.NegativeScore? && e.position < |r| && e.id == r[e.position].0 && e.score == r[e.position].1 && IsNegative(e.score)
    ensures forall i :: 0 <= i < |r| && IsNegative(r[i].1) ==> NegativeScore(i, r[i].0, r[i].1) in NegativeScores(r)
    ensures |NegativeScores(r)| <= |r|
  {
    if |r| > 0 {
      var p := r[..|r| - 1];
      NegativeScoresExact(p);
      assert forall j :: 0 <= j < |p| ==> p[j] == r[j];
    }
  }

  // ─── validate_bounds ──────────────────────────────────────────────────────

  /** `validate_bounds`: always valid; warns iff a maximum is given and exceeded. */
  function ValidateBounds(results: Scored, maxResults: Option<nat>): (v: ValidationResult)
    ensures v.isValid && v.errors == []
    ensures v.warnings != [] <==> maxResults.Some? && |results| > maxResults.value
    ensures v.warnings != [] ==> v.warnings == [ExceedsMax(|results|, maxResults.value)]
  {
    match maxResults
    case Some(max) =>
      if |results| > max then Valid().WithWarning(ExceedsMax(|results|, max)) else Valid()
    case None => Valid()
  }

  // ─── validate ─────────────────────────────────────────────────────────────

  /** `validate`. */
  method ValidateAll(results: Scored, checkNonNegative: bool, maxResults: Option<nat>) returns (v: ValidationResult)
    ensures v.errors == SortErrors(results) + DupErrors(results) + FiniteErrors(results)
    ensures v.isValid <==> v.errors == []
    ensures v.warnings ==
      (if checkNonNegative && NegativeScores(results) != [] then [NegativeSummary(|NegativeScores(results)|)] else [])
      + ValidateBounds(results, maxResults).warnings
  {
    var allErrors: seq<Message> := [];
    var allWarnings: seq<Message> := [];

    var sortedResult := ValidateSorted(results);
    if !sortedResult.isValid {
      allErrors := allErrors + sortedResult.errors;
    }
    assert allErrors == SortErrors(results);
    var dupResult := ValidateNoDuplicates(results);
    if !dupResult.isValid {
      allErrors := allErrors + dupResult.errors;
    }
    assert allErrors == SortErrors(results) + DupErrors(results);
    var finiteResult := ValidateFiniteScores(results);
    if !finiteResult.isValid {
      allErrors := allErrors + finiteResult.errors;
    }
    assert allErrors == SortErrors(results) + DupErrors(results) + FiniteErrors(results);
    if checkNonNegative {
      var nonNegResult := ValidateNonNegativeScores(results);
      allWarnings := allWarnings + nonNegResult.warnings;
    }
    assert allWarnings ==
      if checkNonNegative && NegativeScores(results) != [] then [NegativeSummary(|NegativeScores(results)|)] else [];
    var boundsResult := ValidateBounds(results, maxResults);
    allWarnings := allWarnings + boundsResult.warnings;

    if allErrors == [] {
      v := ValidationResult(true, [], allWarnings);
    } else {
      v := ValidationResult(false, allErrors, allWarnings);
    }
  }

  /** `validate` passes exactly the non-increasing lists of distinct ids with finite scores. */
  lemma ValidIffWellFormed(r: Scored)
    ensures SortErrors(r) + DupErrors(r) + FiniteErrors(r) == [] <==> NoAscent(r) && DistinctIds(r) && AllFinite(r)
  {
    SortedValidIffNoAscent(r);
    DupValidIffDistinct(r);
    FiniteValidIffAllFinite(r);
  }
}
