/**
 * The Python binding (`rank-fusion-python/src/lib.rs`): converting Python
 * lists of `(id, score)` tuples, the parameter defaults and guards of each
 * function, and building the returned list.
 *
 * The fusion functions the binding calls are not part of this model; each
 * entry point receives the one it calls as a function parameter.  Scores are
 * `f32` values that may be NaN or infinite: this binding does not check them.
 */
module PythonBinding {
  import opened Wrappers
  import opened Floats
  import opened BindingParams
  import opened Decoding

  /** The Python objects the conversions distinguish. */
  datatype PyValue =
    | PyList(elements: seq<PyValue>)
    | PyTuple(fields: seq<PyValue>)
    | PyStr(text: string)
    | PyFloat(number: Float)
    | PyInt(integer: int)
    | PyOther

  /** The binding's errors. */
  datatype PyError =
    | NotATuple            // failed `downcast::<PyTuple>()`
    | NotAPair             // "Each item must be a (id, score) tuple"
    | IdNotString          // failed `extract::<String>()` of an id
    | ScoreNotNumber       // failed `extract::<f32>()` of a score
    | NotAList             // failed `downcast::<PyList>()` of an inner list
    | RetrieverIdNotString // failed `extract::<String>()` of a retriever id
    | LengthMismatch       // "lists and retriever_ids must have the same length"
    | Param(error: ParamError)

  type Ranked = seq<(string, Float)>

  // ─── py_list_to_ranked ────────────────────────────────────────────────────

  /** `extract::<f32>()`: floats as they are, integers converted, anything else fails. */
  function ExtractScore(v: PyValue): Option<Float> {
    match v
    case PyFloat(x) => Some(x)
    case PyInt(n) => Some(Finite(n as real))
    case _ => None
  }

  /** One list element: a tuple of exactly two fields, a string and a number. */
  function ConvertItem(index: nat, item: PyValue): Result<(string, Float), PyError> {
    if !item.PyTuple? then Err(NotATuple)
    else if |item.fields| != 2 then Err(NotAPair)
    else if !item.fields[0].PyStr? then Err(IdNotString)
    else if ExtractScore(item.fields[1]).None? then Err(ScoreNotNumber)
    else Ok((item.fields[0].text, ExtractScore(item.fields[1]).value))
  }

  function ConvertItems(items: seq<PyValue>): Result<Ranked, PyError> {
    DecodeAll(items, ConvertItem)
  }

  /** `py_list_to_ranked`. */
  method PyListToRanked(items: seq<PyValue>) returns (r: Result<Ranked, PyError>)
    ensures r == ConvertItems(items)
  {
    var result: Ranked := [];
    for i := 0 to |items|
      invariant ConvertItems(items[..i]) == Ok(result)
    {
      assert items[..i + 1][..i] == items[..i];
      var item := items[i];
      var failure: Option<PyError> := None;
      if !item.PyTuple? {
        failure := Some(NotATuple);
      } else if |item.fields| != 2 {
        failure := Some(NotAPair);
      } else if !item.fields[0].PyStr? {
        failure := Some(IdNotString);
      } else if ExtractScore(item.fields[1]).None? {
        failure := Some(ScoreNotNumber);
      }
      if failure.Some? {
        DecodeAllKeepsError(items, i + 1, ConvertItem);
        return Err(failure.value);
      }
      result := result + [(item.fields[0].text, ExtractScore(item.fields[1]).value)];
    }
    assert items[..|items|] == items;
    return Ok(result);
  }

  /** A tuple whose length is not 2 anywhere in the list makes the conversion fail. */
  lemma WrongArityFails(items: seq<PyValue>, i: nat)
    requires i < |items| && items[i].PyTuple? && |items[i].fields| != 2
    ensures ConvertItems(items).Err?
  {
    DecodeAllExact(items, ConvertItem);
  }

  /** A numeric id is refused: ids must be Python strings. */
  lemma NumericIdRefused()
    ensures ConvertItems([PyTuple([PyInt(1), PyFloat(Finite(0.5))])]) == Err(IdNotString)
  {
    var items := [PyTuple([PyInt(1), PyFloat(Finite(0.5))])];
    assert items[..0] == [];
  }

  // ─── the returned list ────────────────────────────────────────────────────

  function ToTuple(entry: (string, Float)): PyValue {
    PyTuple([PyStr(entry.0), PyFloat(entry.1)])
  }

  function ToPy(fused: Ranked): (out: seq<PyValue>)
    ensures |out| == |fused|
    ensures forall i :: 0 <= i < |fused| ==> out[i] == ToTuple(fused[i])
  {
    seq(|fused|, i requires 0 <= i < |fused| => ToTuple(fused[i]))
  }

  /** The `result.append(tuple)` loop: one `(id, score)` tuple per fused item, in order. */
  method RankedToPy(fused: Ranked) returns (out: seq<PyValue>)
    ensures out == ToPy(fused)
  {
    out := [];
    for i := 0 to |fused|
      invariant out == ToPy(fused[..i])
    {
      var (id, score) := fused[i];
      out := out + [PyTuple([PyStr(id), PyFloat(score)])];
    }
    assert fused[..|fused|] == fused;
  }

  /** Converting a returned list back gives the fused list again. */
  lemma ConvertToPy(fused: Ranked)
    ensures ConvertItems(ToPy(fused)) == Ok(fused)
  {
    var items := ToPy(fused);
    DecodeAllExact(items, ConvertItem);
    assert forall i :: 0 <= i < |items| ==> ConvertItem(i, items[i]) == Ok(fused[i]);
    assert ConvertItems(items).value == fused;
  }

  // ─── two-list entry points ────────────────────────────────────────────────

  /** Convert `a`, then `b`; the first error wins. */
  function ConvertBoth(a: seq<PyValue>, b: seq<PyValue>): Result<(Ranked, Ranked), PyError> {
    match ConvertItems(a)
    case Err(e) => Err(e)
    case Ok(x) =>
      match ConvertItems(b)
      case Err(e) => Err(e)
      case Ok(y) => Ok((x, y))
  }

  /**
   * `rrf_py` and `isr_py`: k = 0 is refused before either list is converted.
   * `fuse` stands for `rrf_with_config` or `isr_with_config`.
   */
  method ReciprocalPy(resultsA: seq<PyValue>, resultsB: seq<PyValue>, k: nat, topK: Option<nat>,
                      fuse: (Ranked, Ranked, nat, Option<nat>) -> Ranked)
    returns (r: Result<seq<PyValue>, PyError>)
    ensures k == 0 ==> r == Err(Param(KTooSmall))
    ensures k >= 1 ==>
      r == match ConvertBoth(resultsA, resultsB)
           case Err(e) => Err(e)
           case Ok((a, b)) => Ok(ToPy(fuse(a, b, k, topK)))
  {
    if k == 0 {
      return Err(Param(KTooSmall));
    }
    var a :- PyListToRanked(resultsA);
    var b :- PyListToRanked(resultsB);
    var out := RankedToPy(fuse(a, b, k, topK));
    return Ok(out);
  }

  /** `rrf_py`: k defaults to 60. */
  method RrfPy(resultsA: seq<PyValue>, resultsB: seq<PyValue>, k: Option<nat>, topK: Option<nat>,
               fuse: (Ranked, Ranked, nat, Option<nat>) -> Ranked)
    returns (r: Result<seq<PyValue>, PyError>)
    ensures k == Some(0) ==> r == Err(Param(KTooSmall))
    ensures k.GetOr(DefaultRrfK) >= 1 ==>
      r == match ConvertBoth(resultsA, resultsB)
           case Err(e) => Err(e)
           case Ok((a, b)) => Ok(ToPy(fuse(a, b, k.GetOr(DefaultRrfK), topK)))
  {
    r := ReciprocalPy(resultsA, resultsB, k.GetOr(DefaultRrfK), topK, fuse);
  }

  /** `isr_py`: k defaults to 1. */
  method IsrPy(resultsA: seq<PyValue>, resultsB: seq<PyValue>, k: Option<nat>, topK: Option<nat>,
               fuse: (Ranked, Ranked, nat, Option<nat>) -> Ranked)
    returns (r: Result<seq<PyValue>, PyError>)
    ensures k == Some(0) ==> r == Err(Param(KTooSmall))
    ensures k.GetOr(DefaultIsrK) >= 1 ==>
      r == match ConvertBoth(resultsA, resultsB)
           case Err(e) => Err(e)
           case Ok((a, b)) => Ok(ToPy(fuse(a, b, k.GetOr(DefaultIsrK), topK)))
  {
    r := ReciprocalPy(resultsA, resultsB, k.GetOr(DefaultIsrK), topK, fuse);
  }

  /** `combsum_py`, `combmnz_py`, `borda_py`, `dbsf_py`: convert both lists, fuse, convert back. */
  method PlainPy(resultsA: seq<PyValue>, resultsB: seq<PyValue>, topK: Option<nat>,
                 fuse: (Ranked, Ranked, Option<nat>) -> Ranked)
    returns (r: Result<seq<PyValue>, PyError>)
    ensures r == match ConvertBoth(resultsA, resultsB)
                 case Err(e) => Err(e)
                 case Ok((a, b)) => Ok(ToPy(fuse(a, b, topK)))
  {
    var a :- PyListToRanked(resultsA);
    var b :- PyListToRanked(resultsB);
    var out := RankedToPy(fuse(a, b, topK));
    return Ok(out);
  }

  /** `weighted_py`: the weight guard first, then the conversions; `normalize` defaults to true. */
  method WeightedPy(resultsA: seq<PyValue>, resultsB: seq<PyValue>, weightA: Float, weightB: Float,
                    normalize: Option<bool>, topK: Option<nat>,
                    fuse: (Ranked, Ranked, real, real, bool, Option<nat>) -> Ranked)
    returns (r: Result<seq<PyValue>, PyError>)
    ensures CheckWeights(weightA, weightB).Some? ==> r == Err(Param(CheckWeights(weightA, weightB).value))
    ensures CheckWeights(weightA, weightB).None? ==>
      r == match ConvertBoth(resultsA, resultsB)
           case Err(e) => Err(e)
           case Ok((a, b)) => Ok(ToPy(fuse(a, b, weightA.value, weightB.value, normalize.GetOr(DefaultNormalize), topK)))
  {
    if !IsFinite(weightA) || !IsFinite(weightB) {
      return Err(Param(WeightsNotFinite));
    }
    if AbsBelow(weightA, ZeroWeight) && AbsBelow(weightB, ZeroWeight) {
      return Err(Param(WeightsBothZero));
    }
    var a :- PyListToRanked(resultsA);
    var b :- PyListToRanked(resultsB);
    var out := RankedToPy(fuse(a, b, weightA.value, weightB.value, normalize.GetOr(DefaultNormalize), topK));
    return Ok(out);
  }

  /** `standardized_py`: the clip range defaults to (-3, 3). */
  method StandardizedPy(resultsA: seq<PyValue>, resultsB: seq<PyValue>, clipRange: Option<(real, real)>,
                        topK: Option<nat>, fuse: (Ranked, Ranked, (real, real), Option<nat>) -> Ranked)
    returns (r: Result<seq<PyValue>, PyError>)
    ensures r == match ConvertBoth(resultsA, resultsB)
                 case Err(e) => Err(e)
                 case Ok((a, b)) => Ok(ToPy(fuse(a, b, clipRange.GetOr((DefaultClipMin, DefaultClipMax)), topK)))
  {
    var a :- PyListToRanked(resultsA);
    var b :- PyListToRanked(resultsB);
    var out := RankedToPy(fuse(a, b, clipRange.GetOr((DefaultClipMin, DefaultClipMax)), topK));
    return Ok(out);
  }

  /**
   * `additive_multi_task_py`: convert both lists, then parse the
   * normalisation name (default "minmax"); weights default to (1, 1).
   */
  method AdditiveMultiTaskPy(resultsA: seq<PyValue>, resultsB: seq<PyValue>, weights: Option<(real, real)>,
                             normalization: Option<string>, topK: Option<nat>,
                             fuse: (Ranked, Ranked, (real, real), Normalization, Option<nat>) -> Ranked)
    returns (r: Result<seq<PyValue>, PyError>)
    ensures ConvertBoth(resultsA, resultsB).Err? ==> r == Err(ConvertBoth(resultsA, resultsB).error)
    ensures ConvertBoth(resultsA, resultsB).Ok? ==>
      r == match ParseNormalization(normalization.GetOr(DefaultNormalizationName))
           case Err(e) => Err(Param(e))
           case Ok(norm) =>
             var (a, b) := ConvertBoth(resultsA, resultsB).value;
             Ok(ToPy(fuse(a, b, weights.GetOr((DefaultTaskWeight, DefaultTaskWeight)), norm, topK)))
  {
    var a :- PyListToRanked(resultsA);
    var b :- PyListToRanked(resultsB);
    var parsed := ParseNormalization(normalization.GetOr(DefaultNormalizationName));
    if parsed.Err? {
      return Err(Param(parsed.error));
    }
    var out := RankedToPy(fuse(a, b, weights.GetOr((DefaultTaskWeight, DefaultTaskWeight)), parsed.value, topK));
    return Ok(out);
  }

  // ─── many-list entry points ───────────────────────────────────────────────

  /** One inner list: `downcast::<PyList>()` and then `py_list_to_ranked`. */
  function ConvertList(index: nat, v: PyValue): Result<Ranked, PyError> {
    if v.PyList? then ConvertItems(v.elements) else Err(NotAList)
  }

  function ConvertLists(lists: seq<PyValue>): Result<seq<Ranked>, PyError> {
    DecodeAll(lists, ConvertList)
  }

  /** The conversion loop of every many-list function. */
  method PyListsToRanked(lists: seq<PyValue>) returns (r: Result<seq<Ranked>, PyError>)
    ensures r == ConvertLists(lists)
  {
    var rustLists: seq<Ranked> := [];
    for i := 0 to |lists|
      invariant ConvertLists(lists[..i]) == Ok(rustLists)
    {
      assert lists[..i + 1][..i] == lists[..i];
      var converted: Result<Ranked, PyError>;
      if lists[i].PyList? {
        converted := PyListToRanked(lists[i].elements);
      } else {
        converted := Err(NotAList);
      }
      if converted.Err? {
        DecodeAllKeepsError(lists, i + 1, ConvertList);
        return Err(converted.error);
      }
      rustLists := rustLists + [converted.value];
    }
    assert lists[..|lists|] == lists;
    return Ok(rustLists);
  }

  /**
   * `rrf_multi_py` and `isr_multi_py`: k takes its signature default when it
   * is not given, and k = 0 is refused before any list is converted.
   */
  method ReciprocalMultiPy(lists: seq<PyValue>, k: Option<nat>, defaultK: nat, topK: Option<nat>,
                           fuse: (seq<Ranked>, nat, Option<nat>) -> Ranked)
    returns (r: Result<seq<PyValue>, PyError>)
    ensures k.GetOr(defaultK) == 0 ==> r == Err(Param(KTooSmall))
    ensures k.GetOr(defaultK) >= 1 ==>
      r == match ConvertLists(lists)
           case Err(e) => Err(e)
           case Ok(converted) => Ok(ToPy(fuse(converted, k.GetOr(defaultK), topK)))
  {
    var kVal := k.GetOr(defaultK);
    if kVal == 0 {
      return Err(Param(KTooSmall));
    }
    var rustLists :- PyListsToRanked(lists);
    var out := RankedToPy(fuse(rustLists, kVal, topK));
    return Ok(out);
  }

  /** `rrf_multi_py`: k defaults to 60. */
  method RrfMultiPy(lists: seq<PyValue>, k: Option<nat>, topK: Option<nat>,
                    fuse: (seq<Ranked>, nat, Option<nat>) -> Ranked)
    returns (r: Result<seq<PyValue>, PyError>)
    ensures k == Some(0) ==> r == Err(Param(KTooSmall))
    ensures k.GetOr(DefaultRrfK) >= 1 ==>
      r == match ConvertLists(lists)
           case Err(e) => Err(e)
           case Ok(converted) => Ok(ToPy(fuse(converted, k.GetOr(DefaultRrfK), topK)))
  {
    r := ReciprocalMultiPy(lists, k, DefaultRrfK, topK, fuse);
  }

  /** `isr_multi_py`: k defaults to 1. */
  method IsrMultiPy(lists: seq<PyValue>, k: Option<nat>, topK: Option<nat>,
                    fuse: (seq<Ranked>, nat, Option<nat>) -> Ranked)
    returns (r: Result<seq<PyValue>, PyError>)
    ensures k == Some(0) ==> r == Err(Param(KTooSmall))
    ensures k.GetOr(DefaultIsrK) >= 1 ==>
      r == match ConvertLists(lists)
           case Err(e) => Err(e)
           case Ok(converted) => Ok(ToPy(fuse(converted, k.GetOr(DefaultIsrK), topK)))
  {
    r := ReciprocalMultiPy(lists, k, DefaultIsrK, topK, fuse);
  }

  /** `combsum_multi_py`, `combmnz_multi_py`, `borda_multi_py`, `dbsf_multi_py`. */
  method PlainMultiPy(lists: seq<PyValue>, topK: Option<nat>, fuse: (seq<Ranked>, Option<nat>) -> Ranked)
    returns (r: Result<seq<PyValue>, PyError>)
    ensures r == match ConvertLists(lists)
                 case Err(e) => Err(e)
                 case Ok(converted) => Ok(ToPy(fuse(converted, topK)))
  {
    var rustLists :- PyListsToRanked(lists);
    var out := RankedToPy(fuse(rustLists, topK));
    return Ok(out);
  }

  /** `standardized_multi_py`: the clip range defaults to (-3, 3). */
  method StandardizedMultiPy(lists: seq<PyValue>, clipRange: Option<(real, real)>, topK: Option<nat>,
                             fuse: (seq<Ranked>, (real, real), Option<nat>) -> Ranked)
    returns (r: Result<seq<PyValue>, PyError>)
    ensures r == match ConvertLists(lists)
                 case Err(e) => Err(e)
                 case Ok(converted) => Ok(ToPy(fuse(converted, clipRange.GetOr((DefaultClipMin, DefaultClipMax)), topK)))
  {
    var rustLists :- PyListsToRanked(lists);
    var out := RankedToPy(fuse(rustLists, clipRange.GetOr((DefaultClipMin, DefaultClipMax)), topK));
    return Ok(out);
  }

  // ─── explain entry points ─────────────────────────────────────────────────

  function ConvertRetrieverId(index: nat, v: PyValue): Result<string, PyError> {
    if v.PyStr? then Ok(v.text) else Err(RetrieverIdNotString)
  }

  function ConvertRetrieverIds(ids: seq<PyValue>): Result<seq<string>, PyError> {
    DecodeAll(ids, ConvertRetrieverId)
  }

  /**
   * `combsum_explain_py`, `combmnz_explain_py`, `dbsf_explain_py` (and
   * `rrf_explain_py` after its k check): convert the lists, then the retriever
   * ids, then refuse differing counts, then explain.
   */
  method ExplainPy<R>(lists: seq<PyValue>, retrieverIds: seq<PyValue>, topK: Option<nat>,
                      explain: (seq<Ranked>, seq<string>, Option<nat>) -> seq<R>)
    returns (r: Result<seq<R>, PyError>)
    ensures ConvertLists(lists).Err? ==> r == Err(ConvertLists(lists).error)
    ensures ConvertLists(lists).Ok? && ConvertRetrieverIds(retrieverIds).Err? ==>
      r == Err(ConvertRetrieverIds(retrieverIds).error)
    ensures ConvertLists(lists).Ok? && ConvertRetrieverIds(retrieverIds).Ok? ==>
      r == if |lists| != |retrieverIds| then Err(LengthMismatch)
           else Ok(explain(ConvertLists(lists).value, ConvertRetrieverIds(retrieverIds).value, topK))
  {
    var rustLists :- PyListsToRanked(lists);
    var ids: seq<string> := [];
    for i := 0 to |retrieverIds|
      invariant ConvertRetrieverIds(retrieverIds[..i]) == Ok(ids)
    {
      assert retrieverIds[..i + 1][..i] == retrieverIds[..i];
      if !retrieverIds[i].PyStr? {
        DecodeAllKeepsError(retrieverIds, i + 1, ConvertRetrieverId);
        return Err(RetrieverIdNotString);
      }
      ids := ids + [retrieverIds[i].text];
    }
    assert retrieverIds[..|retrieverIds|] == retrieverIds;
    DecodeAllExact(lists, ConvertList);
    DecodeAllExact(retrieverIds, ConvertRetrieverId);
    if |rustLists| != |ids| {
      return Err(LengthMismatch);
    }
    return Ok(explain(rustLists, ids, topK));
  }

  /** `rrf_explain_py`: k = 0 is refused first; k defaults to 60. */
  method RrfExplainPy<R>(lists: seq<PyValue>, retrieverIds: seq<PyValue>, k: Option<nat>, topK: Option<nat>,
                         explain: (seq<Ranked>, seq<string>, nat, Option<nat>) -> seq<R>)
    returns (r: Result<seq<R>, PyError>)
    ensures k == Some(0) ==> r == Err(Param(KTooSmall))
    ensures k.GetOr(DefaultRrfK) >= 1 && ConvertLists(lists).Ok? && ConvertRetrieverIds(retrieverIds).Ok? ==>
      r == if |lists| != |retrieverIds| then Err(LengthMismatch)
           else Ok(explain(ConvertLists(lists).value, ConvertRetrieverIds(retrieverIds).value, k.GetOr(DefaultRrfK), topK))
    ensures k.GetOr(DefaultRrfK) >= 1 && ConvertLists(lists).Err? ==> r == Err(ConvertLists(lists).error)
    ensures k.GetOr(DefaultRrfK) >= 1 && ConvertLists(lists).Ok? && ConvertRetrieverIds(retrieverIds).Err? ==>
      r == Err(ConvertRetrieverIds(retrieverIds).error)
  {
    var kVal := k.GetOr(DefaultRrfK);
    if kVal == 0 {
      return Err(Param(KTooSmall));
    }
    r := ExplainPy(lists, retrieverIds, topK, (ls, ids, t) => explain(ls, ids, kVal, t));
  }
}
