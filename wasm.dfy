/**
 * The WebAssembly binding (`rank-fusion/src/wasm.rs`): decoding JavaScript
 * arrays of `[id, score]` pairs, the parameter defaults and guards of each
 * entry point, and encoding the fused list back.
 *
 * The fusion functions the binding calls are not part of this model; each
 * entry point receives the one it calls as a function parameter.
 */
module WasmBinding {
  import opened Wrappers
  import opened Floats
  import opened BindingParams
  import opened Decoding

  /** The JavaScript values the decoder distinguishes. */
  datatype JsValue =
    | JsArray(items: seq<JsValue>)
    | JsString(text: string)
    | JsNumber(number: Float)
    | JsOther

  /** The binding's errors (each a string in the source). */
  datatype JsError =
    | ExpectedArray                           // "Expected array"
    | ExpectedPair(index: nat)                // "Expected [id, score] pair at index {i}"
    | PairLength(index: nat, length: nat)     // "… at index {i}, got array of length {n}"
    | IdNotString(index: nat)                 // "id must be a string at index {i}"
    | ScoreNotNumber(index: nat)              // "score must be a number at index {i}"
    | ScoreNotFinite(index: nat, score: Float) // "score must be a finite number at index {i}, got {s}"
    | ExpectedArrayOfLists                    // "Expected array of lists"
    | Param(error: ParamError)

  type Ranked = seq<(string, real)>

  // ─── js_to_results ────────────────────────────────────────────────────────

  /** One array item, at position `index`, checked in the source's order. */
  function DecodePair(index: nat, item: JsValue): Result<(string, real), JsError> {
    if !item.JsArray? then Err(ExpectedPair(index))
    else if |item.items| != 2 then Err(PairLength(index, |item.items|))
    else if !item.items[0].JsString? then Err(IdNotString(index))
    else if !item.items[1].JsNumber? then Err(ScoreNotNumber(index))
    else if !IsFinite(item.items[1].number) then Err(ScoreNotFinite(index, item.items[1].number))
    else Ok((item.items[0].text, item.items[1].number.value))
  }

  /** The items decoded in order; the first failing item's error otherwise. */
  function DecodeItems(items: seq<JsValue>): Result<Ranked, JsError> {
    DecodeAll(items, DecodePair)
  }

  function Decode(js: JsValue): Result<Ranked, JsError> {
    if js.JsArray? then DecodeItems(js.items) else Err(ExpectedArray)
  }

  /** `js_to_results`. */
  method JsToResults(js: JsValue) returns (r: Result<Ranked, JsError>)
    ensures r == Decode(js)
  {
    if !js.JsArray? {
      return Err(ExpectedArray);
    }
    var items := js.items;
    var results: Ranked := [];
    for idx := 0 to |items|
      invariant DecodeItems(items[..idx]) == Ok(results)
    {
      assert items[..idx + 1][..idx] == items[..idx];
      var item := items[idx];
      var failure: Option<JsError> := None;
      if !item.JsArray? {
        failure := Some(ExpectedPair(idx));
      } else if |item.items| != 2 {
        failure := Some(PairLength(idx, |item.items|));
      } else if !item.items[0].JsString? {
        failure := Some(IdNotString(idx));
      } else if !item.items[1].JsNumber? {
        failure := Some(ScoreNotNumber(idx));
      } else if !IsFinite(item.items[1].number) {
        failure := Some(ScoreNotFinite(idx, item.items[1].number));
      }
      if failure.Some? {
        DecodeAllKeepsError(items, idx + 1, DecodePair);
        return Err(failure.value);
      }
      var id := item.items[0].text;
      var scoreVal := item.items[1].number;
      results := results + [(id, scoreVal.value)];
    }
    assert items[..|items|] == items;
    return Ok(results);
  }

  // ─── results_to_js ────────────────────────────────────────────────────────

  function EncodePair(entry: (string, real)): JsValue {
    JsArray([JsString(entry.0), JsNumber(Finite(entry.1))])
  }

  function Encode(results: Ranked): (js: JsValue)
    ensures js.JsArray? && |js.items| == |results|
    ensures forall i :: 0 <= i < |results| ==> js.items[i] == EncodePair(results[i])
  {
    JsArray(seq(|results|, i requires 0 <= i < |results| => EncodePair(results[i])))
  }

  /** `results_to_js`: one `[id, score]` pair per result, in order. */
  method ResultsToJs(results: Ranked) returns (js: JsValue)
    ensures js == Encode(results)
  {
    var pairs: seq<JsValue> := [];
    for i := 0 to |results|
      invariant pairs == Encode(results[..i]).items
    {
      var (id, score) := results[i];
      var pair := [JsString(id), JsNumber(Finite(score))];
      pairs := pairs + [JsArray(pair)];
    }
    assert results[..|results|] == results;
    js := JsArray(pairs);
  }

  /** Encoding a result list and decoding it again gives the list back. */
  lemma {:induction false} DecodeEncode(results: Ranked)
    ensures Decode(Encode(results)) == Ok(results)
  {
    var items := Encode(results).items;
    DecodeAllExact(items, DecodePair);
    forall i | 0 <= i < |items|
      ensures DecodePair(i, items[i]) == Ok(results[i])
    {
    }
    assert DecodeItems(items).value == results;
  }

  // ─── two-list entry points ────────────────────────────────────────────────

  /** Decode `a`, then `b`; the first error wins. */
  function DecodeBoth(a: JsValue, b: JsValue): Result<(Ranked, Ranked), JsError> {
    match Decode(a)
    case Err(e) => Err(e)
    case Ok(x) =>
      match Decode(b)
      case Err(e) => Err(e)
      case Ok(y) => Ok((x, y))
  }

  /**
   * `rrf` and `isr`: decode both lists, then default k and reject 0, then fuse.
   * `fuse` stands for `rrf_with_config` (default k 60) or `isr_with_config`
   * (default k 1).
   */
  method ReciprocalFusion(resultsA: JsValue, resultsB: JsValue, k: Option<nat>, defaultK: nat, topK: Option<nat>,
                          fuse: (Ranked, Ranked, nat, Option<nat>) -> Ranked)
    returns (r: Result<JsValue, JsError>)
    ensures DecodeBoth(resultsA, resultsB).Err? ==> r == Err(DecodeBoth(resultsA, resultsB).error)
    ensures DecodeBoth(resultsA, resultsB).Ok? && k.GetOr(defaultK) == 0 ==> r == Err(Param(KTooSmall))
    ensures DecodeBoth(resultsA, resultsB).Ok? && k.GetOr(defaultK) >= 1 ==>
      var (a, b) := DecodeBoth(resultsA, resultsB).value;
      r == Ok(Encode(fuse(a, b, k.GetOr(defaultK), topK)))
  {
    var a :- JsToResults(resultsA);
    var b :- JsToResults(resultsB);
    var kVal := k.GetOr(defaultK);
    if kVal == 0 {
      return Err(Param(KTooSmall));
    }
    var fused := fuse(a, b, kVal, topK);
    var js := ResultsToJs(fused);
    return Ok(js);
  }

  /** `rrf`: `ReciprocalFusion` with default k 60. */
  method Rrf(resultsA: JsValue, resultsB: JsValue, k: Option<nat>, topK: Option<nat>,
             fuse: (Ranked, Ranked, nat, Option<nat>) -> Ranked)
    returns (r: Result<JsValue, JsError>)
    ensures DecodeBoth(resultsA, resultsB).Err? ==> r == Err(DecodeBoth(resultsA, resultsB).error)
    ensures DecodeBoth(resultsA, resultsB).Ok? && k == Some(0) ==> r == Err(Param(KTooSmall))
    ensures DecodeBoth(resultsA, resultsB).Ok? && k.GetOr(DefaultRrfK) >= 1 ==>
      var (a, b) := DecodeBoth(resultsA, resultsB).value;
      r == Ok(Encode(fuse(a, b, k.GetOr(DefaultRrfK), topK)))
  {
    r := ReciprocalFusion(resultsA, resultsB, k, DefaultRrfK, topK, fuse);
  }

  /** `isr`: `ReciprocalFusion` with default k 1. */
  method Isr(resultsA: JsValue, resultsB: JsValue, k: Option<nat>, topK: Option<nat>,
             fuse: (Ranked, Ranked, nat, Option<nat>) -> Ranked)
    returns (r: Result<JsValue, JsError>)
    ensures DecodeBoth(resultsA, resultsB).Err? ==> r == Err(DecodeBoth(resultsA, resultsB).error)
    ensures DecodeBoth(resultsA, resultsB).Ok? && k == Some(0) ==> r == Err(Param(KTooSmall))
    ensures DecodeBoth(resultsA, resultsB).Ok? && k.GetOr(DefaultIsrK) >= 1 ==>
      var (a, b) := DecodeBoth(resultsA, resultsB).value;
      r == Ok(Encode(fuse(a, b, k.GetOr(DefaultIsrK), topK)))
  {
    r := ReciprocalFusion(resultsA, resultsB, k, DefaultIsrK, topK, fuse);
  }

  /** `combsum`, `combmnz`, `borda` and `dbsf`: decode both lists, fuse, encode. */
  method PlainFusion(resultsA: JsValue, resultsB: JsValue, fuse: (Ranked, Ranked) -> Ranked)
    returns (r: Result<JsValue, JsError>)
    ensures DecodeBoth(resultsA, resultsB).Err? ==> r == Err(DecodeBoth(resultsA, resultsB).error)
    ensures DecodeBoth(resultsA, resultsB).Ok? ==>
      var (a, b) := DecodeBoth(resultsA, resultsB).value;
      r == Ok(Encode(fuse(a, b)))
  {
    var a :- JsToResults(resultsA);
    var b :- JsToResults(resultsB);
    var js := ResultsToJs(fuse(a, b));
    return Ok(js);
  }

  /** `weighted`: the weight guard comes before decoding either list. */
  method Weighted(resultsA: JsValue, resultsB: JsValue, weightA: Float, weightB: Float, normalize: bool,
                  topK: Option<nat>, fuse: (Ranked, Ranked, real, real, bool, Option<nat>) -> Ranked)
    returns (r: Result<JsValue, JsError>)
    ensures CheckWeights(weightA, weightB).Some? ==> r == Err(Param(CheckWeights(weightA, weightB).value))
    ensures CheckWeights(weightA, weightB).None? && DecodeBoth(resultsA, resultsB).Err? ==>
      r == Err(DecodeBoth(resultsA, resultsB).error)
    ensures CheckWeights(weightA, weightB).None? && DecodeBoth(resultsA, resultsB).Ok? ==>
      var (a, b) := DecodeBoth(resultsA, resultsB).value;
      r == Ok(Encode(fuse(a, b, weightA.value, weightB.value, normalize, topK)))
  {
    if !IsFinite(weightA) || !IsFinite(weightB) {
      return Err(Param(WeightsNotFinite));
    }
    if AbsBelow(weightA, ZeroWeight) && AbsBelow(weightB, ZeroWeight) {
      return Err(Param(WeightsBothZero));
    }
    var a :- JsToResults(resultsA);
    var b :- JsToResults(resultsB);
    var js := ResultsToJs(fuse(a, b, weightA.value, weightB.value, normalize, topK));
    return Ok(js);
  }

  /** `standardized`: the clip range defaults to (-3, 3). */
  method Standardized(resultsA: JsValue, resultsB: JsValue, clipMin: Option<real>, clipMax: Option<real>,
                      topK: Option<nat>, fuse: (Ranked, Ranked, real, real, Option<nat>) -> Ranked)
    returns (r: Result<JsValue, JsError>)
    ensures DecodeBoth(resultsA, resultsB).Err? ==> r == Err(DecodeBoth(resultsA, resultsB).error)
    ensures DecodeBoth(resultsA, resultsB).Ok? ==>
      var (a, b) := DecodeBoth(resultsA, resultsB).value;
      r == Ok(Encode(fuse(a, b, clipMin.GetOr(DefaultClipMin), clipMax.GetOr(DefaultClipMax), topK)))
  {
    var a :- JsToResults(resultsA);
    var b :- JsToResults(resultsB);
    var lo := clipMin.GetOr(DefaultClipMin);
    var hi := clipMax.GetOr(DefaultClipMax);
    var js := ResultsToJs(fuse(a, b, lo, hi, topK));
    return Ok(js);
  }

  /**
   * `additive_multi_task`: decode both lists, default the weights to 1 and
   * the normalisation to "minmax", then parse the name.
   */
  method AdditiveMultiTask(resultsA: JsValue, resultsB: JsValue, weightA: Option<real>, weightB: Option<real>,
                           normalization: Option<string>, topK: Option<nat>,
                           fuse: (Ranked, Ranked, real, real, Normalization, Option<nat>) -> Ranked)
    returns (r: Result<JsValue, JsError>)
    ensures DecodeBoth(resultsA, resultsB).Err? ==> r == Err(DecodeBoth(resultsA, resultsB).error)
    ensures DecodeBoth(resultsA, resultsB).Ok? && ParseNormalization(normalization.GetOr(DefaultNormalizationName)).Err? ==>
      r == Err(Param(BadNormalization))
    ensures DecodeBoth(resultsA, resultsB).Ok? && ParseNormalization(normalization.GetOr(DefaultNormalizationName)).Ok? ==>
      var (a, b) := DecodeBoth(resultsA, resultsB).value;
      var norm := ParseNormalization(normalization.GetOr(DefaultNormalizationName)).value;
      r == Ok(Encode(fuse(a, b, weightA.GetOr(DefaultTaskWeight), weightB.GetOr(DefaultTaskWeight), norm, topK)))
    ensures normalization.None? && DecodeBoth(resultsA, resultsB).Ok? ==> r.Ok?
  {
    var a :- JsToResults(resultsA);
    var b :- JsToResults(resultsB);
    var wa := weightA.GetOr(DefaultTaskWeight);
    var wb := weightB.GetOr(DefaultTaskWeight);
    DefaultNormalizationIsMinMax();
    var parsed := ParseNormalization(normalization.GetOr(DefaultNormalizationName));
    if parsed.Err? {
      return Err(Param(parsed.error));
    }
    var js := ResultsToJs(fuse(a, b, wa, wb, parsed.value, topK));
    return Ok(js);
  }

  // ─── many-list entry points ───────────────────────────────────────────────

  /** Every inner list decoded in order; the first failing list's error otherwise. */
  function DecodeLists(items: seq<JsValue>): Result<seq<Ranked>, JsError> {
    DecodeAll(items, (i: nat, js: JsValue) => Decode(js))
  }

  /** The decoding loop shared by every `*_multi`. */
  method JsToLists(items: seq<JsValue>) returns (r: Result<seq<Ranked>, JsError>)
    ensures r == DecodeLists(items)
  {
    var lists: seq<Ranked> := [];
    for i := 0 to |items|
      invariant DecodeLists(items[..i]) == Ok(lists)
    {
      assert items[..i + 1][..i] == items[..i];
      var decoded := JsToResults(items[i]);
      if decoded.Err? {
        DecodeAllKeepsError(items, i + 1, (i: nat, js: JsValue) => Decode(js));
        return Err(decoded.error);
      }
      lists := lists + [decoded.value];
    }
    assert items[..|items|] == items;
    return Ok(lists);
  }

  /** What a `*_multi` entry point does with a non-array or an empty outer array. */
  function OuterArray(lists: JsValue): Result<seq<JsValue>, JsError> {
    if lists.JsArray? then Ok(lists.items) else Err(ExpectedArrayOfLists)
  }

  /**
   * `rrf_multi` and `isr_multi`: an empty outer array gives an empty result
   * before any check; otherwise decode every list, then default k and reject
   * 0, then fuse.
   */
  method ReciprocalMulti(lists: JsValue, k: Option<nat>, defaultK: nat, topK: Option<nat>,
                         fuse: (seq<Ranked>, nat, Option<nat>) -> Ranked)
    returns (r: Result<JsValue, JsError>)
    ensures !lists.JsArray? ==> r == Err(ExpectedArrayOfLists)
    ensures lists == JsArray([]) ==> r == Ok(JsArray([]))
    ensures lists.JsArray? && lists.items != [] && DecodeLists(lists.items).Err? ==>
      r == Err(DecodeLists(lists.items).error)
    ensures lists.JsArray? && lists.items != [] && DecodeLists(lists.items).Ok? ==>
      r == if k.GetOr(defaultK) == 0 then Err(Param(KTooSmall))
           else Ok(Encode(fuse(DecodeLists(lists.items).value, k.GetOr(defaultK), topK)))
  {
    var items :- OuterArray(lists);
    if |items| == 0 {
      return Ok(JsArray([]));
    }
    var listsVec :- JsToLists(items);
    var kVal := k.GetOr(defaultK);
    if kVal == 0 {
      return Err(Param(KTooSmall));
    }
    var js := ResultsToJs(fuse(listsVec, kVal, topK));
    return Ok(js);
  }

  /** `combsum_multi`, `combmnz_multi`, `borda_multi`, `dbsf_multi`. */
  method PlainMulti(lists: JsValue, topK: Option<nat>, fuse: (seq<Ranked>, Option<nat>) -> Ranked)
    returns (r: Result<JsValue, JsError>)
    ensures !lists.JsArray? ==> r == Err(ExpectedArrayOfLists)
    ensures lists == JsArray([]) ==> r == Ok(JsArray([]))
    ensures lists.JsArray? && lists.items != [] ==>
      r == match DecodeLists(lists.items)
           case Err(e) => Err(e)
           case Ok(decoded) => Ok(Encode(fuse(decoded, topK)))
  {
    var items :- OuterArray(lists);
    if |items| == 0 {
      return Ok(JsArray([]));
    }
    var listsVec :- JsToLists(items);
    var js := ResultsToJs(fuse(listsVec, topK));
    return Ok(js);
  }

  /** `standardized_multi`: the clip range defaults to (-3, 3). */
  method StandardizedMulti(lists: JsValue, clipMin: Option<real>, clipMax: Option<real>, topK: Option<nat>,
                           fuse: (seq<Ranked>, real, real, Option<nat>) -> Ranked)
    returns (r: Result<JsValue, JsError>)
    ensures !lists.JsArray? ==> r == Err(ExpectedArrayOfLists)
    ensures lists == JsArray([]) ==> r == Ok(JsArray([]))
    ensures lists.JsArray? && lists.items != [] ==>
      r == match DecodeLists(lists.items)
           case Err(e) => Err(e)
           case Ok(decoded) => Ok(Encode(fuse(decoded, clipMin.GetOr(DefaultClipMin), clipMax.GetOr(DefaultClipMax), topK)))
  {
    var items :- OuterArray(lists);
    if |items| == 0 {
      return Ok(JsArray([]));
    }
    var listsVec :- JsToLists(items);
    var lo := clipMin.GetOr(DefaultClipMin);
    var hi := clipMax.GetOr(DefaultClipMax);
    var js := ResultsToJs(fuse(listsVec, lo, hi, topK));
    return Ok(js);
  }
}
