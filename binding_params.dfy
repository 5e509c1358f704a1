/**
 * The parameter handling the WebAssembly binding (`rank-fusion/src/wasm.rs`)
 * and the Python binding (`rank-fusion-python/src/lib.rs`) share: default
 * values, the weight guard and the normalisation-name parser.
 */
module BindingParams {
  import opened Wrappers
  import opened Floats
  import opened Strings

  /** The parameter errors both bindings report, each with one fixed message. */
  datatype ParamError =
    | KTooSmall         // "k must be >= 1 to avoid division by zero"
    | WeightsNotFinite  // "weights must be finite numbers"
    | WeightsBothZero   // "weights cannot both be zero"
    | BadNormalization  // "normalization must be one of: zscore, minmax, sum, rank, none"

  /** Default k of `rrf` and `rrf_multi`. */
  const DefaultRrfK: nat := 60
  /** Default k of `isr` and `isr_multi`. */
  const DefaultIsrK: nat := 1
  /** Default z-score clip range of the standardized fusions. */
  const DefaultClipMin: real := -3.0
  const DefaultClipMax: real := 3.0
  /** Default task weights and normalisation name of additive multi-task fusion. */
  const DefaultTaskWeight: real := 1.0
  const DefaultNormalizationName: string := "minmax"
  /** Default of the `normalize` flag of the Python `weighted`. */
  const DefaultNormalize: bool := true

  /** Below this magnitude a weight counts as zero. */
  const ZeroWeight: real := 0.000000001

  /**
   * The weight guard of `weighted` in both bindings: first both weights must be
   * finite, then they must not both be (nearly) zero.
   */
  function CheckWeights(weightA: Float, weightB: Float): (r: Option<ParamError>)
    ensures r.None? <==>
      IsFinite(weightA) && IsFinite(weightB) && !(AbsBelow(weightA, ZeroWeight) && AbsBelow(weightB, ZeroWeight))
    ensures r == Some(WeightsNotFinite) <==> !IsFinite(weightA) || !IsFinite(weightB)
    ensures r.Some? ==> r.value == WeightsNotFinite || r.value == WeightsBothZero
  {
    if !IsFinite(weightA) || !IsFinite(weightB) then Some(WeightsNotFinite)
    else if AbsBelow(weightA, ZeroWeight) && AbsBelow(weightB, ZeroWeight) then Some(WeightsBothZero)
    else None
  }

  /** The guard admits weights that cancel out: it does not ensure a non-zero sum. */
  lemma CheckWeightsAdmitsZeroSum()
    ensures CheckWeights(Finite(1.0), Finite(-1.0)).None?
  {
  }

  // ─── normalisation names ──────────────────────────────────────────────────

  /** `Normalization`. */
  datatype Normalization = ZScore | MinMax | Sum | Rank | NoNormalization

  /** The lower-case name each normalisation is selected by. */
  function NormalizationName(n: Normalization): (name: string)
    ensures ToLower(name) == name
  {
    var name := match n
      case ZScore => "zscore"
      case MinMax => "minmax"
      case Sum => "sum"
      case Rank => "rank"
      case NoNormalization => "none";
    assert forall i :: 0 <= i < |name| ==> 'a' <= name[i] <= 'z';
    LowerLettersFixed(name);
    name
  }

  /**
   * The `match normalization.to_lowercase()` of `additive_multi_task` (and of
   * the Python `additive_multi_task` and `AdditiveMultiTaskConfig`): the
   * lower-cased name selects the normalisation; anything else is an error.
   */
  function ParseNormalization(name: string): (r: Result<Normalization, ParamError>)
    ensures r.Ok? ==> NormalizationName(r.value) == ToLower(name)
    ensures r.Err? ==> r.error == BadNormalization
    ensures r.Err? <==> forall n: Normalization :: NormalizationName(n) != ToLower(name)
  {
    match ToLower(name)
    case "zscore" => Ok(ZScore)
    case "minmax" => Ok(MinMax)
    case "sum" => Ok(Sum)
    case "rank" => Ok(Rank)
    case "none" => Ok(NoNormalization)
    case _ => Err(BadNormalization)
  }

  /** Every normalisation is selected by its own name. */
  lemma ParseNormalizationName(n: Normalization)
    ensures ParseNormalization(NormalizationName(n)) == Ok(n)
  {
    var r := ParseNormalization(NormalizationName(n));
    if r.Ok? {
      NormalizationNameInjective(r.value, n);
    }
  }

  lemma NormalizationNameInjective(m: Normalization, n: Normalization)
    requires NormalizationName(m) == NormalizationName(n)
    ensures m == n
  {
  }

  /** Case does not matter: a name parses as its lower-case form does. */
  lemma ParseNormalizationIgnoresCase(name: string)
    ensures ParseNormalization(name) == ParseNormalization(ToLower(name))
  {
    ToLowerIdempotent(name);
  }

  /** The default name selects min-max normalisation, and so does "MinMax". */
  lemma DefaultNormalizationIsMinMax()
    ensures ParseNormalization(DefaultNormalizationName) == Ok(MinMax)
    ensures ParseNormalization("MinMax") == Ok(MinMax)
  {
    ParseNormalizationName(MinMax);
    assert ToLower("MinMax") == "minmax";
    ParseNormalizationIgnoresCase("MinMax");
  }
}
