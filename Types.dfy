/**
 * Configuration of an analytic unit and the patch protocol that decides,
 * when a unit's configuration is replaced, whether the unit has to learn
 * again.
 */
module AnalyticUnitTypes {
  import opened Common

  /** Rust's `u64`. */
  type U64 = x: int | 0 <= x < 0x1_0000_0000_0000_0000

  datatype PatternConfig = PatternConfig(
    correlationScore: real,
    antiCorrelationScore: real,
    modelScore: real,
    thresholdScore: real)

  datatype AnomalyConfig = AnomalyConfig(
    alpha: real,
    confidence: real,
    seasonality: U64,           // step in seconds; may be zero
    seasonalityIterations: U64)

  datatype ThresholdConfig = ThresholdConfig(threshold: real)

  function DefaultPatternConfig(): (c: PatternConfig)
    ensures c.correlationScore == 0.3 && c.antiCorrelationScore == 0.1
    ensures c.modelScore == 0.8 && c.thresholdScore == 1.0
  {
    PatternConfig(0.3, 0.1, 0.8, 1.0)
  }

  function DefaultAnomalyConfig(): (c: AnomalyConfig)
    ensures c.alpha == 0.5 && c.confidence == 10.0
    ensures c.seasonality == 3600 && c.seasonalityIterations == 3
  {
    AnomalyConfig(0.5, 10.0, 60 * 60, 3)
  }

  function DefaultThresholdConfig(): (c: ThresholdConfig)
    ensures c.threshold == 0.5
  {
    ThresholdConfig(0.5)
  }

  /** Exactly one strategy's configuration is active. */
  datatype AnalyticUnitConfig =
    | Pattern(pattern: PatternConfig)
    | Threshold(threshold: ThresholdConfig)
    | Anomaly(anomaly: AnomalyConfig)

  /** A patch names a strategy; no payload means "reset that strategy to its default". */
  datatype PatchConfig =
    | PatchPattern(patternPatch: Option<PatternConfig>)
    | PatchThreshold(thresholdPatch: Option<ThresholdConfig>)
    | PatchAnomaly(anomalyPatch: Option<AnomalyConfig>)

  datatype LearningResult = Finished | FinishedEmpty

  /** The strategy a configuration or a patch is about. */
  datatype Variant = PatternVariant | ThresholdVariant | AnomalyVariant

  function VariantOf(c: AnalyticUnitConfig): Variant
  {
    match c
    case Pattern(_) => PatternVariant
    case Threshold(_) => ThresholdVariant
    case Anomaly(_) => AnomalyVariant
  }

  function PatchVariant(p: PatchConfig): Variant
  {
    match p
    case PatchPattern(_) => PatternVariant
    case PatchThreshold(_) => ThresholdVariant
    case PatchAnomaly(_) => AnomalyVariant
  }

  /** The configuration a patch asks for: its payload, or its strategy's default. */
  function Requested(p: PatchConfig): (c: AnalyticUnitConfig)
    ensures VariantOf(c) == PatchVariant(p)
  {
    match p
    case PatchPattern(o) => Pattern(if o.Some? then o.value else DefaultPatternConfig())
    case PatchThreshold(o) => Threshold(if o.Some? then o.value else DefaultThresholdConfig())
    case PatchAnomaly(o) => Anomaly(if o.Some? then o.value else DefaultAnomalyConfig())
  }

  /**
   * Applies a patch to the current configuration and returns the new
   * configuration, whether the unit needs relearning, and whether the
   * patch is for the current strategy.
   */
  function Patch(cur: AnalyticUnitConfig, patch: PatchConfig): (r: (AnalyticUnitConfig, bool, bool))
    ensures VariantOf(r.0) == PatchVariant(patch)
    ensures r.2 <==> VariantOf(cur) == PatchVariant(patch)
    ensures !r.2 ==> r.1
  {
    match patch
    case PatchPattern(tcfg) =>
      (match cur
      case Pattern(_) =>
        if tcfg.Some? then (Pattern(tcfg.value), false, true)
        else (Pattern(DefaultPatternConfig()), false, true)
      case _ =>
        if tcfg.Some? then (Pattern(tcfg.value), true, false)
        else (Pattern(DefaultPatternConfig()), true, false))
    case PatchAnomaly(tcfg) =>
      (match cur
      case Anomaly(scfg) =>
        if tcfg.Some? then
          var t := tcfg.value;
          var needLearning := t.seasonality != scfg.seasonality || t.seasonalityIterations != scfg.seasonalityIterations;
          (Anomaly(t), needLearning, true)
        else (Anomaly(DefaultAnomalyConfig()), false, true)
      case _ =>
        if tcfg.Some? then (Anomaly(tcfg.value), true, false)
        else (Anomaly(DefaultAnomalyConfig()), true, false))
    case PatchThreshold(tcfg) =>
      (match cur
      case Threshold(_) =>
        if tcfg.Some? then (Threshold(tcfg.value), false, true)
        else (Threshold(DefaultThresholdConfig()), false, true)
      case _ =>
        if tcfg.Some? then (Threshold(tcfg.value), true, false)
        else (Threshold(DefaultThresholdConfig()), true, false))
  }

  /** Whatever the current strategy, the new configuration is what the patch asks for. */
  lemma PatchGivesRequested(cur: AnalyticUnitConfig, patch: PatchConfig)
    ensures Patch(cur, patch).0 == Requested(patch)
  {
  }

  /** Switching strategy keeps nothing of the old configuration and always needs relearning. */
  lemma PatchSwitchVariant(cur: AnalyticUnitConfig, patch: PatchConfig)
    requires VariantOf(cur) != PatchVariant(patch)
    ensures Patch(cur, patch) == (Requested(patch), true, false)
  {
  }

  /** A same-strategy reset gives that strategy's default and needs no relearning. */
  lemma PatchResetSameVariant(cur: AnalyticUnitConfig, patch: PatchConfig)
    requires VariantOf(cur) == PatchVariant(patch)
    requires patch.PatchPattern? ==> patch.patternPatch.None?
    requires patch.PatchThreshold? ==> patch.thresholdPatch.None?
    requires patch.PatchAnomaly? ==> patch.anomalyPatch.None?
    ensures Patch(cur, patch).1 == false && Patch(cur, patch).2 == true
    ensures patch.PatchPattern? ==> Patch(cur, patch).0 == Pattern(DefaultPatternConfig())
    ensures patch.PatchThreshold? ==> Patch(cur, patch).0 == Threshold(DefaultThresholdConfig())
    ensures patch.PatchAnomaly? ==> Patch(cur, patch).0 == Anomaly(DefaultAnomalyConfig())
  {
  }

  /** Same-strategy Pattern and Threshold patches never need relearning. */
  lemma PatchPatternThresholdNoRelearn(cur: AnalyticUnitConfig, patch: PatchConfig)
    requires VariantOf(cur) == PatchVariant(patch) && !patch.PatchAnomaly?
    ensures Patch(cur, patch) == (Requested(patch), false, true)
  {
  }

  /** A same-strategy Anomaly payload needs relearning exactly when a seasonality field changes. */
  lemma PatchAnomalyRelearn(cur: AnomalyConfig, t: AnomalyConfig)
    ensures Patch(Anomaly(cur), PatchAnomaly(Some(t))).0 == Anomaly(t)
    ensures Patch(Anomaly(cur), PatchAnomaly(Some(t))).2
    ensures Patch(Anomaly(cur), PatchAnomaly(Some(t))).1 <==>
              t.seasonality != cur.seasonality || t.seasonalityIterations != cur.seasonalityIterations
  {
  }

  /** Changing only alpha or confidence of an Anomaly configuration needs no relearning. */
  lemma PatchAnomalyDetectionParams(cur: AnomalyConfig, alpha: real, confidence: real)
    ensures Patch(Anomaly(cur), PatchAnomaly(Some(cur.(alpha := alpha, confidence := confidence)))).1 == false
  {
  }

  /** Re-applying a patch to its own result changes nothing and needs no relearning. */
  lemma PatchIdempotent(cur: AnalyticUnitConfig, patch: PatchConfig)
    ensures var c := Patch(cur, patch).0; Patch(c, patch) == (c, false, true)
  {
  }
}
