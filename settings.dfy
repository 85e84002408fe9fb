/** `apply_recommended_settings`: caps the autosave interval, clamps the UI scale and every
    estimator factor and percentage into a fixed band, and restores a blank company name;
    and the autosave interval the timer waits for. */
module Settings {
  import opened Domain
  import opened Text
  import opened Estimate

  /** `f32::clamp(x, lo, hi)` for a non-empty band. */
  function Clamp(x: real, lo: real, hi: real): (r: real)
    requires lo <= hi
    ensures lo <= r <= hi
    ensures lo <= x <= hi ==> r == x
    ensures x < lo ==> r == lo
    ensures x > hi ==> r == hi
  {
    if x < lo then lo else if x > hi then hi else x
  }

  /** `u32::min(a, b)` */
  function MinNat(a: nat, b: nat): (r: nat)
    ensures r <= a && r <= b && (r == a || r == b)
  {
    if a <= b then a else b
  }

  const DefaultCompanyName := "AutoMate Controls"

  /** The settings half of `apply_recommended_settings`. */
  function RecommendedSettings(s: AppSettings): AppSettings {
    AppSettings(
      if IsBlank(s.companyName) then DefaultCompanyName else s.companyName,
      MinNat(s.autosaveMinutes, 15),
      Clamp(s.uiScale, 0.95, 1.25),
      s.showOverlayGrid)
  }

  /** The estimator half of `apply_recommended_settings`. */
  function RecommendedEstimator(e: EstimatorSettings): EstimatorSettings {
    EstimatorSettings(
      Clamp(e.complexityFactor, 0.8, 1.4),
      Clamp(e.renovationFactor, 1.0, 1.35),
      Clamp(e.integrationFactor, 0.9, 1.3),
      Clamp(e.qaPercent, 5.0, 12.0),
      Clamp(e.projectManagementPercent, 8.0, 16.0),
      Clamp(e.riskPercent, 3.0, 12.0))
  }

  /** The settings are within the recommended band. */
  predicate SettingsInRange(s: AppSettings) {
    s.autosaveMinutes <= 15 && 0.95 <= s.uiScale <= 1.25 && !IsBlank(s.companyName)
  }

  /** Every factor and percentage is within its recommended band. */
  predicate EstimatorInRange(e: EstimatorSettings) {
    0.8 <= e.complexityFactor <= 1.4 && 1.0 <= e.renovationFactor <= 1.35
    && 0.9 <= e.integrationFactor <= 1.3 && 5.0 <= e.qaPercent <= 12.0
    && 8.0 <= e.projectManagementPercent <= 16.0 && 3.0 <= e.riskPercent <= 12.0
  }

  lemma DefaultNameNotBlank()
    ensures !IsBlank(DefaultCompanyName)
  {
    NotBlankWhenSolid(DefaultCompanyName, 0);
  }

  /** After the pass every setting is in its band, and the grid switch is untouched. */
  lemma RecommendedInRange(s: AppSettings, e: EstimatorSettings)
    ensures SettingsInRange(RecommendedSettings(s))
    ensures EstimatorInRange(RecommendedEstimator(e))
    ensures RecommendedSettings(s).showOverlayGrid == s.showOverlayGrid
  {
    DefaultNameNotBlank();
  }

  /** The settings pass changes nothing exactly when the settings are already in band. */
  lemma SettingsFixedExactlyInRange(s: AppSettings)
    ensures RecommendedSettings(s) == s <==> SettingsInRange(s)
  {
    DefaultNameNotBlank();
    var r := RecommendedSettings(s);
    if SettingsInRange(s) {
      assert r.companyName == s.companyName;
      assert r.autosaveMinutes == s.autosaveMinutes;
      assert r.uiScale == s.uiScale;
    } else if r == s {
      assert SettingsInRange(r);
    }
  }

  /** The estimator pass changes nothing exactly when every figure is already in band. */
  lemma EstimatorFixedExactlyInRange(e: EstimatorSettings)
    ensures RecommendedEstimator(e) == e <==> EstimatorInRange(e)
  {
    var r := RecommendedEstimator(e);
    if r == e {
      assert EstimatorInRange(r);
    }
  }

  /** Running the pass twice is running it once. */
  lemma RecommendedIdempotent(s: AppSettings, e: EstimatorSettings)
    ensures RecommendedSettings(RecommendedSettings(s)) == RecommendedSettings(s)
    ensures RecommendedEstimator(RecommendedEstimator(e)) == RecommendedEstimator(e)
  {
    RecommendedInRange(s, e);
    SettingsFixedExactlyInRange(RecommendedSettings(s));
    EstimatorFixedExactlyInRange(RecommendedEstimator(e));
  }

  /** Multiplying by a non-negative number keeps an inequality. */
  lemma MulMonotone(a: real, b: real, x: real)
    requires a <= b && x >= 0.0
    ensures a * x <= b * x
  {
    MulNonNegative(b - a, x);
  }

  /** Bounds of non-negative factors bound their product. */
  lemma MulBounds(a: real, b: real, alo: real, ahi: real, blo: real, bhi: real)
    requires 0.0 <= alo <= a <= ahi && 0.0 <= blo <= b <= bhi
    ensures alo * blo <= a * b <= ahi * bhi
  {
    MulMonotone(alo, a, blo);
    MulMonotone(blo, b, a);
    MulMonotone(a, ahi, b);
    MulMonotone(b, bhi, ahi);
  }

  /** With recommended settings the factor product lies in [0.72, 2.457] and the overhead
      percentage in [16, 40]. */
  lemma RecommendedMarkupBounds(e: EstimatorSettings)
    requires EstimatorInRange(e)
    ensures 0.72 <= Factors(e) <= 2.457
    ensures 16.0 <= OverheadPercent(e) <= 40.0
  {
    var c, r, i := e.complexityFactor, e.renovationFactor, e.integrationFactor;
    MulBounds(c, r, 0.8, 1.4, 1.0, 1.35);
    MulBounds(c * r, i, 0.8, 1.89, 0.9, 1.3);
  }

  /** With recommended settings and a non-negative base, the grand total lies between
      0.72 * 1.16 and 2.457 * 1.40 times the base. */
  lemma RecommendedGrandTotalBounds(h: Hours, custom: real, e: EstimatorSettings)
    requires EstimatorInRange(e)
    requires Base(Finish(h, custom, e)) >= 0.0
    ensures var b := Finish(h, custom, e);
            0.8352 * Base(b) <= b.grandTotal <= 3.4398 * Base(b)
  {
    var b := Finish(h, custom, e);
    var base, f, m := Base(b), Factors(e), 1.0 + OverheadPercent(e) / 100.0;
    RecommendedMarkupBounds(e);
    FinishFormula(h, custom, e);
    MulBounds(f, m, 0.72, 2.457, 1.16, 1.4);
    MulBounds(f * m, base, 0.8352, 3.4398, base, base);
  }

  /** The autosave timer's interval: the configured minutes, at least one, in seconds. */
  function AutosaveIntervalSeconds(minutes: nat): (r: nat)
    ensures r >= 60 && r % 60 == 0
    ensures minutes >= 1 ==> r == minutes * 60
  {
    if minutes >= 1 then minutes * 60 else 60
  }

  /** After the pass the autosave interval is between one and fifteen minutes. */
  lemma RecommendedAutosaveInterval(s: AppSettings)
    ensures 60 <= AutosaveIntervalSeconds(RecommendedSettings(s).autosaveMinutes) <= 900
  {
  }
}
