/** The hours estimate (`estimate_hours`): a per-kind baseline, the hours each equipment's
    template or override adds, the custom hour lines, and the estimator's factors and
    overhead percentages. `f32` arithmetic is modelled as exact `real` arithmetic. */
module Estimate {
  import opened Domain
  import opened Templates

  /** Engineering, graphics and commissioning hours. */
  datatype Hours = Hours(engineering: real, graphics: real, commissioning: real)

  /** The six figures `estimate_hours` returns, in its order. */
  datatype Breakdown = Breakdown(
    engineering: real,
    graphics: real,
    commissioning: real,
    custom: real,
    overhead: real,
    grandTotal: real)

  const NoHours := Hours(0.0, 0.0, 0.0)

  function Plus(a: Hours, b: Hours): Hours {
    Hours(a.engineering + b.engineering, a.graphics + b.graphics, a.commissioning + b.commissioning)
  }

  /** `f32::max(x, 0.0)` */
  function Max0(x: real): (r: real)
    ensures r >= 0.0 && r >= x
    ensures r == x || r == 0.0
  {
    if x > 0.0 then x else 0.0
  }

  /** The number of objects of the given kind. */
  function CountKind(objs: seq<BasObject>, kind: ObjectType): (r: nat)
    ensures r <= |objs|
  {
    if |objs| == 0 then 0
    else CountKind(objs[..|objs| - 1], kind) + (if objs[|objs| - 1].objectType == kind then 1 else 0)
  }

  /** A Point whose parent is `id`. */
  predicate IsPointOf(o: BasObject, id: nat) {
    o.parentId == Some(id) && o.objectType == Point
  }

  /** The number of direct Point children of `id`. */
  function PointChildCount(objs: seq<BasObject>, id: nat): (r: nat)
    ensures r <= |objs|
  {
    if |objs| == 0 then 0
    else PointChildCount(objs[..|objs| - 1], id) + (if IsPointOf(objs[|objs| - 1], id) then 1 else 0)
  }

  /** The hour mode: the equipment's own when it overrides hours, else its template's. */
  function EffectiveMode(eq: BasObject, t: EquipmentTemplate): HourCalculationMode {
    if eq.hoursOverride then eq.hoursOverrideMode else t.hourMode
  }

  /** The coefficients: the equipment's own when it overrides hours, else its template's. */
  function EffectiveHours(eq: BasObject, t: EquipmentTemplate): HourCoefficients {
    if eq.hoursOverride then eq.overrideHours else t.hours
  }

  /** What one equipment adds on top of the baseline: nothing when its template name finds no
      template; else the flat figures in static mode, or the per-point figures times its
      number of direct Point children in points-based mode. */
  function EquipmentHours(objs: seq<BasObject>, templates: seq<EquipmentTemplate>, eq: BasObject): Hours {
    match FindTemplate(templates, eq.templateName)
    case None => NoHours
    case Some(t) =>
      var c := EffectiveHours(eq, t);
      match EffectiveMode(eq, t)
      case StaticByEquipment => Hours(c.engineering, c.graphics, c.commissioning)
      case PointsBased =>
        var n := PointChildCount(objs, eq.id) as real;
        Hours(n * c.engineeringPerPoint, n * c.graphicsPerPoint, n * c.commissioningPerPoint)
  }

  /** The sum of `EquipmentHours` over the Equipment objects of `part`. */
  function TemplateHours(objs: seq<BasObject>, templates: seq<EquipmentTemplate>, part: seq<BasObject>): Hours {
    if |part| == 0 then NoHours
    else
      var last := part[|part| - 1];
      Plus(TemplateHours(objs, templates, part[..|part| - 1]),
           if last.objectType == Equipment then EquipmentHours(objs, templates, last) else NoHours)
  }

  /** The baseline: 7 engineering and 5.5 commissioning hours per controller, 1 graphics hour
      per equipment, 0.25 engineering and 0.12 commissioning hours per point. */
  function Baseline(objs: seq<BasObject>): Hours {
    var controllers := CountKind(objs, Controller) as real;
    var equipment := CountKind(objs, Equipment) as real;
    var points := CountKind(objs, Point) as real;
    Hours(controllers * 7.0 + points * 0.25, equipment * 1.0, controllers * 5.5 + points * 0.12)
  }

  /** One custom line: quantity times hours per unit, each clamped at zero. */
  function LineHours(l: HourLine): (r: real)
    ensures r >= 0.0
    ensures l.quantity <= 0.0 || l.hoursPerUnit <= 0.0 ==> r == 0.0
    ensures l.quantity >= 0.0 && l.hoursPerUnit >= 0.0 ==> r == l.quantity * l.hoursPerUnit
  {
    Max0(l.quantity) * Max0(l.hoursPerUnit)
  }

  /** The sum of the custom lines. */
  function CustomTotal(lines: seq<HourLine>): (r: real)
    ensures r >= 0.0
  {
    if |lines| == 0 then 0.0 else CustomTotal(lines[..|lines| - 1]) + LineHours(lines[|lines| - 1])
  }

  /** The product of the three factors. */
  function Factors(e: EstimatorSettings): real {
    e.complexityFactor * e.renovationFactor * e.integrationFactor
  }

  /** QA, project management and risk percentages added together, never below zero. */
  function OverheadPercent(e: EstimatorSettings): (r: real)
    ensures r >= 0.0
  {
    Max0(e.qaPercent + e.projectManagementPercent + e.riskPercent)
  }

  /** The last step of `estimate_hours`: scale the base by the factors and add the overhead. */
  function Finish(h: Hours, custom: real, e: EstimatorSettings): Breakdown {
    var adjusted := (h.engineering + h.graphics + h.commissioning + custom) * Factors(e);
    var overhead := adjusted * (OverheadPercent(e) / 100.0);
    Breakdown(h.engineering, h.graphics, h.commissioning, custom, overhead, adjusted + overhead)
  }

  /** What `estimate_hours` returns for a project. */
  function EstimateOf(objs: seq<BasObject>, templates: seq<EquipmentTemplate>,
                      lines: seq<HourLine>, e: EstimatorSettings): Breakdown
  {
    Finish(Plus(Baseline(objs), TemplateHours(objs, templates, objs)), CustomTotal(lines), e)
  }

  /** The sum of the first three figures and the custom total. */
  function Base(b: Breakdown): real {
    b.engineering + b.graphics + b.commissioning + b.custom
  }

  // ---- The loops of `estimate_hours` ----

  /** `objects.iter().filter(|o| o.object_type == kind).count()` */
  method CountObjects(objs: seq<BasObject>, kind: ObjectType) returns (n: nat)
    ensures n == CountKind(objs, kind)
  {
    n := 0;
    var i := 0;
    while i < |objs|
      invariant 0 <= i <= |objs|
      invariant n == CountKind(objs[..i], kind)
    {
      assert objs[..i + 1][..i] == objs[..i];
      if objs[i].objectType == kind {
        n := n + 1;
      }
      i := i + 1;
    }
    assert objs[..|objs|] == objs;
  }

  /** `filter(|o| o.parent_id == Some(eq.id) && o.object_type == ObjectType::Point).count()` */
  method CountPointChildren(objs: seq<BasObject>, id: nat) returns (n: nat)
    ensures n == PointChildCount(objs, id)
  {
    n := 0;
    var i := 0;
    while i < |objs|
      invariant 0 <= i <= |objs|
      invariant n == PointChildCount(objs[..i], id)
    {
      assert objs[..i + 1][..i] == objs[..i];
      if objs[i].parentId == Some(id) && objs[i].objectType == Point {
        n := n + 1;
      }
      i := i + 1;
    }
    assert objs[..|objs|] == objs;
  }

  /** The body of the per-equipment loop: what one equipment adds. */
  method EquipmentAdds(objs: seq<BasObject>, templates: seq<EquipmentTemplate>, eq: BasObject)
    returns (add: Hours)
    ensures add == EquipmentHours(objs, templates, eq)
  {
    add := NoHours;
    var found := FindTemplate(templates, eq.templateName);
    if found.Some? {
      var t := found.value;
      var c := EffectiveHours(eq, t);
      match EffectiveMode(eq, t)
      case StaticByEquipment =>
        add := Hours(c.engineering, c.graphics, c.commissioning);
      case PointsBased =>
        var count := CountPointChildren(objs, eq.id);
        var n := count as real;
        add := Hours(n * c.engineeringPerPoint, n * c.graphicsPerPoint, n * c.commissioningPerPoint);
    }
  }

  /** The per-equipment loop: add each equipment's template or override hours. */
  method AddTemplateHours(objs: seq<BasObject>, templates: seq<EquipmentTemplate>, start: Hours)
    returns (h: Hours)
    ensures h == Plus(start, TemplateHours(objs, templates, objs))
  {
    h := start;
    var i := 0;
    while i < |objs|
      invariant 0 <= i <= |objs|
      invariant h == Plus(start, TemplateHours(objs, templates, objs[..i]))
    {
      var eq := objs[i];
      assert objs[..i + 1][..i] == objs[..i];
      if eq.objectType == Equipment {
        var add := EquipmentAdds(objs, templates, eq);
        h := Plus(h, add);
      }
      i := i + 1;
    }
    assert objs[..|objs|] == objs;
  }

  /** `custom_hour_lines.iter().map(...).sum()` */
  method SumCustomLines(lines: seq<HourLine>) returns (total: real)
    ensures total == CustomTotal(lines)
  {
    total := 0.0;
    var i := 0;
    while i < |lines|
      invariant 0 <= i <= |lines|
      invariant total == CustomTotal(lines[..i])
    {
      assert lines[..i + 1][..i] == lines[..i];
      total := total + Max0(lines[i].quantity) * Max0(lines[i].hoursPerUnit);
      i := i + 1;
    }
    assert lines[..|lines|] == lines;
  }

  /** `estimate_hours`: three counting passes, the per-equipment pass, the custom lines,
      then the markup. */
  method EstimateHours(objs: seq<BasObject>, templates: seq<EquipmentTemplate>,
                       lines: seq<HourLine>, e: EstimatorSettings) returns (b: Breakdown)
    ensures b == EstimateOf(objs, templates, lines, e)
  {
    var controllers := CountObjects(objs, Controller);
    var equipment := CountObjects(objs, Equipment);
    var points := CountObjects(objs, Point);
    var c := controllers as real;
    var p := points as real;
    var h := Hours(c * 7.0 + p * 0.25, equipment as real * 1.0, c * 5.5 + p * 0.12);
    h := AddTemplateHours(objs, templates, h);
    var custom := SumCustomLines(lines);
    b := Finish(h, custom, e);
  }

  /** The grand total is the base times the factors times one plus the overhead percentage,
      and the overhead is the part above the factored base. */
  lemma FinishFormula(h: Hours, custom: real, e: EstimatorSettings)
    ensures var b := Finish(h, custom, e);
            b.engineering == h.engineering && b.graphics == h.graphics
            && b.commissioning == h.commissioning && b.custom == custom
            && b.grandTotal == Base(b) * Factors(e) * (1.0 + OverheadPercent(e) / 100.0)
            && b.overhead == b.grandTotal - Base(b) * Factors(e)
  {
  }

  // ---- Properties of the estimate ----

  predicate NonNegativeHours(c: HourCoefficients) {
    c.engineering >= 0.0 && c.engineeringPerPoint >= 0.0 && c.graphics >= 0.0
    && c.graphicsPerPoint >= 0.0 && c.commissioning >= 0.0 && c.commissioningPerPoint >= 0.0
  }

  predicate NonNegative(h: Hours) {
    h.engineering >= 0.0 && h.graphics >= 0.0 && h.commissioning >= 0.0
  }

  lemma MulNonNegative(a: real, b: real)
    requires a >= 0.0 && b >= 0.0
    ensures a * b >= 0.0
  {
  }

  /** With non-negative coefficients, one equipment never subtracts hours. */
  lemma EquipmentHoursNonNegative(objs: seq<BasObject>, templates: seq<EquipmentTemplate>, eq: BasObject)
    requires forall t :: t in templates ==> NonNegativeHours(t.hours)
    requires NonNegativeHours(eq.overrideHours)
    ensures NonNegative(EquipmentHours(objs, templates, eq))
  {
    match FindTemplate(templates, eq.templateName)
    case None =>
    case Some(t) =>
      var c := EffectiveHours(eq, t);
      var n := PointChildCount(objs, eq.id) as real;
      MulNonNegative(n, c.engineeringPerPoint);
      MulNonNegative(n, c.graphicsPerPoint);
      MulNonNegative(n, c.commissioningPerPoint);
  }

  lemma {:induction false} TemplateHoursNonNegative(objs: seq<BasObject>, templates: seq<EquipmentTemplate>,
                                                    part: seq<BasObject>)
    requires forall t :: t in templates ==> NonNegativeHours(t.hours)
    requires forall o :: o in part ==> NonNegativeHours(o.overrideHours)
    ensures NonNegative(TemplateHours(objs, templates, part))
  {
    if |part| > 0 {
      var last := part[|part| - 1];
      TemplateHoursNonNegative(objs, templates, part[..|part| - 1]);
      EquipmentHoursNonNegative(objs, templates, last);
    }
  }

  /** Every figure is non-negative and the grand total is at least the factored base. */
  predicate NonNegativeEstimate(b: Breakdown, e: EstimatorSettings) {
    b.engineering >= 0.0 && b.graphics >= 0.0 && b.commissioning >= 0.0
    && b.custom >= 0.0 && b.overhead >= 0.0 && b.grandTotal >= Base(b) * Factors(e) >= 0.0
  }

  /** Non-negative hours and factors give a non-negative markup that only adds. */
  lemma FinishNonNegative(h: Hours, custom: real, e: EstimatorSettings)
    requires NonNegative(h) && custom >= 0.0
    requires e.complexityFactor >= 0.0 && e.renovationFactor >= 0.0 && e.integrationFactor >= 0.0
    ensures NonNegativeEstimate(Finish(h, custom, e), e)
  {
    var b := Finish(h, custom, e);
    MulNonNegative(e.complexityFactor, e.renovationFactor);
    MulNonNegative(e.complexityFactor * e.renovationFactor, e.integrationFactor);
    MulNonNegative(Base(b), Factors(e));
    MulNonNegative(Base(b) * Factors(e), OverheadPercent(e) / 100.0);
  }

  /** When every coefficient and every factor is non-negative, every figure of the estimate
      is non-negative and overhead only ever adds to the adjusted base. */
  lemma EstimateNonNegative(objs: seq<BasObject>, templates: seq<EquipmentTemplate>,
                            lines: seq<HourLine>, e: EstimatorSettings)
    requires forall t :: t in templates ==> NonNegativeHours(t.hours)
    requires forall o :: o in objs ==> NonNegativeHours(o.overrideHours)
    requires e.complexityFactor >= 0.0 && e.renovationFactor >= 0.0 && e.integrationFactor >= 0.0
    ensures NonNegativeEstimate(EstimateOf(objs, templates, lines, e), e)
  {
    TemplateHoursNonNegative(objs, templates, objs);
    var h := Plus(Baseline(objs), TemplateHours(objs, templates, objs));
    var custom := CustomTotal(lines);
    assert EstimateOf(objs, templates, lines, e) == Finish(h, custom, e);
    FinishNonNegative(h, custom, e);
  }

  /** The hours an equipment's own override describes, from its mode and coefficients. */
  function OwnHours(objs: seq<BasObject>, eq: BasObject): Hours {
    var c := eq.overrideHours;
    match eq.hoursOverrideMode
    case StaticByEquipment => Hours(c.engineering, c.graphics, c.commissioning)
    case PointsBased =>
      var n := PointChildCount(objs, eq.id) as real;
      Hours(n * c.engineeringPerPoint, n * c.graphicsPerPoint, n * c.commissioningPerPoint)
  }

  /** An equipment that overrides its hours and whose template resolves costs what its own
      override says, whatever the template's mode and coefficients. */
  lemma OverrideUsesOwnHours(objs: seq<BasObject>, templates: seq<EquipmentTemplate>, eq: BasObject)
    requires eq.hoursOverride && eq.templateName in Names(templates)
    ensures EquipmentHours(objs, templates, eq) == OwnHours(objs, eq)
  {
    var t := FindTemplate(templates, eq.templateName).value;
    assert EffectiveMode(eq, t) == eq.hoursOverrideMode;
    assert EffectiveHours(eq, t) == eq.overrideHours;
  }

  /** Only whether an overriding equipment's template resolves matters, not which one. */
  lemma OverrideIgnoresTemplate(objs: seq<BasObject>, ts1: seq<EquipmentTemplate>,
                                ts2: seq<EquipmentTemplate>, eq: BasObject)
    requires eq.hoursOverride
    requires eq.templateName in Names(ts1) && eq.templateName in Names(ts2)
    ensures EquipmentHours(objs, ts1, eq) == EquipmentHours(objs, ts2, eq)
  {
    OverrideUsesOwnHours(objs, ts1, eq);
    OverrideUsesOwnHours(objs, ts2, eq);
  }

  /** Equipment whose template name finds no template adds nothing, whatever it overrides;
      when no equipment resolves, the first three figures are the baseline alone. */
  lemma {:induction false} UnresolvedAddsNothing(objs: seq<BasObject>, templates: seq<EquipmentTemplate>,
                                                 part: seq<BasObject>)
    requires forall o :: o in part && o.objectType == Equipment ==> o.templateName !in Names(templates)
    ensures TemplateHours(objs, templates, part) == NoHours
  {
    if |part| > 0 {
      assert part[|part| - 1] in part;
      UnresolvedAddsNothing(objs, templates, part[..|part| - 1]);
    }
  }

  /** Static equipment costs the same however many points it has; points-based equipment
      costs its per-point figures once per direct Point child. */
  lemma ModeDecidesPointDependence(objs1: seq<BasObject>, objs2: seq<BasObject>,
                                   templates: seq<EquipmentTemplate>, eq: BasObject)
    requires FindTemplate(templates, eq.templateName).Some?
    ensures var t := FindTemplate(templates, eq.templateName).value;
            EffectiveMode(eq, t) == StaticByEquipment ==>
              EquipmentHours(objs1, templates, eq) == EquipmentHours(objs2, templates, eq)
    ensures var t := FindTemplate(templates, eq.templateName).value;
            EffectiveMode(eq, t) == PointsBased && PointChildCount(objs1, eq.id) == 0 ==>
              EquipmentHours(objs1, templates, eq) == NoHours
  {
  }

  /** Custom lines with a non-positive quantity or rate add nothing to the total. */
  lemma {:induction false} NonPositiveLinesAddNothing(lines: seq<HourLine>)
    requires forall i :: 0 <= i < |lines| ==> lines[i].quantity <= 0.0 || lines[i].hoursPerUnit <= 0.0
    ensures CustomTotal(lines) == 0.0
  {
    if |lines| > 0 {
      NonPositiveLinesAddNothing(lines[..|lines| - 1]);
    }
  }

  /** With the default estimator (factors 1, overhead 8 + 12 + 5 percent) the grand total is
      the base plus a quarter. */
  lemma DefaultEstimatorAddsQuarter(h: Hours, custom: real)
    ensures var b := Finish(h, custom, DefaultEstimator);
            b.overhead == Base(b) * 0.25 && b.grandTotal == Base(b) * 1.25
  {
  }

  /** A negative overhead sum is clamped: no overhead at all is added. */
  lemma NegativeOverheadClamped(h: Hours, custom: real, e: EstimatorSettings)
    requires e.qaPercent + e.projectManagementPercent + e.riskPercent <= 0.0
    ensures var b := Finish(h, custom, e);
            b.overhead == 0.0 && b.grandTotal == Base(b) * Factors(e)
  {
  }
}
