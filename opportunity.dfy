/**
 * The opportunity scorer: five signals normalised to [0, 1], combined with fixed
 * weights, effort subtracted, clamped and scaled to a 0-100 score with one
 * decimal. Arithmetic is over `real`. JavaScript numbers that may be NaN or
 * infinite are `Num` values; an absent (null/undefined) field is `None`.
 * `Math.exp` is a parameter that must obey the laws of the exponential.
 */
module Opportunity {
  import opened Wrappers
  import opened TaskConstants

  /** A JavaScript number: a finite value, or one of the three non-finite values. */
  datatype Num = Finite(value: real) | PosInf | NegInf | NaN

  /** `Number.isFinite(n)`. */
  predicate IsFinite(n: Num) {
    n.Finite?
  }

  /** `a - b` in IEEE arithmetic (finite results are not rounded here). */
  function Sub(a: Num, b: Num): Num {
    if a.NaN? || b.NaN? then NaN
    else if a.Finite? && b.Finite? then Finite(a.value - b.value)
    else if (a.PosInf? && b.PosInf?) || (a.NegInf? && b.NegInf?) then NaN
    else if a.PosInf? || b.NegInf? then PosInf
    else NegInf
  }

  /** `Math.max(0, a)`. */
  function MaxZero(a: Num): Num {
    match a
    case Finite(v) => Finite(if v < 0.0 then 0.0 else v)
    case PosInf => PosInf
    case NegInf => Finite(0.0)
    case NaN => NaN
  }

  // OPPORTUNITY_WEIGHTS
  const TrafficGapWeight: real := 0.35
  const IntentWeight: real := 0.2
  const PositionWeight: real := 0.2
  const ConversionWeight: real := 0.15
  const EffortWeight: real := 0.15

  // POSITION_CURVE and the other limits
  const Midpoint: real := 5.0
  const Steepness: real := 0.45
  const DefaultPosition: real := 12.0
  const MaxTrafficGap: real := 100.0
  const MaxConversionRate: real := 0.2

  /** PRIORITY_INTENT_WEIGHT */
  function PriorityIntentWeight(p: TaskPriority): real {
    match p
    case LOW => 0.25
    case MEDIUM => 0.5
    case HIGH => 0.75
    case CRITICAL => 1.0
  }

  /** TASK_TYPE_EFFORT */
  function TaskTypeEffort(t: TaskType): real {
    match t
    case ONPAGE => 3.0
    case CONTENT => 4.0
    case TECH => 5.0
    case LINK => 4.0
    case LOCAL => 2.0
  }

  /** The largest value of a non-empty list of task types' efforts. */
  function MaxEffortOf(ts: seq<TaskType>): (m: real)
    requires ts != []
    ensures forall i :: 0 <= i < |ts| ==> TaskTypeEffort(ts[i]) <= m
    ensures exists i :: 0 <= i < |ts| && TaskTypeEffort(ts[i]) == m
  {
    if |ts| == 1 then TaskTypeEffort(ts[0])
    else
      var rest := MaxEffortOf(ts[1..]);
      if TaskTypeEffort(ts[0]) >= rest then TaskTypeEffort(ts[0]) else rest
  }

  /** MAX_EFFORT_SCALE: `Math.max(...Object.values(TASK_TYPE_EFFORT))`. */
  function MaxEffortScale(): real {
    MaxEffortOf(TaskTypes)
  }

  /** The effort scale is 5, the TECH effort, and bounds every entry of the table. */
  lemma MaxEffortScaleIsTech()
    ensures MaxEffortScale() == TaskTypeEffort(TECH) == 5.0
    ensures forall t: TaskType :: 0.0 < TaskTypeEffort(t) <= MaxEffortScale()
  {
    var ts := TaskTypes;
    assert ts[2] == TECH;
    forall t: TaskType ensures TaskTypeEffort(t) <= MaxEffortScale() {
      assert TaskTypeEffort(t) == TaskTypeEffort(ts[0]) || TaskTypeEffort(t) == TaskTypeEffort(ts[1])
          || TaskTypeEffort(t) == TaskTypeEffort(ts[2]) || TaskTypeEffort(t) == TaskTypeEffort(ts[3])
          || TaskTypeEffort(t) == TaskTypeEffort(ts[4]);
    }
  }

  /** `clamp(value)` with the default bounds, `Math.min(1, Math.max(0, value))`. */
  function Clamp01(x: real): (r: real)
    ensures 0.0 <= r <= 1.0
    ensures 0.0 <= x <= 1.0 ==> r == x
    ensures x < 0.0 ==> r == 0.0
    ensures x > 1.0 ==> r == 1.0
  {
    if x < 0.0 then 0.0 else if x > 1.0 then 1.0 else x
  }

  /**
   * `Number(x.toFixed(d))` with `scale` = 10^d: the nearest multiple of
   * 1/scale, halves rounded away from zero (decimal, not binary, rounding).
   */
  function ToFixed(x: real, scale: real): (r: real)
    requires scale > 0.0
    ensures x >= 0.0 ==> r >= 0.0
    ensures r * scale == Steps(x, scale) as real
  {
    Steps(x, scale) as real / scale
  }

  /** The whole number of 1/scale steps `toFixed` rounds to, halves away from zero. */
  function Steps(x: real, scale: real): int {
    if x >= 0.0 then (x * scale + 0.5).Floor else -(((-x) * scale + 0.5).Floor)
  }
  lemma FloorMonotone(a: real, b: real)
    requires a <= b
    ensures a.Floor <= b.Floor
  {
  }
  lemma DivMonotone(a: real, b: real, s: real)
    requires a <= b && s > 0.0
    ensures a / s <= b / s
  {
    assert b / s - a / s == (b - a) / s;
  }
  lemma DivAdd(a: real, b: real, s: real)
    requires s > 0.0
    ensures (a + b) / s == a / s + b / s
  {
  }
  lemma NegDiv(a: real, s: real)
    requires s > 0.0
    ensures (-a) / s == -(a / s)
  {
  }
  lemma MulDivCancel(a: real, s: real)
    requires s > 0.0
    ensures (a * s) / s == a
  {
  }
  lemma ToFixedAbsError(v: real, scale: real)
    requires scale > 0.0 && v >= 0.0
    ensures v - 0.5 / scale <= ToFixed(v, scale) <= v + 0.5 / scale
  {
    var a := v * scale;
    var f := (a + 0.5).Floor as real;
    assert a - 0.5 <= f <= a + 0.5;
    HalfStep(a, f, scale);
    MulDivCancel(v, scale);
  }
  lemma HalfStep(a: real, f: real, scale: real)
    requires scale > 0.0 && a - 0.5 <= f <= a + 0.5
    ensures a / scale - 0.5 / scale <= f / scale <= a / scale + 0.5 / scale
  {
    DivMonotone(a - 0.5, f, scale);
    DivMonotone(f, a + 0.5, scale);
    DivAdd(a, -0.5, scale);
    DivAdd(a, 0.5, scale);
  }
  /** Rounding to a step of 1/scale moves a value by at most half a step. */
  lemma ToFixedError(x: real, scale: real)
    requires scale > 0.0
    ensures -0.5 / scale <= ToFixed(x, scale) - x <= 0.5 / scale
  {
    if x >= 0.0 {
      ToFixedAbsError(x, scale);
    } else {
      ToFixedNegError(x, scale);
    }
  }

  lemma ToFixedNegError(x: real, scale: real)
    requires scale > 0.0 && x < 0.0
    ensures -0.5 / scale <= ToFixed(x, scale) - x <= 0.5 / scale
  {
    ToFixedOdd(-x, scale);
    ToFixedAbsError(-x, scale);
    WithinHalf(ToFixed(-x, scale), -x, 0.5 / scale);
  }

  /** Rounding is symmetric about zero. */
  lemma ToFixedOdd(v: real, scale: real)
    requires scale > 0.0 && v > 0.0
    ensures ToFixed(-v, scale) == -ToFixed(v, scale)
  {
    NegDiv((v * scale + 0.5).Floor as real, scale);
  }

  lemma WithinHalf(t: real, v: real, h: real)
    requires v - h <= t <= v + h
    ensures -h <= -t - (-v) <= h
  {
  }
  /** Two values at least one step apart stay strictly ordered after rounding. */
  lemma ToFixedSeparates(x: real, y: real, scale: real)
    requires scale > 0.0 && 0.0 <= x && x + 1.0 / scale <= y
    ensures ToFixed(x, scale) < ToFixed(y, scale)
  {
    ScaledGap(x, y, scale);
    RoundedGap(x * scale, y * scale);
    StepApart((x * scale + 0.5).Floor as real, (y * scale + 0.5).Floor as real, scale);
  }
  lemma ScaledGap(x: real, y: real, scale: real)
    requires scale > 0.0 && x + 1.0 / scale <= y
    ensures x * scale + 1.0 <= y * scale
  {
    MulMonotone(x + 1.0 / scale, y, scale);
    MulDistrib(x, 1.0, scale);
  }
  lemma RoundedGap(a: real, b: real)
    requires a + 1.0 <= b
    ensures (a + 0.5).Floor + 1 <= (b + 0.5).Floor
  {
    FloorMonotone(a + 1.5, b + 0.5);
    FloorShift(a + 0.5);
  }
  lemma StepApart(f: real, g: real, s: real)
    requires s > 0.0 && f + 1.0 <= g
    ensures f / s < g / s
  {
    DivMonotone(f + 1.0, g, s);
    DivAdd(f, 1.0, s);
    assert 1.0 / s > 0.0;
  }
  lemma FloorShift(a: real)
    ensures (a + 1.0).Floor == a.Floor + 1
  {
  }
  lemma MulMonotone(a: real, b: real, s: real)
    requires a <= b && s > 0.0
    ensures a * s <= b * s
  {
  }
  lemma MulDistrib(a: real, b: real, s: real)
    requires s > 0.0
    ensures (a + b / s) * s == a * s + b
  {
  }
  /** Rounding keeps the order of non-negative values. */
  lemma ToFixedMonotone(x: real, y: real, scale: real)
    requires scale > 0.0 && 0.0 <= x <= y
    ensures ToFixed(x, scale) <= ToFixed(y, scale)
  {
    MulMonotone(x, y, scale);
    FloorMonotone(x * scale + 0.5, y * scale + 0.5);
    DivMonotone((x * scale + 0.5).Floor as real, (y * scale + 0.5).Floor as real, scale);
  }

  /** A value in [0, top] stays in [0, top] when top is a whole number of steps. */
  lemma ToFixedRange(x: real, scale: real, top: real, steps: nat)
    requires scale > 0.0 && 0.0 <= x <= top && top * scale == steps as real
    ensures 0.0 <= ToFixed(x, scale) <= top
  {
    MulMonotone(x, top, scale);
    FloorMonotone(x * scale + 0.5, top * scale + 0.5);
    assert (top * scale + 0.5).Floor == steps;
    DivMonotone((x * scale + 0.5).Floor as real, top * scale, scale);
    MulDivCancel(top, scale);
  }

  /**
   * The laws of the exponential function, which `Math.exp` approximates:
   * positive, strictly increasing, above its tangent at 0, and turning sums
   * into products.
   */
  ghost predicate ExpLaws(exp: real -> real) {
    && ExpPositive(exp)
    && ExpIncreasing(exp)
    && (forall x :: exp(x) >= 1.0 + x)
    && (forall x, y, z :: x + y == z ==> exp(z) == exp(x) * exp(y))
  }

  /** The two laws the score itself relies on. */
  ghost predicate ExpPositive(exp: real -> real) {
    forall x :: exp(x) > 0.0
  }

  ghost predicate ExpIncreasing(exp: real -> real) {
    forall x, y :: x < y ==> exp(x) < exp(y)
  }

  /** normalizeTrafficGap */
  function TrafficGapFactor(gap: Num): (r: real)
    ensures 0.0 <= r <= 1.0
    ensures !IsFinite(gap) ==> r == 0.0
    ensures IsFinite(gap) && 0.0 <= gap.value <= MaxTrafficGap ==> r == gap.value / MaxTrafficGap
    ensures IsFinite(gap) && gap.value < 0.0 ==> r == 0.0
    ensures IsFinite(gap) && gap.value > MaxTrafficGap ==> r == 1.0
  {
    if !IsFinite(gap) then 0.0 else Clamp01(gap.value / MaxTrafficGap)
  }

  /** normalizeIntentScore */
  function IntentFactor(intentScore: Option<Num>, priority: Option<TaskPriority>): (r: real)
    ensures 0.0 <= r <= 1.0
    ensures intentScore.Some? && IsFinite(intentScore.value) && 0.0 <= intentScore.value.value <= 1.0 ==>
              r == intentScore.value.value
    ensures intentScore.Some? && IsFinite(intentScore.value) ==> r == Clamp01(intentScore.value.value)
    ensures !(intentScore.Some? && IsFinite(intentScore.value)) && priority.Some? ==>
              r == PriorityIntentWeight(priority.value)
    ensures !(intentScore.Some? && IsFinite(intentScore.value)) && priority.None? ==>
              r == PriorityIntentWeight(MEDIUM)
  {
    if intentScore.Some? && IsFinite(intentScore.value) then Clamp01(intentScore.value.value)
    else if priority.Some? && PriorityIntentWeight(priority.value) != 0.0 then PriorityIntentWeight(priority.value)
    else PriorityIntentWeight(MEDIUM)
  }

  /**
   * normalizeConversionRate as written: `typeof rate !== "number" || rate <= 0`
   * gives 0, otherwise `clamp(rate / 0.2)`. NaN passes the guard (`NaN <= 0` is
   * false) and `clamp(NaN)` is NaN.
   */
  function ConversionFactorAsWritten(rate: Option<Num>): (r: Num)
    ensures rate.Some? && rate.value.NaN? ==> r.NaN?
    ensures !(rate.Some? && rate.value.NaN?) ==> r.Finite? && 0.0 <= r.value <= 1.0
  {
    match rate
    case None => Finite(0.0)
    case Some(NaN) => NaN
    case Some(NegInf) => Finite(0.0)
    case Some(PosInf) => Finite(1.0)
    case Some(Finite(v)) => if v <= 0.0 then Finite(0.0) else Finite(Clamp01(v / MaxConversionRate))
  }

  /** normalizeConversionRate with NaN treated like a missing rate; the model uses this one. */
  function ConversionFactor(rate: Option<Num>): (r: real)
    ensures 0.0 <= r <= 1.0
    ensures rate.None? || (rate.Some? && rate.value.NaN?) ==> r == 0.0
    ensures rate.Some? && rate.value.Finite? && rate.value.value <= 0.0 ==> r == 0.0
    ensures !(rate.Some? && rate.value.NaN?) ==> ConversionFactorAsWritten(rate) == Finite(r)
  {
    match rate
    case None => 0.0
    case Some(NaN) => 0.0
    case Some(NegInf) => 0.0
    case Some(PosInf) => 1.0
    case Some(Finite(v)) => if v <= 0.0 then 0.0 else Clamp01(v / MaxConversionRate)
  }

  /** The finding: NaN makes the factor as written NaN, where a missing rate gives 0. */
  lemma ConversionNaNFinding()
    ensures ConversionFactorAsWritten(Some(NaN)).NaN?
    ensures ConversionFactorAsWritten(None) == Finite(0.0)
    ensures ConversionFactor(Some(NaN)) == ConversionFactor(None) == 0.0
  {
  }

  /** `effortOverride ?? TASK_TYPE_EFFORT[type ?? TASK_TYPES[0]]` */
  function EffortInput(effortOverride: Option<Num>, taskType: Option<TaskType>): (e: Num)
    ensures effortOverride.Some? ==> e == effortOverride.value
    ensures effortOverride.None? && taskType.Some? ==> e == Finite(TaskTypeEffort(taskType.value))
    ensures effortOverride.None? && taskType.None? ==> e == Finite(TaskTypeEffort(ONPAGE))
  {
    match effortOverride
    case Some(n) => n
    case None => Finite(TaskTypeEffort(taskType.GetOr(TaskTypes[0])))
  }

  /** normalizeEffort */
  function EffortFactor(effort: Num): (r: real)
    ensures 0.0 <= r <= 1.0
    ensures !IsFinite(effort) || effort.value <= 0.0 ==> r == TaskTypeEffort(CONTENT) / 5.0
    ensures IsFinite(effort) && 0.0 < effort.value <= 5.0 ==> r == effort.value / 5.0
    ensures IsFinite(effort) && effort.value > 5.0 ==> r == 1.0
  {
    MaxEffortScaleIsTech();
    if !IsFinite(effort) || effort.value <= 0.0 then TaskTypeEffort(CONTENT) / MaxEffortScale()
    else Clamp01(effort.value / MaxEffortScale())
  }

  /** The position fed to the curve: 12 when missing or non-finite, floored at 0.1. */
  function SanitizedPosition(position: Option<Num>): (p: real)
    ensures p >= 0.1
    ensures position.None? || !IsFinite(position.value) ==> p == DefaultPosition
    ensures position.Some? && IsFinite(position.value) && position.value.value >= 0.1 ==> p == position.value.value
  {
    var raw := if position.Some? && IsFinite(position.value) then position.value.value else DefaultPosition;
    if raw < 0.1 then 0.1 else raw
  }

  /** The logistic curve before rounding, `1 / (1 + exp(steepness * (p - midpoint)))`. */
  function LogisticCurve(exp: real -> real, p: real, midpoint: real, steepness: real): (w: real)
    requires ExpPositive(exp)
    ensures 0.0 < w < 1.0
  {
    var e := exp(steepness * (p - midpoint));
    assert e > 0.0;
    1.0 / (1.0 + e)
  }

  /** logisticPositionWeight: the curve at the sanitised position, rounded to 4 decimals and clamped. */
  function LogisticPositionWeight(exp: real -> real, position: Option<Num>,
                                  midpoint: real := Midpoint, steepness: real := Steepness): (r: real)
    requires ExpPositive(exp)
    ensures 0.0 <= r <= 1.0
  {
    Clamp01(ToFixed(LogisticCurve(exp, SanitizedPosition(position), midpoint, steepness), 10000.0))
  }

  lemma RecipAntitone(x: real, y: real)
    requires 0.0 < x <= y
    ensures 1.0 / x >= 1.0 / y
  {
    assert 1.0 / x - 1.0 / y == (y - x) / (x * y);
  }
  lemma ScaledOrder(s: real, p: real, q: real, m: real)
    requires s >= 0.0 && p <= q
    ensures s * (p - m) <= s * (q - m)
  {
    assert s * (q - m) - s * (p - m) == s * (q - p);
  }
  lemma ExpMonotone(exp: real -> real, a: real, b: real)
    requires ExpPositive(exp) && ExpIncreasing(exp) && a <= b
    ensures 0.0 < exp(a) <= exp(b)
  {
  }
  /** The curve never rises as the position grows, for a non-negative steepness. */
  lemma LogisticCurveNonIncreasing(exp: real -> real, p: real, q: real, midpoint: real, steepness: real)
    requires ExpPositive(exp) && ExpIncreasing(exp) && steepness >= 0.0 && p <= q
    ensures LogisticCurve(exp, p, midpoint, steepness) >= LogisticCurve(exp, q, midpoint, steepness)
  {
    var a := steepness * (p - midpoint);
    var b := steepness * (q - midpoint);
    ScaledOrder(steepness, p, q, midpoint);
    assert a <= b;
    ExpMonotone(exp, a, b);
    RecipAntitone(1.0 + exp(a), 1.0 + exp(b));
  }

  /** A worse (larger) position never gets a larger weight, for any non-negative steepness. */
  lemma LogisticWeightNonIncreasing(exp: real -> real, p: Option<Num>, q: Option<Num>, midpoint: real, steepness: real)
    requires ExpPositive(exp) && ExpIncreasing(exp) && steepness >= 0.0
    requires SanitizedPosition(p) <= SanitizedPosition(q)
    ensures LogisticPositionWeight(exp, p, midpoint, steepness) >= LogisticPositionWeight(exp, q, midpoint, steepness)
  {
    var wp := LogisticCurve(exp, SanitizedPosition(p), midpoint, steepness);
    var wq := LogisticCurve(exp, SanitizedPosition(q), midpoint, steepness);
    LogisticCurveNonIncreasing(exp, SanitizedPosition(p), SanitizedPosition(q), midpoint, steepness);
    ToFixedMonotone(wq, wp, 10000.0);
  }

  /** The inputs of calculateOpportunityScore; `None` is a missing (null or undefined) field. */
  datatype OpportunityInput = OpportunityInput(
    scoreCurrent: Num,
    scorePotential: Num,
    priority: Option<TaskPriority>,
    taskType: Option<TaskType>,
    averagePosition: Option<Num>,
    conversionRate: Option<Num>,
    intentScore: Option<Num>,
    trafficGap: Option<Num>,
    effortOverride: Option<Num>)

  /** The weighted sum of the five factors, before clamping. */
  function Weighted(gap: real, intent: real, position: real, conversion: real, effort: real): real {
    TrafficGapWeight * gap + IntentWeight * intent + PositionWeight * position
    + ConversionWeight * conversion - EffortWeight * effort
  }

  /** The weighted combination of the five factors, clamped, scaled to 0-100 and rounded to one decimal. */
  function CombineFactors(gap: real, intent: real, position: real, conversion: real, effort: real): (r: real)
    ensures 0.0 <= r <= 100.0
  {
    var normalized := Clamp01(Weighted(gap, intent, position, conversion, effort));
    ToFixedRange(normalized * 100.0, 10.0, 100.0, 1000);
    ToFixed(normalized * 100.0, 10.0)
  }

  /** The traffic gap: `trafficGap ?? Math.max(0, scorePotential - scoreCurrent)`. */
  function GapInput(input: OpportunityInput): Num {
    input.trafficGap.GetOr(MaxZero(Sub(input.scorePotential, input.scoreCurrent)))
  }

  /** calculateOpportunityScore */
  function CalculateOpportunityScore(exp: real -> real, input: OpportunityInput): (r: real)
    requires ExpPositive(exp)
    ensures 0.0 <= r <= 100.0
  {
    CombineFactors(
      TrafficGapFactor(GapInput(input)),
      IntentFactor(input.intentScore, input.priority),
      LogisticPositionWeight(exp, input.averagePosition),
      ConversionFactor(input.conversionRate),
      EffortFactor(EffortInput(input.effortOverride, input.taskType)))
  }

  /**
   * calculateOpportunityScore as written, over IEEE values. The only factor
   * that can be NaN is the conversion factor (a NaN rate passes its guard);
   * NaN then propagates through `weighted`, `clamp` (Math.min and Math.max
   * return NaN for a NaN argument) and `Number(NaN.toFixed(1))`.
   */
  function CalculateOpportunityScoreAsWritten(exp: real -> real, input: OpportunityInput): (r: Num)
    requires ExpPositive(exp)
    ensures r.NaN? <==> input.conversionRate == Some(NaN)
    ensures input.conversionRate != Some(NaN) ==> r == Finite(CalculateOpportunityScore(exp, input))
  {
    var conversion := ConversionFactorAsWritten(input.conversionRate);
    if conversion.NaN? then NaN
    else
      Finite(CombineFactors(
        TrafficGapFactor(GapInput(input)),
        IntentFactor(input.intentScore, input.priority),
        LogisticPositionWeight(exp, input.averagePosition),
        conversion.value,
        EffortFactor(EffortInput(input.effortOverride, input.taskType))))
  }

  /** Raising any of the first four factors or lowering the effort factor never lowers the score. */
  lemma CombineFactorsMonotone(g1: real, i1: real, p1: real, c1: real, e1: real,
                               g2: real, i2: real, p2: real, c2: real, e2: real)
    requires g1 <= g2 && i1 <= i2 && p1 <= p2 && c1 <= c2 && e1 >= e2
    ensures CombineFactors(g1, i1, p1, c1, e1) <= CombineFactors(g2, i2, p2, c2, e2)
  {
    var w1 := Weighted(g1, i1, p1, c1, e1);
    var w2 := Weighted(g2, i2, p2, c2, e2);
    assert w1 <= w2;
    assert Clamp01(w1) * 100.0 <= Clamp01(w2) * 100.0;
    ToFixedMonotone(Clamp01(w1) * 100.0, Clamp01(w2) * 100.0, 10.0);
  }

  lemma TrafficGapFactorMonotone(a: real, b: real)
    requires a <= b
    ensures TrafficGapFactor(Finite(a)) <= TrafficGapFactor(Finite(b))
  {
  }

  lemma ConversionFactorMonotone(a: real, b: real)
    requires a <= b
    ensures ConversionFactor(Some(Finite(a))) <= ConversionFactor(Some(Finite(b)))
  {
  }

  lemma EffortFactorMonotone(a: real, b: real)
    requires 0.0 < a <= b
    ensures EffortFactor(Finite(a)) <= EffortFactor(Finite(b))
  {
  }

  /** exp(0) = 1 and exp(-x) * exp(x) = 1. */
  lemma ExpNegate(exp: real -> real, x: real)
    requires ExpLaws(exp)
    ensures exp(-x) * exp(x) == 1.0
  {
    var one := exp(0.0);
    assert one == one * one;
    assert -x + x == 0.0;
  }
  lemma ExpSum(exp: real -> real, x: real, y: real, z: real)
    requires ExpLaws(exp) && x + y == z
    ensures exp(z) == exp(x) * exp(y)
  {
  }
  lemma ExpAboveTangent(exp: real -> real, x: real)
    requires ExpLaws(exp)
    ensures exp(x) >= 1.0 + x
  {
  }
  /** Enclosures of exp(1.35) and exp(6.75) derived from the laws alone. */
  lemma ExpBounds(exp: real -> real)
    requires ExpLaws(exp)
    ensures 2.35 <= exp(1.35) <= 5.2
    ensures exp(6.75) >= 19.0
  {
    ExpAboveTangent(exp, 1.35);
    ExpUpper(exp);
    ExpFar(exp);
  }
  lemma ExpUpper(exp: real -> real)
    requires ExpLaws(exp)
    ensures exp(1.35) <= 5.2
  {
    ExpNegate(exp, 0.3375);
    ExpAboveTangent(exp, -0.3375);
    ExpSum(exp, 0.3375, 0.3375, 0.675);
    ExpSum(exp, 0.675, 0.675, 1.35);
    FourthPowerBound(exp(0.3375), exp(-0.3375), exp(0.675), exp(1.35));
  }
  lemma FourthPowerBound(a: real, inv: real, b: real, u: real)
    requires a > 0.0 && inv >= 0.6625 && inv * a == 1.0 && b == a * a && u == b * b
    ensures u <= 5.2
  {
    InverseBound(a, inv, 0.6625, 1.51);
    MulBound(a, a, 1.51, 1.51);
    MulBound(b, b, 2.2801, 2.2801);
  }
  lemma ExpFar(exp: real -> real)
    requires ExpLaws(exp)
    ensures exp(6.75) >= 19.0
  {
    ExpSum(exp, 3.375, 3.375, 6.75);
    ExpAboveTangent(exp, 3.375);
    MulLowerBound(exp(3.375), exp(3.375), 4.375, 4.375);
  }
  lemma MulBound(x: real, y: real, xm: real, ym: real)
    requires 0.0 <= x <= xm && 0.0 <= y <= ym
    ensures x * y <= xm * ym
  {
    assert x * y <= xm * y;
    assert xm * y <= xm * ym;
  }
  lemma MulLowerBound(x: real, y: real, xl: real, yl: real)
    requires 0.0 <= xl <= x && 0.0 <= yl <= y
    ensures x * y >= xl * yl
  {
    assert x * y >= xl * y;
    assert xl * y >= xl * yl;
  }
  lemma InverseBound(x: real, y: real, low: real, high: real)
    requires x > 0.0 && low > 0.0 && y >= low && y * x == 1.0 && low * high >= 1.0
    ensures x <= high
  {
    assert x * low <= x * y;
    assert x * low <= 1.0;
    assert x * low <= high * low;
  }
  /** The curve values at positions 2, 8 and 20, from the bounds on exp. */
  lemma CurveValues(down: real, up: real, far: real)
    requires down > 0.0 && down * up == 1.0 && 2.35 <= up <= 5.2 && far >= 19.0
    ensures 1.0 / (1.0 + down) >= 0.7
    ensures 0.16 <= 1.0 / (1.0 + up) <= 0.3
    ensures 1.0 / (1.0 + far) <= 0.05
  {
    InverseBound(down, up, 2.35, 1.0 / 2.35);
    RecipAntitone(1.0 + down, 1.0 + 1.0 / 2.35);
    RecipAntitone(1.0 + 2.35, 1.0 + up);
    RecipAntitone(1.0 + up, 6.2);
    RecipAntitone(20.0, 1.0 + far);
  }
  lemma CurveAtTestPositions(exp: real -> real)
    requires ExpLaws(exp)
    ensures LogisticCurve(exp, 2.0, Midpoint, Steepness) >= 0.7
    ensures 0.16 <= LogisticCurve(exp, 8.0, Midpoint, Steepness) <= 0.3
    ensures LogisticCurve(exp, 20.0, Midpoint, Steepness) <= 0.05
  {
    ExpBounds(exp);
    ExpNegate(exp, 1.35);
    assert Steepness * (2.0 - Midpoint) == -1.35;
    assert Steepness * (8.0 - Midpoint) == 1.35;
    assert Steepness * (20.0 - Midpoint) == 6.75;
    CurveValues(exp(-1.35), exp(1.35), exp(6.75));
  }

  /** tests/opportunity.test.ts: positions 2, 8 and 20 get strictly decreasing weights. */
  lemma LogisticCurveOrdering(exp: real -> real)
    requires ExpLaws(exp)
    ensures LogisticPositionWeight(exp, Some(Finite(2.0))) > LogisticPositionWeight(exp, Some(Finite(8.0)))
    ensures LogisticPositionWeight(exp, Some(Finite(8.0))) > LogisticPositionWeight(exp, Some(Finite(20.0)))
  {
    CurveAtTestPositions(exp);
    var c2, c8, c20 := LogisticCurve(exp, 2.0, Midpoint, Steepness), LogisticCurve(exp, 8.0, Midpoint, Steepness),
                       LogisticCurve(exp, 20.0, Midpoint, Steepness);
    RoundedWeightsOrdered(c2, c8, c20);
    assert LogisticPositionWeight(exp, Some(Finite(2.0))) == Clamp01(ToFixed(c2, 10000.0));
    assert LogisticPositionWeight(exp, Some(Finite(8.0))) == Clamp01(ToFixed(c8, 10000.0));
    assert LogisticPositionWeight(exp, Some(Finite(20.0))) == Clamp01(ToFixed(c20, 10000.0));
  }

  lemma RoundedWeightsOrdered(w2: real, w8: real, w20: real)
    requires 0.7 <= w2 < 1.0 && 0.16 <= w8 <= 0.3 && 0.0 < w20 <= 0.05
    ensures Clamp01(ToFixed(w2, 10000.0)) > Clamp01(ToFixed(w8, 10000.0)) > Clamp01(ToFixed(w20, 10000.0))
  {
    ToFixedSeparates(w8, w2, 10000.0);
    ToFixedSeparates(w20, w8, 10000.0);
    ToFixedRange(w2, 10000.0, 1.0, 10000);
    ToFixedRange(w8, 10000.0, 1.0, 10000);
    ToFixedRange(w20, 10000.0, 1.0, 10000);
  }

  /** Clamped weighted sums a point apart (0.01) give strictly ordered scores. */
  lemma CombineFactorsSeparate(g1: real, i1: real, p1: real, c1: real, e1: real,
                               g2: real, i2: real, p2: real, c2: real, e2: real)
    requires Clamp01(Weighted(g1, i1, p1, c1, e1)) + 0.01 <= Clamp01(Weighted(g2, i2, p2, c2, e2))
    ensures CombineFactors(g1, i1, p1, c1, e1) < CombineFactors(g2, i2, p2, c2, e2)
  {
    ToFixedSeparates(Clamp01(Weighted(g1, i1, p1, c1, e1)) * 100.0, Clamp01(Weighted(g2, i2, p2, c2, e2)) * 100.0, 10.0);
  }

  /** tests/opportunity.test.ts: with everything else equal, effort override 1 scores above override 8. */
  lemma EffortOverridePenalty(exp: real -> real)
    requires ExpPositive(exp)
    ensures
      var base := OpportunityInput(Finite(20.0), Finite(80.0), Some(HIGH), Some(LOCAL), None, None, None, None, None);
      CalculateOpportunityScore(exp, base.(effortOverride := Some(Finite(1.0))))
        > CalculateOpportunityScore(exp, base.(effortOverride := Some(Finite(8.0))))
  {
    var base := OpportunityInput(Finite(20.0), Finite(80.0), Some(HIGH), Some(LOCAL), None, None, None, None, None);
    var w := LogisticPositionWeight(exp, None);
    OverrideFactors();
    assert GapInput(base) == Finite(60.0);
    CombineFactorsSeparate(0.6, 0.75, w, 0.0, 1.0, 0.6, 0.75, w, 0.0, 0.2);
  }

  /** The factors shared by the two tasks compared in EffortOverridePenalty. */
  lemma OverrideFactors()
    ensures TrafficGapFactor(Finite(60.0)) == 0.6
    ensures IntentFactor(None, Some(HIGH)) == 0.75
    ensures ConversionFactor(None) == 0.0
    ensures EffortFactor(Finite(1.0)) == 0.2 && EffortFactor(Finite(8.0)) == 1.0
  {
  }

  /** tests/opportunity.test.ts: the strong task (bigger gap, CRITICAL, ONPAGE, position 4) outscores the weak one. */
  lemma StrongOutscoresWeak(exp: real -> real)
    requires ExpPositive(exp)
    ensures
      CalculateOpportunityScore(exp, OpportunityInput(Finite(30.0), Finite(95.0), Some(CRITICAL), Some(ONPAGE),
                                                      Some(Finite(4.0)), Some(Finite(0.08)), None, None, None))
      > CalculateOpportunityScore(exp, OpportunityInput(Finite(60.0), Finite(70.0), Some(LOW), Some(TECH),
                                                        Some(Finite(18.0)), Some(Finite(0.01)), None, None, None))
  {
    var ws := LogisticPositionWeight(exp, Some(Finite(4.0)));
    var ww := LogisticPositionWeight(exp, Some(Finite(18.0)));
    StrongFactors();
    WeakFactors();
    CombineFactorsSeparate(0.1, 0.25, ww, 0.05, 1.0, 0.65, 1.0, ws, 0.4, 0.6);
  }

  /** The exp-independent factors of the strong task compared in StrongOutscoresWeak. */
  lemma StrongFactors()
    ensures TrafficGapFactor(MaxZero(Sub(Finite(95.0), Finite(30.0)))) == 0.65
    ensures IntentFactor(None, Some(CRITICAL)) == 1.0
    ensures ConversionFactor(Some(Finite(0.08))) == 0.4
    ensures EffortFactor(EffortInput(None, Some(ONPAGE))) == 0.6
  {
  }

  /** The exp-independent factors of the weak task compared in StrongOutscoresWeak. */
  lemma WeakFactors()
    ensures TrafficGapFactor(MaxZero(Sub(Finite(70.0), Finite(60.0)))) == 0.1
    ensures IntentFactor(None, Some(LOW)) == 0.25
    ensures ConversionFactor(Some(Finite(0.01))) == 0.05
    ensures EffortFactor(EffortInput(None, Some(TECH))) == 1.0
  {
  }

  /** With only the two scores given, every other factor takes its documented default. */
  lemma DefaultsOnly(exp: real -> real, current: real, potential: real)
    requires ExpPositive(exp)
    ensures
      var input := OpportunityInput(Finite(current), Finite(potential), None, None, None, None, None, None, None);
      && IntentFactor(input.intentScore, input.priority) == 0.5
      && ConversionFactor(input.conversionRate) == 0.0
      && EffortFactor(EffortInput(input.effortOverride, input.taskType)) == 0.6
      && SanitizedPosition(input.averagePosition) == 12.0
      && GapInput(input) == Finite(if potential - current < 0.0 then 0.0 else potential - current)
      && 0.0 <= CalculateOpportunityScore(exp, input) <= 100.0
  {
  }
}
