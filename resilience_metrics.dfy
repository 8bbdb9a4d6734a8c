/** The resilience metrics of infrarisk/src/resilience_metrics.py. At every
    recorded time a consumer's service ratio is its served demand over its
    base demand, clipped at 1. ECS (equitable consumer serviceability) is
    the mean of these ratios, and PCS (proportional consumer
    serviceability) is the served share of the total base demand. The
    areas under both curves over time, for power and for water, are
    weighted 0.5/0.5.

    pandas divides in floating point, so a zero base demand gives an
    infinity or a NaN rather than an exception. `Float` keeps exactly
    those cases and nothing else of floating point. */
module ResilienceMetrics {
  import opened Wrappers
  import Plots
  import Rounding

  datatype Float = Finite(v: real) | PosInf | NegInf | NaN

  /** `a / b` for finite operands. */
  function Divide(a: real, b: real): Float {
    if b != 0.0 then Finite(a / b)
    else if a > 0.0 then PosInf
    else if a < 0.0 then NegInf
    else NaN
  }

  /** `.clip(upper=1)`. */
  function ClipUpper(f: Float): Float {
    match f
    case Finite(v) => Finite(if v > 1.0 then 1.0 else v)
    case PosInf => Finite(1.0)
    case _ => f
  }

  /** A clipped value is never above 1. */
  lemma ClipUpperBound(f: Float)
    ensures ClipUpper(f).Finite? ==> ClipUpper(f).v <= 1.0
    ensures ClipUpper(f) != PosInf
    ensures f.Finite? && f.v <= 1.0 ==> ClipUpper(f) == f
  {
  }

  function FiniteSum(fs: seq<Float>): real {
    if fs == [] then 0.0
    else FiniteSum(fs[..|fs| - 1]) + (if fs[|fs| - 1].Finite? then fs[|fs| - 1].v else 0.0)
  }

  function NumberCount(fs: seq<Float>): nat {
    if fs == [] then 0
    else NumberCount(fs[..|fs| - 1]) + (if fs[|fs| - 1].NaN? then 0 else 1)
  }

  /** `.mean(skipna=True)`: NaN entries are skipped, nothing left is NaN,
      infinities of both signs are NaN, and one kind of infinity wins over
      finite values. */
  function MeanSkipNa(fs: seq<Float>): Float {
    if NumberCount(fs) == 0 then NaN
    else if PosInf in fs && NegInf in fs then NaN
    else if PosInf in fs then PosInf
    else if NegInf in fs then NegInf
    else Finite(FiniteSum(fs) / NumberCount(fs) as real)
  }

  /** Every entry at most `hi` (and at least `lo`) keeps the finite sum
      between `lo` and `hi` times the number of entries. */
  lemma {:induction false} FiniteSumBounds(fs: seq<Float>, lo: real, hi: real)
    requires forall i :: 0 <= i < |fs| ==> fs[i].Finite? && lo <= fs[i].v <= hi
    ensures NumberCount(fs) == |fs|
    ensures lo * |fs| as real <= FiniteSum(fs) <= hi * |fs| as real
  {
    if fs != [] {
      FiniteSumBounds(fs[..|fs| - 1], lo, hi);
    }
  }

  /** Clipped per-consumer ratios of one time row. */
  function Ratios(served: seq<real>, base: seq<real>): (rs: seq<Float>)
    requires |served| == |base|
    ensures |rs| == |served|
    ensures forall i :: 0 <= i < |rs| ==> rs[i] == ClipUpper(Divide(served[i], base[i]))
  {
    seq(|served|, i requires 0 <= i < |served| => ClipUpper(Divide(served[i], base[i])))
  }

  /** ECS at one time: the mean of the clipped ratios. */
  function Ecs(served: seq<real>, base: seq<real>): Float
    requires |served| == |base|
  {
    MeanSkipNa(Ratios(served, base))
  }

  function Sum(xs: seq<real>): real {
    if xs == [] then 0.0 else Sum(xs[..|xs| - 1]) + xs[|xs| - 1]
  }

  function Min(a: real, b: real): real { if a <= b then a else b }

  function Mins(served: seq<real>, base: seq<real>): (ms: seq<real>)
    requires |served| == |base|
    ensures |ms| == |served|
    ensures forall i :: 0 <= i < |ms| ==> ms[i] == Min(served[i], base[i])
  {
    seq(|served|, i requires 0 <= i < |served| => Min(served[i], base[i]))
  }

  /** PCS at one time: the element-wise minimum of served and base demand,
      summed, over the summed base demand. */
  function Pcs(served: seq<real>, base: seq<real>): Float
    requires |served| == |base|
  {
    Divide(Sum(Mins(served, base)), Sum(base))
  }

  /** ECS is never above 1. */
  lemma EcsAtMostOne(served: seq<real>, base: seq<real>)
    requires |served| == |base|
    ensures Ecs(served, base).Finite? ==> Ecs(served, base).v <= 1.0
  {
    var rs := Ratios(served, base);
    if Ecs(served, base).Finite? {
      forall i | 0 <= i < |rs| ensures rs[i].Finite? ==> rs[i].v <= 1.0 {
        ClipUpperBound(Divide(served[i], base[i]));
      }
      FiniteUpperBound(rs);
    }
  }

  /** With non-negative served demands and positive base demands, ECS is
      a number in [0, 1]. */
  lemma EcsInUnitRange(served: seq<real>, base: seq<real>)
    requires |served| == |base| && |base| > 0
    requires forall i :: 0 <= i < |base| ==> served[i] >= 0.0 && base[i] > 0.0
    ensures Ecs(served, base).Finite? && 0.0 <= Ecs(served, base).v <= 1.0
  {
    var rs := Ratios(served, base);
    forall i | 0 <= i < |rs| ensures rs[i].Finite? && 0.0 <= rs[i].v <= 1.0 {
      assert served[i] / base[i] >= 0.0;
    }
    FiniteSumBounds(rs, 0.0, 1.0);
    assert PosInf !in rs && NegInf !in rs;
  }

  /** With no positive infinity among the entries, a finite mean of
      entries at most 1 is at most 1. */
  lemma {:induction false} FiniteUpperBound(fs: seq<Float>)
    requires forall i :: 0 <= i < |fs| ==> fs[i].Finite? ==> fs[i].v <= 1.0
    ensures FiniteSum(fs) <= NumberCount(fs) as real
  {
    if fs != [] {
      FiniteUpperBound(fs[..|fs| - 1]);
    }
  }

  lemma {:induction false} SumMinsBound(served: seq<real>, base: seq<real>)
    requires |served| == |base|
    ensures Sum(Mins(served, base)) <= Sum(base)
    ensures (forall i :: 0 <= i < |base| ==> served[i] >= 0.0 && base[i] >= 0.0) ==> Sum(Mins(served, base)) >= 0.0
  {
    if served != [] {
      var n := |served|;
      SumMinsBound(served[..n - 1], base[..n - 1]);
      assert Mins(served, base)[..n - 1] == Mins(served[..n - 1], base[..n - 1]);
      assert base[..n] == base;
    }
  }

  /** With non-negative base demands of positive sum, PCS is a number of
      at most 1, and at least 0 when served demands are non-negative. */
  lemma PcsBounds(served: seq<real>, base: seq<real>)
    requires |served| == |base|
    requires Sum(base) > 0.0
    ensures Pcs(served, base).Finite? && Pcs(served, base).v <= 1.0
    ensures (forall i :: 0 <= i < |base| ==> served[i] >= 0.0 && base[i] >= 0.0) ==> Pcs(served, base).v >= 0.0
  {
    SumMinsBound(served, base);
    var m, s := Sum(Mins(served, base)), Sum(base);
    QuotientBounds(m, s);
    assert Pcs(served, base) == Finite(m / s);
  }

  lemma QuotientBounds(m: real, s: real)
    requires 0.0 < s && m <= s
    ensures m / s <= 1.0
    ensures m >= 0.0 ==> m / s >= 0.0
  {
    var q := m / s;
    assert q * s == m;
  }

  /** Full service: every consumer served its base demand gives ECS and PCS
      of exactly 1. */
  lemma FullService(base: seq<real>)
    requires |base| > 0 && forall i :: 0 <= i < |base| ==> base[i] > 0.0
    ensures Ecs(base, base) == Finite(1.0)
    ensures Pcs(base, base) == Finite(1.0)
  {
    FullServiceEcs(base);
    FullServicePcs(base);
  }

  lemma FullServicePcs(base: seq<real>)
    requires |base| > 0 && forall i :: 0 <= i < |base| ==> base[i] > 0.0
    ensures Pcs(base, base) == Finite(1.0)
  {
    assert Mins(base, base) == base;
    PositiveSum(base);
    var s := Sum(base);
    assert Pcs(base, base) == Divide(s, s);
    assert s / s == 1.0;
  }

  lemma FullServiceEcs(base: seq<real>)
    requires |base| > 0 && forall i :: 0 <= i < |base| ==> base[i] > 0.0
    ensures Ecs(base, base) == Finite(1.0)
  {
    var rs := Ratios(base, base);
    forall i | 0 <= i < |rs| ensures rs[i] == Finite(1.0) {
      SelfRatio(base[i]);
    }
    FiniteSumBounds(rs, 1.0, 1.0);
    assert PosInf !in rs && NegInf !in rs;
    var n := |rs| as real;
    assert FiniteSum(rs) == n;
    assert Ecs(base, base) == Finite(FiniteSum(rs) / n);
  }

  lemma SelfRatio(x: real)
    requires x > 0.0
    ensures ClipUpper(Divide(x, x)) == Finite(1.0)
  {
    assert x / x == 1.0;
  }

  lemma {:induction false} PositiveSum(xs: seq<real>)
    requires |xs| > 0 && forall i :: 0 <= i < |xs| ==> xs[i] > 0.0
    ensures Sum(xs) > 0.0
  {
    if |xs| > 1 {
      PositiveSum(xs[..|xs| - 1]);
    }
  }

  /** Row of the base-demand table used at time `t`: the minute of the
      day, `int((t % 86400) / 60)`. */
  function BaseRowIndex(t: int): (i: int)
    ensures 0 <= i < 1440
  {
    (t % 86400) / 60
  }

  /** The row repeats every day, and within a day moves forward one row per
      minute. */
  lemma BaseRowIndexDaily(t: int)
    ensures BaseRowIndex(t + 86400) == BaseRowIndex(t)
    ensures 0 <= t < 86400 ==> BaseRowIndex(t) == t / 60
  {
  }

  /** The DDA pressure correction: 0 at no pressure, the square root of
      pressure over threshold below the threshold, and the pressure itself
      above it. The square root is taken as a parameter. */
  function Correction(p: real, threshold: real, sqrt: real -> real): real {
    if p <= 0.0 then 0.0
    else if p <= threshold then sqrt(p / threshold)
    else p
  }

  /** With a true square root the correction at or below the threshold is
      a factor in [0, 1]. */
  lemma CorrectionBelowThreshold(p: real, threshold: real, sqrt: real -> real)
    requires p <= threshold
    requires forall x :: 0.0 <= x ==> sqrt(x) >= 0.0 && sqrt(x) * sqrt(x) == x
    ensures 0.0 <= Correction(p, threshold, sqrt) <= 1.0
  {
    if 0.0 < p {
      var x := p / threshold;
      assert 0.0 < x <= 1.0;
      var r := sqrt(x);
      if r > 1.0 {
        assert r * r > 1.0;
      }
    }
  }

  /** Served demands of one row: multiplied by the pressure correction
      under DDA, taken as they are otherwise. */
  function Served(demands: seq<real>, pressures: seq<real>, dda: bool, threshold: real, sqrt: real -> real): (s: seq<real>)
    requires |demands| == |pressures|
    ensures |s| == |demands|
    ensures forall i :: 0 <= i < |s| ==>
      s[i] == if dda then demands[i] * Correction(pressures[i], threshold, sqrt) else demands[i]
  {
    seq(|demands|, i requires 0 <= i < |demands| =>
      if dda then demands[i] * Correction(pressures[i], threshold, sqrt) else demands[i])
  }

  /** One recorded row of a solver table: the time in seconds and one value
      per consumer, in a fixed consumer order. */
  datatype TimedRow = TimedRow(time: int, values: seq<real>)

  /** One point of a performance curve. */
  datatype Point = Point(minutes: real, ecs: Float, pcs: Float)

  /** The water curve from the junction demand and pressure tables; a
      base-demand table with no row for some minute of the day is an
      IndexError. */
  function WaterCurve(demands: seq<TimedRow>, pressures: seq<TimedRow>, base: seq<seq<real>>,
                      dda: bool, threshold: real, sqrt: real -> real): (r: Result<seq<Point>>)
    requires |demands| == |pressures|
    requires forall i :: 0 <= i < |demands| ==> |demands[i].values| == |pressures[i].values|
    requires forall j :: 0 <= j < |base| ==> forall i :: 0 <= i < |demands| ==> |base[j]| == |demands[i].values|
    ensures r.Err? <==> exists i :: 0 <= i < |demands| && BaseRowIndex(demands[i].time) >= |base|
    ensures r.Ok? ==> |r.value| == |demands|
    ensures r.Ok? ==> forall i :: 0 <= i < |demands| ==>
      var d := demands[i];
      var s := Served(d.values, pressures[i].values, dda, threshold, sqrt);
      var b := base[BaseRowIndex(d.time)];
      r.value[i] == Point(d.time as real / 60.0, Ecs(s, b), Pcs(s, b))
  {
    if exists i :: 0 <= i < |demands| && BaseRowIndex(demands[i].time) >= |base| then Err(IndexError)
    else
      Ok(seq(|demands|, i requires 0 <= i < |demands| =>
        var d := demands[i];
        var s := Served(d.values, pressures[i].values, dda, threshold, sqrt);
        var b := base[BaseRowIndex(d.time)];
        Point(d.time as real / 60.0, Ecs(s, b), Pcs(s, b))))
  }

  /** The power curve from the recorded load rows `[time, loads…,
      motors…]` against the base loads and motor ratings. */
  function PowerCurve(rows: seq<seq<real>>, base: seq<real>): (ps: seq<Point>)
    requires forall i :: 0 <= i < |rows| ==> |rows[i]| == |base| + 1
    ensures |ps| == |rows|
    ensures forall i :: 0 <= i < |rows| ==>
      ps[i] == Point(rows[i][0] / 60.0, Ecs(rows[i][1..], base), Pcs(rows[i][1..], base))
  {
    seq(|rows|, i requires 0 <= i < |rows| =>
      Point(rows[i][0] / 60.0, Ecs(rows[i][1..], base), Pcs(rows[i][1..], base)))
  }

  /** `metrics.auc(x, y)` of scikit-learn: at least two points, and `x`
      monotonic, else a ValueError; a decreasing `x` gives the area with
      its sign turned. A curve with an infinite or NaN value has no finite
      area: `None`. */
  function Auc(x: seq<real>, y: seq<Float>): (r: Result<Option<real>>)
    ensures r.Err? <==> |x| != |y| || |x| < 2 || !(Plots.NonDecreasing(x) || NonIncreasing(x))
  {
    if |x| != |y| || |x| < 2 then Err(ValueError)
    else if !(Plots.NonDecreasing(x) || NonIncreasing(x)) then Err(ValueError)
    else if exists i :: 0 <= i < |y| && !y[i].Finite? then Ok(None)
    else
      var ys := seq(|y|, i requires 0 <= i < |y| => y[i].v);
      var area := Plots.Trapezoid(x, ys);
      Ok(Some(if Plots.NonDecreasing(x) then area else -area))
  }

  predicate NonIncreasing(x: seq<real>) {
    forall i, j :: 0 <= i <= j < |x| ==> x[i] >= x[j]
  }

  /** A service curve in [0, 1] over increasing times has an area between
      0 and the time span. */
  lemma AucBounds(x: seq<real>, y: seq<Float>)
    requires |x| == |y| && |x| >= 2 && Plots.NonDecreasing(x)
    requires forall i :: 0 <= i < |y| ==> y[i].Finite? && 0.0 <= y[i].v <= 1.0
    ensures Auc(x, y).Ok? && Auc(x, y).value.Some?
    ensures 0.0 <= Auc(x, y).value.value <= x[|x| - 1] - x[0]
  {
    var ys := seq(|y|, i requires 0 <= i < |y| => y[i].v);
    Plots.TrapezoidNonNegative(x, ys);
    var gap := seq(|y|, i requires 0 <= i < |y| => 1.0 - ys[i]);
    Plots.TrapezoidNonNegative(x, gap);
    var ones := seq(|y|, i requires 0 <= i < |y| => 1.0);
    Plots.TrapezoidConstant(x, ones, 1.0);
    TrapezoidAdd(x, ys, gap, ones);
  }

  /** The trapezoid rule is additive in the curve. */
  lemma {:induction false} TrapezoidAdd(x: seq<real>, a: seq<real>, b: seq<real>, c: seq<real>)
    requires |x| <= |a| && |x| <= |b| && |x| <= |c|
    requires forall i :: 0 <= i < |x| ==> c[i] == a[i] + b[i]
    ensures Plots.Trapezoid(x, c) == Plots.Trapezoid(x, a) + Plots.Trapezoid(x, b)
  {
    if |x| >= 2 {
      TrapezoidAdd(x[..|x| - 1], a, b, c);
    }
  }

  /** The 0.5/0.5 weighting of the power and water areas. */
  function Weighted(power: real, water: real): (w: real)
    ensures Min(power, water) <= w <= if power <= water then water else power
    ensures power == water ==> w == power
  {
    0.5 * power + 0.5 * water
  }

  class WeightedResilienceMetric {
    var simTimes: seq<int>
    var powerColumns: Option<seq<string>>
    var powerLoad: seq<seq<real>>
    var waterHeads: seq<TimedRow>
    var waterDemands: seq<TimedRow>
    var waterPressures: seq<TimedRow>
    var powerCurve: seq<Point>
    var waterCurve: seq<Point>
    var powerEcsAuc: Option<real>
    var powerPcsAuc: Option<real>
    var waterEcsAuc: Option<real>
    var waterPcsAuc: Option<real>
    var weightedEcsAuc: Option<real>
    var weightedPcsAuc: Option<real>

    constructor ()
      ensures simTimes == [] && powerColumns.None? && powerLoad == []
      ensures waterHeads == [] && waterDemands == [] && waterPressures == []
    {
      simTimes := [];
      powerColumns := None;
      powerLoad := [];
      waterHeads := [];
      waterDemands := [];
      waterPressures := [];
      powerCurve := [];
      waterCurve := [];
      powerEcsAuc := None;
      powerPcsAuc := None;
      waterEcsAuc := None;
      waterPcsAuc := None;
      weightedEcsAuc := None;
      weightedPcsAuc := None;
    }

    /** `calculate_power_load`: the time is recorded first; the first call
        names the columns `time`, the loads and the motors; every call adds
        the row `[time, load p_mw…, motor p_mw…]`, and a row whose length
        does not match the columns is a ValueError. */
    method CalculatePowerLoad(simTime: int, loadNames: seq<string>, motorNames: seq<string>,
                              loadP: seq<real>, motorP: seq<real>) returns (r: Result<()>)
      modifies this`simTimes, this`powerColumns, this`powerLoad
      ensures simTimes == old(simTimes) + [simTime]
      ensures powerColumns == if old(powerColumns).None? then Some(["time"] + loadNames + motorNames) else old(powerColumns)
      ensures var row := [simTime as real] + loadP + motorP;
        (r.Ok? <==> |row| == |powerColumns.value|)
        && (r.Ok? ==> powerLoad == old(powerLoad) + [row])
        && (r.Err? ==> r.error == ValueError && powerLoad == old(powerLoad))
    {
      simTimes := simTimes + [simTime];
      if powerColumns.None? {
        powerColumns := Some(["time"] + loadNames + motorNames);
      }
      var row := [simTime as real] + loadP + motorP;
      if |row| != |powerColumns.value| {
        return Err(ValueError);
      }
      powerLoad := powerLoad + [row];
      r := Ok(());
    }

    /** `calculate_node_details`: the solver's head, demand and pressure
        rows of the latest interval are appended to the stored tables. */
    method CalculateNodeDetails(heads: seq<TimedRow>, demands: seq<TimedRow>, pressures: seq<TimedRow>)
      modifies this`waterHeads, this`waterDemands, this`waterPressures
      ensures waterHeads == old(waterHeads) + heads
      ensures waterDemands == old(waterDemands) + demands
      ensures waterPressures == old(waterPressures) + pressures
    {
      waterHeads := waterHeads + heads;
      waterDemands := waterDemands + demands;
      waterPressures := waterPressures + pressures;
    }

    /** `calculate_water_resmetrics`. */
    method CalculateWaterResmetrics(base: seq<seq<real>>, dda: bool, threshold: real, sqrt: real -> real)
      returns (r: Result<()>)
      requires |waterDemands| == |waterPressures|
      requires forall i :: 0 <= i < |waterDemands| ==> |waterDemands[i].values| == |waterPressures[i].values|
      requires forall j :: 0 <= j < |base| ==> forall i :: 0 <= i < |waterDemands| ==> |base[j]| == |waterDemands[i].values|
      modifies this`waterCurve
      ensures var c := WaterCurve(waterDemands, waterPressures, base, dda, threshold, sqrt);
        (r.Ok? <==> c.Ok?) && (r.Ok? ==> waterCurve == c.value) && (r.Err? ==> r.error == IndexError)
      ensures r.Err? ==> waterCurve == old(waterCurve)
    {
      var c := WaterCurve(waterDemands, waterPressures, base, dda, threshold, sqrt);
      if c.Err? {
        return Err(c.error);
      }
      waterCurve := c.value;
      r := Ok(());
    }

    /** `calculate_power_resmetric`. */
    method CalculatePowerResmetric(base: seq<real>)
      requires forall i :: 0 <= i < |powerLoad| ==> |powerLoad[i]| == |base| + 1
      modifies this`powerCurve
      ensures powerCurve == PowerCurve(powerLoad, base)
    {
      powerCurve := PowerCurve(powerLoad, base);
    }

    /** `set_weighted_auc_metrics`: the areas of the four curves, each
        stored rounded to three decimals, power first and then water, and
        the rounded areas weighted 0.5/0.5 between power and water. A curve
        whose area cannot be taken raises where it is reached, so the power
        areas are already stored when a water area raises. */
    method SetWeightedAucMetrics() returns (r: Result<()>)
      modifies this`powerEcsAuc, this`powerPcsAuc, this`waterEcsAuc, this`waterPcsAuc
      modifies this`weightedEcsAuc, this`weightedPcsAuc
      ensures var pe := Auc(Times(old(powerCurve)), EcsOf(old(powerCurve)));
        var we := Auc(Times(old(waterCurve)), EcsOf(old(waterCurve)));
        (r.Ok? <==> pe.Ok? && we.Ok?) && (r.Err? ==> r.error == ValueError)
      ensures var pe := Auc(Times(powerCurve), EcsOf(powerCurve));
        var pp := Auc(Times(powerCurve), PcsOf(powerCurve));
        if pe.Err? then
          unchanged(this`powerEcsAuc, this`powerPcsAuc, this`waterEcsAuc, this`waterPcsAuc)
          && unchanged(this`weightedEcsAuc, this`weightedPcsAuc)
        else
          powerEcsAuc == RoundedOf(pe.value) && powerPcsAuc == RoundedOf(pp.value)
      ensures r.Err? ==> unchanged(this`waterEcsAuc, this`waterPcsAuc, this`weightedEcsAuc, this`weightedPcsAuc)
      ensures r.Ok? ==>
        waterEcsAuc == RoundedOf(Auc(Times(waterCurve), EcsOf(waterCurve)).value)
        && waterPcsAuc == RoundedOf(Auc(Times(waterCurve), PcsOf(waterCurve)).value)
        && weightedEcsAuc == WeightedOf(powerEcsAuc, waterEcsAuc)
        && weightedPcsAuc == WeightedOf(powerPcsAuc, waterPcsAuc)
    {
      var pe := Auc(Times(powerCurve), EcsOf(powerCurve));
      if pe.Err? {
        return Err(ValueError);
      }
      powerEcsAuc := RoundedOf(pe.value);
      var pp := Auc(Times(powerCurve), PcsOf(powerCurve));
      powerPcsAuc := RoundedOf(pp.value);
      var we := Auc(Times(waterCurve), EcsOf(waterCurve));
      if we.Err? {
        return Err(ValueError);
      }
      waterEcsAuc := RoundedOf(we.value);
      var wp := Auc(Times(waterCurve), PcsOf(waterCurve));
      waterPcsAuc := RoundedOf(wp.value);
      weightedEcsAuc := WeightedOf(powerEcsAuc, waterEcsAuc);
      weightedPcsAuc := WeightedOf(powerPcsAuc, waterPcsAuc);
      r := Ok(());
    }

    /** `get_weighted_auc_metrics`: exactly two values, the weighted ECS
        and PCS areas, each rounded again to three decimals. */
    method GetWeightedAucMetrics() returns (vals: seq<Option<real>>)
      ensures vals == [RoundedOf(weightedEcsAuc), RoundedOf(weightedPcsAuc)]
    {
      vals := [RoundedOf(weightedEcsAuc), RoundedOf(weightedPcsAuc)];
    }
  }

  function Times(ps: seq<Point>): (ts: seq<real>)
    ensures |ts| == |ps| && forall i :: 0 <= i < |ps| ==> ts[i] == ps[i].minutes
  {
    seq(|ps|, i requires 0 <= i < |ps| => ps[i].minutes)
  }

  function EcsOf(ps: seq<Point>): (es: seq<Float>)
    ensures |es| == |ps| && forall i :: 0 <= i < |ps| ==> es[i] == ps[i].ecs
  {
    seq(|ps|, i requires 0 <= i < |ps| => ps[i].ecs)
  }

  function PcsOf(ps: seq<Point>): (es: seq<Float>)
    ensures |es| == |ps| && forall i :: 0 <= i < |ps| ==> es[i] == ps[i].pcs
  {
    seq(|ps|, i requires 0 <= i < |ps| => ps[i].pcs)
  }

  function WeightedOf(power: Option<real>, water: Option<real>): Option<real> {
    if power.Some? && water.Some? then Some(Weighted(power.value, water.value)) else None
  }

  /** `round(x, 3)` on an area; a NaN area stays NaN. */
  function RoundedOf(area: Option<real>): Option<real> {
    if area.Some? then Some(Rounding.RoundTo3(area.value)) else None
  }

  /** What the getter reports for two finite areas: each area rounded,
      the rounded areas weighted, and the weighting rounded again. The
      result is a multiple of 0.001 within 0.001 of the exact weighting,
      and rounding it once more changes nothing. */
  lemma ReportedWeightedArea(power: real, water: real)
    ensures var w := RoundedOf(WeightedOf(RoundedOf(Some(power)), RoundedOf(Some(water))));
      w.Some?
      && Weighted(power, water) - 0.001 <= w.value <= Weighted(power, water) + 0.001
      && Rounding.RoundTo3(w.value) == w.value
  {
    var p := Rounding.RoundTo3(power);
    var q := Rounding.RoundTo3(water);
    var w := Rounding.RoundTo3(Weighted(p, q));
    Rounding.RoundTo3Idempotent(Weighted(p, q));
    assert RoundedOf(WeightedOf(RoundedOf(Some(power)), RoundedOf(Some(water)))) == Some(w);
  }
}
