/** The one computation of infrarisk/src/plots.py that the model keeps:
    `integrate`, the trapezoid rule over a sampled curve, and its use as
    the equivalent outage hours of a consumer node (the area between full
    service and the node's service ratio, with time in minutes). */
module Plots {
  import opened Wrappers

  /** Area under the polyline through `(x[i], y[i])` for `i < |x|`. */
  function Trapezoid(x: seq<real>, y: seq<real>): real
    requires |x| <= |y|
  {
    if |x| < 2 then 0.0
    else
      var n := |x|;
      Trapezoid(x[..n - 1], y) + (x[n - 1] - x[n - 2]) * (y[n - 2] + y[n - 1]) / 2.0
  }

  predicate NonDecreasing(x: seq<real>) {
    forall i, j :: 0 <= i <= j < |x| ==> x[i] <= x[j]
  }

  /** `integrate(x, y)`: the loop over `range(1, len(x))` reads `y[i - 1]`
      and `y[i]`, so a `y` shorter than `x` is an IndexError as soon as
      there are two points. */
  method Integrate(x: seq<real>, y: seq<real>) returns (r: Result<real>)
    ensures r.Err? <==> |x| >= 2 && |y| < |x|
    ensures r.Err? ==> r.error == IndexError
    ensures r.Ok? ==> |x| < 2 || |x| <= |y|
    ensures r.Ok? && |x| <= |y| ==> r.value == Trapezoid(x, y)
    ensures r.Ok? && |x| < 2 ==> r.value == 0.0
  {
    if |x| < 2 {
      return Ok(0.0);
    }
    var sm := 0.0;
    var i := 1;
    while i < |x|
      invariant 1 <= i <= |x|
      invariant i > 1 ==> i <= |y|
      invariant i <= |y| ==> sm == Trapezoid(x[..i], y)
    {
      if i >= |y| {
        return Err(IndexError);
      }
      var h := x[i] - x[i - 1];
      assert x[..i + 1][..i] == x[..i];
      sm := sm + h * (y[i - 1] + y[i]) / 2.0;
      i := i + 1;
    }
    assert x[..i] == x;
    r := Ok(sm);
  }

  /** A non-negative curve over non-decreasing times has non-negative
      area. */
  lemma {:induction false} TrapezoidNonNegative(x: seq<real>, y: seq<real>)
    requires |x| <= |y| && NonDecreasing(x)
    requires forall i :: 0 <= i < |x| ==> y[i] >= 0.0
    ensures Trapezoid(x, y) >= 0.0
  {
    if |x| >= 2 {
      var n := |x|;
      TrapezoidNonNegative(x[..n - 1], y);
      assert x[n - 2] <= x[n - 1];
      assert (x[n - 1] - x[n - 2]) * (y[n - 2] + y[n - 1]) >= 0.0;
    }
  }

  /** A constant curve `c` has area `c` times the time span; the all-zero
      curve has none. */
  lemma {:induction false} TrapezoidConstant(x: seq<real>, y: seq<real>, c: real)
    requires 1 <= |x| <= |y|
    requires forall i :: 0 <= i < |x| ==> y[i] == c
    ensures Trapezoid(x, y) == c * (x[|x| - 1] - x[0])
  {
    if |x| >= 2 {
      var n := |x|;
      TrapezoidConstant(x[..n - 1], y, c);
      calc {
        Trapezoid(x, y);
        c * (x[n - 2] - x[0]) + (x[n - 1] - x[n - 2]) * (c + c) / 2.0;
        c * (x[n - 1] - x[0]);
      }
    }
  }

  /** Cutting the samples at point `k` splits the area in two. */
  lemma {:induction false} TrapezoidSplit(x: seq<real>, y: seq<real>, k: nat)
    requires |x| <= |y| && k < |x|
    ensures Trapezoid(x, y) == Trapezoid(x[..k + 1], y) + Trapezoid(x[k..], y[k..])
  {
    var n := |x|;
    if n == k + 1 {
      assert x[..k + 1] == x;
      assert |x[k..]| == 1;
    } else {
      TrapezoidSplit(x[..n - 1], y, k);
      assert x[..n - 1][..k + 1] == x[..k + 1];
      assert x[..n - 1][k..] == x[k..][..|x[k..]| - 1];
      var xs, ys := x[k..], y[k..];
      assert xs[|xs| - 1] == x[n - 1] && xs[|xs| - 2] == x[n - 2];
      assert ys[|xs| - 1] == y[n - 1] && ys[|xs| - 2] == y[n - 2];
    }
  }

  /** `1 - ratio` at every sample: the unserved share of the node. */
  function Shortfall(ratios: seq<real>): (s: seq<real>)
    ensures |s| == |ratios|
    ensures forall i :: 0 <= i < |s| ==> s[i] == 1.0 - ratios[i]
  {
    seq(|ratios|, i requires 0 <= i < |ratios| => 1.0 - ratios[i])
  }

  /** Equivalent outage hours of one node: the integral of its shortfall
      over time in minutes, divided by 60. */
  method OutageHours(minutes: seq<real>, ratios: seq<real>) returns (r: Result<real>)
    ensures r.Err? <==> |minutes| >= 2 && |ratios| < |minutes|
    ensures r.Ok? && |minutes| <= |ratios| ==> r.value == Trapezoid(minutes, Shortfall(ratios)) / 60.0
  {
    var area := Integrate(minutes, Shortfall(ratios));
    if area.Err? {
      return area;
    }
    r := Ok(area.value / 60.0);
  }

  /** Service ratios never above 1 over non-decreasing times give a
      non-negative outage, and full service all along gives none. */
  lemma OutageHoursBounds(minutes: seq<real>, ratios: seq<real>)
    requires |minutes| <= |ratios| && NonDecreasing(minutes)
    requires forall i :: 0 <= i < |ratios| ==> ratios[i] <= 1.0
    ensures Trapezoid(minutes, Shortfall(ratios)) / 60.0 >= 0.0
    ensures (forall i :: 0 <= i < |ratios| ==> ratios[i] == 1.0) ==> Trapezoid(minutes, Shortfall(ratios)) == 0.0
  {
    TrapezoidNonNegative(minutes, Shortfall(ratios));
    if (forall i :: 0 <= i < |ratios| ==> ratios[i] == 1.0) && |minutes| >= 1 {
      TrapezoidConstant(minutes, Shortfall(ratios), 0.0);
    }
  }
}
