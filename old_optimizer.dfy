/** The older rolling-horizon repair-order search,
    dreaminsg_integrated_model/src/optimizer.py. Its passes are those of the
    later search: every ordered selection of `prediction_horizon`
    components still to repair is appended to the repaired ones, scheduled
    and simulated, the order with the best score is kept (the later one on
    a tie) and only its first new component is committed. The score is its
    own: the area under each of the water and power service curves,
    divided by the largest time, weighted 0.5/0.5. The simulation object
    it is written against offers the to-repair and repaired lists of the
    later `NetworkSimulation`; scheduling, expanding and simulating one
    candidate is the parameter `run`, which returns the simulated samples
    or the exception raised, and the networks are reset after every
    candidate, so a run leaves no trace in the model's state. */
module OldOptimizer {
  import opened Wrappers
  import opened ResilienceMetrics
  import Plots
  import Optimizer
  import Simulation
  import OldSimulation

  type Sample = OldSimulation.Sample

  function Minutes(samples: seq<Sample>): (x: seq<real>)
    ensures |x| == |samples| && forall i :: 0 <= i < |x| ==> x[i] == samples[i].minutes
  {
    seq(|samples|, i requires 0 <= i < |samples| => samples[i].minutes)
  }

  function PowerCurve(samples: seq<Sample>): (y: seq<Float>)
    ensures |y| == |samples| && forall i :: 0 <= i < |y| ==> y[i] == samples[i].power
  {
    seq(|samples|, i requires 0 <= i < |samples| => samples[i].power)
  }

  function WaterCurve(samples: seq<Sample>): (y: seq<Float>)
    ensures |y| == |samples| && forall i :: 0 <= i < |y| ==> y[i] == samples[i].water
  {
    seq(|samples|, i requires 0 <= i < |samples| => samples[i].water)
  }

  /** Python's `max` of a non-empty list. */
  function Max(xs: seq<real>): (m: real)
    requires xs != []
    ensures m in xs && forall i :: 0 <= i < |xs| ==> xs[i] <= m
  {
    if |xs| == 1 then xs[0]
    else
      var m := Max(xs[..|xs| - 1]);
      assert forall i :: 0 <= i < |xs| - 1 ==> xs[..|xs| - 1][i] == xs[i];
      if xs[|xs| - 1] > m then xs[|xs| - 1] else m
  }

  /** `metrics.auc(time, curve) / max(time)`: the area's ValueErrors (fewer
      than two points, times out of order) pass through; a curve with an
      infinite or NaN value has no finite area and gives NaN. */
  function NormalizedAuc(x: seq<real>, y: seq<Float>): (r: Result<Float>)
    ensures r.Err? <==> Auc(x, y).Err?
    ensures r.Err? ==> r.error == ValueError
    ensures r.Ok? && Auc(x, y).value.None? ==> r.value == NaN
  {
    match Auc(x, y)
    case Err(e) => Err(e)
    case Ok(None) => Ok(NaN)
    case Ok(Some(a)) => Ok(Divide(a, Max(x)))
  }

  /** A service curve in [0, 1] over increasing times that start at or
      after 0 and end after 0 has a normalized area in [0, 1]: the area is
      at most the span of the times, which is at most the largest time. */
  lemma NormalizedAucInUnitRange(x: seq<real>, y: seq<Float>)
    requires |x| == |y| && |x| >= 2 && Plots.NonDecreasing(x)
    requires x[0] >= 0.0 && x[|x| - 1] > 0.0
    requires forall i :: 0 <= i < |y| ==> y[i].Finite? && 0.0 <= y[i].v <= 1.0
    ensures NormalizedAuc(x, y).Ok? && NormalizedAuc(x, y).value.Finite?
    ensures 0.0 <= NormalizedAuc(x, y).value.v <= 1.0
  {
    AucBounds(x, y);
    var a := Auc(x, y).value.value;
    var m := Max(x);
    assert m == x[|x| - 1] by {
      var k :| 0 <= k < |x| && x[k] == m;
      assert x[k] <= x[|x| - 1];
    }
    assert a <= m;
    QuotientInUnitRange(a, m);
  }

  lemma QuotientInUnitRange(a: real, m: real)
    requires 0.0 <= a <= m && m > 0.0
    ensures 0.0 <= a / m <= 1.0
  {
  }

  /** `0.5 * water_auc + 0.5 * power_auc` in floating point: NaN spreads,
      opposite infinities give NaN, and an infinity wins over a finite
      value. */
  function WeightedFloat(water: Float, power: Float): (w: Float)
    ensures water.Finite? && power.Finite? ==> w == Finite(Weighted(power.v, water.v))
    ensures w.NaN? <==> water.NaN? || power.NaN? || (water.PosInf? && power.NegInf?) || (water.NegInf? && power.PosInf?)
  {
    if water.NaN? || power.NaN? then NaN
    else if (water.PosInf? && power.NegInf?) || (water.NegInf? && power.PosInf?) then NaN
    else if water.PosInf? || power.PosInf? then PosInf
    else if water.NegInf? || power.NegInf? then NegInf
    else Finite(Weighted(power.v, water.v))
  }

  /** Python's `a >= b` on floats: false whenever a NaN is involved. */
  predicate AtLeast(a: Float, b: Float) {
    match (a, b)
    case (NaN, _) => false
    case (_, NaN) => false
    case (PosInf, _) => true
    case (_, PosInf) => false
    case (_, NegInf) => true
    case (NegInf, _) => false
    case (Finite(u), Finite(v)) => u >= v
  }

  /** One row of the optimization log. */
  datatype AucRow = AucRow(order: seq<string>, waterAuc: Float, powerAuc: Float, auc: Float)

  /** The score of one simulated candidate: the water area first, then the
      power area, then their weighting. */
  function ScoreOf(order: seq<string>, samples: seq<Sample>): (r: Result<AucRow>)
    ensures r.Err? <==> Auc(Minutes(samples), WaterCurve(samples)).Err?
    ensures r.Err? ==> r.error == ValueError
    ensures r.Ok? ==> r.value.order == order
  {
    var x := Minutes(samples);
    match NormalizedAuc(x, WaterCurve(samples))
    case Err(e) => Err(e)
    case Ok(water) =>
      match NormalizedAuc(x, PowerCurve(samples))
      case Err(e) => Err(e)
      case Ok(power) => Ok(AucRow(order, water, power, WeightedFloat(water, power)))
  }

  /** Samples over increasing minutes from 0 on, with both service ratios
      in [0, 1], score in [0, 1]. */
  lemma ScoreInUnitRange(order: seq<string>, samples: seq<Sample>)
    requires |samples| >= 2
    requires forall i, j :: 0 <= i <= j < |samples| ==> samples[i].minutes <= samples[j].minutes
    requires samples[0].minutes >= 0.0 && samples[|samples| - 1].minutes > 0.0
    requires forall i :: 0 <= i < |samples| ==>
      samples[i].power.Finite? && 0.0 <= samples[i].power.v <= 1.0
      && samples[i].water.Finite? && 0.0 <= samples[i].water.v <= 1.0
    ensures ScoreOf(order, samples).Ok?
    ensures var a := ScoreOf(order, samples).value.auc; a.Finite? && 0.0 <= a.v <= 1.0
  {
    var x := Minutes(samples);
    NormalizedAucInUnitRange(x, WaterCurve(samples));
    NormalizedAucInUnitRange(x, PowerCurve(samples));
  }

  /** Simulating and scoring one cumulative order. */
  function CandidateRow(cand: seq<string>, run: seq<string> -> Result<seq<Sample>>): Result<AucRow> {
    match run(cand)
    case Err(e) => Err(e)
    case Ok(samples) => ScoreOf(cand, samples)
  }

  /** The log rows of the candidates in order, until one raises. */
  function EvalRows(cands: seq<seq<string>>, run: seq<string> -> Result<seq<Sample>>): (seq<AucRow>, Option<Exception>) {
    if cands == [] then ([], None)
    else
      var before := EvalRows(cands[..|cands| - 1], run);
      if before.1.Some? then before
      else
        match CandidateRow(cands[|cands| - 1], run)
        case Err(e) => (before.0, Some(e))
        case Ok(row) => (before.0 + [row], None)
  }

  /** The rows are the scores of a prefix of the candidates; the run stops
      exactly at the first candidate that raises, with its exception. */
  lemma {:induction false} EvalRowsSpec(cands: seq<seq<string>>, run: seq<string> -> Result<seq<Sample>>)
    ensures var (rows, err) := EvalRows(cands, run);
      |rows| <= |cands|
      && (forall i :: 0 <= i < |rows| ==> CandidateRow(cands[i], run) == Ok(rows[i]))
      && (err.None? ==> |rows| == |cands|)
      && (err.Some? ==> |rows| < |cands| && CandidateRow(cands[|rows|], run) == Err(err.value))
  {
    if cands != [] {
      var init := cands[..|cands| - 1];
      EvalRowsSpec(init, run);
      assert forall i :: 0 <= i < |init| ==> init[i] == cands[i];
    }
  }

  lemma EvalRowsSnoc(cands: seq<seq<string>>, i: nat, run: seq<string> -> Result<seq<Sample>>)
    requires i < |cands|
    ensures EvalRows(cands[..i + 1], run) ==
      var before := EvalRows(cands[..i], run);
      if before.1.Some? then before
      else
        match CandidateRow(cands[i], run)
        case Err(e) => (before.0, Some(e))
        case Ok(row) => (before.0 + [row], None)
  {
    assert cands[..i + 1][..i] == cands[..i];
  }

  lemma {:induction false} EvalRowsStopped(cands: seq<seq<string>>, i: nat, run: seq<string> -> Result<seq<Sample>>)
    requires 0 < i <= |cands|
    requires EvalRows(cands[..i], run).1.Some?
    ensures EvalRows(cands, run) == EvalRows(cands[..i], run)
    decreases |cands| - i
  {
    if i == |cands| {
      assert cands[..i] == cands;
    } else {
      EvalRowsSnoc(cands, i, run);
      EvalRowsStopped(cands, i + 1, run);
    }
  }

  function Aucs(rows: seq<AucRow>): (s: seq<Float>)
    ensures |s| == |rows| && forall i :: 0 <= i < |s| ==> s[i] == rows[i].auc
  {
    seq(|rows|, i requires 0 <= i < |rows| => rows[i].auc)
  }

  /** The row kept by `self.auc == None or auc >= self.auc`. */
  function OldBestIndex(scores: seq<Float>): (b: nat)
    requires |scores| > 0
    ensures b < |scores|
  {
    if |scores| == 1 then 0
    else
      var b := OldBestIndex(scores[..|scores| - 1]);
      if AtLeast(scores[|scores| - 1], scores[b]) then |scores| - 1 else b
  }

  function Values(scores: seq<Float>): (vs: seq<real>)
    requires forall i :: 0 <= i < |scores| ==> scores[i].Finite?
    ensures |vs| == |scores| && forall i :: 0 <= i < |vs| ==> vs[i] == scores[i].v
  {
    seq(|scores|, i requires 0 <= i < |scores| => scores[i].v)
  }

  /** With finite scores the choice is the later search's: the highest
      score, the last one among equals. */
  lemma {:induction false} OldBestIndexFinite(scores: seq<Float>)
    requires |scores| > 0 && forall i :: 0 <= i < |scores| ==> scores[i].Finite?
    ensures OldBestIndex(scores) == Optimizer.BestIndex(Values(scores))
  {
    if |scores| > 1 {
      var init := scores[..|scores| - 1];
      OldBestIndexFinite(init);
      assert Values(scores)[..|scores| - 1] == Values(init);
    }
  }

  /** A NaN first score is never replaced: nothing compares at least equal
      to it. */
  lemma {:induction false} NaNFirstKept(scores: seq<Float>)
    requires |scores| > 0 && scores[0].NaN?
    ensures OldBestIndex(scores) == 0
  {
    if |scores| > 1 {
      NaNFirstKept(scores[..|scores| - 1]);
    }
  }

  /** The best index after one more score: the new one when it compares
      at least equal to the best so far. */
  lemma OldBestIndexSnoc(rows: seq<AucRow>, r: AucRow)
    requires |rows| > 0
    ensures var b := OldBestIndex(Aucs(rows));
      OldBestIndex(Aucs(rows + [r])) == if AtLeast(r.auc, rows[b].auc) then |rows| else b
  {
    assert Aucs(rows + [r])[..|rows|] == Aucs(rows);
  }

  /** The evaluation loop of a pass: the log rows of the candidates until
      one raises, and the row `auc is None or auc >= best` keeps. */
  method ScoreCandidates(cands: seq<seq<string>>, run: seq<string> -> Result<seq<Sample>>)
    returns (rows: seq<AucRow>, err: Option<Exception>, best: Option<AucRow>)
    ensures (rows, err) == EvalRows(cands, run)
    ensures |rows| == 0 ==> best.None?
    ensures |rows| > 0 ==> best == Some(rows[OldBestIndex(Aucs(rows))])
  {
    rows, err, best := [], None, None;
    var i := 0;
    while i < |cands| && err.None?
      invariant 0 <= i <= |cands|
      invariant EvalRows(cands[..i], run) == (rows, err)
      invariant |rows| == 0 ==> best.None?
      invariant |rows| > 0 ==> best == Some(rows[OldBestIndex(Aucs(rows))])
    {
      EvalRowsSnoc(cands, i, run);
      var row := CandidateRow(cands[i], run);
      if row.Err? {
        err := Some(row.error);
      } else {
        var r := row.value;
        if |rows| > 0 {
          OldBestIndexSnoc(rows, r);
        }
        if best.None? || AtLeast(r.auc, best.value.auc) {
          best := Some(r);
        }
        rows := rows + [r];
      }
      i := i + 1;
    }
    if i < |cands| {
      EvalRowsStopped(cands, i, run);
    } else {
      assert cands[..i] == cands;
    }
  }

  class OldBruteForceOptimizer {
    var predictionHorizon: nat
    var bestRepairStrategy: Option<seq<string>>
    var auc: Option<Float>
    var aucLog: seq<AucRow>

    /** A horizon of `None` becomes 0. */
    constructor (horizon: Option<nat>)
      ensures predictionHorizon == if horizon.None? then 0 else horizon.value
      ensures bestRepairStrategy.None? && auc.None? && aucLog == []
    {
      predictionHorizon := if horizon.None? then 0 else horizon.value;
      bestRepairStrategy := None;
      auc := None;
      aucLog := [];
    }

    /** Simulates and scores the candidates in order, logging each, and
        keeps the last best one; the first candidate that raises ends the
        evaluation with its exception. The best score is `None` between
        passes. */
    method EvaluateCandidates(repaired: seq<string>, orders: seq<seq<string>>,
                              run: seq<string> -> Result<seq<Sample>>) returns (err: Option<Exception>)
      requires auc.None?
      modifies this`auc, this`bestRepairStrategy, this`aucLog
      ensures var (rows, e) := EvalRows(Optimizer.Cumulative(repaired, orders), run);
        err == e && aucLog == old(aucLog) + rows
        && (|rows| == 0 ==> auc.None? && bestRepairStrategy == old(bestRepairStrategy))
        && (|rows| > 0 ==> var b := OldBestIndex(Aucs(rows));
                           bestRepairStrategy == Some(rows[b].order) && auc == Some(rows[b].auc))
    {
      var rows, best;
      rows, err, best := ScoreCandidates(Optimizer.Cumulative(repaired, orders), run);
      aucLog := aucLog + rows;
      if best.Some? {
        auc := Some(best.value.auc);
        bestRepairStrategy := Some(best.value.order);
      }
    }

    /** One prediction horizon: evaluate the candidates, then move the
        first new component of the best order from the to-repair list to
        the repaired list. A candidate that raises ends the pass with its
        exception; no new component is an IndexError, and one that is not
        in the to-repair list is the ValueError of `remove`. */
    method Pass(sim: Simulation.NetworkSimulation, run: seq<string> -> Result<seq<Sample>>) returns (r: Result<string>)
      requires auc.None?
      modifies this`auc, this`bestRepairStrategy, this`aucLog
      modifies sim`componentsToRepair, sim`componentsRepaired
      ensures var cands := Optimizer.Cumulative(old(sim.componentsRepaired),
                                                Optimizer.RepairPermutations(old(sim.componentsToRepair), predictionHorizon));
        var (rows, e) := EvalRows(cands, run);
        aucLog == old(aucLog) + rows
        && (e.Some? ==> r == Err(e.value))
        && (e.None? ==> |rows| > 0 && bestRepairStrategy == Some(rows[OldBestIndex(Aucs(rows))].order))
        && (r.Ok? ==> e.None? && bestRepairStrategy.Some?
                      && Optimizer.FirstNew(bestRepairStrategy.value, old(sim.componentsRepaired)) == Some(r.value)
                      && r.value in old(sim.componentsToRepair)
                      && auc.None?
                      && sim.componentsToRepair == Simulation.RemoveFirst(old(sim.componentsToRepair), r.value)
                      && sim.componentsRepaired == old(sim.componentsRepaired) + [r.value])
        && (e.None? && r.Err? ==>
              bestRepairStrategy.Some?
              && !(Optimizer.FirstNew(bestRepairStrategy.value, old(sim.componentsRepaired)).Some?
                   && Optimizer.FirstNew(bestRepairStrategy.value, old(sim.componentsRepaired)).value in old(sim.componentsToRepair)))
        && (r.Err? ==> sim.componentsToRepair == old(sim.componentsToRepair)
                       && sim.componentsRepaired == old(sim.componentsRepaired))
    {
      var orders := Optimizer.RepairPermutations(sim.componentsToRepair, predictionHorizon);
      Optimizer.RepairPermutationsSpec(sim.componentsToRepair, predictionHorizon);
      var cands := Optimizer.Cumulative(sim.componentsRepaired, orders);
      var e := EvaluateCandidates(sim.componentsRepaired, orders, run);
      EvalRowsSpec(cands, run);
      if e.Some? {
        return Err(e.value);
      }
      var next := Optimizer.FirstNew(bestRepairStrategy.value, sim.componentsRepaired);
      if next.None? {
        return Err(IndexError);
      }
      var u := sim.UpdateRepairedComponents(next.value);
      if u.Err? {
        return Err(u.error);
      }
      auc := None;
      r := Ok(next.value);
    }

    /** `find_optimal_recovery`: passes until nothing is left to repair.
        Every component ends up in the repaired list, in commit order; when
        the horizon is at least one, no component is listed twice and no
        candidate raises, no pass fails. */
    method FindOptimalRecovery(sim: Simulation.NetworkSimulation, run: seq<string> -> Result<seq<Sample>>) returns (r: Result<()>)
      requires auc.None?
      modifies this`auc, this`bestRepairStrategy, this`aucLog
      modifies sim`componentsToRepair, sim`componentsRepaired
      ensures multiset(sim.componentsToRepair) + multiset(sim.componentsRepaired)
           == multiset(old(sim.componentsToRepair)) + multiset(old(sim.componentsRepaired))
      ensures |old(sim.componentsRepaired)| <= |sim.componentsRepaired|
      ensures sim.componentsRepaired[..|old(sim.componentsRepaired)|] == old(sim.componentsRepaired)
      ensures r.Ok? ==> sim.componentsToRepair == [] && auc.None?
      ensures (predictionHorizon >= 1 && Optimizer.Once(old(sim.componentsToRepair), old(sim.componentsRepaired))
               && forall c :: CandidateRow(c, run).Ok?) ==> r.Ok?
    {
      ghost var start := sim.componentsRepaired;
      while |sim.componentsToRepair| > 0
        invariant auc.None?
        invariant multiset(sim.componentsToRepair) + multiset(sim.componentsRepaired)
               == multiset(old(sim.componentsToRepair)) + multiset(old(sim.componentsRepaired))
        invariant |start| <= |sim.componentsRepaired| && sim.componentsRepaired[..|start|] == start
        decreases |sim.componentsToRepair|
      {
        ghost var before := sim.componentsRepaired;
        ghost var toRepair := sim.componentsToRepair;
        var p := Pass(sim, run);
        if p.Err? {
          OldPassFails(toRepair, before, predictionHorizon, bestRepairStrategy, run,
                       old(sim.componentsToRepair), old(sim.componentsRepaired));
          return Err(p.error);
        }
        assert sim.componentsRepaired[..|start|] == before[..|start|];
      }
      r := Ok(());
    }
  }

  /** A pass can only fail when a candidate raises, the horizon is zero or
      a component is listed twice. */
  lemma OldPassFails(toRepair: seq<string>, repaired: seq<string>, horizon: nat, best: Option<seq<string>>,
                     run: seq<string> -> Result<seq<Sample>>, toRepair0: seq<string>, repaired0: seq<string>)
    requires |toRepair| > 0
    requires multiset(toRepair) + multiset(repaired) == multiset(toRepair0) + multiset(repaired0)
    requires var cands := Optimizer.Cumulative(repaired, Optimizer.RepairPermutations(toRepair, horizon));
      var (rows, e) := EvalRows(cands, run);
      e.None? ==> (|rows| > 0 && best == Some(rows[OldBestIndex(Aucs(rows))].order)
                   && !(Optimizer.FirstNew(best.value, repaired).Some?
                        && Optimizer.FirstNew(best.value, repaired).value in toRepair))
    ensures !(horizon >= 1 && Optimizer.Once(toRepair0, repaired0) && forall c :: CandidateRow(c, run).Ok?)
  {
    if horizon >= 1 && Optimizer.Once(toRepair0, repaired0) && forall c :: CandidateRow(c, run).Ok? {
      var orders := Optimizer.RepairPermutations(toRepair, horizon);
      Optimizer.RepairPermutationsSpec(toRepair, horizon);
      var cands := Optimizer.Cumulative(repaired, orders);
      EvalRowsAllOk(cands, run);
      EvalRowsSpec(cands, run);
      var rows := EvalRows(cands, run).0;
      var b := OldBestIndex(Aucs(rows));
      assert rows[b].order == cands[b];
      assert orders[b] in orders;
      Optimizer.CommitsFirstOfSelection(toRepair, repaired, orders[b]);
    }
  }

  /** When no candidate raises, the evaluation runs to the end. */
  lemma EvalRowsAllOk(cands: seq<seq<string>>, run: seq<string> -> Result<seq<Sample>>)
    requires forall c :: CandidateRow(c, run).Ok?
    ensures EvalRows(cands, run).1.None?
  {
    EvalRowsSpec(cands, run);
  }
}
