/** The rolling-horizon (model predictive control) repair-order search of
    `BruteForceOptimizer` (infrarisk/src/optimizer.py). Each pass tries
    every ordered selection of `prediction_horizon` components still to be
    repaired, appended to the components already repaired, keeps the order
    with the best score (the later one on a tie) and commits only its first
    new component. Scheduling, expanding and simulating a candidate order
    and reading its weighted resilience score are one abstract function
    `score` here; the networks are reset after each candidate, so scoring
    leaves no trace in the model's state. */
module Optimizer {
  import opened Wrappers
  import Simulation
  import Lists
  import ResilienceMetrics

  function RemoveAt(xs: seq<string>, i: nat): (r: seq<string>)
    requires i < |xs|
    ensures |r| == |xs| - 1
    ensures multiset(r) == multiset(xs) - multiset{xs[i]}
  {
    assert xs == xs[..i] + [xs[i]] + xs[i + 1..];
    xs[..i] + xs[i + 1..]
  }

  function Prefixed(x: string, ps: seq<seq<string>>): (r: seq<seq<string>>)
    ensures |r| == |ps|
    ensures forall j :: 0 <= j < |r| ==> r[j] == [x] + ps[j]
  {
    seq(|ps|, j requires 0 <= j < |ps| => [x] + ps[j])
  }

  /** `itertools.permutations(xs, k)`, in its order: selections starting
      with `xs[0]` first, each continued by the selections of length `k - 1`
      from the rest. */
  function Permutations(xs: seq<string>, k: nat): seq<seq<string>>
    decreases k, 1, 0
  {
    if k == 0 then [[]] else PermutationsFrom(xs, k, 0)
  }

  function PermutationsFrom(xs: seq<string>, k: nat, i: nat): seq<seq<string>>
    requires 0 < k && i <= |xs|
    decreases k, 0, |xs| - i
  {
    if i == |xs| then []
    else Prefixed(xs[i], Permutations(RemoveAt(xs, i), k - 1)) + PermutationsFrom(xs, k, i + 1)
  }

  /** Every selection has length `k` and uses each position of `xs` at most
      once. */
  lemma {:induction false} PermutationsSound(xs: seq<string>, k: nat)
    ensures forall p :: p in Permutations(xs, k) ==> |p| == k && multiset(p) <= multiset(xs)
    decreases k, 1, 0
  {
    if k > 0 {
      PermutationsFromSound(xs, k, 0);
    }
  }

  lemma {:induction false} PermutationsFromSound(xs: seq<string>, k: nat, i: nat)
    requires 0 < k && i <= |xs|
    ensures forall p :: p in PermutationsFrom(xs, k, i) ==> |p| == k && multiset(p) <= multiset(xs)
    decreases k, 0, |xs| - i
  {
    if i < |xs| {
      var head := Prefixed(xs[i], Permutations(RemoveAt(xs, i), k - 1));
      var tail := PermutationsFrom(xs, k, i + 1);
      HeadSound(xs, k, i);
      PermutationsFromSound(xs, k, i + 1);
      assert PermutationsFrom(xs, k, i) == head + tail;
      forall p | p in head + tail ensures |p| == k && multiset(p) <= multiset(xs) {
        if p !in head {
          assert p in tail;
        }
      }
    }
  }

  lemma {:induction false} HeadSound(xs: seq<string>, k: nat, i: nat)
    requires 0 < k && i < |xs|
    ensures forall p :: p in Prefixed(xs[i], Permutations(RemoveAt(xs, i), k - 1)) ==>
      |p| == k && multiset(p) <= multiset(xs)
    decreases k, 0, 0
  {
    var rest := RemoveAt(xs, i);
    PermutationsSound(rest, k - 1);
    PrefixedSound(xs, i, Permutations(rest, k - 1), k);
  }

  lemma PrefixedSound(xs: seq<string>, i: nat, ps: seq<seq<string>>, k: nat)
    requires i < |xs| && 0 < k
    requires forall q :: q in ps ==> |q| == k - 1 && multiset(q) <= multiset(RemoveAt(xs, i))
    ensures forall p :: p in Prefixed(xs[i], ps) ==> |p| == k && multiset(p) <= multiset(xs)
  {
    var head := Prefixed(xs[i], ps);
    assert multiset(RemoveAt(xs, i)) + multiset{xs[i]} == multiset(xs) by {
      assert xs[i] in multiset(xs);
    }
    forall p | p in head ensures |p| == k && multiset(p) <= multiset(xs) {
      var j :| 0 <= j < |head| && head[j] == p;
      assert ps[j] in ps;
      assert multiset(p) == multiset{xs[i]} + multiset(ps[j]);
    }
  }

  /** Every ordered selection of `k` positions of `xs` is listed. */
  lemma {:induction false} PermutationsComplete(xs: seq<string>, k: nat, p: seq<string>)
    requires |p| == k && multiset(p) <= multiset(xs)
    ensures p in Permutations(xs, k)
    decreases k
  {
    if k > 0 {
      assert p[0] in multiset(p);
      var i :| 0 <= i < |xs| && xs[i] == p[0];
      var rest := RemoveAt(xs, i);
      assert p == [p[0]] + p[1..];
      assert multiset(p[1..]) <= multiset(rest);
      PermutationsComplete(rest, k - 1, p[1..]);
      var ps := Permutations(rest, k - 1);
      var j :| 0 <= j < |ps| && ps[j] == p[1..];
      assert Prefixed(xs[i], ps)[j] == p;
      PermutationsFromHas(xs, k, 0, i, p);
    }
  }

  lemma {:induction false} PermutationsFromHas(xs: seq<string>, k: nat, i0: nat, i: nat, p: seq<string>)
    requires 0 < k && i0 <= i < |xs|
    requires p in Prefixed(xs[i], Permutations(RemoveAt(xs, i), k - 1))
    ensures p in PermutationsFrom(xs, k, i0)
    decreases i - i0
  {
    if i0 < i {
      PermutationsFromHas(xs, k, i0 + 1, i, p);
    }
  }

  /** No component is listed twice when none is to be repaired twice. */
  lemma PermutationsDistinct(xs: seq<string>, k: nat, p: seq<string>)
    requires Lists.Distinct(xs) && p in Permutations(xs, k)
    ensures Lists.Distinct(p) && forall x :: x in p ==> x in xs
  {
    PermutationsSound(xs, k);
    CountsDistinct(xs);
    forall x ensures multiset(p)[x] <= 1 {
      assert multiset(p)[x] <= multiset(xs)[x];
    }
    CountsDistinct(p);
    forall x | x in p ensures x in xs {
      assert x in multiset(p);
    }
  }

  lemma {:induction false} CountsDistinct(s: seq<string>)
    ensures Lists.Distinct(s) <==> forall x :: multiset(s)[x] <= 1
  {
    if s != [] {
      var t := s[1..];
      CountsDistinct(t);
      assert s == [s[0]] + t;
      if Lists.Distinct(s) {
        assert Lists.Distinct(t) by {
          forall i, j | 0 <= i < j < |t| ensures t[i] != t[j] {
            assert t[i] == s[i + 1] && t[j] == s[j + 1];
          }
        }
        assert s[0] !in t;
      } else {
        var i, j :| 0 <= i < j < |s| && s[i] == s[j];
        if i == 0 {
          assert s[j] == t[j - 1];
          assert multiset(s)[s[0]] == 1 + multiset(t)[s[0]];
        } else {
          assert s[i] == t[i - 1] && s[j] == t[j - 1];
          assert !Lists.Distinct(t);
          var x :| multiset(t)[x] > 1;
          assert multiset(s)[x] >= multiset(t)[x];
        }
      }
    }
  }

  /** There is always at least one candidate when the length is at most the
      number of components. */
  lemma PermutationsNonEmpty(xs: seq<string>, k: nat)
    requires k <= |xs|
    ensures |Permutations(xs, k)| > 0
  {
    assert xs == xs[..k] + xs[k..];
    PermutationsComplete(xs, k, xs[..k]);
  }

  /** `get_repair_permutations`: selections of `min(horizon, n)` of the
      components still to repair. */
  function RepairPermutations(toRepair: seq<string>, horizon: nat): seq<seq<string>> {
    Permutations(toRepair, if |toRepair| >= horizon then horizon else |toRepair|)
  }

  /** The candidates are exactly the orderings of `min(horizon, n)`
      components still to repair, and there is at least one. */
  lemma RepairPermutationsSpec(toRepair: seq<string>, horizon: nat)
    ensures var k := if |toRepair| >= horizon then horizon else |toRepair|;
      |RepairPermutations(toRepair, horizon)| > 0
      && forall p :: p in RepairPermutations(toRepair, horizon) <==> |p| == k && multiset(p) <= multiset(toRepair)
  {
    var k := if |toRepair| >= horizon then horizon else |toRepair|;
    PermutationsNonEmpty(toRepair, k);
    PermutationsSound(toRepair, k);
    forall p | |p| == k && multiset(p) <= multiset(toRepair)
      ensures p in RepairPermutations(toRepair, horizon)
    {
      PermutationsComplete(toRepair, k, p);
    }
  }

  /** Each candidate is simulated as the repaired list followed by it. */
  function Cumulative(repaired: seq<string>, orders: seq<seq<string>>): (cs: seq<seq<string>>)
    ensures |cs| == |orders|
    ensures forall i :: 0 <= i < |cs| ==> cs[i] == repaired + orders[i]
  {
    seq(|orders|, i requires 0 <= i < |orders| => repaired + orders[i])
  }

  function Scores(cands: seq<seq<string>>, score: seq<string> -> real): (s: seq<real>)
    ensures |s| == |cands|
    ensures forall i :: 0 <= i < |s| ==> s[i] == score(cands[i])
  {
    seq(|cands|, i requires 0 <= i < |cands| => score(cands[i]))
  }

  /** The candidate kept by `auc is None or score >= auc`, over the scores
      in order. */
  function BestIndex(scores: seq<real>): (b: nat)
    requires |scores| > 0
    ensures b < |scores|
  {
    if |scores| == 1 then 0
    else
      var b := BestIndex(scores[..|scores| - 1]);
      if scores[|scores| - 1] >= scores[b] then |scores| - 1 else b
  }

  /** The kept candidate has the highest score, and every later candidate
      scores strictly lower: among equal scores the last one wins. These
      two facts determine the index. */
  lemma {:induction false} BestIndexSpec(scores: seq<real>)
    requires |scores| > 0
    ensures forall j :: 0 <= j < |scores| ==> scores[j] <= scores[BestIndex(scores)]
    ensures forall j :: BestIndex(scores) < j < |scores| ==> scores[j] < scores[BestIndex(scores)]
  {
    if |scores| > 1 {
      BestIndexSpec(scores[..|scores| - 1]);
    }
  }

  lemma BestIndexUnique(scores: seq<real>, b: nat)
    requires b < |scores|
    requires forall j :: 0 <= j < |scores| ==> scores[j] <= scores[b]
    requires forall j :: b < j < |scores| ==> scores[j] < scores[b]
    ensures b == BestIndex(scores)
  {
    BestIndexSpec(scores);
  }

  /** The first component of `order` that is not repaired yet: the `[0]` of
      the list comprehension, which has no element when every component of
      the order is repaired. */
  function FirstNew(order: seq<string>, repaired: seq<string>): (r: Option<string>)
    ensures r.Some? ==> r.value in order && r.value !in repaired
    ensures r.None? <==> forall x :: x in order ==> x in repaired
  {
    if order == [] then None
    else if order[0] !in repaired then Some(order[0])
    else FirstNew(order[1..], repaired)
  }

  /** Every component occurs at most once over both lists. */
  ghost predicate Once(toRepair: seq<string>, repaired: seq<string>) {
    forall x :: (multiset(toRepair) + multiset(repaired))[x] <= 1
  }

  /** With a horizon of at least one and no component listed twice, a pass
      commits the first component of its best selection, which is one
      still to repair. */
  lemma CommitsFirstOfSelection(toRepair: seq<string>, repaired: seq<string>, p: seq<string>)
    requires Once(toRepair, repaired)
    requires |p| > 0 && multiset(p) <= multiset(toRepair)
    ensures FirstNew(repaired + p, repaired) == Some(p[0]) && p[0] in toRepair
  {
    assert p[0] in multiset(p);
    assert multiset(toRepair)[p[0]] >= 1;
    assert multiset(repaired)[p[0]] == 0 by {
      assert (multiset(toRepair) + multiset(repaired))[p[0]] <= 1;
    }
    FirstNewSkips(repaired, p);
  }

  lemma {:induction false} FirstNewSkips(repaired: seq<string>, p: seq<string>)
    requires |p| > 0 && p[0] !in repaired
    ensures FirstNew(repaired + p, repaired) == Some(p[0])
  {
    FirstNewFrom(repaired, repaired, p);
  }

  lemma {:induction false} FirstNewFrom(pre: seq<string>, repaired: seq<string>, p: seq<string>)
    requires forall x :: x in pre ==> x in repaired
    requires |p| > 0 && p[0] !in repaired
    ensures FirstNew(pre + p, repaired) == Some(p[0])
  {
    if pre == [] {
      assert pre + p == p;
    } else {
      assert (pre + p)[1..] == pre[1..] + p;
      assert pre[0] in pre;
      FirstNewFrom(pre[1..], repaired, p);
    }
  }

  /** With a horizon of zero the only candidate is the repaired list
      itself, and the commit step finds no component. */
  lemma ZeroHorizonFindsNothing(toRepair: seq<string>, repaired: seq<string>)
    ensures RepairPermutations(toRepair, 0) == [[]]
    ensures Cumulative(repaired, RepairPermutations(toRepair, 0)) == [repaired]
    ensures FirstNew(repaired, repaired).None?
  {
    assert repaired + [] == repaired;
    assert Cumulative(repaired, [[]])[0] == repaired;
  }

  /** One row of the optimization log. */
  datatype LogRow = LogRow(order: seq<string>, auc: real)

  function LogOf(cands: seq<seq<string>>, score: seq<string> -> real): (log: seq<LogRow>)
    ensures |log| == |cands|
    ensures forall i :: 0 <= i < |log| ==> log[i] == LogRow(cands[i], score(cands[i]))
  {
    seq(|cands|, i requires 0 <= i < |cands| => LogRow(cands[i], score(cands[i])))
  }

  class BruteForceOptimizer {
    var predictionHorizon: nat
    var bestRepairStrategy: Option<seq<string>>
    var auc: Option<real>
    var aucLog: seq<LogRow>

    /** A horizon of `None` becomes 0. */
    constructor (horizon: Option<nat>)
      ensures predictionHorizon == if horizon.None? then 0 else horizon.value
      ensures bestRepairStrategy.None? && auc.None? && aucLog == []
    {
      predictionHorizon := if horizon.None? then 0 else horizon.value;
      bestRepairStrategy := None;
      auc := None;
      aucLog := [];
    }

    /** Scores every candidate in order and keeps the last best one. The
        best score is `None` between passes. */
    method EvaluateCandidates(repaired: seq<string>, orders: seq<seq<string>>, score: seq<string> -> real)
      requires auc.None? && |orders| > 0
      modifies this`auc, this`bestRepairStrategy, this`aucLog
      ensures var cands := Cumulative(repaired, orders);
        var b := BestIndex(Scores(cands, score));
        bestRepairStrategy == Some(cands[b]) && auc == Some(score(cands[b]))
        && aucLog == old(aucLog) + LogOf(cands, score)
    {
      var cands := Cumulative(repaired, orders);
      ghost var scores := Scores(cands, score);
      var i := 0;
      while i < |cands|
        invariant 0 <= i <= |cands|
        invariant i == 0 ==> auc.None?
        invariant i > 0 ==> var b := BestIndex(scores[..i]);
          bestRepairStrategy == Some(cands[b]) && auc == Some(scores[b])
        invariant aucLog == old(aucLog) + LogOf(cands[..i], score)
      {
        var s := score(cands[i]);
        assert scores[..i + 1][..i] == scores[..i];
        aucLog := aucLog + [LogRow(cands[i], s)];
        assert LogOf(cands[..i + 1], score) == LogOf(cands[..i], score) + [LogRow(cands[i], s)];
        if auc.None? || s >= auc.value {
          auc := Some(s);
          bestRepairStrategy := Some(cands[i]);
        }
        i := i + 1;
      }
      assert scores[..i] == scores;
      assert cands[..i] == cands;
    }

    /** One prediction horizon: evaluate the candidates, then move the
        first new component of the best order from the to-repair list to
        the repaired list. No such component is an IndexError, and one that
        is not in the to-repair list is the ValueError of `remove`. */
    method Pass(sim: Simulation.NetworkSimulation, score: seq<string> -> real) returns (r: Result<string>)
      requires auc.None?
      modifies this`auc, this`bestRepairStrategy, this`aucLog
      modifies sim`componentsToRepair, sim`componentsRepaired
      ensures var cands := Cumulative(old(sim.componentsRepaired),
                                      RepairPermutations(old(sim.componentsToRepair), predictionHorizon));
        |cands| > 0 && bestRepairStrategy == Some(cands[BestIndex(Scores(cands, score))])
        && aucLog == old(aucLog) + LogOf(cands, score)
        && (r.Ok? <==> FirstNew(bestRepairStrategy.value, old(sim.componentsRepaired)).Some?
                       && FirstNew(bestRepairStrategy.value, old(sim.componentsRepaired)).value in old(sim.componentsToRepair))
        && (r.Ok? ==> r.value == FirstNew(bestRepairStrategy.value, old(sim.componentsRepaired)).value
                      && auc.None?
                      && sim.componentsToRepair == Simulation.RemoveFirst(old(sim.componentsToRepair), r.value)
                      && sim.componentsRepaired == old(sim.componentsRepaired) + [r.value])
        && (r.Err? ==> (r.error == IndexError || r.error == ValueError)
                       && sim.componentsToRepair == old(sim.componentsToRepair)
                       && sim.componentsRepaired == old(sim.componentsRepaired))
    {
      var orders := RepairPermutations(sim.componentsToRepair, predictionHorizon);
      RepairPermutationsSpec(sim.componentsToRepair, predictionHorizon);
      EvaluateCandidates(sim.componentsRepaired, orders, score);
      var next := FirstNew(bestRepairStrategy.value, sim.componentsRepaired);
      if next.None? {
        return Err(IndexError);
      }
      var u := sim.UpdateRepairedComponents(next.value);
      if u.Err? {
        return Err(u.error);
      }
      auc := None;
      r := Ok(next.value);
    }

    /** `find_optimal_recovery`: passes until nothing is left to repair.
        Every component ends up in the repaired list, in commit order, and
        when the horizon is at least one and no component is listed twice,
        no pass fails. */
    method FindOptimalRecovery(sim: Simulation.NetworkSimulation, score: seq<string> -> real) returns (r: Result<()>)
      requires auc.None?
      modifies this`auc, this`bestRepairStrategy, this`aucLog
      modifies sim`componentsToRepair, sim`componentsRepaired
      ensures multiset(sim.componentsToRepair) + multiset(sim.componentsRepaired)
           == multiset(old(sim.componentsToRepair)) + multiset(old(sim.componentsRepaired))
      ensures |old(sim.componentsRepaired)| <= |sim.componentsRepaired|
      ensures sim.componentsRepaired[..|old(sim.componentsRepaired)|] == old(sim.componentsRepaired)
      ensures r.Ok? ==> sim.componentsToRepair == [] && auc.None?
      ensures predictionHorizon >= 1 && Once(old(sim.componentsToRepair), old(sim.componentsRepaired)) ==> r.Ok?
    {
      ghost var start := sim.componentsRepaired;
      while |sim.componentsToRepair| > 0
        invariant auc.None?
        invariant multiset(sim.componentsToRepair) + multiset(sim.componentsRepaired)
               == multiset(old(sim.componentsToRepair)) + multiset(old(sim.componentsRepaired))
        invariant |start| <= |sim.componentsRepaired| && sim.componentsRepaired[..|start|] == start
        decreases |sim.componentsToRepair|
      {
        ghost var before := sim.componentsRepaired;
        ghost var toRepair := sim.componentsToRepair;
        var p := Pass(sim, score);
        if p.Err? {
          PassFails(toRepair, before, predictionHorizon, bestRepairStrategy.value, score, old(sim.componentsToRepair), old(sim.componentsRepaired));
          return Err(p.error);
        }
        assert sim.componentsRepaired[..|start|] == before[..|start|];
      }
      r := Ok(());
    }
  }

  /** A pass can only fail when the horizon is zero or a component is
      listed twice, since otherwise its best order begins with a new
      component still to repair. */
  lemma PassFails(toRepair: seq<string>, repaired: seq<string>, horizon: nat, best: seq<string>,
                  score: seq<string> -> real, toRepair0: seq<string>, repaired0: seq<string>)
    requires |toRepair| > 0
    requires multiset(toRepair) + multiset(repaired) == multiset(toRepair0) + multiset(repaired0)
    requires var cands := Cumulative(repaired, RepairPermutations(toRepair, horizon));
      |cands| > 0 && best == cands[BestIndex(Scores(cands, score))]
    requires !(FirstNew(best, repaired).Some? && FirstNew(best, repaired).value in toRepair)
    ensures !(horizon >= 1 && Once(toRepair0, repaired0))
  {
    if horizon >= 1 && Once(toRepair0, repaired0) {
      var orders := RepairPermutations(toRepair, horizon);
      RepairPermutationsSpec(toRepair, horizon);
      var cands := Cumulative(repaired, orders);
      var b := BestIndex(Scores(cands, score));
      assert orders[b] in orders;
      CommitsFirstOfSelection(toRepair, repaired, orders[b]);
    }
  }

  /** Python's `a, b, c = values`: anything but three values is a
      ValueError. */
  function UnpackThree<T>(vals: seq<T>): (r: Result<(T, T, T)>)
    ensures r.Ok? <==> |vals| == 3
    ensures r.Err? ==> r.error == ValueError
  {
    if |vals| == 3 then Ok((vals[0], vals[1], vals[2])) else Err(ValueError)
  }

  /** The scoring step as written: the two weighted areas returned by the
      metrics object are unpacked into three names, so every candidate
      evaluation raises before any score is compared. */
  method ScoreAsWritten(m: ResilienceMetrics.WeightedResilienceMetric) returns (r: Result<real>)
    ensures r == Err(ValueError)
  {
    var vals := m.GetWeightedAucMetrics();
    var t := UnpackThree(vals);
    if t.Err? {
      return Err(t.error);
    }
    assert false;
    r := Err(ValueError);
  }
}
