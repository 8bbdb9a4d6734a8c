/** The oldest simulation driver, dreaminsg_integrated_model/simulation.py.
    Its expansion is the one of the later driver without the final shift
    of the time stamps. Its step loop visits every unique time stamp in
    table order, the last one included, and passes each step the next time
    stamp; at the last step that is the value left over from the step
    before, so the last window is empty, and a table with a single time
    stamp never binds it at all. */
module OldestSimulation {
  import opened Wrappers
  import opened Lists
  import opened EventTable
  import opened Simulation
  import opened OldSimulation

  /** `expand_event_table(disaster_recovery_object, initial_sim_step,
      add_points)`: the same two phases, then the rows sorted by time and
      left at their own time stamps. */
  method ExpandEventTable(orig: seq<Row>, disrupted: seq<string>, initialSimStep: int, addPoints: int)
    returns (table: seq<Row>, r: Result<()>)
    ensures GridOf(Unique(TimeColumn(orig)), addPoints, initialSimStep).Err? ==>
      r == Err(GridOf(Unique(TimeColumn(orig)), addPoints, initialSimStep).error) && table == orig
    ensures r.Err? ==> Extends(orig, table)
    ensures r.Ok? ==>
      var grid := GridOf(Unique(TimeColumn(orig)), addPoints, initialSimStep);
      grid.Ok? && SortedByTime(table)
      && exists added :: OldExpanded(orig, added, disrupted, grid.value) && multiset(table) == multiset(added)
  {
    table, r := ExpandRows(orig, disrupted, initialSimStep, addPoints, 0);
    if r.Ok? {
      ghost var grid := GridOf(Unique(TimeColumn(orig)), addPoints, initialSimStep).value;
      ghost var added, sorted :| OldExpanded(orig, added, disrupted, grid)
        && SortedByTime(sorted) && multiset(sorted) == multiset(added) && table == Shifted(sorted, 0);
      assert table == sorted;
    }
  }

  /** The time stamp a step at index `k` passes on as the next one. */
  function NextOf(all: seq<int>, k: nat): int
    requires |all| >= 2 && k < |all|
  {
    if k < |all| - 1 then all[k + 1] else all[k]
  }

  /** `simulate_interdependent_effects` without its solvers: step `k`
      updates the components at `all[k]` and the dependencies over the
      window from `all[k]` to the next time stamp, runs both models and
      records the step. The first step sets the previous time stamp; every
      later one advances the water model's duration by the gap to the
      previous time stamp and sets the report time step to that gap. With
      a single time stamp the next one is never bound, an
      UnboundLocalError at the first update, before any change. */
  method SimulateInterdependentEffects(table: seq<Row>, d: int, report0: int, readings: nat -> Readings,
                                       basePower: real, baseWater: real)
    returns (all: seq<int>, steps: seq<Step>, samples: seq<Sample>, duration: int, report: int, err: Option<Exception>)
    ensures all == Unique(TimeColumn(table))
    ensures err.Some? <==> |all| == 1
    ensures err.Some? ==> err == Some(UnboundLocalError) && steps == [] && samples == [] && duration == d && report == report0
    ensures err.None? ==>
      |steps| == |all| && |samples| == |all|
      && (forall k :: 0 <= k < |all| ==> steps[k] == Step(all[k], NextOf(all, k), all[k]))
      && (forall k :: 0 <= k < |all| ==> samples[k] == SampleOf(all[k], readings(k), basePower, baseWater))
    ensures |all| == 0 ==> duration == d && report == report0
    ensures |all| >= 2 ==> duration == d + all[|all| - 1] - all[0] && report == all[|all| - 1] - all[|all| - 2]
  {
    all := Unique(TimeColumn(table));
    UniqueSpec(TimeColumn(table));
    steps := [];
    samples := [];
    duration := d;
    report := report0;
    err := None;
    var previous := 0;
    var next: Option<int> := None;
    var index := 0;
    while index < |all|
      invariant 0 <= index <= |all|
      invariant index > 0 ==> |all| >= 2
      invariant index == 0 ==> next.None? && duration == d && report == report0
      invariant index > 0 ==> next == Some(all[if index < |all| then index else |all| - 1])
      invariant index > 0 ==> previous == all[index - 1] && duration == d + all[index - 1] - all[0]
      invariant index > 1 ==> report == all[index - 1] - all[index - 2]
      invariant index == 1 ==> report == report0
      invariant |steps| == index && |samples| == index
      invariant forall k :: 0 <= k < index ==> steps[k] == Step(all[k], NextOf(all, k), all[k])
      invariant forall k :: 0 <= k < index ==> samples[k] == SampleOf(all[k], readings(k), basePower, baseWater)
    {
      var t := all[index];
      if index != |all| - 1 {
        next := Some(all[index + 1]);
      }
      if next.None? {
        return all, [], [], d, report0, Some(UnboundLocalError);
      }
      steps := steps + [Step(t, next.value, t)];
      if t == all[0] {
        previous := all[0];
      } else {
        duration := duration + (t - previous);
        report := t - previous;
        previous := t;
      }
      samples := samples + [SampleOf(t, readings(index), basePower, baseWater)];
      index := index + 1;
    }
  }
}
