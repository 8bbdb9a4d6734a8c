/** The simulation driver of dreaminsg_integrated_model/src/simulation.py:
    the expansion of the event table with forward-filled rows, and the
    step loop that runs the directly affected components, the power flow,
    the dependencies and the water model over consecutive time windows.

    The expansion here differs from the later one in three ways: phase one
    fills in the disrupted components (the list the scenario names, not
    the components of the table), phase two adds every grid time a
    component lacks (no 60 s exclusion), and the sorted table is moved
    later by the object's own simulation step. */
module OldSimulation {
  import opened Wrappers
  import opened Lists
  import opened Sorting
  import opened EventTable
  import opened EventFill
  import opened Simulation
  import ResilienceMetrics
  import DisruptGenerator

  // -----------------------------------------------------------------------
  // The expansion

  /** What the expansion makes of `orig` before sorting: every disrupted
      component has a row at every original time stamp, every component
      of the original table has a row at every grid time, and every added
      row is a faithful copy, at one of those times, of one of those
      components. */
  predicate OldExpanded(orig: seq<Row>, table: seq<Row>, disrupted: seq<string>, grid: seq<int>) {
    Extends(orig, table)
    && (forall c, t :: c in disrupted && t in TimeSet(orig) ==> (c, t) in Pairs(table))
    && (forall c, g :: c in ComponentSet(orig) && g in grid ==> (c, g) in Pairs(table))
    && (forall k :: |orig| <= k < |table| ==>
          (table[k].component in disrupted || table[k].component in ComponentSet(orig))
          && (table[k].time in TimeSet(orig) || table[k].time in grid))
  }

  /** Phase one for one time stamp `t`: `components_to_add` is every
      disrupted component without a row at `t` (and, as written, every
      component at `t` that is not in the disrupted list, which gets a
      second row there); each gets a copy of its latest earlier row. The
      only failure is a component with no row at or before `t`, which is
      a disrupted one. */
  method OldFillAtTime(ghost orig: seq<Row>, table: seq<Row>, disrupted: seq<string>, t: int)
    returns (out: seq<Row>, err: Option<Exception>)
    requires Extends(orig, table)
    ensures Extends(orig, out) && |table| <= |out| && out[..|table|] == table
    ensures forall k :: |table| <= k < |out| ==>
      out[k].time == t && (out[k].component in disrupted || (out[k].component, t) in Pairs(table))
    ensures err.None? ==> forall c :: c in disrupted ==> (c, t) in Pairs(out)
    ensures err.Some? ==>
      err == Some(ValueError)
      && exists c :: c in disrupted && forall r :: r in table && r.component == c ==> r.time > t
  {
    var curr := ComponentsAt(table, t);
    var toAdd := Missing(disrupted + curr, disrupted, curr);
    PhaseOneCandidates(table, disrupted, t);
    out := table;
    err := None;
    var k := 0;
    while k < |toAdd|
      invariant 0 <= k <= |toAdd|
      invariant Extends(orig, out) && |table| <= |out| && out[..|table|] == table
      invariant forall j :: |table| <= j < |out| ==> out[j].time == t && out[j].component in disrupted + curr
      invariant forall j :: 0 <= j < k ==> (toAdd[j], t) in Pairs(out)
    {
      var c := toAdd[k];
      ghost var prev := out;
      var e;
      out, e := AppendCopy(orig, out, c, t);
      if e.Some? {
        FailureIsDisrupted(table, prev, disrupted, c, t);
        CurrAtT(table, out, disrupted, t);
        return out, e;
      }
      PhaseOneStep(table, prev, out, toAdd, disrupted + curr, t, k);
      k := k + 1;
    }
    CurrAtT(table, out, disrupted, t);
    PairsGrow(table, out);
    forall c | c in disrupted
      ensures (c, t) in Pairs(out)
    {
      if c in toAdd {
        var j :| 0 <= j < |toAdd| && toAdd[j] == c;
      }
    }
  }

  /** What phase one considers at `t`: its candidates are disrupted or
      already at `t`, and a disrupted component it skips is already at
      `t`. */
  lemma PhaseOneCandidates(table: seq<Row>, disrupted: seq<string>, t: int)
    ensures var curr := ComponentsAt(table, t);
      var toAdd := Missing(disrupted + curr, disrupted, curr);
      (forall x :: x in toAdd ==> x in disrupted + curr)
      && (forall x :: x in toAdd && x !in disrupted ==> x in curr)
      && (forall c :: c in disrupted && c !in toAdd ==> (c, t) in Pairs(table))
  {
    var curr := ComponentsAt(table, t);
    ComponentsAtSpec(table, t);
    MissingSpec(disrupted + curr, disrupted, curr);
    PairsSpec(table);
  }

  /** A component that cannot be copied at `t` has no row at or before
      `t`, so it is not one of the components at `t`: it is disrupted. */
  lemma FailureIsDisrupted(table: seq<Row>, prev: seq<Row>, disrupted: seq<string>, c: string, t: int)
    requires |table| <= |prev| && prev[..|table|] == table
    requires c in Missing(disrupted + ComponentsAt(table, t), disrupted, ComponentsAt(table, t))
    requires forall r :: r in prev && r.component == c ==> r.time > t
    ensures c in disrupted && forall r :: r in table && r.component == c ==> r.time > t
  {
    var curr := ComponentsAt(table, t);
    MissingSpec(disrupted + curr, disrupted, curr);
    ComponentsAtSpec(table, t);
    forall r | r in table
      ensures r in prev
    {
      var i :| 0 <= i < |table| && table[i] == r;
      assert prev[i] == r;
    }
  }

  /** The components of the table at `t` already have a row there. */
  lemma CurrAtT(table: seq<Row>, out: seq<Row>, disrupted: seq<string>, t: int)
    requires |table| <= |out| && out[..|table|] == table
    requires forall j :: |table| <= j < |out| ==> out[j].time == t && out[j].component in disrupted + ComponentsAt(table, t)
    ensures forall j :: |table| <= j < |out| ==>
      out[j].time == t && (out[j].component in disrupted || (out[j].component, t) in Pairs(table))
  {
    ComponentsAtSpec(table, t);
    PairsSpec(table);
  }

  /** Phase one, time stamp by time stamp over the original time stamps. */
  method OldFillTimes(orig: seq<Row>, disrupted: seq<string>, times: seq<int>)
    returns (table: seq<Row>, err: Option<Exception>)
    requires forall x :: x in times <==> x in TimeSet(orig)
    ensures Extends(orig, table)
    ensures forall k :: |orig| <= k < |table| ==>
      table[k].time in TimeSet(orig) && (table[k].component in disrupted || table[k].component in ComponentSet(orig))
    ensures err.None? ==> forall c, t :: c in disrupted && t in TimeSet(orig) ==> (c, t) in Pairs(table)
    ensures err.Some? ==> err == Some(ValueError)
  {
    table := orig;
    err := None;
    var i := 0;
    while i < |times|
      invariant 0 <= i <= |times|
      invariant Extends(orig, table)
      invariant forall k :: |orig| <= k < |table| ==>
        table[k].time in TimeSet(orig) && (table[k].component in disrupted || table[k].component in ComponentSet(orig))
      invariant forall j, c :: 0 <= j < i && c in disrupted ==> (c, times[j]) in Pairs(table)
    {
      ghost var before := table;
      var out, e := OldFillAtTime(orig, table, disrupted, times[i]);
      assert times[i] in TimeSet(orig);
      ExtendsSpec(orig, before);
      KnownOrDisrupted(orig, before, out, disrupted, times[i]);
      table := out;
      if e.Some? {
        return table, Some(ValueError);
      }
      PairsGrow(before, out);
      forall j, c | 0 <= j < i + 1 && c in disrupted
        ensures (c, times[j]) in Pairs(table)
      {
        if j < i {
          assert (c, times[j]) in Pairs(before);
        }
      }
      i := i + 1;
    }
  }

  /** The rows phase one adds at an original time stamp name a disrupted
      component or a component of the original table. */
  lemma KnownOrDisrupted(orig: seq<Row>, before: seq<Row>, out: seq<Row>, disrupted: seq<string>, t: int)
    requires t in TimeSet(orig)
    requires |orig| <= |before| && before[..|orig|] == orig
    requires forall k :: |orig| <= k < |before| ==>
      before[k].time in TimeSet(orig) && (before[k].component in disrupted || before[k].component in ComponentSet(orig))
    requires |before| <= |out| && out[..|before|] == before
    requires forall k :: |before| <= k < |out| ==>
      out[k].time == t && (out[k].component in disrupted || (out[k].component, t) in Pairs(before))
    ensures forall k :: |orig| <= k < |out| ==>
      out[k].time in TimeSet(orig) && (out[k].component in disrupted || out[k].component in ComponentSet(orig))
  {
    PairsSpec(before);
    SetsSpec(orig);
    forall k | |orig| <= k < |out|
      ensures out[k].time in TimeSet(orig) && (out[k].component in disrupted || out[k].component in ComponentSet(orig))
    {
      if k < |before| {
        assert out[k] == before[k];
      } else if out[k].component !in disrupted {
        var r :| r in before && (r.component, r.time) == (out[k].component, t);
        var i :| 0 <= i < |before| && before[i] == r;
        if i < |orig| {
          assert orig[i] == r;
        }
      }
    }
  }

  /** Phase two, component by component over the original table's
      components: every grid time the component has no row at gets a
      copy. */
  method OldFillGrids(ghost orig: seq<Row>, table1: seq<Row>, comps: seq<string>, grid: seq<int>)
    returns (table: seq<Row>, err: Option<Exception>)
    requires Extends(orig, table1)
    ensures Extends(orig, table) && |table1| <= |table| && table[..|table1|] == table1
    ensures forall k :: |table1| <= k < |table| ==> table[k].component in comps && table[k].time in grid
    ensures err.None? ==> forall c, g :: c in comps && g in grid ==> (c, g) in Pairs(table)
    ensures err.Some? ==> err == Some(ValueError)
  {
    table := table1;
    err := None;
    var j := 0;
    while j < |comps|
      invariant 0 <= j <= |comps|
      invariant Extends(orig, table) && |table1| <= |table| && table[..|table1|] == table1
      invariant forall k :: |table1| <= k < |table| ==> table[k].component in comps[..j] && table[k].time in grid
      invariant forall c, g :: c in comps[..j] && g in grid ==> (c, g) in Pairs(table)
    {
      var c := comps[j];
      ghost var before := table;
      var out, e := FillGrid(orig, table, c, grid, 0);
      OldGridsStep(table1, before, out, comps, j, grid, e.None?);
      table := out;
      if e.Some? {
        return table, e;
      }
      j := j + 1;
    }
    assert comps[..j] == comps;
  }

  /** The turn of `comps[j]` in phase two keeps the invariants of the
      phase; when it completes, every grid time has a row of `comps[j]`,
      either an earlier one or the copy. */
  lemma OldGridsStep(table1: seq<Row>, before: seq<Row>, out: seq<Row>, comps: seq<string>, j: nat,
                     grid: seq<int>, done: bool)
    requires j < |comps|
    requires |table1| <= |before| && before[..|table1|] == table1
    requires |before| <= |out| && out[..|before|] == before
    requires forall k :: |before| <= k < |out| ==> out[k].component == comps[j] && out[k].time in grid
    requires done ==> forall g :: g in grid && Clear(g, TimesOf(before, comps[j]), 0) ==> (comps[j], g) in Pairs(out)
    requires forall k :: |table1| <= k < |before| ==> before[k].component in comps[..j] && before[k].time in grid
    requires forall c, g :: c in comps[..j] && g in grid ==> (c, g) in Pairs(before)
    ensures |table1| <= |out| && out[..|table1|] == table1
    ensures forall k :: |table1| <= k < |out| ==> out[k].component in comps[..j + 1] && out[k].time in grid
    ensures forall k :: |table1| <= k < |out| ==> out[k].component in comps
    ensures done ==> forall c, g :: c in comps[..j + 1] && g in grid ==> (c, g) in Pairs(out)
  {
    PairsGrow(before, out);
    assert comps[..j + 1] == comps[..j] + [comps[j]];
    assert out[..|table1|] == before[..|table1|];
    forall k | |table1| <= k < |out|
      ensures out[k].component in comps[..j + 1] && out[k].time in grid
    {
      if k < |before| {
        assert out[k] == before[k];
      }
    }
    if done {
      TimesOfSpec(before, comps[j]);
      PairsSpec(before);
    }
  }

  /** Sorting then shifting leaves the table sorted. */
  lemma ShiftedSorted(rows: seq<Row>, d: int)
    requires SortedByTime(rows)
    ensures SortedByTime(Shifted(rows, d))
  {
    var r := Shifted(rows, d);
    forall i, j | 0 <= i < j < |r|
      ensures TimeOf(r[i]) <= TimeOf(r[j])
    {
      assert TimeOf(rows[i]) <= TimeOf(rows[j]);
    }
  }

  /** The expansion on a table of rows: phase one over the original time
      stamps for the `disrupted` components, phase two over the grid for
      the original table's components, then the rows sorted by time and
      moved `shift` seconds later. On an error the rows appended so far
      stay. */
  method ExpandRows(orig: seq<Row>, disrupted: seq<string>, initialSimStep: int, addPoints: int, shift: int)
    returns (table: seq<Row>, r: Result<()>)
    ensures GridOf(Unique(TimeColumn(orig)), addPoints, initialSimStep).Err? ==>
      r == Err(GridOf(Unique(TimeColumn(orig)), addPoints, initialSimStep).error) && table == orig
    ensures r.Err? ==> Extends(orig, table)
    ensures r.Ok? ==>
      var grid := GridOf(Unique(TimeColumn(orig)), addPoints, initialSimStep);
      grid.Ok? && SortedByTime(table)
      && exists added, sorted ::
        OldExpanded(orig, added, disrupted, grid.value)
        && SortedByTime(sorted) && multiset(sorted) == multiset(added)
        && table == Shifted(sorted, shift)
  {
    var comps := Unique(ComponentColumn(orig));
    var times := Unique(TimeColumn(orig));
    var grid := GridOf(times, addPoints, initialSimStep);
    if grid.Err? {
      return orig, Err(grid.error);
    }
    UniqueColumns(orig);
    var table1, err := OldFillTimes(orig, disrupted, times);
    if err.Some? {
      return table1, Err(err.value);
    }
    var added;
    added, err := OldFillGrids(orig, table1, comps, grid.value);
    if err.Some? {
      return added, Err(err.value);
    }
    ExpandedAfterBoth(orig, table1, added, disrupted, comps, grid.value);
    var sorted := SortValues(added);
    table := Shifted(sorted, shift);
    ShiftedSorted(sorted, shift);
    r := Ok(());
  }

  /** The two phases together give an expanded table. */
  lemma ExpandedAfterBoth(orig: seq<Row>, table1: seq<Row>, table: seq<Row>, disrupted: seq<string>,
                          comps: seq<string>, grid: seq<int>)
    requires forall x :: x in comps <==> x in ComponentSet(orig)
    requires forall k :: |orig| <= k < |table1| ==>
      table1[k].time in TimeSet(orig) && (table1[k].component in disrupted || table1[k].component in ComponentSet(orig))
    requires forall c, t :: c in disrupted && t in TimeSet(orig) ==> (c, t) in Pairs(table1)
    requires Extends(orig, table) && |table1| <= |table| && table[..|table1|] == table1
    requires forall k :: |table1| <= k < |table| ==> table[k].component in comps && table[k].time in grid
    requires forall c, g :: c in comps && g in grid ==> (c, g) in Pairs(table)
    ensures OldExpanded(orig, table, disrupted, grid)
  {
    PairsGrow(table1, table);
    forall k | |orig| <= k < |table|
      ensures (table[k].component in disrupted || table[k].component in ComponentSet(orig))
              && (table[k].time in TimeSet(orig) || table[k].time in grid)
    {
      if k < |table1| {
        assert table[k] == table1[k];
      }
    }
  }

  /** `expand_event_table(disaster_recovery_object, initial_sim_step,
      add_points)` on the single-crew recovery object: the event table
      exists only when some component is disrupted, and the sorted table
      is moved later by the object's simulation step. */
  method ExpandEventTable(dr: DisruptGenerator.DisruptionAndRecovery, initialSimStep: int, addPoints: int)
    returns (r: Result<()>)
    modifies dr`eventTable
    ensures !dr.hasEventTable ==> r == Err(AttributeError) && dr.eventTable == old(dr.eventTable)
    ensures r.Err? ==> Extends(old(dr.eventTable), dr.eventTable)
    ensures r.Ok? ==>
      var grid := GridOf(Unique(TimeColumn(old(dr.eventTable))), addPoints, initialSimStep);
      dr.hasEventTable && grid.Ok? && SortedByTime(dr.eventTable)
      && exists added, sorted ::
        OldExpanded(old(dr.eventTable), added, dr.disruptedComponents, grid.value)
        && SortedByTime(sorted) && multiset(sorted) == multiset(added)
        && dr.eventTable == Shifted(sorted, dr.simStep)
  {
    if !dr.hasEventTable {
      return Err(AttributeError);
    }
    var table;
    table, r := ExpandRows(dr.eventTable, dr.disruptedComponents, initialSimStep, addPoints, dr.simStep);
    dr.eventTable := table;
  }

  // -----------------------------------------------------------------------
  // The step loop

  /** What the solvers report after one step: the sums of the power flow's
      load and motor results and the sum of the junction demands of the
      water results. */
  datatype Readings = Readings(load: real, motor: real, demand: real)

  /** One entry of each of the three trackers: the time stamp in minutes,
      the power delivered over the base power demand and the water
      delivered over the base water demand. */
  datatype Sample = Sample(minutes: real, power: ResilienceMetrics.Float, water: ResilienceMetrics.Float)

  function SampleOf(t: int, r: Readings, basePower: real, baseWater: real): Sample {
    Sample(t as real / 60.0, ResilienceMetrics.Divide(r.load + r.motor, basePower), ResilienceMetrics.Divide(r.demand, baseWater))
  }

  function Seconds(t: int): int { t }

  /** `sorted(list(event_table.time_stamp.unique()))`. */
  function SortedTimes(table: seq<Row>): (ts: seq<int>)
    ensures SortedBy(ts, Seconds) && Distinct(ts)
    ensures forall t :: t in ts <==> t in TimeSet(table)
  {
    var u := Unique(TimeColumn(table));
    UniqueSpec(TimeColumn(table));
    UniqueColumns(table);
    var ts := SortBy(u, Seconds);
    DistinctKept(u, ts);
    assert forall t :: t in ts <==> t in multiset(u);
    ts
  }

  /** A reordering of a list without repeats has no repeats. */
  lemma DistinctKept(u: seq<int>, ts: seq<int>)
    requires Distinct(u) && multiset(ts) == multiset(u)
    ensures Distinct(ts)
  {
    forall i, j | 0 <= i < j < |ts|
      ensures ts[i] != ts[j]
    {
      if ts[i] == ts[j] {
        assert multiset(ts[..j])[ts[i]] >= 1 by { assert ts[..j][i] == ts[i]; }
        assert ts == ts[..j] + ts[j..];
        assert ts[j..][0] == ts[j];
        assert multiset(ts)[ts[i]] >= 2;
        DistinctOnce(u, ts[i]);
      }
    }
  }

  lemma {:induction false} DistinctOnce(u: seq<int>, x: int)
    requires Distinct(u)
    ensures multiset(u)[x] <= 1
  {
    if u != [] {
      var init := u[..|u| - 1];
      assert Distinct(init);
      DistinctOnce(init, x);
      assert u == init + [u[|u| - 1]];
      if u[|u| - 1] == x {
        assert x !in init by {
          forall i | 0 <= i < |init| ensures init[i] != x {
            assert init[i] == u[i];
          }
        }
      }
    }
  }

  /** The windows follow one another and each is non-empty, since the
      time stamps are sorted and distinct. */
  lemma WindowsAdvance(ts: seq<int>)
    requires SortedBy(ts, Seconds) && Distinct(ts)
    ensures forall k :: 0 <= k < |ts| - 1 ==> ts[k] < ts[k + 1]
  {
    forall k | 0 <= k < |ts| - 1
      ensures ts[k] < ts[k + 1]
    {
      assert Seconds(ts[k]) <= Seconds(ts[k + 1]);
    }
  }

  /** `simulate_interdependent_effects` without its solvers: for every
      sorted unique time stamp but the last, the step's calls run over the
      window from the water model's duration `d` to `d` plus the gap to
      the next time stamp, the trackers record the step, and the duration
      and the report time step both advance by the gap. `readings(k)` is
      what the solvers report at step `k`. */
  method SimulateInterdependentEffects(table: seq<Row>, d: int, report0: int, readings: nat -> Readings,
                                       basePower: real, baseWater: real)
    returns (all: seq<int>, steps: seq<Step>, samples: seq<Sample>, duration: int, report: int)
    ensures all == SortedTimes(table)
    ensures steps == Trace(all, Gaps(all, all), d, |Gaps(all, all)|)
    ensures |samples| == |steps|
    ensures forall k :: 0 <= k < |samples| ==> samples[k] == SampleOf(all[k], readings(k), basePower, baseWater)
    ensures duration == d + Sum(Gaps(all, all)) && report == report0 + Sum(Gaps(all, all))
  {
    all := SortedTimes(table);
    steps, samples, duration, report := StepLoop(all, d, report0, readings, basePower, baseWater);
  }

  /** The loop itself, over the time stamps `all`. */
  method StepLoop(all: seq<int>, d: int, report0: int, readings: nat -> Readings, basePower: real, baseWater: real)
    returns (steps: seq<Step>, samples: seq<Sample>, duration: int, report: int)
    ensures steps == Trace(all, Gaps(all, all), d, |Gaps(all, all)|)
    ensures |samples| == |steps|
    ensures forall k :: 0 <= k < |samples| ==> samples[k] == SampleOf(all[k], readings(k), basePower, baseWater)
    ensures duration == d + Sum(Gaps(all, all)) && report == report0 + Sum(Gaps(all, all))
  {
    var gaps := Gaps(all, all);
    steps := [];
    samples := [];
    duration := d;
    report := report0;
    var index := 0;
    while index < |gaps|
      invariant 0 <= index <= |gaps|
      invariant steps == Trace(all, gaps, d, index)
      invariant |samples| == index
      invariant forall k :: 0 <= k < index ==> samples[k] == SampleOf(all[k], readings(k), basePower, baseWater)
      invariant duration == d + Sum(gaps[..index])
      invariant report == report0 + Sum(gaps[..index])
    {
      steps := steps + [Step(duration, duration + gaps[index], all[index])];
      samples := samples + [SampleOf(all[index], readings(index), basePower, baseWater)];
      if index < |all| - 1 {
        duration := duration + gaps[index];
        report := report + gaps[index];
      }
      assert gaps[..index + 1][..index] == gaps[..index];
      index := index + 1;
    }
    assert gaps[..index] == gaps;
  }

  /** Over sorted distinct time stamps, which `SortedTimes` gives, the
      steps tile the clock from `d` to `d` plus the whole span, one
      non-empty window per time stamp but the last, so the duration and
      the report time step end up advanced by that span. */
  lemma SortedWindows(all: seq<int>, d: int)
    requires SortedBy(all, Seconds) && Distinct(all)
    ensures all != [] ==>
      |Gaps(all, all)| == |all| - 1
      && Sum(Gaps(all, all)) == all[|all| - 1] - all[0]
      && var steps := Trace(all, Gaps(all, all), d, |all| - 1);
         forall k :: 0 <= k < |all| - 1 ==>
           steps[k] == Step(d + all[k] - all[0], d + all[k + 1] - all[0], all[k]) && steps[k].from < steps[k].to
  {
    if all != [] {
      assert all[..|all|] == all;
      var gaps := Gaps(all, all);
      SumTelescopes(all, all, |all| - 1);
      assert gaps[..|all| - 1] == gaps;
      TiledWindows(all, d);
    }
  }

  lemma TiledWindows(all: seq<int>, d: int)
    requires SortedBy(all, Seconds) && Distinct(all) && all != []
    ensures var steps := Trace(all, Gaps(all, all), d, |all| - 1);
      forall k :: 0 <= k < |all| - 1 ==>
        steps[k] == Step(d + all[k] - all[0], d + all[k + 1] - all[0], all[k]) && steps[k].from < steps[k].to
  {
    assert all[..|all|] == all;
    NetworkSimulation.StepWindows(all, all, d);
    WindowsAdvance(all);
  }
}
