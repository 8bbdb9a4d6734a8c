/** The first scenario generator,
    dreaminsg_integrated_model/data/disruptive_scenarios/disrupt_generator.py.
    Its event table is wide: one row per point of the time grid
    `0, sim_step, ... < sim_time`, and one column of performance levels per
    disrupted component. A repair raises a column along a linear ramp
    capped at 100; the first grid point where the column is back at 100
    frees the single crew. The scenario file becomes a sequence of
    disruptions, the random repair order a parameter. */
module WideScenario {
  import opened Wrappers
  import opened OldestInterdependencies
  import SimInterdependencies
  import SimIntegratedNetwork
  import Simulation
  import DisruptGenerator

  type Disruption = SimIntegratedNetwork.Disruption

  /** Python's `min(100, x)`. */
  function Min100(x: real): (r: real)
    ensures r <= 100.0 && (r == x || r == 100.0)
    ensures r == 100.0 <==> x >= 100.0
  {
    if x < 100.0 then x else 100.0
  }

  /** `int(a / b)`: true division, then truncation toward zero (floating
      point rounding is not modelled). */
  function TruncDiv(a: int, b: int): int
    requires b != 0
  {
    var q := (if a < 0 then -a else a) / (if b < 0 then -b else b);
    if (a < 0) == (b < 0) then q else -q
  }

  /** Where the slice `s[i:]` of a sequence of length `n` starts: a
      negative index counts from the end. */
  function SliceStart(i: int, n: nat): (k: nat)
    ensures k <= n
  {
    if i >= n then n
    else if i >= 0 then i
    else if n + i > 0 then n + i
    else 0
  }

  /** The earliest disruption time: Python's `min` over the time column. */
  function MinTime(events: seq<Disruption>): (t: int)
    requires events != []
    ensures exists e :: e in events && e.time == t
    ensures forall e :: e in events ==> t <= e.time
  {
    if |events| == 1 then events[0].time
    else
      var rest := MinTime(events[..|events| - 1]);
      assert forall e :: e in events[..|events| - 1] ==> e in events;
      assert forall e :: e in events ==> e in events[..|events| - 1] || e == events[|events| - 1];
      if events[|events| - 1].time < rest then events[|events| - 1].time else rest
  }

  /** The grid index from which a disruption's column holds its reduced
      level: `int(failure_start / sim_step)` used as a slice start. */
  function FailureStart(e: Disruption, n: nat, simStep: int): nat
    requires simStep != 0
  {
    SliceStart(TruncDiv(e.time, simStep), n)
  }

  /** A column of `n` levels: 100 before `from`, `level` from there on. */
  function FailedColumn(n: nat, from: nat, level: real): (col: seq<real>)
    ensures |col| == n
  {
    seq(n, j => if j < from then 100.0 else level)
  }

  /** The disruptions of one component, in scenario order. */
  function Matching(events: seq<Disruption>, c: string): (r: seq<Disruption>)
    ensures forall e :: e in r <==> e in events && e.component == c
    ensures |r| == |DisruptGenerator.TimesOf(events, c)|
  {
    if events == [] then []
    else
      var rest := Matching(events[..|events| - 1], c);
      assert forall e :: e in events <==> e in events[..|events| - 1] || e == events[|events| - 1];
      if events[|events| - 1].component == c then rest + [events[|events| - 1]] else rest
  }

  /** `.item()` has a single value to return exactly when the component is
      disrupted once; that value is then the disruption itself. */
  lemma SingleMatch(events: seq<Disruption>, e: Disruption, f: Disruption)
    requires e in events && f in events && e.component == f.component
    requires |DisruptGenerator.TimesOf(events, e.component)| == 1
    ensures e == f
  {
    var m := Matching(events, e.component);
    assert e in m && f in m;
  }

  /** The columns the constructor builds for the disruptions of `prefix`,
      each `.item()` asked of the whole scenario `all`; a component
      disrupted more than once raises ValueError. */
  function Columns(prefix: seq<Disruption>, all: seq<Disruption>, n: nat, simStep: int): (r: Result<map<string, seq<real>>>)
    requires simStep != 0
    ensures r.Ok? ==> forall c :: c in r.value ==> |r.value[c]| == n
    ensures r.Err? ==> r.error == ValueError
  {
    if prefix == [] then Ok(map[])
    else
      match Columns(prefix[..|prefix| - 1], all, n, simStep)
      case Err(e) => Err(e)
      case Ok(m) =>
        var e := prefix[|prefix| - 1];
        if |DisruptGenerator.TimesOf(all, e.component)| != 1 then Err(ValueError)
        else Ok(m[e.component := FailedColumn(n, FailureStart(e, n, simStep), 100.0 - e.failPerc)])
  }

  /** The constructor's table fails exactly when some component is
      disrupted more than once. */
  lemma {:induction false} ColumnsSucceed(prefix: seq<Disruption>, all: seq<Disruption>, n: nat, simStep: int)
    requires simStep != 0
    ensures Columns(prefix, all, n, simStep).Ok? <==>
      forall e :: e in prefix ==> |DisruptGenerator.TimesOf(all, e.component)| == 1
  {
    if prefix != [] {
      var init := prefix[..|prefix| - 1];
      var last := prefix[|prefix| - 1];
      assert forall e :: e in prefix <==> e in init || e == last;
      ColumnsSucceed(init, all, n, simStep);
    }
  }

  /** Otherwise the table has one column per disrupted component: 100
      before the failure index and 100 − fail_perc from it on. */
  lemma {:induction false} ColumnsSpec(prefix: seq<Disruption>, all: seq<Disruption>, n: nat, simStep: int)
    requires simStep != 0
    requires forall e :: e in prefix ==> e in all
    requires Columns(prefix, all, n, simStep).Ok?
    ensures var m := Columns(prefix, all, n, simStep).value;
      (forall c :: c in m <==> exists e :: e in prefix && e.component == c)
      && forall e :: e in prefix ==> m[e.component] == FailedColumn(n, FailureStart(e, n, simStep), 100.0 - e.failPerc)
  {
    if prefix != [] {
      var init := prefix[..|prefix| - 1];
      var last := prefix[|prefix| - 1];
      assert forall e :: e in prefix <==> e in init || e == last;
      ColumnsSpec(init, all, n, simStep);
      forall e | e in init && e.component == last.component
        ensures e == last
      {
        SingleMatch(all, e, last);
      }
    }
  }

  lemma ColumnsSnoc(events: seq<Disruption>, i: nat, n: nat, simStep: int)
    requires simStep != 0 && i < |events|
    ensures Columns(events[..i + 1], events, n, simStep) ==
      match Columns(events[..i], events, n, simStep)
      case Err(e) => Err(e)
      case Ok(m) =>
        if |DisruptGenerator.TimesOf(events, events[i].component)| != 1 then Err(ValueError)
        else Ok(m[events[i].component := FailedColumn(n, FailureStart(events[i], n, simStep), 100.0 - events[i].failPerc)])
  {
    assert events[..i + 1][..i] == events[..i];
  }

  lemma {:induction false} ColumnsStopped(events: seq<Disruption>, i: nat, n: nat, simStep: int)
    requires simStep != 0 && i <= |events|
    requires Columns(events[..i], events, n, simStep).Err?
    ensures Columns(events, events, n, simStep) == Columns(events[..i], events, n, simStep)
    decreases |events| - i
  {
    if i == |events| {
      assert events[..i] == events;
    } else {
      ColumnsSnoc(events, i, n, simStep);
      ColumnsStopped(events, i + 1, n, simStep);
    }
  }

  /** The constructor's loop over the disrupted components. */
  method BuildColumns(events: seq<Disruption>, n: nat, simStep: int) returns (r: Result<map<string, seq<real>>>)
    requires simStep != 0
    ensures r == Columns(events, events, n, simStep)
  {
    var m: map<string, seq<real>> := map[];
    var i := 0;
    while i < |events|
      invariant 0 <= i <= |events|
      invariant Columns(events[..i], events, n, simStep) == Ok(m)
    {
      ColumnsSnoc(events, i, n, simStep);
      var e := events[i];
      if |DisruptGenerator.TimesOf(events, e.component)| != 1 {
        ColumnsStopped(events, i + 1, n, simStep);
        return Err(ValueError);
      }
      m := m[e.component := FailedColumn(n, FailureStart(e, n, simStep), 100.0 - e.failPerc)];
      i := i + 1;
    }
    assert events[..i] == events;
    r := Ok(m);
  }

  /** With a positive step the grid is `0, sim_step, 2·sim_step, ...`,
      all below `sim_time`, strictly increasing, and the next point would
      not be below `sim_time`. */
  lemma GridPoints(simTime: int, simStep: int)
    requires simStep > 0
    ensures var g := Simulation.PyRange(0, simTime, simStep);
      (forall j :: 0 <= j < |g| ==> g[j] == j * simStep && g[j] < simTime)
      && (forall i, j :: 0 <= i < j < |g| ==> g[i] < g[j])
      && |g| * simStep >= simTime
  {
    Simulation.PyRangeSpec(0, simTime, simStep);
    var g := Simulation.PyRange(0, simTime, simStep);
    forall i, j | 0 <= i < j < |g|
      ensures g[i] < g[j]
    {
      assert g[j] - g[i] == (j - i) * simStep;
    }
  }

  /** A column of the constructor is back at 100 at a grid index exactly
      when the index is before the failure or nothing was lost. */
  lemma FullBeforeFailure(n: nat, from: nat, failPerc: real, j: nat)
    requires j < n
    ensures FailedColumn(n, from, 100.0 - failPerc)[j] >= 100.0 <==> j < from || failPerc <= 0.0
  {
  }

  // -----------------------------------------------------------------------
  // Recovery along a ramp

  /** The first grid index whose time is `s`. */
  function FirstAt(times: seq<int>, s: int): (r: Option<nat>)
    ensures r.Some? ==> r.value < |times| && times[r.value] == s && forall j :: 0 <= j < r.value ==> times[j] != s
    ensures r.None? ==> forall j :: 0 <= j < |times| ==> times[j] != s
  {
    if times == [] then None
    else if times[0] == s then Some(0)
    else match FirstAt(times[1..], s)
      case None => None
      case Some(k) => Some(k + 1)
  }

  /** The level the ramp gives at time `t`: `min(100, start + rate·(t − s))`. */
  function RampLevel(start: real, rate: real, t: int, s: int): real {
    Min100(start + rate * ((t - s) as real))
  }

  /** The ramp written over a column from index `from` on. */
  function Ramp(col: seq<real>, times: seq<int>, from: nat, start: real, rate: real, s: int): (r: seq<real>)
    requires |col| == |times|
    ensures |r| == |col|
    ensures forall j :: 0 <= j < |col| ==> r[j] == if j < from then col[j] else RampLevel(start, rate, times[j], s)
  {
    seq(|col|, j requires 0 <= j < |col| => if j < from then col[j] else RampLevel(start, rate, times[j], s))
  }

  /** A ramp never raises a level above 100, and leaves the levels before
      its start as they were. */
  lemma RampBounded(col: seq<real>, times: seq<int>, from: nat, start: real, rate: real, s: int)
    requires |col| == |times|
    ensures forall j :: from <= j < |col| ==> Ramp(col, times, from, start, rate, s)[j] <= 100.0
    ensures forall j :: 0 <= j < from && j < |col| ==> Ramp(col, times, from, start, rate, s)[j] == col[j]
  {
  }

  /** With a non-negative rate over increasing times the ramp never goes
      down. */
  lemma RampMonotone(col: seq<real>, times: seq<int>, from: nat, start: real, rate: real, s: int, i: nat, j: nat)
    requires |col| == |times| && rate >= 0.0
    requires from <= i <= j < |col| && times[i] <= times[j]
    ensures Ramp(col, times, from, start, rate, s)[i] <= Ramp(col, times, from, start, rate, s)[j]
  {
    var ti := (times[i] - s) as real;
    var tj := (times[j] - s) as real;
    assert ti <= tj;
    assert rate * tj - rate * ti == rate * (tj - ti);
    assert rate * (tj - ti) >= 0.0;
    assert start + rate * ti <= start + rate * tj;
    assert RampLevel(start, rate, times[i], s) <= RampLevel(start, rate, times[j], s);
  }

  /** The first index in `[from, to)` where the levels are at 100. */
  function FirstFull(r: seq<real>, from: nat, to: nat): (k: Option<nat>)
    requires to <= |r|
    ensures k.Some? ==> from <= k.value < to && r[k.value] == 100.0 && forall j :: from <= j < k.value ==> r[j] != 100.0
    ensures k.None? ==> forall j :: from <= j < to ==> r[j] != 100.0
  {
    if to <= from then None
    else match FirstFull(r, from, to - 1)
      case Some(k) => Some(k)
      case None => if r[to - 1] == 100.0 then Some(to - 1) else None
  }

  /** Once a ramp with a non-negative rate over increasing times reaches
      100 it stays there. */
  lemma RampStaysFull(col: seq<real>, times: seq<int>, from: nat, start: real, rate: real, s: int)
    requires |col| == |times| && rate >= 0.0
    requires forall i, j :: 0 <= i < j < |times| ==> times[i] < times[j]
    requires FirstFull(Ramp(col, times, from, start, rate, s), from, |col|).Some?
    ensures var k := FirstFull(Ramp(col, times, from, start, rate, s), from, |col|).value;
      forall j :: k <= j < |col| ==> Ramp(col, times, from, start, rate, s)[j] == 100.0
  {
    var r := Ramp(col, times, from, start, rate, s);
    var k := FirstFull(r, from, |col|).value;
    forall j | k <= j < |col|
      ensures r[j] == 100.0
    {
      if j > k {
        RampMonotone(col, times, from, start, rate, s, k, j);
      }
    }
  }

  /** The loop of `schedule_recovery` over the rows from `idx` on: each
      row gets the ramp from the level at `idx`, and the first row that
      reads 100 while the crew flag is down sends the crew there (`loc`)
      at that row's time (`clock`) and raises the flag. */
  method RampColumn(col0: seq<real>, times: seq<int>, idx: nat, rate: real, s: int, component: string,
                    clock0: int, loc0: string)
    returns (col: seq<real>, clock: int, loc: string)
    requires |col0| == |times| && idx < |times|
    ensures col == Ramp(col0, times, idx, col0[idx], rate, s)
    ensures FirstFull(col, idx, |times|).Some? ==> clock == times[FirstFull(col, idx, |times|).value] && loc == component
    ensures FirstFull(col, idx, |times|).None? ==> clock == clock0 && loc == loc0
  {
    col, clock, loc := col0, clock0, loc0;
    var startPerf := col0[idx];
    ghost var ramp := Ramp(col0, times, idx, startPerf, rate, s);
    var scheduled := false;
    var j := idx;
    while j < |times|
      invariant idx <= j <= |times| && |col| == |times|
      invariant forall k :: 0 <= k < |col| ==> col[k] == if k < j then ramp[k] else col0[k]
      invariant scheduled <==> FirstFull(ramp, idx, j).Some?
      invariant FirstFull(ramp, idx, j).Some? ==> clock == times[FirstFull(ramp, idx, j).value] && loc == component
      invariant FirstFull(ramp, idx, j).None? ==> clock == clock0 && loc == loc0
    {
      col := col[j := RampLevel(startPerf, rate, times[j], s)];
      assert col[j] == ramp[j];
      if col[j] == 100.0 && !scheduled {
        loc := component;
        clock := times[j];
        scheduled := true;
      }
      j := j + 1;
    }
    assert col == ramp;
  }

  // -----------------------------------------------------------------------
  // The in-service decision

  /** An `in_service` assignment: the pandapower collection, the row index
      of the element and the flag. */
  datatype ServiceSet = ServiceSet(component: string, collection: string, index: int, inService: bool)

  /** One component at grid row `timeIndex`: only power components act;
      the element's row comes from `elementIndex(collection, name)`, which
      stands for `pn[collection].query(name).index.item()`. */
  function ServiceUpdate(c: string, power: PowerDict, elementIndex: (string, string) -> Result<int>,
                         columns: map<string, seq<real>>, timeIndex: int): Result<Option<ServiceSet>>
  {
    if InfraType(c, power) != Some(SimInterdependencies.Power) then Ok(None)
    else match PowerType(c, power)
      case Err(e) => Err(e)
      case Ok((_, collection, _)) =>
        match elementIndex(collection, c)
        case Err(e) => Err(e)
        case Ok(k) =>
          if c !in columns || !(0 <= timeIndex < |columns[c]|) then Err(KeyError)
          else Ok(Some(ServiceSet(c, collection, k, !(columns[c][timeIndex] < 100.0))))
  }

  /** The assignments of one update, in component order, and the exception
      (if any) that stopped it; assignments made before it stay made. */
  function ServiceUpdates(comps: seq<string>, power: PowerDict, elementIndex: (string, string) -> Result<int>,
                          columns: map<string, seq<real>>, timeIndex: int): (seq<ServiceSet>, Option<Exception>)
  {
    if comps == [] then ([], None)
    else
      var (prev, e) := ServiceUpdates(comps[..|comps| - 1], power, elementIndex, columns, timeIndex);
      if e.Some? then (prev, e)
      else match ServiceUpdate(comps[|comps| - 1], power, elementIndex, columns, timeIndex)
        case Err(x) => (prev, Some(x))
        case Ok(None) => (prev, None)
        case Ok(Some(a)) => (prev + [a], None)
  }

  /** Only power components are switched, and each is in service exactly
      when its level at the grid row is at least 100. Without an exception
      every power component of the list is switched. */
  lemma {:induction false} ServiceUpdatesSpec(comps: seq<string>, power: PowerDict,
                                              elementIndex: (string, string) -> Result<int>,
                                              columns: map<string, seq<real>>, timeIndex: int)
    ensures forall a :: a in ServiceUpdates(comps, power, elementIndex, columns, timeIndex).0 ==>
      a.component in comps && a.component in columns && 0 <= timeIndex < |columns[a.component]|
      && InfraType(a.component, power) == Some(SimInterdependencies.Power)
      && (a.inService <==> columns[a.component][timeIndex] >= 100.0)
    ensures ServiceUpdates(comps, power, elementIndex, columns, timeIndex).1.None? ==>
      forall c :: c in comps && InfraType(c, power) == Some(SimInterdependencies.Power) ==>
        exists a :: a in ServiceUpdates(comps, power, elementIndex, columns, timeIndex).0 && a.component == c
  {
    if comps != [] {
      var init := comps[..|comps| - 1];
      ServiceUpdatesSpec(init, power, elementIndex, columns, timeIndex);
      assert forall c :: c in comps <==> c in init || c == comps[|comps| - 1];
    }
  }

  lemma ServiceUpdatesSnoc(comps: seq<string>, i: nat, power: PowerDict, elementIndex: (string, string) -> Result<int>,
                           columns: map<string, seq<real>>, timeIndex: int)
    requires i < |comps|
    ensures ServiceUpdates(comps[..i + 1], power, elementIndex, columns, timeIndex) ==
      var (prev, e) := ServiceUpdates(comps[..i], power, elementIndex, columns, timeIndex);
      if e.Some? then (prev, e)
      else match ServiceUpdate(comps[i], power, elementIndex, columns, timeIndex)
        case Err(x) => (prev, Some(x))
        case Ok(None) => (prev, None)
        case Ok(Some(a)) => (prev + [a], None)
  {
    assert comps[..i + 1][..i] == comps[..i];
  }

  lemma {:induction false} ServiceUpdatesStopped(comps: seq<string>, i: nat, power: PowerDict,
                                                 elementIndex: (string, string) -> Result<int>,
                                                 columns: map<string, seq<real>>, timeIndex: int)
    requires i <= |comps|
    requires ServiceUpdates(comps[..i], power, elementIndex, columns, timeIndex).1.Some?
    ensures ServiceUpdates(comps, power, elementIndex, columns, timeIndex) ==
      ServiceUpdates(comps[..i], power, elementIndex, columns, timeIndex)
    decreases |comps| - i
  {
    if i == |comps| {
      assert comps[..i] == comps;
    } else {
      ServiceUpdatesSnoc(comps, i, power, elementIndex, columns, timeIndex);
      ServiceUpdatesStopped(comps, i + 1, power, elementIndex, columns, timeIndex);
    }
  }

  // -----------------------------------------------------------------------
  // The object

  class WideDisruption {
    const disruptiveEvents: seq<Disruption>
    const disruptedComponents: seq<string>
    const simTime: int
    const simStep: int
    /** The `time_stamp` column: the grid. */
    const grid: seq<int>
    /** The component columns of the event table. */
    var columns: map<string, seq<real>>
    var nextCrewTripStart: int
    var nextRecovScheduled: bool
    var currLocCrew: string

    /** Every column runs along the grid, and between calls the flag that
        stops the crew is down. */
    ghost predicate Valid()
      reads this
    {
      !nextRecovScheduled && forall c :: c in columns ==> |columns[c]| == |grid|
    }

    /** The object once its table is built. */
    constructor (events: seq<Disruption>, simTime: int, simStep: int, grid: seq<int>,
                 columns: map<string, seq<real>>, clock: int, currLocCrew: string)
      requires forall c :: c in columns ==> |columns[c]| == |grid|
      ensures disruptiveEvents == events && disruptedComponents == SimIntegratedNetwork.ComponentsOf(events)
      ensures this.simTime == simTime && this.simStep == simStep && this.grid == grid && this.columns == columns
      ensures nextCrewTripStart == clock && this.currLocCrew == currLocCrew && Valid()
    {
      disruptiveEvents := events;
      disruptedComponents := SimIntegratedNetwork.ComponentsOf(events);
      this.simTime := simTime;
      this.simStep := simStep;
      this.grid := grid;
      this.columns := columns;
      nextCrewTripStart := clock;
      nextRecovScheduled := false;
      this.currLocCrew := currLocCrew;
    }

    /** `DisruptionAndRecovery(scenario_file, sim_time, sim_step,
        curr_loc_crew)`: the crew's clock is the earliest disruption (an
        empty scenario has none, a ValueError), the grid is
        `np.arange(0, sim_time, sim_step)` (a zero step divides by zero),
        and a component disrupted twice makes `.item()` raise. */
    static method New(events: seq<Disruption>, simTime: int, simStep: int, currLocCrew: string)
      returns (r: Result<WideDisruption>)
      ensures events == [] ==> r == Err(ValueError)
      ensures events != [] && simStep == 0 ==> r == Err(ZeroDivisionError)
      ensures events != [] && simStep != 0 ==>
        (r.Ok? <==> Columns(events, events, |Simulation.PyRange(0, simTime, simStep)|, simStep).Ok?)
        && (r.Err? ==> r.error == ValueError)
      ensures r.Ok? ==>
        events != [] && simStep != 0
        && fresh(r.value) && r.value.Valid()
        && r.value.disruptiveEvents == events && r.value.simTime == simTime && r.value.simStep == simStep
        && r.value.grid == Simulation.PyRange(0, simTime, simStep)
        && r.value.columns == Columns(events, events, |Simulation.PyRange(0, simTime, simStep)|, simStep).value
        && r.value.nextCrewTripStart == MinTime(events) && r.value.currLocCrew == currLocCrew
    {
      if events == [] {
        return Err(ValueError);
      }
      var clock := MinTime(events);
      if simStep == 0 {
        return Err(ZeroDivisionError);
      }
      var grid := Simulation.PyRange(0, simTime, simStep);
      var cols := BuildColumns(events, |grid|, simStep);
      if cols.Err? {
        return Err(cols.error);
      }
      var o := new WideDisruption(events, simTime, simStep, grid, cols.value, clock, currLocCrew);
      r := Ok(o);
    }

    /** `schedule_recovery(component, recovery_start, recovery_rate)`: from
        the first grid row at `recovery_start` on, the component's column
        follows the ramp from its level at that row. The first row where it
        reads 100 sends the crew there and sets its clock to that row's
        time (the source's `while` runs at most once, since it raises the
        flag); the flag is lowered at the end. A start that is not a grid
        time raises IndexError, a component without a column KeyError, and
        neither changes anything. */
    method ScheduleRecovery(component: string, recoveryStart: int, rate: real) returns (err: Option<Exception>)
      requires Valid()
      modifies this`columns, this`nextCrewTripStart, this`currLocCrew, this`nextRecovScheduled
      ensures Valid()
      ensures FirstAt(grid, recoveryStart).None? ==>
        err == Some(IndexError) && columns == old(columns)
        && nextCrewTripStart == old(nextCrewTripStart) && currLocCrew == old(currLocCrew)
      ensures FirstAt(grid, recoveryStart).Some? && component !in old(columns) ==>
        err == Some(KeyError) && columns == old(columns)
        && nextCrewTripStart == old(nextCrewTripStart) && currLocCrew == old(currLocCrew)
      ensures FirstAt(grid, recoveryStart).Some? && component in old(columns) ==>
        var idx := FirstAt(grid, recoveryStart).value;
        var col := old(columns)[component];
        var ramp := Ramp(col, grid, idx, col[idx], rate, recoveryStart);
        err.None? && columns == old(columns)[component := ramp]
        && (FirstFull(ramp, idx, |grid|).Some? ==>
              nextCrewTripStart == grid[FirstFull(ramp, idx, |grid|).value] && currLocCrew == component)
        && (FirstFull(ramp, idx, |grid|).None? ==>
              nextCrewTripStart == old(nextCrewTripStart) && currLocCrew == old(currLocCrew))
    {
      var first := FirstAt(grid, recoveryStart);
      if first.None? {
        return Some(IndexError);
      }
      if component !in columns {
        return Some(KeyError);
      }
      var idx := first.value;
      var col, clock, loc := RampColumn(columns[component], grid, idx, rate, recoveryStart, component,
                                        nextCrewTripStart, currLocCrew);
      columns := columns[component := col];
      nextCrewTripStart := clock;
      currLocCrew := loc;
      nextRecovScheduled := false;
      err := None;
    }

    /** `optimze_recovery_strategy`: the disrupted components in the random
        order `shuffled` stands for (a permutation of them). */
    method OptimizeRecoveryStrategy(shuffled: seq<string>) returns (order: seq<string>)
      requires multiset(shuffled) == multiset(disruptedComponents)
      ensures multiset(order) == multiset(disruptedComponents) && |order| == |disruptedComponents|
    {
      order := shuffled;
      assert |order| == |multiset(order)|;
    }

    /** `update_directly_affected_components(pn, wn, time_index)`: the
        `in_service` flags given to the power elements among the disrupted
        components, from their levels at grid row `timeIndex`. */
    method UpdateDirectlyAffected(power: PowerDict, elementIndex: (string, string) -> Result<int>, timeIndex: int)
      returns (sets: seq<ServiceSet>, err: Option<Exception>)
      ensures (sets, err) == ServiceUpdates(disruptedComponents, power, elementIndex, columns, timeIndex)
    {
      sets, err := [], None;
      var i := 0;
      while i < |disruptedComponents| && err.None?
        invariant 0 <= i <= |disruptedComponents|
        invariant (sets, err) == ServiceUpdates(disruptedComponents[..i], power, elementIndex, columns, timeIndex)
        decreases |disruptedComponents| - i
      {
        ServiceUpdatesSnoc(disruptedComponents, i, power, elementIndex, columns, timeIndex);
        var a := ServiceUpdate(disruptedComponents[i], power, elementIndex, columns, timeIndex);
        match a {
          case Err(x) => err := Some(x);
          case Ok(None) =>
          case Ok(Some(s)) => sets := sets + [s];
        }
        i := i + 1;
      }
      if i < |disruptedComponents| {
        ServiceUpdatesStopped(disruptedComponents, i, power, elementIndex, columns, timeIndex);
      } else {
        assert disruptedComponents[..i] == disruptedComponents;
      }
    }
  }
}
