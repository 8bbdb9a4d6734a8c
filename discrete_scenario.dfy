/** The second scenario generator,
    dreaminsg_integrated_model/data/disruptive_scenarios/disrupt_generator_discrete.py.
    Its event table is long: rows of (time stamp, component, performance
    level). The table here has no state column; its rows are the model's
    `Row` values with the state the newer scheduler would give them, which
    nothing in this module reads. Its recovery code was carried over from
    the wide generator and reads a column per component, which this table
    does not have, and its update calls a lookup the interdependency module
    it imports does not define. */
module DiscreteScenario {
  import opened Wrappers
  import opened EventTable
  import opened SimInterdependencies
  import DirectEffects
  import SimIntegratedNetwork
  import NetworkRecovery
  import DisruptGenerator
  import Lists
  import Simulation
  import OldSimulation
  import OldestSimulation

  type Disruption = SimIntegratedNetwork.Disruption

  /** The columns of the long table. */
  const TableColumns: set<string> := {"time_stamp", "components", "perf_level"}

  /** The first row at time stamp `s`. */
  function FirstRowAt(rows: seq<Row>, s: int): (r: Option<nat>)
    ensures r.Some? ==> r.value < |rows| && rows[r.value].time == s && forall j :: 0 <= j < r.value ==> rows[j].time != s
    ensures r.None? ==> forall j :: 0 <= j < |rows| ==> rows[j].time != s
  {
    if rows == [] then None
    else if rows[0].time == s then Some(0)
    else match FirstRowAt(rows[1..], s)
      case None => None
      case Some(k) => Some(k + 1)
  }

  // -----------------------------------------------------------------------
  // The update of the directly affected components

  /** The commands for one row of the current table, with the component's
      details from `lookup`: a power element is in service exactly at
      level 100; a pump below 100 gets an outage until the next simulated
      time, a pipe below 100 is split and leaks (area 0.05, held in the
      leak's second field) at the row's time, and a tank below 100 has
      each of its pipes closed until the next simulated time; at 100 the
      pump, the pipe or the tank's pipes are opened. An unknown name
      cannot be unpacked, and `.item()` needs exactly one element of the
      name. */
  function DiscreteRowActions(r: Row, next: int, lookup: string -> Result<Lookup>, matches: (string, string) -> nat,
                              linksOf: string -> seq<string>): Result<seq<DirectEffects.Action>>
  {
    match lookup(r.component)
    case Err(e) => Err(e)
    case Ok(Unknown(_)) => Err(TypeError)
    case Ok(Found(d)) =>
      match d.infra
      case Power =>
        if matches(d.code, r.component) != 1 then Err(ValueError)
        else Ok([DirectEffects.SetInService(d.code, r.component, r.perf == 100.0)])
      case Water => Ok(WaterRowActions(r, d, next, linksOf(r.component)))
      case Transpo => Ok([])
  }

  function WaterRowActions(r: Row, d: Details, next: int, pipes: seq<string>): seq<DirectEffects.Action> {
    (if d.name == "Pump" then
       (if r.perf != 100.0 then [DirectEffects.PumpOutage(r.component, r.time, next)]
        else [DirectEffects.LinkStatus(r.component, true)])
     else [])
    + (if d.name == "Pipe" then
         (if r.perf != 100.0 then [DirectEffects.Leak(r.component, 0.05, r.time, r.time)]
          else [DirectEffects.LinkStatus(r.component, true)])
       else [])
    + (if d.name == "Tank" then
         (if r.perf != 100.0 then seq(|pipes|, i requires 0 <= i < |pipes| => DirectEffects.TankPipeClosed(pipes[i], r.time, next))
          else seq(|pipes|, i requires 0 <= i < |pipes| => DirectEffects.LinkStatus(pipes[i], true)))
       else [])
  }

  /** What a command says about the row it answers. */
  predicate Explains(r: Row, a: DirectEffects.Action, next: int) {
    match a
    case SetInService(_, element, inService) => element == r.component && (inService <==> r.perf == 100.0)
    case PumpOutage(pump, from, to) => pump == r.component && r.perf != 100.0 && from == r.time && to == next
    case Leak(pipe, _, from, to) => pipe == r.component && r.perf != 100.0 && from == r.time && to == r.time
    case LinkStatus(_, open) => open && r.perf == 100.0
    case TankPipeClosed(_, from, to) => r.perf != 100.0 && from == r.time && to == next
  }

  /** Every command of a row answers it: out of service, outages, leaks
      and closures exactly below 100, reopening exactly at 100. */
  lemma RowActionsExplained(r: Row, next: int, lookup: string -> Result<Lookup>, matches: (string, string) -> nat,
                            linksOf: string -> seq<string>)
    requires DiscreteRowActions(r, next, lookup, matches, linksOf).Ok?
    ensures forall a :: a in DiscreteRowActions(r, next, lookup, matches, linksOf).value ==> Explains(r, a, next)
  {
    var acts := DiscreteRowActions(r, next, lookup, matches, linksOf).value;
    forall a | a in acts
      ensures Explains(r, a, next)
    {
      var i :| 0 <= i < |acts| && acts[i] == a;
    }
  }

  /** A pump or a plain pipe gets exactly one command: a fault below 100,
      an opening at 100. */
  lemma PumpAndPipeCommands(r: Row, d: Details, next: int, pipes: seq<string>)
    requires d.name == "Pump" || d.name == "Pipe"
    ensures |WaterRowActions(r, d, next, pipes)| == 1
    ensures WaterRowActions(r, d, next, pipes)[0] == DirectEffects.LinkStatus(r.component, true) <==> r.perf == 100.0
  {
  }

  /** The commands of a run over the rows in order; the first row that
      raises stops the run, and the commands already given stay given. */
  function DiscreteActions(rows: seq<Row>, next: int, lookup: string -> Result<Lookup>,
                           matches: (string, string) -> nat, linksOf: string -> seq<string>)
    : (seq<DirectEffects.Action>, Option<Exception>)
  {
    if rows == [] then ([], None)
    else
      var before := DiscreteActions(rows[..|rows| - 1], next, lookup, matches, linksOf);
      if before.1.Some? then before
      else
        match DiscreteRowActions(rows[|rows| - 1], next, lookup, matches, linksOf)
        case Err(e) => (before.0, Some(e))
        case Ok(a) => (before.0 + a, None)
  }

  /** Every command of a run answers one of its rows, and the run stops
      only at a row that raises. */
  lemma {:induction false} DiscreteActionsSound(rows: seq<Row>, next: int, lookup: string -> Result<Lookup>,
                                                matches: (string, string) -> nat, linksOf: string -> seq<string>)
    ensures forall a :: a in DiscreteActions(rows, next, lookup, matches, linksOf).0 ==>
      exists r :: r in rows && Explains(r, a, next)
    ensures DiscreteActions(rows, next, lookup, matches, linksOf).1.None? <==>
      forall r :: r in rows ==> DiscreteRowActions(r, next, lookup, matches, linksOf).Ok?
  {
    if rows != [] {
      var init := rows[..|rows| - 1];
      var last := rows[|rows| - 1];
      DiscreteActionsSound(init, next, lookup, matches, linksOf);
      assert rows == init + [last];
      if DiscreteActions(init, next, lookup, matches, linksOf).1.None?
         && DiscreteRowActions(last, next, lookup, matches, linksOf).Ok? {
        RowActionsExplained(last, next, lookup, matches, linksOf);
      }
    }
  }

  lemma {:induction false} DiscreteActionsStopped(rows: seq<Row>, i: nat, next: int, lookup: string -> Result<Lookup>,
                                                  matches: (string, string) -> nat, linksOf: string -> seq<string>)
    requires 0 < i <= |rows|
    requires DiscreteActions(rows[..i], next, lookup, matches, linksOf).1.Some?
    ensures DiscreteActions(rows, next, lookup, matches, linksOf) == DiscreteActions(rows[..i], next, lookup, matches, linksOf)
    decreases |rows| - i
  {
    if i == |rows| {
      assert rows[..i] == rows;
    } else {
      assert rows[..i + 1][..i] == rows[..i];
      DiscreteActionsStopped(rows, i + 1, next, lookup, matches, linksOf);
    }
  }

  // -----------------------------------------------------------------------
  // The object

  class DiscreteDisruption {
    const disruptiveEvents: seq<Disruption>
    const disruptedComponents: seq<string>
    var simStep: Option<int>
    var hasEventTable: bool
    var eventTable: seq<Row>
    var currLocCrew: Option<string>
    var nextCrewTripStart: Option<int>
    var nextRecovScheduled: bool

    /** The object built from a scenario that was read: with at least one
        disruption, a row at time 0 and level 100 for every disrupted
        component, then a row per disruption at its time and level
        100 − fail_perc; with none, no table, no time step and no crew. */
    constructor (events: seq<Disruption>, simStep: int, currLocCrew: string)
      ensures disruptiveEvents == events && disruptedComponents == SimIntegratedNetwork.ComponentsOf(events)
      ensures hasEventTable <==> events != []
      ensures hasEventTable ==>
        eventTable == NetworkRecovery.FunctionalRows(SimIntegratedNetwork.ComponentsOf(events))
                      + NetworkRecovery.DisruptedRows(events)
        && this.currLocCrew == Some(currLocCrew) && this.simStep == Some(simStep)
      ensures !hasEventTable ==> eventTable == [] && this.currLocCrew.None? && this.simStep.None?
      ensures nextCrewTripStart.None? && !nextRecovScheduled
    {
      disruptiveEvents := events;
      disruptedComponents := SimIntegratedNetwork.ComponentsOf(events);
      nextCrewTripStart := None;
      nextRecovScheduled := false;
      if events != [] {
        hasEventTable := true;
        eventTable := NetworkRecovery.FunctionalRows(SimIntegratedNetwork.ComponentsOf(events))
                      + NetworkRecovery.DisruptedRows(events);
        this.currLocCrew := Some(currLocCrew);
        this.simStep := Some(simStep);
      } else {
        hasEventTable := false;
        eventTable := [];
        this.currLocCrew := None;
        this.simStep := None;
      }
    }

    /** `DisruptionAndRecovery(scenario_file, sim_step, curr_loc_crew)`: a
        missing file is reported and caught, after which the events
        attribute does not exist and reading it raises AttributeError. */
    static method New(file: Option<seq<Disruption>>, simStep: int, currLocCrew: string)
      returns (r: Result<DiscreteDisruption>)
      ensures file.None? <==> r.Err?
      ensures r.Err? ==> r.error == AttributeError
      ensures r.Ok? ==> (fresh(r.value) && r.value.disruptiveEvents == file.value
                         && (r.value.hasEventTable <==> file.value != []))
    {
      if file.None? {
        return Err(AttributeError);
      }
      var o := new DiscreteDisruption(file.value, simStep, currLocCrew);
      r := Ok(o);
    }

    /** `schedule_recovery(component, recovery_start, recovery_rate)` as
        written: the first row at `recovery_start` is looked up, then the
        component's column, which the long table does not have. No row at
        that time raises IndexError; otherwise the column lookup raises
        KeyError; nothing changes either way. */
    method ScheduleRecovery(component: string, recoveryStart: int, recoveryRate: real) returns (err: Exception)
      requires component !in TableColumns
      ensures !hasEventTable ==> err == AttributeError
      ensures hasEventTable && FirstRowAt(eventTable, recoveryStart).None? ==> err == IndexError
      ensures hasEventTable && FirstRowAt(eventTable, recoveryStart).Some? ==> err == KeyError
    {
      if !hasEventTable {
        return AttributeError;
      }
      var first := FirstRowAt(eventTable, recoveryStart);
      if first.None? {
        return IndexError;
      }
      err := KeyError;
    }

    /** `optimze_recovery_strategy`: the disrupted components in the
        random order `shuffled` stands for (a permutation of them), with
        the crew's clock set to the single disruption time of the first
        one. */
    method OptimizeRecoveryStrategy(shuffled: seq<string>) returns (r: Result<seq<string>>)
      requires multiset(shuffled) == multiset(disruptedComponents)
      modifies this`nextCrewTripStart
      ensures r.Ok? <==> DisruptGenerator.FirstClock(disruptiveEvents, shuffled).Ok?
      ensures r.Ok? ==> (r.value == shuffled
                         && nextCrewTripStart == Some(DisruptGenerator.FirstClock(disruptiveEvents, shuffled).value))
      ensures r.Err? ==> (r.error == DisruptGenerator.FirstClock(disruptiveEvents, shuffled).error
                          && nextCrewTripStart == old(nextCrewTripStart))
    {
      var t := DisruptGenerator.FirstClock(disruptiveEvents, shuffled);
      if t.Err? {
        return Err(t.error);
      }
      nextCrewTripStart := Some(t.value);
      r := Ok(shuffled);
    }

    /** `expand_event_table(initial_sim_step, add_points)`: the expansion
        of the oldest simulation driver, on this object's table and
        disrupted components, with no time shift. */
    method ExpandEventTable(initialSimStep: int, addPoints: int) returns (r: Result<()>)
      modifies this`eventTable
      ensures !hasEventTable ==> r == Err(AttributeError) && eventTable == old(eventTable)
      ensures hasEventTable ==>
        var grid := Simulation.GridOf(Lists.Unique(Simulation.TimeColumn(old(eventTable))), addPoints, initialSimStep);
        (grid.Err? ==> r == Err(grid.error) && eventTable == old(eventTable))
        && (r.Err? ==> Simulation.Extends(old(eventTable), eventTable))
        && (r.Ok? ==> (grid.Ok? && SortedByTime(eventTable)
                       && exists added :: OldSimulation.OldExpanded(old(eventTable), added, disruptedComponents, grid.value)
                                          && multiset(eventTable) == multiset(added)))
    {
      if !hasEventTable {
        return Err(AttributeError);
      }
      var table;
      table, r := OldestSimulation.ExpandEventTable(eventTable, disruptedComponents, initialSimStep, addPoints);
      eventTable := table;
    }

    /** `update_directly_affected_components(pn, wn, curr_event_table,
        next_sim_time)` as written: the first row asks the imported module
        for `get_compon_details`, which it does not define. */
    method UpdateDirectlyAffectedAsWritten(curr: seq<Row>, next: int) returns (err: Option<Exception>)
      ensures err.Some? <==> curr != []
      ensures err.Some? ==> err.value == AttributeError
    {
      if curr == [] {
        return None;
      }
      err := Some(AttributeError);
    }

    /** The same update with the component details supplied by `lookup`:
        the commands of the rows of the current table, in order, until a
        row raises. `matches(code, name)` counts the elements of a
        pandapower table with that name, `linksOf(tank)` lists a tank's
        links. */
    method UpdateDirectlyAffected(curr: seq<Row>, next: int, lookup: string -> Result<Lookup>,
                                  matches: (string, string) -> nat, linksOf: string -> seq<string>)
      returns (actions: seq<DirectEffects.Action>, err: Option<Exception>)
      ensures (actions, err) == DiscreteActions(curr, next, lookup, matches, linksOf)
    {
      actions, err := [], None;
      var i := 0;
      while i < |curr|
        invariant 0 <= i <= |curr|
        invariant DiscreteActions(curr[..i], next, lookup, matches, linksOf) == (actions, None)
      {
        assert curr[..i + 1][..i] == curr[..i];
        var a := DiscreteRowActions(curr[i], next, lookup, matches, linksOf);
        if a.Err? {
          err := Some(a.error);
          DiscreteActionsStopped(curr, i + 1, next, lookup, matches, linksOf);
          return;
        }
        actions := actions + a.value;
        i := i + 1;
      }
      assert curr[..i] == curr;
    }
  }
}
