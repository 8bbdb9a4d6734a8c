/** How the recovery scheduler applies the event table to the solver models
    at one simulation step (`update_directly_affected_components` in
    infrarisk/src/network_recovery.py). Every row at the current time stamp
    turns into commands for the power or water model; the model records
    those commands instead of carrying them out. The pandapower tables and
    the water network are outside this model: `matches(table, name)` is the
    number of rows called `name` in that pandapower table, and
    `linksOf(tank)` lists the links of a tank node. */
module DirectEffects {
  import opened Wrappers
  import opened ComponentTables
  import opened SimInterdependencies
  import opened EventTable
  import NetworkRecovery

  /** The water types whose disruption is a leak at `<pipe>_leak_node` and
      whose repair state is the status of `<pipe>_B`. */
  const LeakingPipeTypes: set<string> :=
    {"Pipe", "Service Connection Pipe", "Main Pipe", "Hydrant Connection Pipe", "Valve converted to Pipe"}

  /** A command to a solver model. A leak replaces the previous leak of the
      pipe; its area is `fraction` times the cross-section of `<pipe>_B`. A
      tank pipe is closed by one control at `from` and reopened by another
      at `to`. */
  datatype Action =
    | SetInService(table: string, element: string, inService: bool)
    | PumpOutage(pump: string, from: int, to: int)
    | Leak(pipe: string, fraction: real, from: int, to: int)
    | LinkStatus(link: string, open: bool)
    | TankPipeClosed(pipe: string, from: int, to: int)

  /** The rows of the event table at time stamp `t`, in table order. */
  function RowsAt(rows: seq<Row>, t: int): (r: seq<Row>)
    ensures forall x :: x in r <==> x in rows && x.time == t
  {
    if rows == [] then []
    else
      var rest := RowsAt(rows[..|rows| - 1], t);
      assert rows == rows[..|rows| - 1] + [rows[|rows| - 1]];
      if rows[|rows| - 1].time == t then rest + [rows[|rows| - 1]] else rest
  }

  function PipeActions(r: Row, next: int): seq<Action> {
    match r.state
    case ServiceDisrupted => [Leak(r.component, (100.0 - r.perf) / 100.0, r.time, next)]
    case Repairing => [LinkStatus(r.component + "_B", false)]
    case ServiceRestored => [LinkStatus(r.component + "_B", true)]
    case Functional => []
  }

  function TankActions(r: Row, next: int, pipes: seq<string>): seq<Action> {
    if r.perf < 100.0 then seq(|pipes|, i requires 0 <= i < |pipes| => TankPipeClosed(pipes[i], r.time, next))
    else seq(|pipes|, i requires 0 <= i < |pipes| => LinkStatus(pipes[i], true))
  }

  function WaterActions(r: Row, d: Details, next: int, linksOf: string -> seq<string>): seq<Action> {
    (if d.name == "Pump" && r.perf < 100.0 then [PumpOutage(r.component, r.time, next)] else [])
    + (if d.name in LeakingPipeTypes then PipeActions(r, next) else [])
    + (if d.name == "Tank" then TankActions(r, next, linksOf(r.component)) else [])
  }

  /** The commands for one row. A name that does not split raises a
      ValueError, an unknown one is `None` and indexing it a TypeError, and
      `.item()` on a power element that is not listed exactly once a
      ValueError. Road components are left to the traffic model. */
  function RowActions(r: Row, next: int, water: Table, matches: (string, string) -> nat,
                      linksOf: string -> seq<string>): Result<seq<Action>>
  {
    match GetComponDetails(r.component, water)
    case Err(e) => Err(e)
    case Ok(Unknown(_)) => Err(TypeError)
    case Ok(Found(d)) =>
      match d.infra
      case Power =>
        if matches(d.code, r.component) != 1 then Err(ValueError)
        else Ok([SetInService(d.code, r.component, !(r.perf < 100.0))])
      case Water => Ok(WaterActions(r, d, next, linksOf))
      case Transpo => Ok([])
  }

  /** The commands of a run over `rows` in order; the first row that raises
      stops the run, and the commands already given stay given. */
  function DirectActions(rows: seq<Row>, next: int, water: Table, matches: (string, string) -> nat,
                         linksOf: string -> seq<string>): (seq<Action>, Option<Exception>)
  {
    if rows == [] then ([], None)
    else
      var before := DirectActions(rows[..|rows| - 1], next, water, matches, linksOf);
      if before.1.Some? then before
      else
        match RowActions(rows[|rows| - 1], next, water, matches, linksOf)
        case Err(e) => (before.0, Some(e))
        case Ok(a) => (before.0 + a, None)
  }

  /** Why a command was given: the row it answers. */
  predicate Explains(r: Row, a: Action, next: int) {
    match a
    case SetInService(_, e, on) => e == r.component && (on <==> r.perf >= 100.0)
    case PumpOutage(p, from, to) => p == r.component && r.perf < 100.0 && from == r.time && to == next
    case Leak(p, f, from, to) =>
      p == r.component && r.state == ServiceDisrupted && f == (100.0 - r.perf) / 100.0
      && from == r.time && to == next
    case LinkStatus(l, open) =>
      (l == r.component + "_B" && (r.state == Repairing || r.state == ServiceRestored)
       && (open <==> r.state == ServiceRestored))
      || (open && r.perf >= 100.0)
    case TankPipeClosed(_, from, to) => r.perf < 100.0 && from == r.time && to == next
  }

  /** Every command of a row answers that row: a power element is put in
      service exactly when its performance is back at 100, pump outages,
      leaks and tank closures last from the row's time to the next
      simulated time, and a repaired pipe's bypass opens only once it is
      restored. */
  lemma RowActionsExplained(r: Row, next: int, water: Table, matches: (string, string) -> nat,
                            linksOf: string -> seq<string>)
    requires RowActions(r, next, water, matches, linksOf).Ok?
    ensures forall a :: a in RowActions(r, next, water, matches, linksOf).value ==> Explains(r, a, next)
  {
    var d := GetComponDetails(r.component, water).value.details;
    if d.infra == Water {
      WaterActionsExplained(r, d, next, linksOf);
    }
  }

  lemma WaterActionsExplained(r: Row, d: Details, next: int, linksOf: string -> seq<string>)
    ensures forall a :: a in WaterActions(r, d, next, linksOf) ==> Explains(r, a, next)
  {
    var pump := if d.name == "Pump" && r.perf < 100.0 then [PumpOutage(r.component, r.time, next)] else [];
    var pipe := if d.name in LeakingPipeTypes then PipeActions(r, next) else [];
    var tank := if d.name == "Tank" then TankActions(r, next, linksOf(r.component)) else [];
    assert WaterActions(r, d, next, linksOf) == pump + pipe + tank;
    forall a | a in tank ensures Explains(r, a, next) {
      var i :| 0 <= i < |tank| && tank[i] == a;
    }
  }

  /** A power row always yields its in-service command, unless it raises. */
  lemma PowerRowInService(r: Row, next: int, water: Table, matches: (string, string) -> nat,
                          linksOf: string -> seq<string>)
    requires GetComponDetails(r.component, water).Ok? && GetComponDetails(r.component, water).value.Found?
    requires GetComponDetails(r.component, water).value.details.infra == Power
    ensures var code := GetComponDetails(r.component, water).value.details.code;
      RowActions(r, next, water, matches, linksOf).Ok? <==> matches(code, r.component) == 1
    ensures RowActions(r, next, water, matches, linksOf).Ok? ==>
      SetInService(GetComponDetails(r.component, water).value.details.code, r.component, r.perf >= 100.0)
        in RowActions(r, next, water, matches, linksOf).value
  {
  }

  /** The run raises exactly when some row raises, and then with the
      exception of the first such row. */
  lemma {:induction false} DirectActionsError(rows: seq<Row>, next: int, water: Table,
                                              matches: (string, string) -> nat, linksOf: string -> seq<string>)
    ensures var out := DirectActions(rows, next, water, matches, linksOf);
      (out.1.None? <==> forall r :: r in rows ==> RowActions(r, next, water, matches, linksOf).Ok?)
      && (out.1.Some? ==> exists k :: 0 <= k < |rows| && RowActions(rows[k], next, water, matches, linksOf) == Err(out.1.value)
                            && forall j :: 0 <= j < k ==> RowActions(rows[j], next, water, matches, linksOf).Ok?)
  {
    if rows != [] {
      var init := rows[..|rows| - 1];
      DirectActionsError(init, next, water, matches, linksOf);
      assert rows == init + [rows[|rows| - 1]];
    }
  }

  /** A run that does not raise gives every command of every row. */
  lemma {:induction false} DirectActionsComplete(rows: seq<Row>, next: int, water: Table,
                                                 matches: (string, string) -> nat, linksOf: string -> seq<string>)
    requires DirectActions(rows, next, water, matches, linksOf).1.None?
    ensures forall r, a :: r in rows && RowActions(r, next, water, matches, linksOf).Ok? && a in RowActions(r, next, water, matches, linksOf).value ==>
      a in DirectActions(rows, next, water, matches, linksOf).0
  {
    if rows != [] {
      var init := rows[..|rows| - 1];
      var last := rows[|rows| - 1];
      assert rows == init + [last];
      assert DirectActions(init, next, water, matches, linksOf).1.None?;
      DirectActionsComplete(init, next, water, matches, linksOf);
      forall r, a | r in rows && RowActions(r, next, water, matches, linksOf).Ok? && a in RowActions(r, next, water, matches, linksOf).value
        ensures a in DirectActions(rows, next, water, matches, linksOf).0
      {
        if r != last {
          assert r in init;
        }
      }
    }
  }

  /** Every command a run gives answers one of its rows. */
  lemma {:induction false} DirectActionsSound(rows: seq<Row>, next: int, water: Table,
                                              matches: (string, string) -> nat, linksOf: string -> seq<string>)
    ensures forall a :: a in DirectActions(rows, next, water, matches, linksOf).0 ==>
      exists r :: r in rows && Explains(r, a, next)
  {
    if rows != [] {
      var init := rows[..|rows| - 1];
      var last := rows[|rows| - 1];
      DirectActionsSound(init, next, water, matches, linksOf);
      assert rows == init + [last];
      if DirectActions(init, next, water, matches, linksOf).1.None? && RowActions(last, next, water, matches, linksOf).Ok? {
        RowActionsExplained(last, next, water, matches, linksOf);
      }
    }
  }

  /** `update_directly_affected_components(time_stamp, next_sim_time)`:
      the rows at `t` in table order, each turned into its commands. Before
      a schedule exists the event table attribute is missing. */
  method UpdateDirectlyAffected(rec: NetworkRecovery.Recovery, t: int, next: int,
                                matches: (string, string) -> nat, linksOf: string -> seq<string>)
    returns (actions: seq<Action>, err: Option<Exception>)
    ensures !rec.hasEventTable ==> actions == [] && err == Some(AttributeError)
    ensures rec.hasEventTable ==>
      (actions, err) == DirectActions(RowsAt(rec.eventTable, t), next, rec.network.water, matches, linksOf)
  {
    if !rec.hasEventTable {
      return [], Some(AttributeError);
    }
    actions, err := RowsToActions(RowsAt(rec.eventTable, t), next, rec.network.water, matches, linksOf);
  }

  /** The loop of `update_directly_affected_components` over the rows of
      one time stamp: stops at the first row whose component cannot be
      looked up. */
  method RowsToActions(curr: seq<Row>, next: int, water: Table,
                       matches: (string, string) -> nat, linksOf: string -> seq<string>)
    returns (actions: seq<Action>, err: Option<Exception>)
    ensures (actions, err) == DirectActions(curr, next, water, matches, linksOf)
  {
    actions, err := [], None;
    var i := 0;
    while i < |curr|
      invariant 0 <= i <= |curr|
      invariant DirectActions(curr[..i], next, water, matches, linksOf) == (actions, None)
    {
      assert curr[..i + 1][..i] == curr[..i];
      var a := RowActions(curr[i], next, water, matches, linksOf);
      if a.Err? {
        err := Some(a.error);
        DirectActionsStopped(curr, i + 1, next, water, matches, linksOf);
        return;
      }
      actions := actions + a.value;
      i := i + 1;
    }
    assert curr[..i] == curr;
  }

  lemma {:induction false} DirectActionsStopped(rows: seq<Row>, i: nat, next: int, water: Table,
                                                matches: (string, string) -> nat, linksOf: string -> seq<string>)
    requires 0 < i <= |rows|
    requires DirectActions(rows[..i], next, water, matches, linksOf).1.Some?
    ensures DirectActions(rows, next, water, matches, linksOf) == DirectActions(rows[..i], next, water, matches, linksOf)
    decreases |rows| - i
  {
    if i == |rows| {
      assert rows[..i] == rows;
    } else {
      assert rows[..i + 1][..i] == rows[..i];
      DirectActionsStopped(rows, i + 1, next, water, matches, linksOf);
    }
  }

  /** All commands given at one step concern that step: every outage, leak
      and tank closure runs from `t` to the next simulated time. */
  lemma StepWindowsOnly(table: seq<Row>, t: int, next: int, water: Table,
                        matches: (string, string) -> nat, linksOf: string -> seq<string>)
    ensures forall a :: a in DirectActions(RowsAt(table, t), next, water, matches, linksOf).0 ==>
      (a.PumpOutage? || a.Leak? || a.TankPipeClosed?) ==> a.from == t && a.to == next
  {
    var rows := RowsAt(table, t);
    DirectActionsSound(rows, next, water, matches, linksOf);
  }
}
