/** How the older recovery scheduler applies its event table to the solver
    models at one simulation step (`update_directly_affected_components` in
    dreaminsg_integrated_model/src/network_recovery.py). As in the newer
    scheduler the commands are recorded, not carried out;
    `matches(table, name)` counts the rows called `name` in a pandapower
    table and `linksOf(tank)` lists the links of a tank node. This variant
    leaks only plain pipes, with an area of 0.005 per lost percentage
    point of the bypass cross-section, and its pump branch reads an
    attribute the scheduler does not have. */
module OldDirectEffects {
  import opened Wrappers
  import opened SimInterdependencies
  import opened EventTable
  import opened DirectEffects
  import OldInterdependencies
  import OldRecovery

  /** The leak area per lost percentage point, as a fraction of the
      bypass pipe's cross-section. */
  const LeakPerPoint: real := 0.005

  function PipeRowActions(r: Row, next: int): seq<Action> {
    match r.state
    case ServiceDisrupted => [Leak(r.component, LeakPerPoint * (100.0 - r.perf), r.time, next)]
    case Repairing => [LinkStatus(r.component + "_B", false)]
    case ServiceRestored => [LinkStatus(r.component + "_B", true)]
    case Functional => []
  }

  /** The commands for one row of a water component of type `d`, with the
      pump outage the code evidently means. */
  function WaterRowActions(r: Row, d: Details, next: int, linksOf: string -> seq<string>): seq<Action> {
    (if d.name == "Pump" && r.perf < 100.0 then [PumpOutage(r.component, r.time, next)] else [])
    + (if d.name == "Pipe" then PipeRowActions(r, next) else [])
    + (if d.name == "Tank" then TankActions(r, next, linksOf(r.component)) else [])
  }

  /** The commands for one row, with the pump branch corrected. The lookup
      raises for a name that does not split, `None` cannot be unpacked, and
      `.item()` on a power element not listed exactly once raises. */
  function OldRowActions(r: Row, next: int, lookup: string -> Result<Lookup>, matches: (string, string) -> nat,
                         linksOf: string -> seq<string>): Result<seq<Action>>
  {
    match lookup(r.component)
    case Err(e) => Err(e)
    case Ok(Unknown(_)) => Err(TypeError)
    case Ok(Found(d)) =>
      match d.infra
      case Power =>
        if matches(d.code, r.component) != 1 then Err(ValueError)
        else Ok([SetInService(d.code, r.component, !(r.perf < 100.0))])
      case Water => Ok(WaterRowActions(r, d, next, linksOf))
      case Transpo => Ok([])
  }

  /** A row of a pump below full performance. */
  predicate PumpDown(r: Row, lookup: string -> Result<Lookup>) {
    lookup(r.component).Ok? && lookup(r.component).value.Found?
    && lookup(r.component).value.details.infra == Water
    && lookup(r.component).value.details.name == "Pump" && r.perf < 100.0
  }

  /** The commands for one row as written: the outage of a pump below full
      performance is given through `self.networkwn`, which raises. */
  function RowActionsAsWritten(r: Row, next: int, lookup: string -> Result<Lookup>, matches: (string, string) -> nat,
                               linksOf: string -> seq<string>): Result<seq<Action>>
  {
    if PumpDown(r, lookup) then Err(AttributeError) else OldRowActions(r, next, lookup, matches, linksOf)
  }

  /** As written, a disrupted pump stops the whole update, where the
      corrected branch gives its outage for the step. */
  lemma PumpOutageRaises(r: Row, next: int, lookup: string -> Result<Lookup>, matches: (string, string) -> nat,
                         linksOf: string -> seq<string>)
    requires PumpDown(r, lookup)
    ensures RowActionsAsWritten(r, next, lookup, matches, linksOf) == Err(AttributeError)
    ensures OldRowActions(r, next, lookup, matches, linksOf).Ok?
    ensures PumpOutage(r.component, r.time, next) in OldRowActions(r, next, lookup, matches, linksOf).value
  {
  }

  /** Every other row is handled alike by both. */
  lemma AsWrittenElsewhereAgrees(r: Row, next: int, lookup: string -> Result<Lookup>, matches: (string, string) -> nat,
                                 linksOf: string -> seq<string>)
    requires !PumpDown(r, lookup)
    ensures RowActionsAsWritten(r, next, lookup, matches, linksOf) == OldRowActions(r, next, lookup, matches, linksOf)
  {
  }

  /** Why a command was given: the row it answers. */
  predicate OldExplains(r: Row, a: Action, next: int) {
    match a
    case SetInService(_, e, on) => e == r.component && (on <==> r.perf >= 100.0)
    case PumpOutage(p, from, to) => p == r.component && r.perf < 100.0 && from == r.time && to == next
    case Leak(p, f, from, to) =>
      p == r.component && r.state == ServiceDisrupted && f == LeakPerPoint * (100.0 - r.perf)
      && from == r.time && to == next
    case LinkStatus(l, open) =>
      (l == r.component + "_B" && (r.state == Repairing || r.state == ServiceRestored)
       && (open <==> r.state == ServiceRestored))
      || (open && r.perf >= 100.0)
    case TankPipeClosed(_, from, to) => r.perf < 100.0 && from == r.time && to == next
  }

  lemma WaterRowActionsExplained(r: Row, d: Details, next: int, linksOf: string -> seq<string>)
    ensures forall a :: a in WaterRowActions(r, d, next, linksOf) ==> OldExplains(r, a, next)
  {
    var pump := if d.name == "Pump" && r.perf < 100.0 then [PumpOutage(r.component, r.time, next)] else [];
    var pipe := if d.name == "Pipe" then PipeRowActions(r, next) else [];
    var tank := if d.name == "Tank" then TankActions(r, next, linksOf(r.component)) else [];
    assert WaterRowActions(r, d, next, linksOf) == pump + pipe + tank;
    forall a | a in tank ensures OldExplains(r, a, next) {
      var i :| 0 <= i < |tank| && tank[i] == a;
    }
  }

  /** Every command of a row answers that row: a power element is in
      service exactly when its performance is back at 100, a leak's area
      grows with the performance lost, and outages, leaks and tank
      closures last from the row's time to the next simulated time. */
  lemma OldRowActionsExplained(r: Row, next: int, lookup: string -> Result<Lookup>, matches: (string, string) -> nat,
                               linksOf: string -> seq<string>)
    requires OldRowActions(r, next, lookup, matches, linksOf).Ok?
    ensures forall a :: a in OldRowActions(r, next, lookup, matches, linksOf).value ==> OldExplains(r, a, next)
  {
    var d := lookup(r.component).value.details;
    if d.infra == Water {
      WaterRowActionsExplained(r, d, next, linksOf);
    }
  }

  /** Only a plain pipe leaks: a pipe type of any other name gives no
      command at all in this variant. */
  lemma OnlyPlainPipesLeak(r: Row, d: Details, next: int, linksOf: string -> seq<string>)
    requires d.name != "Pipe" && d.name != "Pump" && d.name != "Tank"
    ensures WaterRowActions(r, d, next, linksOf) == []
  {
  }

  /** The commands of a run over `rows` in order; the first row that raises
      stops the run, and the commands already given stay given. */
  function OldDirectActions(rows: seq<Row>, next: int, lookup: string -> Result<Lookup>,
                            matches: (string, string) -> nat, linksOf: string -> seq<string>)
    : (seq<Action>, Option<Exception>)
  {
    if rows == [] then ([], None)
    else
      var before := OldDirectActions(rows[..|rows| - 1], next, lookup, matches, linksOf);
      if before.1.Some? then before
      else
        match OldRowActions(rows[|rows| - 1], next, lookup, matches, linksOf)
        case Err(e) => (before.0, Some(e))
        case Ok(a) => (before.0 + a, None)
  }

  /** The run raises exactly when some row raises, and then with the
      exception of the first such row. */
  lemma {:induction false} OldDirectActionsError(rows: seq<Row>, next: int, lookup: string -> Result<Lookup>,
                                                 matches: (string, string) -> nat, linksOf: string -> seq<string>)
    ensures var out := OldDirectActions(rows, next, lookup, matches, linksOf);
      (out.1.None? <==> forall r :: r in rows ==> OldRowActions(r, next, lookup, matches, linksOf).Ok?)
      && (out.1.Some? ==> exists k :: 0 <= k < |rows| && OldRowActions(rows[k], next, lookup, matches, linksOf) == Err(out.1.value)
                            && forall j :: 0 <= j < k ==> OldRowActions(rows[j], next, lookup, matches, linksOf).Ok?)
  {
    if rows != [] {
      var init := rows[..|rows| - 1];
      OldDirectActionsError(init, next, lookup, matches, linksOf);
      assert rows == init + [rows[|rows| - 1]];
    }
  }

  /** Every command a run gives answers one of its rows. */
  lemma {:induction false} OldDirectActionsSound(rows: seq<Row>, next: int, lookup: string -> Result<Lookup>,
                                                 matches: (string, string) -> nat, linksOf: string -> seq<string>)
    ensures forall a :: a in OldDirectActions(rows, next, lookup, matches, linksOf).0 ==>
      exists r :: r in rows && OldExplains(r, a, next)
  {
    if rows != [] {
      var init := rows[..|rows| - 1];
      var last := rows[|rows| - 1];
      OldDirectActionsSound(init, next, lookup, matches, linksOf);
      assert rows == init + [last];
      if OldDirectActions(init, next, lookup, matches, linksOf).1.None?
         && OldRowActions(last, next, lookup, matches, linksOf).Ok? {
        OldRowActionsExplained(last, next, lookup, matches, linksOf);
      }
    }
  }

  lemma {:induction false} OldDirectActionsStopped(rows: seq<Row>, i: nat, next: int, lookup: string -> Result<Lookup>,
                                                   matches: (string, string) -> nat, linksOf: string -> seq<string>)
    requires 0 < i <= |rows|
    requires OldDirectActions(rows[..i], next, lookup, matches, linksOf).1.Some?
    ensures OldDirectActions(rows, next, lookup, matches, linksOf) == OldDirectActions(rows[..i], next, lookup, matches, linksOf)
    decreases |rows| - i
  {
    if i == |rows| {
      assert rows[..i] == rows;
    } else {
      assert rows[..i + 1][..i] == rows[..i];
      OldDirectActionsStopped(rows, i + 1, next, lookup, matches, linksOf);
    }
  }

  /** The component lookup of the older direct-effects step, with the type
      code read from the letters of the whole identifier
      (`CorrectedComponDetails`); the source reads only its first two
      characters (`OldInterdependencies.LongCodeMisread`). */
  function OldLookup(rec: OldRecovery.OldNetworkRecovery): string -> Result<Lookup>
    reads rec, rec.network
  {
    var power := rec.network.powerTable;
    n => OldInterdependencies.CorrectedComponDetails(n, power)
  }

  /** `update_directly_affected_components(time_stamp, next_sim_time)`:
      the rows at `t` in table order, each turned into its commands. Before
      a schedule exists the event table attribute is missing. */
  method UpdateDirectlyAffected(rec: OldRecovery.OldNetworkRecovery, t: int, next: int,
                                matches: (string, string) -> nat, linksOf: string -> seq<string>)
    returns (actions: seq<Action>, err: Option<Exception>)
    ensures !rec.hasEventTable ==> actions == [] && err == Some(AttributeError)
    ensures rec.hasEventTable ==>
      (actions, err) == OldDirectActions(RowsAt(rec.eventTable, t), next, OldLookup(rec), matches, linksOf)
  {
    if !rec.hasEventTable {
      return [], Some(AttributeError);
    }
    actions, err := OldRowsToActions(RowsAt(rec.eventTable, t), next, OldLookup(rec), matches, linksOf);
  }

  /** The loop over the rows of one time stamp: stops at the first row
      that raises. */
  method OldRowsToActions(curr: seq<Row>, next: int, lookup: string -> Result<Lookup>,
                          matches: (string, string) -> nat, linksOf: string -> seq<string>)
    returns (actions: seq<Action>, err: Option<Exception>)
    ensures (actions, err) == OldDirectActions(curr, next, lookup, matches, linksOf)
  {
    actions, err := [], None;
    var i := 0;
    while i < |curr|
      invariant 0 <= i <= |curr|
      invariant OldDirectActions(curr[..i], next, lookup, matches, linksOf) == (actions, None)
    {
      assert curr[..i + 1][..i] == curr[..i];
      var a := OldRowActions(curr[i], next, lookup, matches, linksOf);
      if a.Err? {
        err := Some(a.error);
        OldDirectActionsStopped(curr, i + 1, next, lookup, matches, linksOf);
        return;
      }
      actions := actions + a.value;
      i := i + 1;
    }
    assert curr[..i] == curr;
  }
}
