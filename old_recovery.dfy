/** The recovery scheduler of the older package
    (dreaminsg_integrated_model/src/network_recovery.py). It differs from
    the newer scheduler in four ways: a repair writes three rows, not
    five; travel has no ten-minute overhead; the water crew's trip is
    timed from the power crew's location and the power crew's clock; and
    road links are neither closed nor reopened. As there, `site(c)` is the
    transport node a crew drives to in order to repair `c`, and
    `travel(a, b)` the shortest travel time from `a` to `b` in whole
    minutes. */
module OldRecovery {
  import opened Wrappers
  import opened ComponentTables
  import opened SimInterdependencies
  import opened SimIntegratedNetwork
  import opened EventTable
  import opened Sorting
  import NetworkRecovery
  import OldInterdependencies
  import OldIntegratedNetwork

  /** The three crew clocks (unset until a first disruption sets them) and
      the crew-location attributes of the network. */
  datatype OldCrews = OldCrews(
    nextPower: Option<int>, nextWater: Option<int>, nextTranspo: Option<int>,
    locs: OldIntegratedNetwork.CrewLocs)

  /** What stays fixed while a repair order is scheduled. */
  datatype OldSetting = OldSetting(
    job: string -> Result<(Infra, nat)>, events: seq<Disruption>, simStep: int,
    site: string -> string, travel: (string, string) -> int)

  /** The three rows written for one repair that starts at `start` and
      takes `rt` seconds. */
  function RepairRows(c: string, start: int, rt: int, simStep: int, fail: real): seq<Row> {
    [Row(start, c, 100.0 - fail, Repairing),
     Row(start + rt - simStep * 2, c, 100.0 - fail, Repairing),
     Row(start + rt, c, 100.0, ServiceRestored)]
  }

  function Rows(s: OldSetting, c: string, start: int, rt: int, cr: OldCrews): Result<(OldCrews, seq<Row>)> {
    match NetworkRecovery.FailPerc(s.events, c)
    case Err(e) => Err(e)
    case Ok(f) => Ok((cr, RepairRows(c, start, rt, s.simStep, f)))
  }

  /** The infrastructure of a component and its repair time in hours, on
      the corrected lookup (`CorrectedComponDetails`): unpacking `None` is a
      TypeError. */
  function Job(c: string, power: Table): Result<(Infra, nat)> {
    match OldInterdependencies.CorrectedComponDetails(c, power)
    case Err(e) => Err(e)
    case Ok(Unknown(_)) => Err(TypeError)
    case Ok(Found(d)) =>
      var table := OldInterdependencies.OldTableOf(d.infra, power);
      if d.typeCode in table then Ok((d.infra, table[d.typeCode].repairTime)) else Err(KeyError)
  }

  /** No job is ever a road repair: the transport branch of the loop,
      which reads a table this package does not define, is never taken. */
  lemma JobNeverTranspo(c: string, power: Table)
    ensures Job(c, power).Ok? ==> Job(c, power).value.0 != Transpo
  {
    OldInterdependencies.NeverTranspo(c, power);
  }

  /** The lookup the scheduler makes for every component, as a value. */
  function JobOf(power: Table): string -> Result<(Infra, nat)> {
    c => Job(c, power)
  }

  /** One pass of the scheduling loop for component `c`; `s.job` is
      `JobOf` of the power table. */
  function RepairStep(s: OldSetting, cr: OldCrews, c: string): Result<(OldCrews, seq<Row>)> {
    match s.job(c)
    case Err(e) => Err(e)
    case Ok((infra, hours)) => Repair(s, cr, c, infra, hours)
  }

  /** The repair of `c`, which belongs to `infra` and takes `hours`. Both
      crews' trips are timed from the power crew's location, and both
      start from the power crew's clock. */
  function Repair(s: OldSetting, cr: OldCrews, c: string, infra: Infra, hours: nat): Result<(OldCrews, seq<Row>)> {
    var rt := hours * 3600;
    var dest := s.site(c);
    match infra
    case Transpo => Err(AttributeError)
    case _ =>
      match OldIntegratedNetwork.Read(cr.locs.power)
      case Err(e) => Err(e)
      case Ok(from) =>
        if cr.nextPower.None? then Err(AttributeError)
        else
          var start := cr.nextPower.value + s.travel(from, dest) * 60;
          var moved := OldIntegratedNetwork.Moved(cr.locs, infra, dest);
          Rows(s, c, start, rt,
               if infra == Power then cr.(locs := moved, nextPower := Some(start + rt))
               else cr.(locs := moved, nextWater := Some(start + rt)))
  }

  /** The scheduling loop over a repair order: the crews after the last
      repair and the repair rows in the order they are appended. */
  function Plan(s: OldSetting, cr: OldCrews, order: seq<string>): Result<(OldCrews, seq<Row>)> {
    if order == [] then Ok((cr, []))
    else
      match Plan(s, cr, order[..|order| - 1])
      case Err(e) => Err(e)
      case Ok((cr1, rows)) =>
        match RepairStep(s, cr1, order[|order| - 1])
        case Err(e) => Err(e)
        case Ok((cr2, more)) => Ok((cr2, rows + more))
  }

  /** `set_initial_crew_start`: each crew's clock becomes the time of the
      first disruption of a component of its infrastructure that is in the
      repair order; a crew with none keeps its clock. */
  function StartCrews(s: OldSetting, cr: OldCrews, infra: InfraLists, order: seq<string>): OldCrews {
    cr.(nextPower := NetworkRecovery.Keep(NetworkRecovery.FirstTime(s.events, order, infra.power), cr.nextPower),
        nextWater := NetworkRecovery.Keep(NetworkRecovery.FirstTime(s.events, order, infra.water), cr.nextWater),
        nextTranspo := NetworkRecovery.Keep(NetworkRecovery.FirstTime(s.events, order, infra.transpo), cr.nextTranspo))
  }

  /** `schedule_recovery` for a non-empty order, read as a whole: the crew
      clocks, the Functional and Service Disrupted rows, then the repairs
      in order. */
  function Schedule(s: OldSetting, cr: OldCrews, infra: InfraLists, cs: seq<string>, order: seq<string>)
    : Result<(OldCrews, seq<Row>)>
  {
    match Plan(s, StartCrews(s, cr, infra, order), order)
    case Err(e) => Err(e)
    case Ok((cr1, repairs)) =>
      Ok((cr1, NetworkRecovery.FunctionalRows(cs) + NetworkRecovery.DisruptedRows(s.events) + repairs))
  }

  lemma ThreeRowsOf(rows: seq<Row>, c: string, x: string)
    requires |rows| == 3 && forall k :: 0 <= k < 3 ==> rows[k].component == c
    ensures NetworkRecovery.RowsOf(rows, x) == if x == c then 3 else 0
  {
    var one := if x == c then 1 else 0;
    assert rows[..1][..0] == [];
    assert NetworkRecovery.RowsOf(rows[..1], x) == one;
    assert rows[..2][..1] == rows[..1];
    assert NetworkRecovery.RowsOf(rows[..2], x) == 2 * one;
    assert rows[..2] == rows[..|rows| - 1];
  }

  /** Every repair writes three rows, all about the repaired component. */
  lemma RepairStepRows(s: OldSetting, cr: OldCrews, c: string)
    requires RepairStep(s, cr, c).Ok?
    ensures |RepairStep(s, cr, c).value.1| == 3
    ensures forall k :: 0 <= k < 3 ==> RepairStep(s, cr, c).value.1[k].component == c
  {
  }

  /** A successfully scheduled order gives every component exactly three
      rows per time it appears in the order, and nothing else. */
  lemma {:induction false} ThreeRowsPerRepair(s: OldSetting, cr: OldCrews, order: seq<string>, c: string)
    requires Plan(s, cr, order).Ok?
    ensures NetworkRecovery.RowsOf(Plan(s, cr, order).value.1, c) == 3 * NetworkRecovery.CountOf(order, c)
    ensures |Plan(s, cr, order).value.1| == 3 * |order|
  {
    if order != [] {
      var init := order[..|order| - 1];
      ThreeRowsPerRepair(s, cr, init, c);
      var (cr1, rows) := Plan(s, cr, init).value;
      var (cr2, more) := RepairStep(s, cr1, order[|order| - 1]).value;
      RepairStepRows(s, cr1, order[|order| - 1]);
      NetworkRecovery.RowsOfAppend(rows, more, c);
      ThreeRowsOf(more, order[|order| - 1], c);
    }
  }

  /** The power crew's clock: a power repair starts `60 * travel` seconds
      after the clock, with no overhead, and moves the clock to its end,
      `repair_time * 3600` seconds later. */
  lemma PowerClock(s: OldSetting, cr: OldCrews, c: string, hours: nat)
    requires Repair(s, cr, c, Power, hours).Ok?
    ensures cr.nextPower.Some? && cr.locs.power.Some?
    ensures var (cr1, rows) := Repair(s, cr, c, Power, hours).value;
      rows[0].state == Repairing
      && rows[0].time == cr.nextPower.value + 60 * s.travel(cr.locs.power.value, s.site(c))
      && cr1 == cr.(locs := cr.locs.(power := Some(s.site(c))), nextPower := Some(rows[0].time + hours * 3600))
  {
  }

  /** A water repair is timed entirely from the power crew: it starts
      `60 * travel` seconds after the power crew's clock, travelling from
      the power crew's location; it moves the water crew and sets the water
      clock, and leaves the power crew's clock and location alone. */
  lemma WaterTimedByPowerCrew(s: OldSetting, cr: OldCrews, c: string, hours: nat)
    requires Repair(s, cr, c, Water, hours).Ok?
    ensures cr.nextPower.Some? && cr.locs.power.Some?
    ensures var (cr1, rows) := Repair(s, cr, c, Water, hours).value;
      rows[0].state == Repairing
      && rows[0].time == cr.nextPower.value + 60 * s.travel(cr.locs.power.value, s.site(c))
      && cr1 == cr.(locs := cr.locs.(water := Some(s.site(c))), nextWater := Some(rows[0].time + hours * 3600))
  {
  }

  /** Without a power clock no water repair can be scheduled, whatever
      the water crew's own clock says. */
  lemma WaterNeedsPowerClock(s: OldSetting, cr: OldCrews, c: string, hours: nat)
    requires cr.nextPower.None?
    ensures Repair(s, cr, c, Water, hours) == Err(AttributeError)
    ensures Repair(s, cr, c, Power, hours) == Err(AttributeError)
  {
  }

  /** The rows of a repair: Repairing at its start and two simulation
      steps before its end, at the performance the disruption left, then
      Service Restored at full performance at its end. */
  lemma RepairRowsShape(s: OldSetting, cr: OldCrews, c: string, infra: Infra, hours: nat)
    requires Repair(s, cr, c, infra, hours).Ok?
    ensures infra != Transpo
    ensures NetworkRecovery.FailPerc(s.events, c).Ok?
    ensures var rows := Repair(s, cr, c, infra, hours).value.1;
      var f := NetworkRecovery.FailPerc(s.events, c).value;
      var t := rows[0].time;
      var end := t + hours * 3600;
      rows == [Row(t, c, 100.0 - f, Repairing), Row(end - 2 * s.simStep, c, 100.0 - f, Repairing),
               Row(end, c, 100.0, ServiceRestored)]
  {
  }

  /** A water repair right after a power repair starts no earlier than
      the end of the power repair, when travel times are not negative:
      both ride the power crew's clock. */
  lemma WaterWaitsForPower(s: OldSetting, cr: OldCrews, c1: string, c2: string, h1: nat, h2: nat)
    requires Repair(s, cr, c1, Power, h1).Ok?
    requires Repair(s, Repair(s, cr, c1, Power, h1).value.0, c2, Water, h2).Ok?
    requires forall a, b :: s.travel(a, b) >= 0
    ensures var (cr1, rows1) := Repair(s, cr, c1, Power, h1).value;
      var rows2 := Repair(s, cr1, c2, Water, h2).value.1;
      rows2[0].time >= rows1[0].time + h1 * 3600
  {
    var (cr1, rows1) := Repair(s, cr, c1, Power, h1).value;
    PowerClock(s, cr, c1, h1);
    WaterTimedByPowerCrew(s, cr1, c2, h2);
  }

  /** A proof step of `OldNetworkRecovery.ScheduleRecovery`, used in
      `RepairFromPrepared`: a successful plan gives the schedule its
      Functional rows, its Service Disrupted rows and the plan's rows, in
      that order. */
  lemma ScheduleDone(s: OldSetting, cr: OldCrews, infra: InfraLists, cs: seq<string>, order: seq<string>,
                     plan: (OldCrews, seq<Row>))
    requires Plan(s, StartCrews(s, cr, infra, order), order) == Ok(plan)
    ensures Schedule(s, cr, infra, cs, order)
         == Ok((plan.0, NetworkRecovery.FunctionalRows(cs) + NetworkRecovery.DisruptedRows(s.events) + plan.1))
  {
  }

  /** One more repair extends the plan by that repair's step. */
  lemma PlanSnoc(s: OldSetting, cr: OldCrews, order: seq<string>, k: nat)
    requires k < |order|
    ensures Plan(s, cr, order[..k]).Err? ==> Plan(s, cr, order[..k + 1]).Err?
    ensures Plan(s, cr, order[..k]).Ok? ==>
      var done := Plan(s, cr, order[..k]).value;
      (Plan(s, cr, order[..k + 1]).Ok? <==> RepairStep(s, done.0, order[k]).Ok?)
      && (RepairStep(s, done.0, order[k]).Ok? ==>
            Plan(s, cr, order[..k + 1]).value.0 == RepairStep(s, done.0, order[k]).value.0
            && Plan(s, cr, order[..k + 1]).value.1 == done.1 + RepairStep(s, done.0, order[k]).value.1)
  {
    assert order[..k + 1][..k] == order[..k];
  }

  lemma {:induction false} PlanStopped(s: OldSetting, cr: OldCrews, order: seq<string>, i: nat)
    requires 0 < i <= |order|
    requires Plan(s, cr, order[..i]).Err?
    ensures Plan(s, cr, order).Err?
    decreases |order| - i
  {
    if i == |order| {
      assert order[..i] == order;
    } else {
      assert order[..i + 1][..i] == order[..i];
      PlanStopped(s, cr, order, i + 1);
    }
  }

  class OldNetworkRecovery {
    const baseNetwork: OldIntegratedNetwork.OldIntegratedNetwork
    var network: OldIntegratedNetwork.OldIntegratedNetwork
    const simStep: int
    const site: string -> string
    const travel: (string, string) -> int
    var hasEventTable: bool
    var eventTable: seq<Row>
    var nextPower: Option<int>
    var nextWater: Option<int>
    var nextTranspo: Option<int>
    var powerNextScheduled: bool
    var waterNextScheduled: bool
    var transpoNextScheduled: bool

    /** The scheduler works on a deep copy of the network it is given. */
    constructor (network: OldIntegratedNetwork.OldIntegratedNetwork, simStep: int, site: string -> string,
                 travel: (string, string) -> int)
      ensures baseNetwork == network && fresh(this.network)
      ensures this.network.disruptiveEvents == network.disruptiveEvents
      ensures this.network.Crews() == network.Crews()
      ensures this.simStep == simStep && !hasEventTable
      ensures nextPower.None? && nextWater.None? && nextTranspo.None?
    {
      var copy := network.Clone();
      baseNetwork := network;
      this.network := copy;
      this.simStep := simStep;
      this.site := site;
      this.travel := travel;
      hasEventTable := false;
      eventTable := [];
      nextPower, nextWater, nextTranspo := None, None, None;
      powerNextScheduled, waterNextScheduled, transpoNextScheduled := false, false, false;
    }

    /** The setting of a network whose scenario has been read. */
    function SettingOf(): OldSetting
      reads this, network
      requires network.disruptiveEvents.Some?
    {
      OldSetting(JobOf(network.powerTable), network.disruptiveEvents.value, simStep, site, travel)
    }

    function CrewsOf(): OldCrews
      reads this, network
    {
      OldCrews(nextPower, nextWater, nextTranspo, network.Crews())
    }

    /** The state a successful `schedule_recovery` leaves behind: the event
        table holds exactly the planned rows in time order, the crew clocks
        are the planned ones, and every crew is back at its office. */
    ghost predicate ScheduledAs(plan: (OldCrews, seq<Row>))
      reads this, network
    {
      RepairedAs(plan) && network.Crews() == OldIntegratedNetwork.Reset(plan.0.locs)
    }

    ghost predicate RepairedAs(plan: (OldCrews, seq<Row>))
      reads this
    {
      hasEventTable && SortedByTime(eventTable) && multiset(eventTable) == multiset(plan.1)
      && nextPower == plan.0.nextPower && nextWater == plan.0.nextWater && nextTranspo == plan.0.nextTranspo
    }

    /** `set_initial_crew_start`, which only moves the crew clocks. */
    method SetInitialCrewStart(order: seq<string>, events: seq<Disruption>, infra: InfraLists)
      requires network.disruptiveEvents == Some(events)
      modifies this`nextPower, this`nextWater, this`nextTranspo
      ensures CrewsOf() == StartCrews(SettingOf(), old(CrewsOf()), infra, order)
    {
      var p := NetworkRecovery.FirstTime(events, order, infra.power);
      if p.Some? { nextPower := p; }
      var w := NetworkRecovery.FirstTime(events, order, infra.water);
      if w.Some? { nextWater := w; }
      var t := NetworkRecovery.FirstTime(events, order, infra.transpo);
      if t.Some? { nextTranspo := t; }
    }

    /** `schedule_recovery`. An empty order only prints a message. The
        scenario and its partition must have been stored, and so must the
        list of disrupted components, or reading them raises. */
    method ScheduleRecovery(order: seq<string>) returns (r: Result<()>)
      modifies this`nextPower, this`nextWater, this`nextTranspo, this`eventTable, this`hasEventTable
      modifies this`powerNextScheduled, this`waterNextScheduled, this`transpoNextScheduled
      modifies network`powerCrewLoc, network`waterCrewLoc, network`transpoCrewLoc
      ensures order == [] ==>
        r.Ok? && eventTable == old(eventTable) && hasEventTable == old(hasEventTable) && CrewsOf() == old(CrewsOf())
      ensures order != [] && (old(network.disruptiveEvents).None? || old(network.disruptedInfra).None?) ==>
        r == Err(AttributeError) && eventTable == old(eventTable) && CrewsOf() == old(CrewsOf())
      ensures (order != [] && old(network.disruptiveEvents).Some? && old(network.disruptedInfra).Some?
               && old(network.disruptedComponents).None?) ==> r == Err(AttributeError)
      ensures (order != [] && old(network.disruptiveEvents).Some? && old(network.disruptedInfra).Some?
               && old(network.disruptedComponents).Some?) ==>
        var sched := Schedule(old(SettingOf()), old(CrewsOf()), old(network.disruptedInfra).value,
                              old(network.disruptedComponents).value, order);
        (r.Ok? <==> sched.Ok?) && (r.Ok? ==> ScheduledAs(sched.value))
    {
      if order == [] {
        return Ok(());
      }
      powerNextScheduled, waterNextScheduled, transpoNextScheduled := false, false, false;
      if network.disruptiveEvents.None? || network.disruptedInfra.None? {
        return Err(AttributeError);
      }
      r := Rebuild(order, SettingOf(), CrewsOf(), network.disruptedInfra.value);
    }

    /** The body of `schedule_recovery` once the scenario and its partition
        are known to be stored. */
    method Rebuild(order: seq<string>, ghost s: OldSetting, ghost cr0: OldCrews, infra: InfraLists)
      returns (r: Result<()>)
      requires order != [] && network.disruptiveEvents.Some?
      requires s == SettingOf() && cr0 == CrewsOf()
      modifies this`nextPower, this`nextWater, this`nextTranspo, this`eventTable, this`hasEventTable
      modifies network`powerCrewLoc, network`waterCrewLoc, network`transpoCrewLoc
      ensures network.disruptedComponents.None? ==> r == Err(AttributeError)
      ensures network.disruptedComponents.Some? ==>
        var sched := Schedule(s, cr0, infra, network.disruptedComponents.value, order);
        (r.Ok? <==> sched.Ok?) && (r.Ok? ==> ScheduledAs(sched.value))
    {
      var events := network.disruptiveEvents.value;
      SetInitialCrewStart(order, events, infra);
      hasEventTable := true;
      eventTable := [];
      var cs := network.GetDisruptedComponents();
      if cs.Err? {
        return Err(cs.error);
      }
      AddFunctionalRows(cs.value);
      AddDisruptionRows(events);
      NetworkRecovery.EmptyAppend(NetworkRecovery.FunctionalRows(cs.value));
      r := RepairFromPrepared(order, s, cr0, infra, cs.value);
    }

    /** The repairs in order, then the crews sent home. */
    method RepairFromPrepared(order: seq<string>, ghost s: OldSetting, ghost cr0: OldCrews, ghost infra: InfraLists,
                              ghost cs: seq<string>)
      returns (r: Result<()>)
      requires order != [] && network.disruptiveEvents.Some?
      requires s == SettingOf() && hasEventTable
      requires CrewsOf() == StartCrews(s, cr0, infra, order)
      requires eventTable == NetworkRecovery.FunctionalRows(cs) + NetworkRecovery.DisruptedRows(s.events)
      modifies this`nextPower, this`nextWater, this`nextTranspo, this`eventTable
      modifies network`powerCrewLoc, network`waterCrewLoc, network`transpoCrewLoc
      ensures r.Ok? <==> Schedule(s, cr0, infra, cs, order).Ok?
      ensures r.Ok? ==> ScheduledAs(Schedule(s, cr0, infra, cs, order).value)
    {
      ghost var planned := StartCrews(s, cr0, infra, order);
      ghost var table0 := eventTable;
      r := RepairAll(order, s, planned, table0);
      if r.Err? {
        return;
      }
      ghost var plan := Plan(s, planned, order).value;
      ScheduleDone(s, cr0, infra, cs, order, plan);
      network.ResetCrewLocs();
    }

    /** A Functional row at time 0 for every disrupted component. */
    method AddFunctionalRows(cs: seq<string>)
      modifies this`eventTable
      ensures eventTable == old(eventTable) + NetworkRecovery.FunctionalRows(cs)
    {
      var i := 0;
      while i < |cs|
        invariant 0 <= i <= |cs|
        invariant eventTable == old(eventTable) + NetworkRecovery.FunctionalRows(cs[..i])
      {
        NetworkRecovery.FunctionalRowsSnoc(cs, i);
        AppendAssoc(old(eventTable), NetworkRecovery.FunctionalRows(cs[..i]), [Row(0, cs[i], 100.0, Functional)]);
        eventTable := eventTable + [Row(0, cs[i], 100.0, Functional)];
        i := i + 1;
      }
      assert cs[..i] == cs;
    }

    /** A Service Disrupted row for every disruption, at its time and at
        the performance it leaves. */
    method AddDisruptionRows(events: seq<Disruption>)
      modifies this`eventTable
      ensures eventTable == old(eventTable) + NetworkRecovery.DisruptedRows(events)
    {
      var j := 0;
      while j < |events|
        invariant 0 <= j <= |events|
        invariant eventTable == old(eventTable) + NetworkRecovery.DisruptedRows(events[..j])
      {
        NetworkRecovery.DisruptedRowsSnoc(events, j);
        var e := events[j];
        AppendAssoc(old(eventTable), NetworkRecovery.DisruptedRows(events[..j]),
                    [Row(e.time, e.component, 100.0 - e.failPerc, ServiceDisrupted)]);
        eventTable := eventTable + [Row(e.time, e.component, 100.0 - e.failPerc, ServiceDisrupted)];
        j := j + 1;
      }
      assert events[..j] == events;
    }

    /** The repairs in order, the table sorted by time after each one. */
    method RepairAll(order: seq<string>, ghost s: OldSetting, ghost cr0: OldCrews, ghost table0: seq<Row>)
      returns (r: Result<()>)
      requires network.disruptiveEvents.Some?
      requires s == SettingOf() && cr0 == CrewsOf() && eventTable == table0
      requires order != [] && hasEventTable
      modifies this`nextPower, this`nextWater, this`nextTranspo, this`eventTable
      modifies network`powerCrewLoc, network`waterCrewLoc, network`transpoCrewLoc
      ensures network.disruptiveEvents.Some? && SettingOf() == s
      ensures r.Ok? <==> Plan(s, cr0, order).Ok?
      ensures r.Ok? ==> CrewsOf() == Plan(s, cr0, order).value.0 && hasEventTable
      ensures r.Ok? ==> SortedByTime(eventTable) && multiset(eventTable) == multiset(table0 + Plan(s, cr0, order).value.1)
    {
      ghost var done: (OldCrews, seq<Row>) := (cr0, []);
      assert order[..0] == [];
      var k := 0;
      while k < |order|
        invariant 0 <= k <= |order|
        invariant network.disruptiveEvents.Some? && SettingOf() == s && hasEventTable
        invariant Plan(s, cr0, order[..k]) == Ok(done)
        invariant CrewsOf() == done.0
        invariant multiset(eventTable) == multiset(table0 + done.1)
        invariant k > 0 ==> SortedByTime(eventTable)
      {
        r, done := RepairNext(order, k, s, cr0, table0, done);
        if r.Err? {
          return;
        }
        k := k + 1;
      }
      assert order[..k] == order;
      r := Ok(());
    }

    /** One pass of the scheduling loop: the repair of `order[k]`, then the
        table sorted; `next` is the plan of the first `k + 1` repairs. */
    method RepairNext(order: seq<string>, k: nat, ghost s: OldSetting, ghost cr0: OldCrews, ghost table0: seq<Row>,
                      ghost done: (OldCrews, seq<Row>))
      returns (r: Result<()>, ghost next: (OldCrews, seq<Row>))
      requires k < |order| && network.disruptiveEvents.Some?
      requires s == SettingOf() && Plan(s, cr0, order[..k]) == Ok(done) && CrewsOf() == done.0
      requires multiset(eventTable) == multiset(table0 + done.1)
      modifies this`nextPower, this`nextWater, this`nextTranspo, this`eventTable
      modifies network`powerCrewLoc, network`waterCrewLoc, network`transpoCrewLoc
      ensures network.disruptiveEvents.Some? && SettingOf() == s
      ensures r.Err? ==> Plan(s, cr0, order).Err?
      ensures r.Ok? ==> Plan(s, cr0, order[..k + 1]) == Ok(next) && CrewsOf() == next.0
      ensures r.Ok? ==> SortedByTime(eventTable) && multiset(eventTable) == multiset(table0 + next.1)
    {
      next := done;
      PlanSnoc(s, cr0, order, k);
      r := ScheduleSorted(order[k], s, done.0, table0 + done.1);
      if r.Err? {
        PlanStopped(s, cr0, order, k + 1);
        return;
      }
      ghost var more := RepairStep(s, done.0, order[k]).value;
      AppendAssoc(table0, done.1, more.1);
      next := (more.0, done.1 + more.1);
    }

    /** The repair of one component, then the table sorted by time. */
    method ScheduleSorted(c: string, ghost s: OldSetting, ghost cr: OldCrews, ghost rows: seq<Row>)
      returns (r: Result<()>)
      requires network.disruptiveEvents.Some?
      requires s == SettingOf() && cr == CrewsOf()
      requires multiset(eventTable) == multiset(rows)
      modifies this`nextPower, this`nextWater, this`nextTranspo, this`eventTable
      modifies network`powerCrewLoc, network`waterCrewLoc, network`transpoCrewLoc
      ensures network.disruptiveEvents.Some? && SettingOf() == s
      ensures r.Ok? <==> RepairStep(s, cr, c).Ok?
      ensures r.Ok? ==> CrewsOf() == RepairStep(s, cr, c).value.0
      ensures r.Ok? ==> SortedByTime(eventTable)
      ensures r.Ok? ==> multiset(eventTable) == multiset(rows + RepairStep(s, cr, c).value.1)
    {
      r := ScheduleOne(c, s);
      if r.Ok? {
        eventTable := SortValues(eventTable);
      }
    }

    /** The body of the scheduling loop for one component. */
    method ScheduleOne(c: string, ghost s: OldSetting) returns (r: Result<()>)
      requires network.disruptiveEvents.Some? && s == SettingOf()
      modifies this`nextPower, this`nextWater, this`eventTable
      modifies network`powerCrewLoc, network`waterCrewLoc, network`transpoCrewLoc
      ensures network.disruptiveEvents.Some? && SettingOf() == s
      ensures r.Ok? <==> RepairStep(s, old(CrewsOf()), c).Ok?
      ensures r.Ok? ==> var (cr, rows) := RepairStep(s, old(CrewsOf()), c).value;
        CrewsOf() == cr && eventTable == old(eventTable) + rows
    {
      var job := JobOf(network.powerTable)(c);
      if job.Err? {
        return Err(job.error);
      }
      var (infra, hours) := job.value;
      if infra == Transpo {
        return Err(AttributeError);
      }
      r := Dispatch(c, infra, hours, s);
    }

    /** The crew of `infra` travels from where the power crew is and
        repairs `c` in `hours`, starting from the power crew's clock. */
    method Dispatch(c: string, infra: Infra, hours: nat, ghost s: OldSetting) returns (r: Result<()>)
      requires infra != Transpo
      requires network.disruptiveEvents.Some? && s == SettingOf()
      modifies this`nextPower, this`nextWater, this`eventTable
      modifies network`powerCrewLoc, network`waterCrewLoc, network`transpoCrewLoc
      ensures network.disruptiveEvents.Some? && SettingOf() == s
      ensures r.Ok? <==> Repair(s, old(CrewsOf()), c, infra, hours).Ok?
      ensures r.Ok? ==> CrewsOf() == Repair(s, old(CrewsOf()), c, infra, hours).value.0
      ensures r.Ok? ==> eventTable == old(eventTable) + Repair(s, old(CrewsOf()), c, infra, hours).value.1
    {
      ghost var cr0 := CrewsOf();
      var rt := hours * 3600;
      var dest := site(c);
      var from := network.GetCrewLoc(Power);
      if from.Err? {
        return Err(from.error);
      }
      var tt := travel(from.value, dest);
      if nextPower.None? {
        return Err(AttributeError);
      }
      var start := nextPower.value + tt * 60;
      ghost var next := if infra == Power
        then cr0.(locs := OldIntegratedNetwork.Moved(cr0.locs, Power, dest), nextPower := Some(start + rt))
        else cr0.(locs := OldIntegratedNetwork.Moved(cr0.locs, Water, dest), nextWater := Some(start + rt));
      assert Repair(s, cr0, c, infra, hours) == Rows(s, c, start, rt, next);
      network.SetCrewLoc(infra, dest);
      if infra == Power {
        nextPower := Some(start + rt);
      } else {
        nextWater := Some(start + rt);
      }
      assert CrewsOf() == next;
      r := Record(c, start, rt);
    }

    /** The three rows of a repair go at the end of the event table. */
    method Record(c: string, start: int, rt: int) returns (r: Result<()>)
      requires network.disruptiveEvents.Some?
      modifies this`eventTable
      ensures r.Ok? <==> NetworkRecovery.FailPerc(network.disruptiveEvents.value, c).Ok?
      ensures r.Ok? ==>
        eventTable == old(eventTable) + RepairRows(c, start, rt, simStep, NetworkRecovery.FailPerc(network.disruptiveEvents.value, c).value)
    {
      var fail := NetworkRecovery.FailPerc(network.disruptiveEvents.value, c);
      if fail.Err? {
        return Err(fail.error);
      }
      eventTable := eventTable + RepairRows(c, start, rt, simStep, fail.value);
      r := Ok(());
    }

    /** `reset_networks`: a fresh deep copy of the network the scheduler
        was given. */
    method ResetNetworks()
      modifies this
      ensures fresh(network)
      ensures network.disruptiveEvents == baseNetwork.disruptiveEvents
      ensures network.Crews() == baseNetwork.Crews()
    {
      network := baseNetwork.Clone();
    }
  }
}
