/** The disruption-and-recovery object of the older package
    (dreaminsg_integrated_model/src/disrupt_generator.py): the event table
    built from a scenario, a single repair crew that drives from repair to
    repair, the random repair order, and the commands one simulation step
    gives the solver models. `site(c)` is the transport node nearest to
    what `c` connects to, and `travel(a, b)` the rounded shortest travel
    time from `a` to `b` in minutes. */
module DisruptGenerator {
  import opened Wrappers
  import opened ComponentTables
  import opened SimInterdependencies
  import opened SimIntegratedNetwork
  import opened EventTable
  import NetworkRecovery
  import OldInterdependencies
  import OldRecovery
  import DirectEffects
  import OldDirectEffects

  /** The single crew: where it stands (unset when the scenario was empty)
      and when it may leave for its next trip (unset until a repair order
      has been chosen). */
  datatype Crew = Crew(loc: Option<string>, clock: Option<int>)

  /** What stays fixed while a repair order is scheduled; `job` is
      `OldRecovery.JobOf` of the power table. */
  datatype CrewSetting = CrewSetting(
    job: string -> Result<(Infra, nat)>, events: seq<Disruption>, simStep: int,
    site: string -> string, travel: (string, string) -> int)

  /** The four rows written for one repair that starts at `start` and
      takes `rt` seconds: Repairing at its start and two simulation steps
      before its end, then Service Restored at its end and two hours
      later. */
  function FourRows(c: string, start: int, rt: int, simStep: int, fail: real): seq<Row> {
    [Row(start, c, 100.0 - fail, Repairing),
     Row(start + rt - simStep * 2, c, 100.0 - fail, Repairing),
     Row(start + rt, c, 100.0, ServiceRestored),
     Row(start + rt + 7200, c, 100.0, ServiceRestored)]
  }

  /** One pass of the scheduling loop for component `c`. The crew drives
      from where it stands to the site of `c` and starts when it arrives;
      it stays there, and is free again when the repair ends. A transport
      job never comes from `JobOf` (`OldRecovery.JobNeverTranspo`); the
      names that branch should bind would be unbound. */
  function CrewRepair(s: CrewSetting, crew: Crew, c: string): Result<(Crew, seq<Row>)> {
    match s.job(c)
    case Err(e) => Err(e)
    case Ok((infra, hours)) =>
      if infra == Transpo then Err(UnboundLocalError)
      else if crew.loc.None? || crew.clock.None? then Err(AttributeError)
      else
        var rt := hours * 3600;
        var dest := s.site(c);
        var start := crew.clock.value + s.travel(crew.loc.value, dest) * 60;
        match NetworkRecovery.FailPerc(s.events, c)
        case Err(e) => Err(e)
        case Ok(f) => Ok((Crew(Some(dest), Some(start + rt)), FourRows(c, start, rt, s.simStep, f)))
  }

  /** The scheduling loop over a repair order: the crew after the last
      repair and the repair rows in the order they are appended. */
  function CrewPlan(s: CrewSetting, crew: Crew, order: seq<string>): Result<(Crew, seq<Row>)> {
    if order == [] then Ok((crew, []))
    else
      match CrewPlan(s, crew, order[..|order| - 1])
      case Err(e) => Err(e)
      case Ok((crew1, rows)) =>
        match CrewRepair(s, crew1, order[|order| - 1])
        case Err(e) => Err(e)
        case Ok((crew2, more)) => Ok((crew2, rows + more))
  }

  /** A repair starts `60 * travel` seconds after the crew is free, at
      the performance the disruption left, and leaves the crew at the
      repaired component's site, free when the repair ends. */
  lemma CrewRepairShape(s: CrewSetting, crew: Crew, c: string)
    requires CrewRepair(s, crew, c).Ok?
    ensures s.job(c).Ok? && s.job(c).value.0 != Transpo
    ensures crew.loc.Some? && crew.clock.Some? && NetworkRecovery.FailPerc(s.events, c).Ok?
    ensures var (crew1, rows) := CrewRepair(s, crew, c).value;
      var start := crew.clock.value + 60 * s.travel(crew.loc.value, s.site(c));
      var rt := s.job(c).value.1 * 3600;
      rows == FourRows(c, start, rt, s.simStep, NetworkRecovery.FailPerc(s.events, c).value)
      && crew1 == Crew(Some(s.site(c)), Some(start + rt))
  {
  }

  lemma FourRowsOf(rows: seq<Row>, c: string, x: string)
    requires |rows| == 4 && forall k :: 0 <= k < 4 ==> rows[k].component == c
    ensures NetworkRecovery.RowsOf(rows, x) == if x == c then 4 else 0
  {
    var one := if x == c then 1 else 0;
    assert rows[..1][..0] == [];
    assert NetworkRecovery.RowsOf(rows[..1], x) == one;
    assert rows[..2][..1] == rows[..1];
    assert NetworkRecovery.RowsOf(rows[..2], x) == 2 * one;
    assert rows[..3][..2] == rows[..2];
    assert NetworkRecovery.RowsOf(rows[..3], x) == 3 * one;
    assert rows[..3] == rows[..|rows| - 1];
  }

  /** A successfully scheduled order gives every component four rows per
      time it appears in the order, and nothing else. */
  lemma {:induction false} FourRowsPerRepair(s: CrewSetting, crew: Crew, order: seq<string>, c: string)
    requires CrewPlan(s, crew, order).Ok?
    ensures NetworkRecovery.RowsOf(CrewPlan(s, crew, order).value.1, c) == 4 * NetworkRecovery.CountOf(order, c)
    ensures |CrewPlan(s, crew, order).value.1| == 4 * |order|
  {
    if order != [] {
      var init := order[..|order| - 1];
      FourRowsPerRepair(s, crew, init, c);
      var (crew1, rows) := CrewPlan(s, crew, init).value;
      var (crew2, more) := CrewRepair(s, crew1, order[|order| - 1]).value;
      NetworkRecovery.RowsOfAppend(rows, more, c);
      FourRowsOf(more, order[|order| - 1], c);
    }
  }

  /** With travel times that are never negative the single crew works
      one repair after another: every repair starts no earlier than the
      previous one ends (its Service Restored row), and after the last one
      the crew stands at its site and is free when it ends. */
  lemma {:induction false} RepairsInSequence(s: CrewSetting, crew: Crew, order: seq<string>)
    requires forall a, b :: s.travel(a, b) >= 0
    requires CrewPlan(s, crew, order).Ok?
    ensures var (crew1, rows) := CrewPlan(s, crew, order).value;
      |rows| == 4 * |order|
      && (order != [] ==> crew1 == Crew(Some(s.site(order[|order| - 1])), Some(rows[4 * |order| - 2].time)))
      && (order != [] ==> crew.clock.Some? && rows[0].time >= crew.clock.value)
      && forall k :: 0 <= k < |order| - 1 ==> rows[4 * k + 2].time <= rows[4 * (k + 1)].time
  {
    if order != [] {
      var init := order[..|order| - 1];
      var c := order[|order| - 1];
      RepairsInSequence(s, crew, init);
      var (crew1, rows) := CrewPlan(s, crew, init).value;
      var (crew2, more) := CrewRepair(s, crew1, c).value;
      CrewRepairShape(s, crew1, c);
      var all := rows + more;
      assert CrewPlan(s, crew, order).value == (crew2, all);
      InSequenceSnoc(rows, more, |init|);
      if init == [] {
        assert crew1 == crew;
      } else {
        assert all[0] == rows[0];
      }
    }
  }

  /** Ordered blocks of four stay ordered when a block that starts no
      earlier than the last one's restore is appended. */
  lemma InSequenceSnoc(rows: seq<Row>, more: seq<Row>, n: nat)
    requires |rows| == 4 * n && |more| == 4
    requires forall k :: 0 <= k < n - 1 ==> rows[4 * k + 2].time <= rows[4 * (k + 1)].time
    requires n > 0 ==> rows[4 * n - 2].time <= more[0].time
    ensures forall k :: 0 <= k < n ==> (rows + more)[4 * k + 2].time <= (rows + more)[4 * (k + 1)].time
  {
    var all := rows + more;
    forall k | 0 <= k < n
      ensures all[4 * k + 2].time <= all[4 * (k + 1)].time
    {
      if k < n - 1 {
        assert all[4 * k + 2] == rows[4 * k + 2] && all[4 * (k + 1)] == rows[4 * (k + 1)];
      } else {
        assert all[4 * k + 2] == rows[4 * n - 2];
        assert all[4 * (k + 1)] == more[0];
      }
    }
  }

  lemma CrewPlanSnoc(s: CrewSetting, crew: Crew, order: seq<string>, k: nat)
    requires k < |order|
    ensures CrewPlan(s, crew, order[..k]).Err? ==> CrewPlan(s, crew, order[..k + 1]).Err?
    ensures CrewPlan(s, crew, order[..k]).Ok? ==>
      var done := CrewPlan(s, crew, order[..k]).value;
      (CrewPlan(s, crew, order[..k + 1]).Ok? <==> CrewRepair(s, done.0, order[k]).Ok?)
      && (CrewRepair(s, done.0, order[k]).Ok? ==>
            CrewPlan(s, crew, order[..k + 1]).value == (CrewRepair(s, done.0, order[k]).value.0,
                                                      done.1 + CrewRepair(s, done.0, order[k]).value.1))
  {
    assert order[..k + 1][..k] == order[..k];
  }

  lemma {:induction false} CrewPlanStopped(s: CrewSetting, crew: Crew, order: seq<string>, i: nat)
    requires 0 < i <= |order|
    requires CrewPlan(s, crew, order[..i]).Err?
    ensures CrewPlan(s, crew, order).Err?
    decreases |order| - i
  {
    if i == |order| {
      assert order[..i] == order;
    } else {
      assert order[..i + 1][..i] == order[..i];
      CrewPlanStopped(s, crew, order, i + 1);
    }
  }

  /** The disruption times recorded for `c`, in scenario order. */
  function TimesOf(events: seq<Disruption>, c: string): seq<int> {
    if events == [] then []
    else
      var rest := TimesOf(events[..|events| - 1], c);
      if events[|events| - 1].component == c then rest + [events[|events| - 1].time] else rest
  }

  lemma {:induction false} TimesOfSpec(events: seq<Disruption>, c: string)
    ensures forall t :: t in TimesOf(events, c) <==> exists e :: e in events && e.component == c && e.time == t
  {
    if events != [] {
      var init := events[..|events| - 1];
      TimesOfSpec(init, c);
      assert events == init + [events[|events| - 1]];
    }
  }

  /** The crew's first clock: `.item()` of the disruption times of the
      first component of the order, which needs exactly one. */
  function FirstClock(events: seq<Disruption>, order: seq<string>): (r: Result<int>)
    ensures r.Ok? ==> order != [] && exists e :: e in events && e.component == order[0] && e.time == r.value
  {
    if order == [] then Err(IndexError)
    else
      var ts := TimesOf(events, order[0]);
      if |ts| == 1 then
        TimesOfSpec(events, order[0]);
        assert ts[0] in ts;
        var e :| e in events && e.component == order[0] && e.time == ts[0];
        Ok(e.time)
      else Err(ValueError)
  }

  lemma FirstClockErrors(events: seq<Disruption>, order: seq<string>)
    ensures FirstClock(events, order).Err? <==> order == [] || |TimesOf(events, order[0])| != 1
    ensures order == [] ==> FirstClock(events, order) == Err(IndexError)
    ensures order != [] && |TimesOf(events, order[0])| != 1 ==> FirstClock(events, order) == Err(ValueError)
  {
  }

  class DisruptionAndRecovery {
    const disruptiveEvents: seq<Disruption>
    const disruptedComponents: seq<string>
    const simStep: int
    var hasEventTable: bool
    var eventTable: seq<Row>
    var currLocCrew: Option<string>
    var nextCrewTripStart: Option<int>
    var nextRecovScheduled: bool

    /** The object built from a scenario that was read. The event table,
        the simulation step and the crew's location are set only when some
        component is disrupted; the table then holds a Functional row at
        time 0 for every disrupted component, then a Service Disrupted row
        for every disruption. */
    constructor (events: seq<Disruption>, simStep: int, currLocCrew: string)
      ensures disruptiveEvents == events && disruptedComponents == ComponentsOf(events) && this.simStep == simStep
      ensures hasEventTable <==> events != []
      ensures hasEventTable ==>
        eventTable == NetworkRecovery.FunctionalRows(ComponentsOf(events)) + NetworkRecovery.DisruptedRows(events)
        && this.currLocCrew == Some(currLocCrew)
      ensures !hasEventTable ==> this.currLocCrew.None?
      ensures nextCrewTripStart.None? && !nextRecovScheduled
    {
      disruptiveEvents := events;
      disruptedComponents := ComponentsOf(events);
      this.simStep := simStep;
      nextCrewTripStart := None;
      nextRecovScheduled := false;
      if events != [] {
        hasEventTable := true;
        eventTable := NetworkRecovery.FunctionalRows(ComponentsOf(events)) + NetworkRecovery.DisruptedRows(events);
        this.currLocCrew := Some(currLocCrew);
      } else {
        hasEventTable := false;
        eventTable := [];
        this.currLocCrew := None;
      }
    }

    function CrewOf(): Crew
      reads this
    {
      Crew(currLocCrew, nextCrewTripStart)
    }

    /** The setting the scheduling loop works in. */
    function SettingOf(power: Table, site: string -> string, travel: (string, string) -> int): CrewSetting {
      CrewSetting(OldRecovery.JobOf(power), disruptiveEvents, simStep, site, travel)
    }

    /** `optimze_recovery_strategy`: the disrupted components in the
        random order `shuffled` stands for (a permutation of them), with
        the crew's clock set to the disruption time of the first one. An
        empty order has no first element, and a first component disrupted
        more than once has no single time. */
    method OptimizeRecoveryStrategy(shuffled: seq<string>) returns (r: Result<seq<string>>)
      requires multiset(shuffled) == multiset(disruptedComponents)
      modifies this`nextCrewTripStart
      ensures r.Ok? <==> FirstClock(disruptiveEvents, shuffled).Ok?
      ensures r.Ok? ==> r.value == shuffled && nextCrewTripStart == Some(FirstClock(disruptiveEvents, shuffled).value)
      ensures r.Err? ==> nextCrewTripStart == old(nextCrewTripStart)
    {
      var t := FirstClock(disruptiveEvents, shuffled);
      if t.Err? {
        return Err(t.error);
      }
      nextCrewTripStart := Some(t.value);
      r := Ok(shuffled);
    }

    /** `schedule_recovery`: the repairs in order, the table sorted by time
        after each one. An empty order changes nothing. */
    method ScheduleRecovery(order: seq<string>, power: Table, site: string -> string, travel: (string, string) -> int)
      returns (r: Result<()>)
      modifies this`eventTable, this`currLocCrew, this`nextCrewTripStart
      ensures order == [] ==> r.Ok? && eventTable == old(eventTable) && CrewOf() == old(CrewOf())
      ensures r.Ok? <==> CrewPlan(SettingOf(power, site, travel), old(CrewOf()), order).Ok?
      ensures order != [] && r.Ok? ==>
        var plan := CrewPlan(SettingOf(power, site, travel), old(CrewOf()), order).value;
        CrewOf() == plan.0 && SortedByTime(eventTable) && multiset(eventTable) == multiset(old(eventTable) + plan.1)
    {
      ghost var s := SettingOf(power, site, travel);
      ghost var crew0 := CrewOf();
      ghost var table0 := eventTable;
      ghost var done: (Crew, seq<Row>) := (crew0, []);
      var job := OldRecovery.JobOf(power);
      assert order[..0] == [];
      var k := 0;
      while k < |order|
        invariant 0 <= k <= |order|
        invariant CrewPlan(s, crew0, order[..k]) == Ok(done)
        invariant CrewOf() == done.0
        invariant k == 0 ==> eventTable == table0
        invariant multiset(eventTable) == multiset(table0 + done.1)
        invariant k > 0 ==> SortedByTime(eventTable)
      {
        CrewPlanSnoc(s, crew0, order, k);
        r := RepairSorted(order[k], s, job, site, travel, done.0, table0 + done.1);
        if r.Err? {
          CrewPlanStopped(s, crew0, order, k + 1);
          return;
        }
        ghost var more := CrewRepair(s, done.0, order[k]).value;
        AppendAssoc(table0, done.1, more.1);
        done := (more.0, done.1 + more.1);
        k := k + 1;
      }
      assert order[..k] == order;
      r := Ok(());
    }

    /** One pass of the loop: the repair of `c`, then the table sorted. */
    method RepairSorted(c: string, ghost s: CrewSetting, job: string -> Result<(Infra, nat)>,
                        site: string -> string, travel: (string, string) -> int, ghost crew: Crew, ghost rows: seq<Row>)
      returns (r: Result<()>)
      requires s == CrewSetting(job, disruptiveEvents, simStep, site, travel)
      requires crew == CrewOf() && multiset(eventTable) == multiset(rows)
      modifies this`eventTable, this`currLocCrew, this`nextCrewTripStart
      ensures r.Ok? <==> CrewRepair(s, crew, c).Ok?
      ensures r.Ok? ==> CrewOf() == CrewRepair(s, crew, c).value.0 && SortedByTime(eventTable)
                        && multiset(eventTable) == multiset(rows + CrewRepair(s, crew, c).value.1)
    {
      r := RepairOne(c, s, job, site, travel);
      if r.Ok? {
        eventTable := SortValues(eventTable);
      }
    }

    /** The repair of `c` appended to the table. */
    method RepairOne(c: string, ghost s: CrewSetting, job: string -> Result<(Infra, nat)>,
                     site: string -> string, travel: (string, string) -> int)
      returns (r: Result<()>)
      requires s == CrewSetting(job, disruptiveEvents, simStep, site, travel)
      modifies this`eventTable, this`currLocCrew, this`nextCrewTripStart
      ensures r.Ok? <==> CrewRepair(s, old(CrewOf()), c).Ok?
      ensures r.Ok? ==> CrewOf() == CrewRepair(s, old(CrewOf()), c).value.0
                        && eventTable == old(eventTable) + CrewRepair(s, old(CrewOf()), c).value.1
    {
      var j := job(c);
      if j.Err? {
        return Err(j.error);
      }
      var (infra, hours) := j.value;
      if infra == Transpo {
        return Err(UnboundLocalError);
      }
      var rt := hours * 3600;
      var dest := site(c);
      if currLocCrew.None? || nextCrewTripStart.None? {
        return Err(AttributeError);
      }
      var start := nextCrewTripStart.value + travel(currLocCrew.value, dest) * 60;
      var fail := NetworkRecovery.FailPerc(disruptiveEvents, c);
      if fail.Err? {
        return Err(fail.error);
      }
      assert CrewRepair(s, CrewOf(), c) == Ok((Crew(Some(dest), Some(start + rt)), FourRows(c, start, rt, simStep, fail.value)));
      eventTable := eventTable + FourRows(c, start, rt, simStep, fail.value);
      currLocCrew := Some(dest);
      nextCrewTripStart := Some(start + rt);
      r := Ok(());
    }

    /** `update_directly_affected_components(time_stamp, next_sim_time)`:
        the rows at `t` in table order, each turned into its commands, as
        in the older scheduler with its pump branch corrected (this copy
        reaches the pump through the water network it is given), on the
        corrected lookup (`CorrectedComponDetails`). */
    method UpdateDirectlyAffected(t: int, next: int, power: Table,
                                  matches: (string, string) -> nat, linksOf: string -> seq<string>)
      returns (actions: seq<DirectEffects.Action>, err: Option<Exception>)
      ensures !hasEventTable ==> actions == [] && err == Some(AttributeError)
      ensures hasEventTable ==>
        (actions, err) == OldDirectEffects.OldDirectActions(DirectEffects.RowsAt(eventTable, t), next,
                                                            n => OldInterdependencies.CorrectedComponDetails(n, power),
                                                            matches, linksOf)
    {
      if !hasEventTable {
        return [], Some(AttributeError);
      }
      actions, err := OldDirectEffects.OldRowsToActions(DirectEffects.RowsAt(eventTable, t), next,
                                                        n => OldInterdependencies.CorrectedComponDetails(n, power),
                                                        matches, linksOf);
    }
  }

  /** Reading the scenario: a missing file is only reported, and the
      object is then left without its `disruptive_events`, so reading them
      raises. */
  method NewDisruptionAndRecovery(file: Option<seq<Disruption>>, simStep: int, currLocCrew: string)
    returns (r: Result<DisruptionAndRecovery>)
    ensures file.None? <==> r.Err?
    ensures r.Err? ==> r.error == AttributeError
    ensures r.Ok? ==> fresh(r.value) && r.value.disruptiveEvents == file.value && r.value.simStep == simStep
                      && (r.value.hasEventTable <==> file.value != [])
  {
    if file.None? {
      return Err(AttributeError);
    }
    var dr := new DisruptionAndRecovery(file.value, simStep, currLocCrew);
    r := Ok(dr);
  }
}
