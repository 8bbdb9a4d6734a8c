/** The recovery scheduler (infrarisk/src/network_recovery.py): from a
    repair order it builds the event table of a scenario, one crew per
    infrastructure, each with its own clock. The transport model enters
    through two functions given to the scheduler: `site(c)`, the transport
    node a crew drives to in order to repair `c` (the connected-node lookup
    followed by the nearest-node search), and `travel(fft, a, b)`, the
    shortest travel time from `a` to `b` in whole minutes under the current
    free-flow times (the traffic assignment, then `int(round(...))`). */
module NetworkRecovery {
  import opened Wrappers
  import opened ComponentTables
  import opened SimInterdependencies
  import opened SimIntegratedNetwork
  import opened EventTable
  import opened Sorting
  import WaterControls

  /** The free-flow time of a failed road link. */
  const FailedFreeFlowTime: real := 9999.0

  /** What scheduling threads from one repair to the next: the three crew
      clocks (unset until a first disruption sets them), the crew
      locations, and the free-flow times of the road links. */
  datatype Crews = Crews(
    nextPower: Option<int>, nextWater: Option<int>, nextTranspo: Option<int>,
    powerLoc: string, waterLoc: string, transpoLoc: string,
    fft: map<string, real>)

  /** What stays fixed while a repair order is scheduled. */
  datatype Setting = Setting(
    water: Table, events: seq<Disruption>, fftBase: map<string, real>, simStep: int,
    site: string -> string, travel: (map<string, real>, string, string) -> int)

  /** The fail percentages recorded for component `c`, in table order. */
  function FailsOf(events: seq<Disruption>, c: string): seq<real> {
    if events == [] then []
    else
      var e := events[|events| - 1];
      FailsOf(events[..|events| - 1], c) + (if e.component == c then [e.failPerc] else [])
  }

  /** `fail_perc.item()` on the disruption rows of `c`: a ValueError unless
      there is exactly one. */
  function FailPerc(events: seq<Disruption>, c: string): (r: Result<real>)
    ensures r.Ok? <==> |FailsOf(events, c)| == 1
    ensures r.Err? ==> r.error == ValueError
  {
    var fs := FailsOf(events, c);
    if |fs| == 1 then Ok(fs[0]) else Err(ValueError)
  }

  lemma {:induction false} FailsOfNone(events: seq<Disruption>, c: string)
    requires forall j :: 0 <= j < |events| ==> events[j].component != c
    ensures FailsOf(events, c) == []
  {
    if events != [] {
      FailsOfNone(events[..|events| - 1], c);
    }
  }

  lemma {:induction false} FailsOfSome(events: seq<Disruption>, c: string, i: int)
    requires 0 <= i < |events| && events[i].component == c
    ensures |FailsOf(events, c)| >= 1
  {
    if i < |events| - 1 {
      FailsOfSome(events[..|events| - 1], c, i);
    }
  }

  /** The disruption row of a component that has exactly one gives its
      fail percentage. */
  lemma {:induction false} FailPercUnique(events: seq<Disruption>, c: string, i: int)
    requires 0 <= i < |events| && events[i].component == c
    requires forall j :: 0 <= j < |events| && j != i ==> events[j].component != c
    ensures FailsOf(events, c) == [events[i].failPerc]
    ensures FailPerc(events, c) == Ok(events[i].failPerc)
  {
    var init := events[..|events| - 1];
    if i == |events| - 1 {
      FailsOfNone(init, c);
    } else {
      FailPercUnique(init, c, i);
    }
  }

  /** A component with no disruption row, or with two, makes the lookup
      fail. */
  lemma FailPercAbsent(events: seq<Disruption>, c: string)
    requires forall j :: 0 <= j < |events| ==> events[j].component != c
    ensures FailPerc(events, c) == Err(ValueError)
  {
    FailsOfNone(events, c);
  }

  lemma {:induction false} FailPercRepeated(events: seq<Disruption>, c: string, i: int, j: int)
    requires 0 <= i < j < |events| && events[i].component == c && events[j].component == c
    ensures |FailsOf(events, c)| >= 2
    ensures FailPerc(events, c) == Err(ValueError)
  {
    var init := events[..|events| - 1];
    if j == |events| - 1 {
      FailsOfSome(init, c, i);
    } else {
      FailPercRepeated(init, c, i, j);
    }
  }

  /** The five rows written for one repair that starts at `start` and
      takes `rt` seconds. */
  function RepairRows(c: string, start: int, rt: int, simStep: int, fail: real): seq<Row> {
    [Row(start, c, 100.0 - fail, Repairing),
     Row(start + rt - simStep * 2, c, 100.0 - fail, Repairing),
     Row(start + rt, c, 100.0, ServiceRestored),
     Row(start + rt + 120, c, 100.0, ServiceRestored),
     Row(start + rt + 240, c, 100.0, ServiceRestored)]
  }

  function Rows(s: Setting, c: string, start: int, rt: int, cr: Crews): Result<(Crews, seq<Row>)>
  {
    match FailPerc(s.events, c)
    case Err(e) => Err(e)
    case Ok(f) => Ok((cr, RepairRows(c, start, rt, s.simStep, f)))
  }

  /** What the scheduler looks up for a component: the infrastructure it
      belongs to and its repair time in hours from that infrastructure's
      table. */
  function Job(c: string, water: Table): Result<(Infra, nat)> {
    match GetComponDetails(c, water)
    case Err(e) => Err(e)
    case Ok(Unknown(_)) => Err(TypeError)
    case Ok(Found(d)) => Ok((d.infra, TableOf(d.infra, water)[d.typeCode].repairTime))
  }

  /** One pass of the scheduling loop for component `c`. */
  function RepairStep(s: Setting, cr: Crews, c: string): Result<(Crews, seq<Row>)>
  {
    match Job(c, s.water)
    case Err(e) => Err(e)
    case Ok((infra, hours)) => Repair(s, cr, c, infra, hours)
  }

  /** The repair of `c`, which belongs to `infra` and takes `hours`. Power
      and water crews measure their travel from the power crew's location;
      each travel gets ten minutes added. */
  function Repair(s: Setting, cr: Crews, c: string, infra: Infra, hours: nat): Result<(Crews, seq<Row>)>
  {
    var rt := hours * 3600;
    var dest := s.site(c);
    match infra
    case Power =>
      var tt := 10 + s.travel(cr.fft, cr.powerLoc, dest);
      if cr.nextPower.None? then Err(AttributeError)
      else
        var start := cr.nextPower.value + tt * 60;
        Rows(s, c, start, rt, cr.(powerLoc := dest, nextPower := Some(start + rt)))
    case Water =>
      var tt := 10 + s.travel(cr.fft, cr.powerLoc, dest);
      if cr.nextWater.None? then Err(AttributeError)
      else
        var start := cr.nextWater.value + tt * 60;
        Rows(s, c, start, rt, cr.(waterLoc := dest, nextWater := Some(start + rt)))
    case Transpo =>
      if c !in cr.fft || c !in s.fftBase then Err(KeyError)
      else RoadTrip(s, cr.(fft := cr.fft[c := s.fftBase[c]]), c, hours)
  }

  /** The road crew's part of a road repair, once the link is reopened. */
  function RoadTrip(s: Setting, cr: Crews, c: string, hours: nat): Result<(Crews, seq<Row>)>
  {
    var rt := hours * 3600;
    var dest := s.site(c);
    var tt := 10 + s.travel(cr.fft, cr.transpoLoc, dest);
    if cr.nextTranspo.None? then Err(AttributeError)
    else
      var start := cr.nextTranspo.value + tt * 60;
      Rows(s, c, start, rt, cr.(transpoLoc := dest, nextTranspo := Some(start + rt)))
  }

  /** The scheduling loop over a repair order: the crews after the last
      repair and the repair rows in the order they are appended. */
  function Plan(s: Setting, cr: Crews, order: seq<string>): Result<(Crews, seq<Row>)> {
    if order == [] then Ok((cr, []))
    else
      match Plan(s, cr, order[..|order| - 1])
      case Err(e) => Err(e)
      case Ok((cr1, rows)) =>
        match RepairStep(s, cr1, order[|order| - 1])
        case Err(e) => Err(e)
        case Ok((cr2, more)) => Ok((cr2, rows + more))
  }

  function CountOf(order: seq<string>, c: string): nat {
    if order == [] then 0
    else CountOf(order[..|order| - 1], c) + (if order[|order| - 1] == c then 1 else 0)
  }

  function RowsOf(rows: seq<Row>, c: string): nat {
    if rows == [] then 0
    else RowsOf(rows[..|rows| - 1], c) + (if rows[|rows| - 1].component == c then 1 else 0)
  }

  lemma {:induction false} RowsOfAppend(a: seq<Row>, b: seq<Row>, c: string)
    ensures RowsOf(a + b, c) == RowsOf(a, c) + RowsOf(b, c)
    decreases |b|
  {
    if b == [] {
      assert a + b == a;
    } else {
      var b0 := b[..|b| - 1];
      assert (a + b)[..|a + b| - 1] == a + b0;
      RowsOfAppend(a, b0, c);
    }
  }

  lemma FiveRowsOf(rows: seq<Row>, c: string, x: string)
    requires |rows| == 5 && forall k :: 0 <= k < 5 ==> rows[k].component == c
    ensures RowsOf(rows, x) == if x == c then 5 else 0
  {
    var one := if x == c then 1 else 0;
    assert rows[..1][..0] == [];
    assert RowsOf(rows[..1], x) == one;
    assert rows[..2][..1] == rows[..1];
    assert RowsOf(rows[..2], x) == 2 * one;
    assert rows[..3][..2] == rows[..2];
    assert RowsOf(rows[..3], x) == 3 * one;
    assert rows[..4][..3] == rows[..3];
    assert RowsOf(rows[..4], x) == 4 * one;
    assert rows[..4] == rows[..|rows| - 1];
  }

  /** Every repair writes five rows, all about the repaired component. */
  lemma RepairStepRows(s: Setting, cr: Crews, c: string)
    requires RepairStep(s, cr, c).Ok?
    ensures |RepairStep(s, cr, c).value.1| == 5
    ensures forall k :: 0 <= k < 5 ==> RepairStep(s, cr, c).value.1[k].component == c
  {
  }

  /** A successfully scheduled order gives every component exactly five
      rows per time it appears in the order, and nothing else. */
  lemma {:induction false} FiveRowsPerRepair(s: Setting, cr: Crews, order: seq<string>, c: string)
    requires Plan(s, cr, order).Ok?
    ensures RowsOf(Plan(s, cr, order).value.1, c) == 5 * CountOf(order, c)
    ensures |Plan(s, cr, order).value.1| == 5 * |order|
  {
    if order != [] {
      var init := order[..|order| - 1];
      FiveRowsPerRepair(s, cr, init, c);
      var (cr1, rows) := Plan(s, cr, init).value;
      var (cr2, more) := RepairStep(s, cr1, order[|order| - 1]).value;
      RepairStepRows(s, cr1, order[|order| - 1]);
      RowsOfAppend(rows, more, c);
      FiveRowsOf(more, order[|order| - 1], c);
    }
  }

  /** The power crew's clock: a power repair starts
      `60 * (10 + travel)` seconds after the clock and moves the clock to
      its end, `repair_time * 3600` seconds later. */
  lemma PowerClock(s: Setting, cr: Crews, c: string, hours: nat)
    requires Repair(s, cr, c, Power, hours).Ok?
    ensures cr.nextPower.Some?
    ensures var (cr1, rows) := Repair(s, cr, c, Power, hours).value;
      rows[0].state == Repairing
      && rows[0].time == cr.nextPower.value + 60 * (10 + s.travel(cr.fft, cr.powerLoc, s.site(c)))
      && cr1 == cr.(powerLoc := s.site(c), nextPower := Some(rows[0].time + hours * 3600))
  {
  }

  /** The water crew's clock and location change, but its travel time is
      measured from where the power crew is. */
  lemma WaterTravelsFromPowerCrew(s: Setting, cr: Crews, c: string, hours: nat)
    requires Repair(s, cr, c, Water, hours).Ok?
    ensures cr.nextWater.Some?
    ensures var (cr1, rows) := Repair(s, cr, c, Water, hours).value;
      rows[0].state == Repairing
      && rows[0].time == cr.nextWater.value + 60 * (10 + s.travel(cr.fft, cr.powerLoc, s.site(c)))
      && cr1 == cr.(waterLoc := s.site(c), nextWater := Some(rows[0].time + hours * 3600))
  {
  }

  /** A road repair restores the link's base free-flow time before the
      crew's travel is measured, and moves only the road crew. */
  lemma TranspoRestoresLink(s: Setting, cr: Crews, c: string, hours: nat)
    requires Repair(s, cr, c, Transpo, hours).Ok?
    ensures c in cr.fft && c in s.fftBase && cr.nextTranspo.Some?
    ensures var (cr1, rows) := Repair(s, cr, c, Transpo, hours).value;
      cr1.fft == cr.fft[c := s.fftBase[c]]
      && rows[0].time == cr.nextTranspo.value + 60 * (10 + s.travel(cr1.fft, cr.transpoLoc, s.site(c)))
      && cr1 == cr.(fft := cr1.fft, transpoLoc := s.site(c), nextTranspo := Some(rows[0].time + hours * 3600))
  {
  }

  /** The rows of a repair: Repairing at its start and two simulation
      steps before its end, at the performance the disruption left;
      Service Restored at full performance at its end and two and four
      minutes later. */
  lemma RepairRowsShape(s: Setting, cr: Crews, c: string, infra: Infra, hours: nat)
    requires Repair(s, cr, c, infra, hours).Ok?
    ensures FailPerc(s.events, c).Ok?
    ensures var rows := Repair(s, cr, c, infra, hours).value.1;
      var f := FailPerc(s.events, c).value;
      var t := rows[0].time;
      var end := t + hours * 3600;
      rows == [Row(t, c, 100.0 - f, Repairing), Row(end - 2 * s.simStep, c, 100.0 - f, Repairing),
               Row(end, c, 100.0, ServiceRestored), Row(end + 120, c, 100.0, ServiceRestored),
               Row(end + 240, c, 100.0, ServiceRestored)]
  {
  }

  /** Two power repairs in a row by the same crew start at least the first
      repair's duration plus ten minutes apart when travel times are not
      negative. */
  lemma PowerStartsSpaced(s: Setting, cr: Crews, c1: string, c2: string, h1: nat, h2: nat)
    requires Repair(s, cr, c1, Power, h1).Ok?
    requires Repair(s, Repair(s, cr, c1, Power, h1).value.0, c2, Power, h2).Ok?
    requires forall f, a, b :: s.travel(f, a, b) >= 0
    ensures var (cr1, rows1) := Repair(s, cr, c1, Power, h1).value;
      var rows2 := Repair(s, cr1, c2, Power, h2).value.1;
      rows2[0].time - rows1[0].time >= h1 * 3600 + 600
  {
    var (cr1, rows1) := Repair(s, cr, c1, Power, h1).value;
    PowerClock(s, cr, c1, h1);
    PowerClock(s, cr1, c2, h2);
  }

  /** The disrupted transport links' free-flow times become 9999 before
      anything is scheduled. */
  function FailLinks(s: Setting, fft: map<string, real>, cs: seq<string>): Result<map<string, real>> {
    if cs == [] then Ok(fft)
    else
      match FailLinks(s, fft, cs[..|cs| - 1])
      case Err(e) => Err(e)
      case Ok(f) => FailLink(s, f, cs[|cs| - 1])
  }

  /** One disrupted component: a road link is closed, anything else of a
      known infrastructure is left alone. */
  function FailLink(s: Setting, f: map<string, real>, c: string): Result<map<string, real>> {
    match Classified(c, s.water)
    case Err(e) => Err(e)
    case Ok(Transpo) => if c in f then Ok(f[c := FailedFreeFlowTime]) else Err(KeyError)
    case Ok(_) => Ok(f)
  }

  lemma FailLinksSnoc(s: Setting, fft: map<string, real>, cs: seq<string>, i: nat)
    requires i < |cs|
    ensures FailLinks(s, fft, cs[..i + 1]) ==
      match FailLinks(s, fft, cs[..i])
      case Err(e) => Err(e)
      case Ok(f) => FailLink(s, f, cs[i])
  {
    assert cs[..i + 1][..i] == cs[..i];
  }

  lemma FunctionalRowsSnoc(cs: seq<string>, i: nat)
    requires i < |cs|
    ensures FunctionalRows(cs[..i + 1]) == FunctionalRows(cs[..i]) + [Row(0, cs[i], 100.0, Functional)]
  {
    assert cs[..i + 1][..i] == cs[..i];
  }

  /** A Functional row at time 0 for each disrupted component. */
  function FunctionalRows(cs: seq<string>): seq<Row> {
    if cs == [] then [] else FunctionalRows(cs[..|cs| - 1]) + [Row(0, cs[|cs| - 1], 100.0, Functional)]
  }

  /** A Service Disrupted row for each disruption, at its time and at the
      performance level it leaves. */
  function DisruptedRows(events: seq<Disruption>): seq<Row> {
    if events == [] then []
    else
      var e := events[|events| - 1];
      DisruptedRows(events[..|events| - 1]) + [Row(e.time, e.component, 100.0 - e.failPerc, ServiceDisrupted)]
  }

  lemma {:induction false} FunctionalRowsAt(cs: seq<string>)
    ensures |FunctionalRows(cs)| == |cs|
    ensures forall i :: 0 <= i < |cs| ==> FunctionalRows(cs)[i] == Row(0, cs[i], 100.0, Functional)
  {
    if cs != [] {
      FunctionalRowsAt(cs[..|cs| - 1]);
    }
  }

  lemma {:induction false} DisruptedRowsAt(events: seq<Disruption>)
    ensures |DisruptedRows(events)| == |events|
    ensures forall i :: 0 <= i < |events| ==>
      DisruptedRows(events)[i] == Row(events[i].time, events[i].component, 100.0 - events[i].failPerc, ServiceDisrupted)
  {
    if events != [] {
      DisruptedRowsAt(events[..|events| - 1]);
    }
  }

  lemma DisruptedRowsSnoc(events: seq<Disruption>, j: nat)
    requires j < |events|
    ensures DisruptedRows(events[..j + 1]) ==
      DisruptedRows(events[..j]) + [Row(events[j].time, events[j].component, 100.0 - events[j].failPerc, ServiceDisrupted)]
  {
    assert events[..j + 1][..j] == events[..j];
  }

  /** The time stamp of the first disruption whose component is in the
      repair order and in `members`. */
  function FirstTime(events: seq<Disruption>, order: seq<string>, members: seq<string>): Option<int> {
    if events == [] then None
    else if events[0].component in order && events[0].component in members then Some(events[0].time)
    else FirstTime(events[1..], order, members)
  }

  predicate Starts(e: Disruption, order: seq<string>, members: seq<string>) {
    e.component in order && e.component in members
  }

  /** `FirstTime` finds the earliest disruption of a repaired member, and
      finds nothing only when there is none. */
  lemma {:induction false} FirstTimeSpec(events: seq<Disruption>, order: seq<string>, members: seq<string>)
    ensures FirstTime(events, order, members).None? <==> forall i :: 0 <= i < |events| ==> !Starts(events[i], order, members)
    ensures FirstTime(events, order, members).Some? ==>
      exists i :: 0 <= i < |events| && Starts(events[i], order, members)
                  && events[i].time == FirstTime(events, order, members).value
                  && forall j :: 0 <= j < i ==> !Starts(events[j], order, members)
  {
    if events != [] && !Starts(events[0], order, members) {
      var rest := events[1..];
      FirstTimeSpec(rest, order, members);
      assert forall i :: 0 < i < |events| ==> events[i] == rest[i - 1];
      if FirstTime(rest, order, members).Some? {
        var i :| 0 <= i < |rest| && Starts(rest[i], order, members)
                 && rest[i].time == FirstTime(rest, order, members).value
                 && forall j :: 0 <= j < i ==> !Starts(rest[j], order, members);
        assert events[i + 1] == rest[i];
        assert forall j :: 0 <= j < i + 1 ==> !Starts(events[j], order, members) by {
          forall j | 0 <= j < i + 1 ensures !Starts(events[j], order, members) {
            if j > 0 { assert events[j] == rest[j - 1]; }
          }
        }
      } else {
        forall i | 0 <= i < |events| ensures !Starts(events[i], order, members) {
          if i > 0 { assert events[i] == rest[i - 1]; }
        }
      }
    }
  }

  function Keep(t: Option<int>, previous: Option<int>): Option<int> {
    if t.Some? then t else previous
  }

  /** `schedule_recovery` for a non-empty order, read as a whole: the crew
      clocks set from the first disruptions, the links failed, the
      Functional and Service Disrupted rows, then the repairs in order. */
  function Schedule(s: Setting, cr: Crews, infra: InfraLists, cs: seq<string>, order: seq<string>)
    : Result<(Crews, seq<Row>)>
  {
    match FailLinks(s, cr.fft, cs)
    case Err(e) => Err(e)
    case Ok(fft) =>
      match Plan(s, StartCrews(s, cr, infra, order).(fft := fft), order)
      case Err(e) => Err(e)
      case Ok((cr1, repairs)) => Ok((cr1, FunctionalRows(cs) + DisruptedRows(s.events) + repairs))
  }

  /** `set_initial_crew_start`: each crew's clock becomes the time of the
      first disruption of a component of its infrastructure that is in the
      repair order; a crew with none keeps its clock. */
  function StartCrews(s: Setting, cr: Crews, infra: InfraLists, order: seq<string>): Crews {
    cr.(nextPower := Keep(FirstTime(s.events, order, infra.power), cr.nextPower),
        nextWater := Keep(FirstTime(s.events, order, infra.water), cr.nextWater),
        nextTranspo := Keep(FirstTime(s.events, order, infra.transpo), cr.nextTranspo))
  }

  lemma {:induction false} FailLinksStopped(s: Setting, fft: map<string, real>, cs: seq<string>, i: nat)
    requires 0 < i <= |cs|
    requires FailLinks(s, fft, cs[..i]).Err?
    ensures FailLinks(s, fft, cs).Err?
    decreases |cs| - i
  {
    if i < |cs| {
      FailLinksSnoc(s, fft, cs, i);
      FailLinksStopped(s, fft, cs, i + 1);
    } else {
      assert cs[..i] == cs;
    }
  }

  /** A proof step of `Recovery.ScheduleRecovery`, used in `Rebuild`: a
      failed road closure fails the whole schedule. */
  lemma ScheduleLinksFail(s: Setting, cr: Crews, infra: InfraLists, cs: seq<string>, order: seq<string>)
    requires FailLinks(s, cr.fft, cs).Err?
    ensures Schedule(s, cr, infra, cs, order).Err?
  {
  }

  /** A proof step of `Recovery.ScheduleRecovery`, used in
      `RepairFromPrepared`: a failed repair plan fails the whole schedule. */
  lemma SchedulePlanFails(s: Setting, cr: Crews, infra: InfraLists, cs: seq<string>, order: seq<string>,
                          fft: map<string, real>)
    requires FailLinks(s, cr.fft, cs) == Ok(fft)
    requires Plan(s, StartCrews(s, cr, infra, order).(fft := fft), order).Err?
    ensures Schedule(s, cr, infra, cs, order).Err?
  {
  }

  /** A proof step of `Recovery.ScheduleRecovery`, used in
      `RepairFromPrepared`: a successful plan gives the schedule its
      Functional rows, its Service Disrupted rows and the plan's rows, in
      that order. */
  lemma ScheduleDone(s: Setting, cr: Crews, infra: InfraLists, cs: seq<string>, order: seq<string>,
                     fft: map<string, real>, plan: (Crews, seq<Row>))
    requires FailLinks(s, cr.fft, cs) == Ok(fft)
    requires Plan(s, StartCrews(s, cr, infra, order).(fft := fft), order) == Ok(plan)
    ensures Schedule(s, cr, infra, cs, order) == Ok((plan.0, FunctionalRows(cs) + DisruptedRows(s.events) + plan.1))
  {
  }

  lemma EmptyAppend(a: seq<Row>)
    ensures [] + a == a
  {
  }

  /** One more repair extends the plan by that repair's step. */
  lemma PlanSnoc(s: Setting, cr: Crews, order: seq<string>, k: nat)
    requires k < |order|
    ensures Plan(s, cr, order[..k]).Err? ==> Plan(s, cr, order[..k + 1]).Err?
    ensures Plan(s, cr, order[..k]).Ok? ==>
      var done := Plan(s, cr, order[..k]).value;
      (Plan(s, cr, order[..k + 1]).Ok? <==> RepairStep(s, done.0, order[k]).Ok?)
      && (RepairStep(s, done.0, order[k]).Ok? ==>
            Plan(s, cr, order[..k + 1]).value.0 == RepairStep(s, done.0, order[k]).value.0
            && Plan(s, cr, order[..k + 1]).value.1 == done.1 + RepairStep(s, done.0, order[k]).value.1)
  {
    assert order[..k + 1][..k] == order[..k];
  }

  lemma {:induction false} PlanStopped(s: Setting, cr: Crews, order: seq<string>, i: nat)
    requires 0 < i <= |order|
    requires Plan(s, cr, order[..i]).Err?
    ensures Plan(s, cr, order).Err?
    decreases |order| - i
  {
    if i == |order| {
      assert order[..i] == order;
    } else {
      assert order[..i + 1][..i] == order[..i];
      PlanStopped(s, cr, order, i + 1);
    }
  }

  class Recovery {
    const baseNetwork: IntegratedNetwork
    var network: IntegratedNetwork
    const simStep: int
    const site: string -> string
    const travel: (map<string, real>, string, string) -> int
    var tnUpdateFlag: bool
    var hasEventTable: bool
    var eventTable: seq<Row>
    var nextPower: Option<int>
    var nextWater: Option<int>
    var nextTranspo: Option<int>
    var powerNextScheduled: bool
    var waterNextScheduled: bool
    var transpoNextScheduled: bool

    /** The scheduler works on a deep copy of the network it is given. */
    constructor (network: IntegratedNetwork, simStep: int, site: string -> string,
                 travel: (map<string, real>, string, string) -> int)
      ensures baseNetwork == network && fresh(this.network)
      ensures this.network.disruptiveEvents == network.disruptiveEvents
      ensures this.network.freeFlowTime == network.freeFlowTime
      ensures this.simStep == simStep && tnUpdateFlag && !hasEventTable
      ensures nextPower.None? && nextWater.None? && nextTranspo.None?
    {
      var copy := network.Clone();
      baseNetwork := network;
      this.network := copy;
      this.simStep := simStep;
      this.site := site;
      this.travel := travel;
      tnUpdateFlag := true;
      hasEventTable := false;
      eventTable := [];
      nextPower, nextWater, nextTranspo := None, None, None;
      powerNextScheduled, waterNextScheduled, transpoNextScheduled := false, false, false;
    }

    function SettingOf(): Setting
      reads this, network
    {
      Setting(network.water, network.disruptiveEvents, network.fftBase, simStep, site, travel)
    }

    function CrewsOf(): Crews
      reads this, network
    {
      Crews(nextPower, nextWater, nextTranspo,
            network.powerCrewLoc, network.waterCrewLoc, network.transpoCrewLoc, network.freeFlowTime)
    }

    /** The state a successful `schedule_recovery` leaves behind for the
        planned crews and rows: the event table holds exactly those rows in
        time order, the crew clocks and road travel times are the planned
        ones, and every crew is back at its initial location. */
    ghost predicate ScheduledAs(plan: (Crews, seq<Row>))
      reads this, network
    {
      RepairedAs(plan) && CrewsHome()
    }

    /** The table and clocks of `plan`, whatever the crew locations. */
    ghost predicate RepairedAs(plan: (Crews, seq<Row>))
      reads this, network
    {
      hasEventTable && SortedByTime(eventTable) && multiset(eventTable) == multiset(plan.1)
      && nextPower == plan.0.nextPower && nextWater == plan.0.nextWater && nextTranspo == plan.0.nextTranspo
      && network.freeFlowTime == plan.0.fft
    }

    /** Every crew at its initial location. */
    predicate CrewsHome()
      reads this, network
    {
      && network.powerCrewLoc == network.initPowerCrewLoc
      && network.waterCrewLoc == network.initWaterCrewLoc
      && network.transpoCrewLoc == network.initTranspoCrewLoc
    }

    /** The `reset_crew_locs` that ends `schedule_recovery`. */
    method ReturnCrews(ghost plan: (Crews, seq<Row>))
      requires RepairedAs(plan)
      modifies network`powerCrewLoc, network`waterCrewLoc, network`transpoCrewLoc
      ensures ScheduledAs(plan)
    {
      network.ResetCrewLocs();
    }

    /** `set_initial_crew_start`, which only moves the crew clocks. */
    method SetInitialCrewStart(order: seq<string>)
      modifies this`nextPower, this`nextWater, this`nextTranspo
      ensures CrewsOf() == StartCrews(SettingOf(), old(CrewsOf()), network.disruptedInfra, order)
    {
      var events := network.disruptiveEvents;
      var p := FirstTime(events, order, network.disruptedInfra.power);
      if p.Some? { nextPower := p; }
      var w := FirstTime(events, order, network.disruptedInfra.water);
      if w.Some? { nextWater := w; }
      var t := FirstTime(events, order, network.disruptedInfra.transpo);
      if t.Some? { nextTranspo := t; }
    }

    /** `fail_transpo_link`: a KeyError for a name that is not a road link. */
    method FailTranspoLink(c: string) returns (r: Result<()>)
      modifies network`freeFlowTime
      ensures r.Ok? <==> c in old(network.freeFlowTime)
      ensures network.freeFlowTime == if r.Ok? then old(network.freeFlowTime)[c := FailedFreeFlowTime] else old(network.freeFlowTime)
    {
      if c in network.freeFlowTime {
        network.freeFlowTime := network.freeFlowTime[c := FailedFreeFlowTime];
        r := Ok(());
      } else {
        r := Err(KeyError);
      }
    }

    /** `restore_transpo_link`: the link's free-flow time goes back to its
        base value. */
    method RestoreTranspoLink(c: string) returns (r: Result<()>)
      modifies network`freeFlowTime
      ensures r.Ok? <==> c in old(network.freeFlowTime) && c in network.fftBase
      ensures network.freeFlowTime == if r.Ok? then old(network.freeFlowTime)[c := network.fftBase[c]] else old(network.freeFlowTime)
    {
      if c in network.freeFlowTime && c in network.fftBase {
        network.freeFlowTime := network.freeFlowTime[c := network.fftBase[c]];
        r := Ok(());
      } else {
        r := Err(KeyError);
      }
    }

    /** The body of the scheduling loop for one component: the crew of its
        infrastructure travels and repairs, and five rows are appended. */
    method ScheduleOne(c: string) returns (r: Result<()>)
      modifies this`nextPower, this`nextWater, this`nextTranspo, this`eventTable
      modifies network`powerCrewLoc, network`waterCrewLoc, network`transpoCrewLoc, network`freeFlowTime
      ensures r.Ok? <==> RepairStep(old(SettingOf()), old(CrewsOf()), c).Ok?
      ensures r.Ok? ==> var (cr, rows) := RepairStep(old(SettingOf()), old(CrewsOf()), c).value;
        CrewsOf() == cr && eventTable == old(eventTable) + rows
    {
      var job := Job(c, network.water);
      if job.Err? {
        return Err(job.error);
      }
      var (infra, hours) := job.value;
      r := Dispatch(c, infra, hours);
    }

    /** The crew of `infra` travels to `c` and repairs it in `hours`. */
    method Dispatch(c: string, infra: Infra, hours: nat) returns (r: Result<()>)
      modifies this`nextPower, this`nextWater, this`nextTranspo, this`eventTable
      modifies network`powerCrewLoc, network`waterCrewLoc, network`transpoCrewLoc, network`freeFlowTime
      ensures r.Ok? <==> Repair(old(SettingOf()), old(CrewsOf()), c, infra, hours).Ok?
      ensures r.Ok? ==> CrewsOf() == Repair(old(SettingOf()), old(CrewsOf()), c, infra, hours).value.0
      ensures r.Ok? ==> eventTable == old(eventTable) + Repair(old(SettingOf()), old(CrewsOf()), c, infra, hours).value.1
    {
      match infra {
        case Power => r := DispatchPower(c, hours);
        case Water => r := DispatchWater(c, hours);
        case Transpo => r := DispatchTranspo(c, hours);
      }
    }

    /** The power crew drives from where it is to the component. */
    method DispatchPower(c: string, hours: nat) returns (r: Result<()>)
      modifies this`nextPower, this`eventTable, network`powerCrewLoc
      ensures r.Ok? <==> Repair(old(SettingOf()), old(CrewsOf()), c, Power, hours).Ok?
      ensures r.Ok? ==> CrewsOf() == Repair(old(SettingOf()), old(CrewsOf()), c, Power, hours).value.0
      ensures r.Ok? ==> eventTable == old(eventTable) + Repair(old(SettingOf()), old(CrewsOf()), c, Power, hours).value.1
    {
      ghost var s := SettingOf();
      ghost var cr0 := CrewsOf();
      var rt := hours * 3600;
      var dest := site(c);
      var tt := 10 + travel(network.freeFlowTime, network.powerCrewLoc, dest);
      if nextPower.None? {
        return Err(AttributeError);
      }
      var start := nextPower.value + tt * 60;
      ghost var next := cr0.(powerLoc := dest, nextPower := Some(start + rt));
      assert s.site == site && s.travel == travel && s.events == network.disruptiveEvents;
      assert Repair(s, cr0, c, Power, hours) == Rows(s, c, start, rt, next);
      network.SetPowerCrewLoc(dest);
      nextPower := Some(start + rt);
      assert CrewsOf() == next;
      r := Record(c, start, rt);
      assert r.Ok? ==> Repair(s, cr0, c, Power, hours).value.1 == RepairRows(c, start, rt, simStep, FailPerc(s.events, c).value);
    }

    /** The water crew's trip is timed from where the power crew is. */
    method DispatchWater(c: string, hours: nat) returns (r: Result<()>)
      modifies this`nextWater, this`eventTable, network`waterCrewLoc
      ensures r.Ok? <==> Repair(old(SettingOf()), old(CrewsOf()), c, Water, hours).Ok?
      ensures r.Ok? ==> CrewsOf() == Repair(old(SettingOf()), old(CrewsOf()), c, Water, hours).value.0
      ensures r.Ok? ==> eventTable == old(eventTable) + Repair(old(SettingOf()), old(CrewsOf()), c, Water, hours).value.1
    {
      ghost var s := SettingOf();
      ghost var cr0 := CrewsOf();
      var rt := hours * 3600;
      var dest := site(c);
      var tt := 10 + travel(network.freeFlowTime, network.powerCrewLoc, dest);
      if nextWater.None? {
        return Err(AttributeError);
      }
      var start := nextWater.value + tt * 60;
      ghost var next := cr0.(waterLoc := dest, nextWater := Some(start + rt));
      assert s.site == site && s.travel == travel && s.events == network.disruptiveEvents;
      assert Repair(s, cr0, c, Water, hours) == Rows(s, c, start, rt, next);
      network.SetWaterCrewLoc(dest);
      nextWater := Some(start + rt);
      assert CrewsOf() == next;
      r := Record(c, start, rt);
      assert r.Ok? ==> Repair(s, cr0, c, Water, hours).value.1 == RepairRows(c, start, rt, simStep, FailPerc(s.events, c).value);
    }

    /** The road is reopened first, so the transport crew's trip is timed
        on the restored network. */
    method DispatchTranspo(c: string, hours: nat) returns (r: Result<()>)
      modifies this`nextTranspo, this`eventTable, network`transpoCrewLoc, network`freeFlowTime
      ensures r.Ok? <==> Repair(old(SettingOf()), old(CrewsOf()), c, Transpo, hours).Ok?
      ensures r.Ok? ==> CrewsOf() == Repair(old(SettingOf()), old(CrewsOf()), c, Transpo, hours).value.0
      ensures r.Ok? ==> eventTable == old(eventTable) + Repair(old(SettingOf()), old(CrewsOf()), c, Transpo, hours).value.1
    {
      var restored := RestoreTranspoLink(c);
      if restored.Err? {
        return restored;
      }
      r := DriveTranspo(c, hours);
    }

    method DriveTranspo(c: string, hours: nat) returns (r: Result<()>)
      modifies this`nextTranspo, this`eventTable, network`transpoCrewLoc
      ensures r.Ok? <==> RoadTrip(old(SettingOf()), old(CrewsOf()), c, hours).Ok?
      ensures r.Ok? ==> CrewsOf() == RoadTrip(old(SettingOf()), old(CrewsOf()), c, hours).value.0
      ensures r.Ok? ==> eventTable == old(eventTable) + RoadTrip(old(SettingOf()), old(CrewsOf()), c, hours).value.1
    {
      ghost var s := SettingOf();
      ghost var cr0 := CrewsOf();
      var rt := hours * 3600;
      var dest := site(c);
      var tt := 10 + travel(network.freeFlowTime, network.transpoCrewLoc, dest);
      if nextTranspo.None? {
        return Err(AttributeError);
      }
      var start := nextTranspo.value + tt * 60;
      ghost var next := cr0.(transpoLoc := dest, nextTranspo := Some(start + rt));
      assert s.site == site && s.travel == travel && s.events == network.disruptiveEvents;
      assert RoadTrip(s, cr0, c, hours) == Rows(s, c, start, rt, next);
      network.SetTranspoCrewLoc(dest);
      nextTranspo := Some(start + rt);
      assert CrewsOf() == next;
      r := Record(c, start, rt);
      assert r.Ok? ==> RoadTrip(s, cr0, c, hours).value.1 == RepairRows(c, start, rt, simStep, FailPerc(s.events, c).value);
    }

    /** The five rows of a repair go at the end of the event table. */
    method Record(c: string, start: int, rt: int) returns (r: Result<()>)
      modifies this`eventTable
      ensures r.Ok? <==> FailPerc(network.disruptiveEvents, c).Ok?
      ensures r.Ok? ==> eventTable == old(eventTable) + RepairRows(c, start, rt, simStep, FailPerc(network.disruptiveEvents, c).value)
    {
      var fail := FailPerc(network.disruptiveEvents, c);
      if fail.Err? {
        return Err(fail.error);
      }
      eventTable := eventTable + RepairRows(c, start, rt, simStep, fail.value);
      r := Ok(());
    }

    /** `schedule_recovery`. An empty order only prints a message. */
    method ScheduleRecovery(order: seq<string>) returns (r: Result<()>)
      modifies this`nextPower, this`nextWater, this`nextTranspo, this`eventTable, this`hasEventTable
      modifies this`powerNextScheduled, this`waterNextScheduled, this`transpoNextScheduled
      modifies network`powerCrewLoc, network`waterCrewLoc, network`transpoCrewLoc, network`freeFlowTime
      ensures order == [] ==>
        r.Ok? && eventTable == old(eventTable) && hasEventTable == old(hasEventTable) && CrewsOf() == old(CrewsOf())
      ensures order != [] ==> (r.Ok? <==> Schedule(old(SettingOf()), old(CrewsOf()), old(network.disruptedInfra),
                                                   old(network.disruptedComponents), order).Ok?)
      ensures order != [] && r.Ok? ==>
        ScheduledAs(Schedule(old(SettingOf()), old(CrewsOf()), old(network.disruptedInfra),
                             old(network.disruptedComponents), order).value)
    {
      if order == [] {
        return Ok(());
      }
      r := Rebuild(order, SettingOf(), CrewsOf(), network.disruptedInfra, network.disruptedComponents);
    }

    /** The body of `schedule_recovery` for a non-empty order, against the
        setting and crews it starts from. */
    method Rebuild(order: seq<string>, ghost s: Setting, ghost cr0: Crews, ghost infra: InfraLists, cs: seq<string>)
      returns (r: Result<()>)
      requires order != []
      requires s == SettingOf() && cr0 == CrewsOf()
      requires infra == network.disruptedInfra && cs == network.disruptedComponents
      modifies this`nextPower, this`nextWater, this`nextTranspo, this`eventTable, this`hasEventTable
      modifies this`powerNextScheduled, this`waterNextScheduled, this`transpoNextScheduled
      modifies network`powerCrewLoc, network`waterCrewLoc, network`transpoCrewLoc, network`freeFlowTime
      ensures r.Ok? <==> Schedule(s, cr0, infra, cs, order).Ok?
      ensures r.Ok? ==> ScheduledAs(Schedule(s, cr0, infra, cs, order).value)
    {
      r := PrepareTable(order, s, cr0, infra, cs);
      if r.Err? {
        ScheduleLinksFail(s, cr0, infra, cs, order);
        return;
      }
      r := RepairFromPrepared(order, s, cr0, infra, cs, FailLinks(s, cr0.fft, cs).value);
    }

    /** The rest of `schedule_recovery` once the table is prepared: every
        repair in order, the sort, and the crews sent home. */
    method RepairFromPrepared(order: seq<string>, ghost s: Setting, ghost cr0: Crews, ghost infra: InfraLists,
                              ghost cs: seq<string>, ghost fft: map<string, real>)
      returns (r: Result<()>)
      requires order != []
      requires s == SettingOf() && hasEventTable
      requires FailLinks(s, cr0.fft, cs) == Ok(fft)
      requires CrewsOf() == StartCrews(s, cr0, infra, order).(fft := fft)
      requires eventTable == FunctionalRows(cs) + DisruptedRows(s.events)
      modifies this`nextPower, this`nextWater, this`nextTranspo, this`eventTable
      modifies network`powerCrewLoc, network`waterCrewLoc, network`transpoCrewLoc, network`freeFlowTime
      ensures r.Ok? <==> Schedule(s, cr0, infra, cs, order).Ok?
      ensures r.Ok? ==> ScheduledAs(Schedule(s, cr0, infra, cs, order).value)
    {
      ghost var planned := StartCrews(s, cr0, infra, order).(fft := fft);
      r := RepairAll(order, s, planned, FunctionalRows(cs) + DisruptedRows(s.events));
      if r.Err? {
        SchedulePlanFails(s, cr0, infra, cs, order, fft);
        return;
      }
      ghost var plan := Plan(s, planned, order).value;
      ScheduleDone(s, cr0, infra, cs, order, fft, plan);
      ReturnCrews((plan.0, FunctionalRows(cs) + DisruptedRows(s.events) + plan.1));
    }

    /** The part of `schedule_recovery` before the repairs: the crew
        clocks, a fresh table with the Functional rows, the road links
        closed, then the Service Disrupted rows. */
    method PrepareTable(order: seq<string>, ghost s: Setting, ghost cr0: Crews, ghost infra: InfraLists, cs: seq<string>)
      returns (r: Result<()>)
      requires s == SettingOf() && cr0 == CrewsOf()
      requires infra == network.disruptedInfra && cs == network.disruptedComponents
      modifies this`nextPower, this`nextWater, this`nextTranspo, this`eventTable, this`hasEventTable
      modifies this`powerNextScheduled, this`waterNextScheduled, this`transpoNextScheduled
      modifies network`freeFlowTime
      ensures hasEventTable
      ensures r.Ok? <==> FailLinks(s, cr0.fft, cs).Ok?
      ensures r.Ok? ==> CrewsOf() == StartCrews(s, cr0, infra, order).(fft := FailLinks(s, cr0.fft, cs).value)
      ensures r.Ok? ==> eventTable == FunctionalRows(cs) + DisruptedRows(s.events)
    {
      powerNextScheduled, waterNextScheduled, transpoNextScheduled := false, false, false;
      SetInitialCrewStart(order);
      assert CrewsOf() == StartCrews(s, cr0, infra, order);
      hasEventTable := true;
      eventTable := [];
      r := MarkDisrupted(s, cr0.fft, cs);
      if r.Err? {
        return;
      }
      EmptyAppend(FunctionalRows(cs));
      AddDisruptionRows(network.disruptiveEvents);
    }

    /** A Functional row at time 0 for every disrupted component, and every
        disrupted road link closed. */
    method MarkDisrupted(ghost s: Setting, ghost fft0: map<string, real>, cs: seq<string>) returns (r: Result<()>)
      requires s == SettingOf() && fft0 == network.freeFlowTime
      modifies this`eventTable, network`freeFlowTime
      ensures r.Ok? <==> FailLinks(s, fft0, cs).Ok?
      ensures r.Ok? ==> network.freeFlowTime == FailLinks(s, fft0, cs).value
      ensures r.Ok? ==> eventTable == old(eventTable) + FunctionalRows(cs)
    {
      ghost var table0 := eventTable;
      var i := 0;
      while i < |cs|
        invariant 0 <= i <= |cs|
        invariant SettingOf() == s
        invariant eventTable == table0 + FunctionalRows(cs[..i])
        invariant FailLinks(s, fft0, cs[..i]) == Ok(network.freeFlowTime)
      {
        FunctionalRowsSnoc(cs, i);
        FailLinksSnoc(s, fft0, cs, i);
        AppendAssoc(table0, FunctionalRows(cs[..i]), [Row(0, cs[i], 100.0, Functional)]);
        eventTable := eventTable + [Row(0, cs[i], 100.0, Functional)];
        r := CloseLink(cs[i], s);
        if r.Err? {
          FailLinksStopped(s, fft0, cs, i + 1);
          return;
        }
        i := i + 1;
      }
      assert cs[..i] == cs;
      r := Ok(());
    }

    /** The body of the loop over the disrupted components: `fail_transpo_link`
        for a road link; the component's infrastructure is looked up first. */
    method CloseLink(c: string, ghost s: Setting) returns (r: Result<()>)
      requires s == SettingOf()
      modifies network`freeFlowTime
      ensures r.Ok? <==> FailLink(s, old(network.freeFlowTime), c).Ok?
      ensures r.Ok? ==> network.freeFlowTime == FailLink(s, old(network.freeFlowTime), c).value
    {
      var infra := Classified(c, network.water);
      if infra.Err? {
        return Err(infra.error);
      }
      r := Ok(());
      if infra.value == Transpo {
        r := FailTranspoLink(c);
      }
    }

    /** A Service Disrupted row for every disruption, at its time and at
        the performance it leaves. */
    method AddDisruptionRows(events: seq<Disruption>)
      modifies this`eventTable
      ensures eventTable == old(eventTable) + DisruptedRows(events)
    {
      var j := 0;
      while j < |events|
        invariant 0 <= j <= |events|
        invariant eventTable == old(eventTable) + DisruptedRows(events[..j])
      {
        DisruptedRowsSnoc(events, j);
        var e := events[j];
        AppendAssoc(old(eventTable), DisruptedRows(events[..j]), [Row(e.time, e.component, 100.0 - e.failPerc, ServiceDisrupted)]);
        eventTable := eventTable + [Row(e.time, e.component, 100.0 - e.failPerc, ServiceDisrupted)];
        j := j + 1;
      }
      assert events[..j] == events;
    }

    /** The repairs in order, the table sorted by time after each one. */
    method RepairAll(order: seq<string>, ghost s: Setting, ghost cr0: Crews, ghost table0: seq<Row>) returns (r: Result<()>)
      requires s == SettingOf() && cr0 == CrewsOf() && eventTable == table0
      requires order != [] && hasEventTable
      modifies this`nextPower, this`nextWater, this`nextTranspo, this`eventTable
      modifies network`powerCrewLoc, network`waterCrewLoc, network`transpoCrewLoc, network`freeFlowTime
      ensures r.Ok? <==> Plan(s, cr0, order).Ok?
      ensures r.Ok? ==> RepairedAs((Plan(s, cr0, order).value.0, table0 + Plan(s, cr0, order).value.1))
    {
      ghost var done: (Crews, seq<Row>) := (cr0, []);
      assert order[..0] == [];
      var k := 0;
      while k < |order|
        invariant 0 <= k <= |order|
        invariant SettingOf() == s
        invariant Plan(s, cr0, order[..k]) == Ok(done)
        invariant CrewsOf() == done.0
        invariant multiset(eventTable) == multiset(table0 + done.1)
        invariant k > 0 ==> SortedByTime(eventTable)
      {
        r, done := RepairNext(order, k, s, cr0, table0, done);
        if r.Err? {
          return;
        }
        k := k + 1;
      }
      assert order[..k] == order;
      r := Ok(());
    }

    /** One pass of the scheduling loop: the repair of `order[k]`, then the
        table sorted; `next` is the plan of the first `k + 1` repairs. */
    method RepairNext(order: seq<string>, k: nat, ghost s: Setting, ghost cr0: Crews, ghost table0: seq<Row>,
                      ghost done: (Crews, seq<Row>))
      returns (r: Result<()>, ghost next: (Crews, seq<Row>))
      requires k < |order|
      requires s == SettingOf() && Plan(s, cr0, order[..k]) == Ok(done) && CrewsOf() == done.0
      requires multiset(eventTable) == multiset(table0 + done.1)
      modifies this`nextPower, this`nextWater, this`nextTranspo, this`eventTable
      modifies network`powerCrewLoc, network`waterCrewLoc, network`transpoCrewLoc, network`freeFlowTime
      ensures SettingOf() == s
      ensures r.Err? ==> Plan(s, cr0, order).Err?
      ensures r.Ok? ==> Plan(s, cr0, order[..k + 1]) == Ok(next) && CrewsOf() == next.0
      ensures r.Ok? ==> SortedByTime(eventTable) && multiset(eventTable) == multiset(table0 + next.1)
    {
      next := done;
      PlanSnoc(s, cr0, order, k);
      r := ScheduleSorted(order[k], s, done.0, table0 + done.1);
      if r.Err? {
        PlanStopped(s, cr0, order, k + 1);
        return;
      }
      ghost var more := RepairStep(s, done.0, order[k]).value;
      AppendAssoc(table0, done.1, more.1);
      next := (more.0, done.1 + more.1);
    }

    /** The repair of one component, then the table sorted by time. */
    method ScheduleSorted(c: string, ghost s: Setting, ghost cr: Crews, ghost rows: seq<Row>) returns (r: Result<()>)
      requires s == SettingOf() && cr == CrewsOf()
      requires multiset(eventTable) == multiset(rows)
      modifies this`nextPower, this`nextWater, this`nextTranspo, this`eventTable
      modifies network`powerCrewLoc, network`waterCrewLoc, network`transpoCrewLoc, network`freeFlowTime
      ensures SettingOf() == s
      ensures r.Ok? <==> RepairStep(s, cr, c).Ok?
      ensures r.Ok? ==> CrewsOf() == RepairStep(s, cr, c).value.0
      ensures r.Ok? ==> SortedByTime(eventTable)
      ensures r.Ok? ==> multiset(eventTable) == multiset(rows + RepairStep(s, cr, c).value.1)
    {
      r := ScheduleOne(c);
      if r.Ok? {
        eventTable := SortValues(eventTable);
      }
    }

    /** `reset_networks`: a fresh deep copy of the network the scheduler
        was given. */
    method ResetNetworks()
      modifies this
      ensures fresh(network)
      ensures network.disruptiveEvents == baseNetwork.disruptiveEvents
      ensures network.freeFlowTime == baseNetwork.freeFlowTime
      ensures network.powerCrewLoc == baseNetwork.powerCrewLoc
      ensures network.waterCrewLoc == baseNetwork.waterCrewLoc
      ensures network.transpoCrewLoc == baseNetwork.transpoCrewLoc
    {
      network := baseNetwork.Clone();
    }
  }
}
