/** The simulation driver (infrarisk/src/simulation.py): the expansion of
    the event table onto extra time stamps, the choice of the simulated
    time stamps, the bookkeeping of repaired components, and the fixed
    order of solver calls in one simulation step. The solvers themselves
    are not part of this model: a step records which call it makes and
    with which time window. */
module Simulation {
  import opened Wrappers
  import opened Rounding
  import opened Lists
  import opened EventTable
  import opened Sorting
  import opened EventFill
  import opened ComponentTables
  import opened SimInterdependencies
  import NetworkRecovery

  // -----------------------------------------------------------------------
  // Columns and selections of the event table

  function TimeColumn(rows: seq<Row>): seq<int> {
    seq(|rows|, i requires 0 <= i < |rows| => rows[i].time)
  }

  function ComponentColumn(rows: seq<Row>): seq<string> {
    seq(|rows|, i requires 0 <= i < |rows| => rows[i].component)
  }

  function TimeSet(rows: seq<Row>): set<int> {
    if rows == [] then {} else TimeSet(rows[..|rows| - 1]) + {rows[|rows| - 1].time}
  }

  function ComponentSet(rows: seq<Row>): set<string> {
    if rows == [] then {} else ComponentSet(rows[..|rows| - 1]) + {rows[|rows| - 1].component}
  }

  /** The times at which `c` has a row: `compon_time_list`. */
  function TimesOf(rows: seq<Row>, c: string): set<int> {
    if rows == [] then {}
    else if rows[|rows| - 1].component == c then TimesOf(rows[..|rows| - 1], c) + {rows[|rows| - 1].time}
    else TimesOf(rows[..|rows| - 1], c)
  }

  lemma {:induction false} SetsSpec(rows: seq<Row>)
    ensures forall t :: t in TimeSet(rows) <==> exists r :: r in rows && r.time == t
    ensures forall c :: c in ComponentSet(rows) <==> exists r :: r in rows && r.component == c
  {
    if rows != [] {
      SetsSpec(rows[..|rows| - 1]);
      assert rows == rows[..|rows| - 1] + [rows[|rows| - 1]];
    }
  }

  lemma {:induction false} TimesOfSpec(rows: seq<Row>, c: string)
    ensures forall t :: t in TimesOf(rows, c) <==> exists r :: r in rows && r.component == c && r.time == t
  {
    if rows != [] {
      TimesOfSpec(rows[..|rows| - 1], c);
      assert rows == rows[..|rows| - 1] + [rows[|rows| - 1]];
    }
  }

  /** The (component, time) pairs that have a row. */
  function Pairs(rows: seq<Row>): set<(string, int)> {
    if rows == [] then {} else Pairs(rows[..|rows| - 1]) + {(rows[|rows| - 1].component, rows[|rows| - 1].time)}
  }

  lemma {:induction false} PairsSpec(rows: seq<Row>)
    ensures forall p :: p in Pairs(rows) <==> exists r :: r in rows && (r.component, r.time) == p
  {
    if rows != [] {
      var init := rows[..|rows| - 1];
      PairsSpec(init);
      assert rows == init + [rows[|rows| - 1]];
    }
  }

  /** A longer table has every pair of its prefix. */
  lemma {:induction false} PairsGrow(a: seq<Row>, b: seq<Row>)
    requires |a| <= |b| && b[..|a|] == a
    ensures Pairs(a) <= Pairs(b)
    decreases |b|
  {
    if |a| < |b| {
      var init := b[..|b| - 1];
      assert init[..|a|] == a;
      PairsGrow(a, init);
    } else {
      assert b == a;
    }
  }

  /** The components of the rows at time `t`, in table order. */
  function ComponentsAt(rows: seq<Row>, t: int): seq<string> {
    if rows == [] then []
    else
      var rest := ComponentsAt(rows[1..], t);
      if rows[0].time == t then [rows[0].component] + rest else rest
  }

  lemma {:induction false} ComponentsAtSpec(rows: seq<Row>, t: int)
    ensures forall x :: x in ComponentsAt(rows, t) <==> exists row :: row in rows && row.time == t && row.component == x
  {
    if rows != [] {
      ComponentsAtSpec(rows[1..], t);
      assert rows == [rows[0]] + rows[1..];
    }
  }

  /** `[i for i in all if i not in comps or i not in curr]`. */
  function Missing(all: seq<string>, comps: seq<string>, curr: seq<string>): seq<string> {
    if all == [] then []
    else
      var rest := Missing(all[1..], comps, curr);
      if all[0] !in comps || all[0] !in curr then [all[0]] + rest else rest
  }

  lemma {:induction false} MissingSpec(all: seq<string>, comps: seq<string>, curr: seq<string>)
    ensures forall x :: x in Missing(all, comps, curr) <==> x in all && (x !in comps || x !in curr)
  {
    if all != [] {
      MissingSpec(all[1..], comps, curr);
      assert all == [all[0]] + all[1..];
    }
  }
  lemma {:induction false} MissingAppend(a: seq<string>, b: seq<string>, comps: seq<string>, curr: seq<string>)
    ensures Missing(a + b, comps, curr) == Missing(a, comps, curr) + Missing(b, comps, curr)
  {
    if a == [] {
      assert a + b == b;
    } else {
      MissingAppend(a[1..], b, comps, curr);
      assert (a + b)[0] == a[0] && (a + b)[1..] == a[1..] + b;
    }
  }

  /** Components present at the time are never missing. */
  lemma {:induction false} MissingNone(s: seq<string>, comps: seq<string>, curr: seq<string>)
    requires forall x :: x in s ==> x in comps && x in curr
    ensures Missing(s, comps, curr) == []
  {
    if s != [] {
      assert s[0] in s;
      assert forall x :: x in s[1..] ==> x in s;
      MissingNone(s[1..], comps, curr);
    }
  }

  lemma {:induction false} MissingDistinct(s: seq<string>, comps: seq<string>, curr: seq<string>)
    requires Distinct(s)
    ensures Distinct(Missing(s, comps, curr))
  {
    if s != [] {
      var rest := s[1..];
      assert Distinct(rest) by {
        forall i, j | 0 <= i < j < |rest| ensures rest[i] != rest[j] {
          assert rest[i] == s[i + 1] && rest[j] == s[j + 1];
        }
      }
      MissingDistinct(rest, comps, curr);
      MissingSpec(rest, comps, curr);
      assert s[0] !in rest by {
        forall j | 0 <= j < |rest| ensures rest[j] != s[0] {
          assert rest[j] == s[j + 1];
        }
      }
      var m := Missing(rest, comps, curr);
      if s[0] !in comps || s[0] !in curr {
        var r := [s[0]] + m;
        forall i, j | 0 <= i < j < |r| ensures r[i] != r[j] {
          assert r[j] == m[j - 1] && m[j - 1] in m;
          if i > 0 {
            assert r[i] == m[i - 1];
          }
        }
      }
    }
  }

  /** The components phase one adds at `t` are distinct, and none of them
      has a row at `t` yet. */
  lemma MissingAtTime(table: seq<Row>, comps: seq<string>, t: int)
    requires Distinct(comps)
    requires forall k :: 0 <= k < |table| ==> table[k].component in comps
    ensures var curr := ComponentsAt(table, t);
      var toAdd := Missing(comps + curr, comps, curr);
      Distinct(toAdd) && forall m :: 0 <= m < |toAdd| ==> (toAdd[m], t) !in Pairs(table)
  {
    var curr := ComponentsAt(table, t);
    var toAdd := Missing(comps + curr, comps, curr);
    ComponentsAtSpec(table, t);
    forall x | x in curr ensures x in comps {
      var row :| row in table && row.time == t && row.component == x;
      var k :| 0 <= k < |table| && table[k] == row;
    }
    MissingAppend(comps, curr, comps, curr);
    MissingNone(curr, comps, curr);
    MissingDistinct(comps, comps, curr);
    assert toAdd == Missing(comps, comps, curr);
    MissingSpec(comps + curr, comps, curr);
    forall m | 0 <= m < |toAdd| ensures (toAdd[m], t) !in Pairs(table) {
      assert toAdd[m] in toAdd;
      AbsentAt(table, toAdd[m], t);
    }
  }


  /** What phase one adds at `t`: only known components, and every known
      component it skips already has a row at `t`. */
  lemma PhaseOnePlan(table: seq<Row>, comps: seq<string>, t: int)
    requires forall k :: 0 <= k < |table| ==> table[k].component in comps
    ensures var curr := ComponentsAt(table, t);
      var toAdd := Missing(comps + curr, comps, curr);
      (forall x :: x in toAdd ==> x in comps)
      && forall c :: c in comps && c !in toAdd ==> (c, t) in Pairs(table)
  {
    var curr := ComponentsAt(table, t);
    ComponentsAtSpec(table, t);
    MissingSpec(comps + curr, comps, curr);
    PairsSpec(table);
    forall x | x in curr ensures x in comps {
      var row :| row in table && row.time == t && row.component == x;
      var k :| 0 <= k < |table| && table[k] == row;
    }
  }

  lemma UniqueColumns(rows: seq<Row>)
    ensures forall x :: x in Unique(TimeColumn(rows)) <==> x in TimeSet(rows)
    ensures forall x :: x in Unique(ComponentColumn(rows)) <==> x in ComponentSet(rows)
    ensures Distinct(Unique(ComponentColumn(rows)))
  {
    UniqueSpec(TimeColumn(rows));
    UniqueSpec(ComponentColumn(rows));
    SetsSpec(rows);
    forall x | x in TimeSet(rows)
      ensures x in TimeColumn(rows)
    {
      var r :| r in rows && r.time == x;
      var i :| 0 <= i < |rows| && rows[i] == r;
      assert TimeColumn(rows)[i] == x;
    }
    forall x | x in ComponentSet(rows)
      ensures x in ComponentColumn(rows)
    {
      var r :| r in rows && r.component == x;
      var i :| 0 <= i < |rows| && rows[i] == r;
      assert ComponentColumn(rows)[i] == x;
    }
  }

  // -----------------------------------------------------------------------
  // The extra time grid

  /** `int(sim_step * round(((last - first) / add_points) / sim_step))`. */
  function Interval(first: int, last: int, addPoints: int, simStep: int): Result<int> {
    if addPoints == 0 || simStep == 0 then Err(ZeroDivisionError)
    else Ok(simStep * RoundHalfEven(((last - first) as real / addPoints as real) / simStep as real))
  }

  /** `range(a, b, step)` for a non-zero step. */
  function PyRange(a: int, b: int, step: int): (r: seq<int>)
    requires step != 0
    decreases if step > 0 then b - a else a - b
  {
    if (step > 0 && a < b) || (step < 0 && a > b) then [a] + PyRange(a + step, b, step) else []
  }

  /** With a positive step the range holds `a`, `a + step`, ... while they
      are below `b`, and stops at the first one that is not. */
  lemma {:induction false} PyRangeSpec(a: int, b: int, step: int)
    requires step > 0
    ensures forall i :: 0 <= i < |PyRange(a, b, step)| ==> PyRange(a, b, step)[i] == a + i * step < b
    ensures a + |PyRange(a, b, step)| * step >= b
    decreases b - a
  {
    if a < b {
      var rest := PyRange(a + step, b, step);
      PyRangeSpec(a + step, b, step);
      assert a + step + |rest| * step == a + (|rest| + 1) * step;
      forall i | 0 < i < |rest| + 1
        ensures PyRange(a, b, step)[i] == a + i * step
      {
        assert PyRange(a, b, step)[i] == rest[i - 1];
        assert a + step + (i - 1) * step == a + i * step;
      }
    }
  }
  /** A range moves away from its start in the direction of its step. */
  lemma {:induction false} PyRangeBeyond(a: int, b: int, step: int)
    requires step != 0
    ensures forall x :: x in PyRange(a, b, step) ==> if step > 0 then x >= a else x <= a
    decreases if step > 0 then b - a else a - b
  {
    if (step > 0 && a < b) || (step < 0 && a > b) {
      PyRangeBeyond(a + step, b, step);
    }
  }

  /** A range never repeats a value. */
  lemma {:induction false} PyRangeDistinct(a: int, b: int, step: int)
    requires step != 0
    ensures Distinct(PyRange(a, b, step))
    decreases if step > 0 then b - a else a - b
  {
    if (step > 0 && a < b) || (step < 0 && a > b) {
      var rest := PyRange(a + step, b, step);
      PyRangeDistinct(a + step, b, step);
      PyRangeBeyond(a + step, b, step);
      var r := PyRange(a, b, step);
      assert r == [a] + rest;
      forall i, j | 0 <= i < j < |r| ensures r[i] != r[j] {
        assert r[j] == rest[j - 1] && rest[j - 1] in rest;
        if i > 0 {
          assert r[i] == rest[i - 1];
        }
      }
    }
  }


  /** The grid `range(first, last, interval)` of an event table whose
      unique time stamps are `times`; `full_time_list[-1]` of an empty
      table is an IndexError and a zero step a ValueError. */
  function GridOf(times: seq<int>, addPoints: int, simStep: int): Result<seq<int>> {
    if times == [] then Err(IndexError)
    else match Interval(times[0], times[|times| - 1], addPoints, simStep)
      case Err(e) => Err(e)
      case Ok(step) => if step == 0 then Err(ValueError) else Ok(PyRange(times[0], times[|times| - 1], step))
  }

  lemma GridDistinct(times: seq<int>, addPoints: int, simStep: int)
    requires GridOf(times, addPoints, simStep).Ok?
    ensures Distinct(GridOf(times, addPoints, simStep).value)
  {
    var step := Interval(times[0], times[|times| - 1], addPoints, simStep).value;
    PyRangeDistinct(times[0], times[|times| - 1], step);
  }

  /** A grid time is kept for a component whose time list is `ts` only if it
      is not one of them and not exactly `near` seconds before or after one
      (60 s in this version; the older expansion only skips the times
      themselves, which is `near` = 0). */
  predicate Clear(g: int, ts: set<int>, near: nat) {
    g !in ts && g + near !in ts && g - near !in ts
  }

  // -----------------------------------------------------------------------
  // The expansion, as a property of the table it produces

  /** `table` is `orig` followed by faithful copies only, built one row at
      a time. */
  predicate Extends(orig: seq<Row>, table: seq<Row>)
    decreases |table|
  {
    if |table| <= |orig| then table == orig
    else Extends(orig, table[..|table| - 1]) && Faithful(orig, table[|table| - 1])
  }

  lemma {:induction false} ExtendsSpec(orig: seq<Row>, table: seq<Row>)
    ensures Extends(orig, table) <==>
      |orig| <= |table| && table[..|orig|] == orig && AllFaithful(orig, table[|orig|..])
    decreases |table|
  {
    if |table| > |orig| {
      var init := table[..|table| - 1];
      ExtendsSpec(orig, init);
      assert init[..|orig|] == table[..|orig|];
      assert table[|orig|..] == init[|orig|..] + [table[|table| - 1]];
      if AllFaithful(orig, table[|orig|..]) {
        assert forall k :: 0 <= k < |init[|orig|..]| ==> init[|orig|..][k] == table[|orig|..][k];
      }
    }
  }

  /** What `expand_event_table` makes of `orig` before sorting: every
      component has a row at every original time stamp and at every grid
      time clear of the original time stamps, and every added row is a
      faithful copy at one of those times. */
  predicate Expanded(orig: seq<Row>, table: seq<Row>, grid: seq<int>) {
    Extends(orig, table)
    && (forall c, t :: c in ComponentSet(orig) && t in TimeSet(orig) ==> (c, t) in Pairs(table))
    && (forall c, g :: c in ComponentSet(orig) && g in grid && Clear(g, TimeSet(orig), 60) ==> (c, g) in Pairs(table))
    && (forall k :: |orig| <= k < |table| ==>
          table[k].component in ComponentSet(orig)
          && (table[k].time in TimeSet(orig) || (table[k].time in grid && Clear(table[k].time, TimeSet(orig), 60))))
  }

  function Shifted(rows: seq<Row>, d: int): (r: seq<Row>)
    ensures |r| == |rows|
    ensures forall i :: 0 <= i < |rows| ==> r[i] == rows[i].(time := rows[i].time + d)
  {
    seq(|rows|, i requires 0 <= i < |rows| => rows[i].(time := rows[i].time + d))
  }

  /** One more faithful copy keeps the table an extension. */
  lemma ExtendsSnoc(orig: seq<Row>, table: seq<Row>, c: string, t: int)
    requires Extends(orig, table)
    requires ValueAt(table, c, t).Ok?
    ensures Extends(orig, table + [Row(t, c, ValueAt(table, c, t).value.0, ValueAt(table, c, t).value.1)])
  {
    ExtendsSpec(orig, table);
    var added := table[|orig|..];
    assert table == orig + added;
    FaithfulCopy(orig, added, c, t);
    var row := Row(t, c, ValueAt(table, c, t).value.0, ValueAt(table, c, t).value.1);
    assert (table + [row])[..|table|] == table;
  }

  lemma PairsSnoc(rows: seq<Row>, r: Row)
    ensures Pairs(rows + [r]) == Pairs(rows) + {(r.component, r.time)}
  {
    assert (rows + [r])[..|rows|] == rows;
  }

  lemma TimesOfSnoc(rows: seq<Row>, r: Row, c: string)
    requires r.component != c
    ensures TimesOf(rows + [r], c) == TimesOf(rows, c)
  {
    assert forall x :: x in rows + [r] <==> x in rows || x == r;
  }
  /** Every row added to `before` fills a (component, time) pair that
      `before` lacks, and no two added rows fill the same pair: a row is
      added only where one is missing, and only once. */
  predicate AddsOnlyMissing(before: seq<Row>, after: seq<Row>) {
    |before| <= |after|
    && (forall k :: |before| <= k < |after| ==> (after[k].component, after[k].time) !in Pairs(before))
    && (forall i, j :: |before| <= i < j < |after| ==>
          (after[i].component, after[i].time) != (after[j].component, after[j].time))
  }

  lemma PairOfRow(rows: seq<Row>, k: int)
    requires 0 <= k < |rows|
    ensures (rows[k].component, rows[k].time) in Pairs(rows)
  {
    PairsSpec(rows);
    assert rows[k] in rows;
  }

  /** `c` has a row at `g` exactly when `g` is one of its times. */
  lemma {:induction false} PairsTimesOf(rows: seq<Row>, c: string, g: int)
    ensures (c, g) in Pairs(rows) <==> g in TimesOf(rows, c)
  {
    if rows != [] {
      PairsTimesOf(rows[..|rows| - 1], c, g);
    }
  }

  /** A component missing from the rows at `t` has no pair at `t`. */
  lemma AbsentAt(rows: seq<Row>, x: string, t: int)
    requires x !in ComponentsAt(rows, t)
    ensures (x, t) !in Pairs(rows)
  {
    ComponentsAtSpec(rows, t);
    PairsSpec(rows);
  }

  /** One more row with a new pair keeps the additions missing-only. */
  lemma AddsOnlyMissingSnoc(before: seq<Row>, rows: seq<Row>, r: Row)
    requires AddsOnlyMissing(before, rows) && rows[..|before|] == before
    requires (r.component, r.time) !in Pairs(rows)
    ensures AddsOnlyMissing(before, rows + [r])
  {
    PairsGrow(before, rows);
    var out := rows + [r];
    forall i, j | |before| <= i < j < |out|
      ensures (out[i].component, out[i].time) != (out[j].component, out[j].time)
    {
      assert out[i] == rows[i];
      if j == |rows| {
        PairOfRow(rows, i);
      } else {
        assert out[j] == rows[j];
      }
    }
  }

  /** Two missing-only additions one after the other are one. */
  lemma AddsOnlyMissingTrans(a: seq<Row>, b: seq<Row>, c: seq<Row>)
    requires AddsOnlyMissing(a, b) && b[..|a|] == a
    requires AddsOnlyMissing(b, c) && c[..|b|] == b
    ensures AddsOnlyMissing(a, c)
  {
    PairsGrow(a, b);
    forall k | |a| <= k < |c|
      ensures (c[k].component, c[k].time) !in Pairs(a)
    {
      if k < |b| {
        assert c[k] == b[k];
      }
    }
    forall i, j | |a| <= i < j < |c|
      ensures (c[i].component, c[i].time) != (c[j].component, c[j].time)
    {
      if j < |b| {
        assert c[i] == b[i] && c[j] == b[j];
      } else if i < |b| {
        PairOfRow(b, i);
        assert c[i] == b[i];
      }
    }
  }


  /** One forward-filled copy of `c` at `t` appended to `rows`; it fails,
      with the ValueError of `max` over nothing, when `c` has no row at or
      before `t`. */
  method AppendCopy(ghost orig: seq<Row>, rows: seq<Row>, c: string, t: int)
    returns (out: seq<Row>, err: Option<Exception>)
    requires Extends(orig, rows)
    ensures err.Some? <==> forall r :: r in rows && r.component == c ==> r.time > t
    ensures err.Some? ==> err == Some(ValueError) && out == rows
    ensures err.None? ==>
      Extends(orig, out) && |out| == |rows| + 1 && out[..|rows|] == rows
      && out[|rows|].component == c && out[|rows|].time == t
      && Pairs(out) == Pairs(rows) + {(c, t)}
  {
    var v := ValueAt(rows, c, t);
    ValueAtError(rows, c, t);
    if v.Err? {
      return rows, Some(v.error);
    }
    ExtendsSnoc(orig, rows, c, t);
    var row := Row(t, c, v.value.0, v.value.1);
    PairsSnoc(rows, row);
    out := rows + [row];
    err := None;
  }

  /** Phase one for one time stamp `t`: every component of `comps` with no
      row at `t` gets a copy of its latest earlier row. */
  method FillAtTime(ghost orig: seq<Row>, table: seq<Row>, comps: seq<string>, t: int)
    returns (out: seq<Row>, err: Option<Exception>)
    requires Extends(orig, table)
    requires Distinct(comps)
    requires forall k :: 0 <= k < |table| ==> table[k].component in comps
    ensures Extends(orig, out) && |table| <= |out| && out[..|table|] == table
    ensures forall k :: |table| <= k < |out| ==> out[k].time == t && out[k].component in comps
    ensures AddsOnlyMissing(table, out)
    ensures err.None? ==> forall c :: c in comps ==> (c, t) in Pairs(out)
    ensures err.Some? ==> err == Some(ValueError)
  {
    var curr := ComponentsAt(table, t);
    var toAdd := Missing(comps + curr, comps, curr);
    PhaseOnePlan(table, comps, t);
    MissingAtTime(table, comps, t);
    out := table;
    err := None;
    var k := 0;
    while k < |toAdd|
      invariant 0 <= k <= |toAdd|
      invariant Extends(orig, out) && |table| <= |out| && out[..|table|] == table
      invariant forall j :: |table| <= j < |out| ==> out[j].time == t && out[j].component in comps
      invariant forall j :: 0 <= j < k ==> (toAdd[j], t) in Pairs(out)
      invariant AddsOnlyMissing(table, out)
      invariant forall m :: k <= m < |toAdd| ==> (toAdd[m], t) !in Pairs(out)
    {
      var c := toAdd[k];
      ghost var prev := out;
      var e;
      out, e := AppendCopy(orig, out, c, t);
      if e.Some? {
        return out, e;
      }
      PhaseOneStep(table, prev, out, toAdd, comps, t, k);
      PhaseOneFresh(table, prev, out, toAdd, t, k);
      k := k + 1;
    }
    PairsGrow(table, out);
    forall c | c in comps
      ensures (c, t) in Pairs(out)
    {
      if c in toAdd {
        var j :| 0 <= j < |toAdd| && toAdd[j] == c;
      }
    }
  }

  /** One appended copy keeps the invariants of phase one. */
  lemma PhaseOneStep(table: seq<Row>, prev: seq<Row>, out: seq<Row>, toAdd: seq<string>, comps: seq<string>, t: int, k: nat)
    requires k < |toAdd| && toAdd[k] in comps
    requires |table| <= |prev| && prev[..|table|] == table
    requires |out| == |prev| + 1 && out[..|prev|] == prev
    requires out[|prev|].component == toAdd[k] && out[|prev|].time == t
    requires Pairs(out) == Pairs(prev) + {(toAdd[k], t)}
    requires forall j :: |table| <= j < |prev| ==> prev[j].time == t && prev[j].component in comps
    requires forall j :: 0 <= j < k ==> (toAdd[j], t) in Pairs(prev)
    ensures |table| <= |out| && out[..|table|] == table
    ensures forall j :: |table| <= j < |out| ==> out[j].time == t && out[j].component in comps
    ensures forall j :: 0 <= j < k + 1 ==> (toAdd[j], t) in Pairs(out)
  {
    forall j | |table| <= j < |out|
      ensures out[j].time == t && out[j].component in comps
    {
      if j < |prev| {
        assert out[j] == prev[j];
      }
    }
    assert out[..|table|] == prev[..|table|];
  }

  /** A copy of `toAdd[k]` at `t` keeps phase one adding only missing
      pairs, as long as the components to add are distinct. */
  lemma PhaseOneFresh(table: seq<Row>, prev: seq<Row>, out: seq<Row>, toAdd: seq<string>, t: int, k: nat)
    requires k < |toAdd| && Distinct(toAdd)
    requires |table| <= |prev| && prev[..|table|] == table
    requires |out| == |prev| + 1 && out[..|prev|] == prev
    requires out[|prev|].component == toAdd[k] && out[|prev|].time == t
    requires Pairs(out) == Pairs(prev) + {(toAdd[k], t)}
    requires AddsOnlyMissing(table, prev)
    requires forall m :: k <= m < |toAdd| ==> (toAdd[m], t) !in Pairs(prev)
    ensures AddsOnlyMissing(table, out)
    ensures forall m :: k + 1 <= m < |toAdd| ==> (toAdd[m], t) !in Pairs(out)
  {
    assert out == prev + [out[|prev|]];
    AddsOnlyMissingSnoc(table, prev, out[|prev|]);
    forall m | k + 1 <= m < |toAdd|
      ensures (toAdd[m], t) !in Pairs(out)
    {
      assert toAdd[m] != toAdd[k];
    }
  }

  /** One appended copy at `grid[k]` keeps the invariants of phase two. */
  lemma PhaseTwoStep(table: seq<Row>, prev: seq<Row>, out: seq<Row>, c: string, grid: seq<int>, ctimes: set<int>, near: nat, k: nat)
    requires k < |grid| && Clear(grid[k], ctimes, near)
    requires |table| <= |prev| && prev[..|table|] == table
    requires |out| == |prev| + 1 && out[..|prev|] == prev
    requires out[|prev|].component == c && out[|prev|].time == grid[k]
    requires Pairs(out) == Pairs(prev) + {(c, grid[k])}
    requires forall j :: |table| <= j < |prev| ==> prev[j].component == c && prev[j].time in grid && Clear(prev[j].time, ctimes, near)
    requires forall j :: 0 <= j < k && Clear(grid[j], ctimes, near) ==> (c, grid[j]) in Pairs(prev)
    requires Distinct(grid) ==> AddsOnlyMissing(table, prev)
    requires Distinct(grid) ==> forall m :: k <= m < |grid| && grid[m] !in ctimes ==> (c, grid[m]) !in Pairs(prev)
    ensures |table| <= |out| && out[..|table|] == table
    ensures forall j :: |table| <= j < |out| ==> out[j].component == c && out[j].time in grid && Clear(out[j].time, ctimes, near)
    ensures forall j :: 0 <= j < k + 1 && Clear(grid[j], ctimes, near) ==> (c, grid[j]) in Pairs(out)
    ensures Distinct(grid) ==> AddsOnlyMissing(table, out)
    ensures Distinct(grid) ==> forall m :: k + 1 <= m < |grid| && grid[m] !in ctimes ==> (c, grid[m]) !in Pairs(out)
  {
    if Distinct(grid) {
      assert out == prev + [out[|prev|]];
      AddsOnlyMissingSnoc(table, prev, out[|prev|]);
      forall m | k + 1 <= m < |grid| && grid[m] !in ctimes
        ensures (c, grid[m]) !in Pairs(out)
      {
        assert grid[m] != grid[k];
      }
    }
    forall j | |table| <= j < |out|
      ensures out[j].component == c && out[j].time in grid && Clear(out[j].time, ctimes, near)
    {
      if j < |prev| {
        assert out[j] == prev[j];
      }
    }
    assert out[..|table|] == prev[..|table|];
  }

  /** Phase two for one component `c`: a copy at every grid time clear of
      the times `c` has when its turn comes. */
  method FillGrid(ghost orig: seq<Row>, table: seq<Row>, c: string, grid: seq<int>, near: nat)
    returns (out: seq<Row>, err: Option<Exception>)
    requires Extends(orig, table)
    ensures Extends(orig, out) && |table| <= |out| && out[..|table|] == table
    ensures forall k :: |table| <= k < |out| ==>
      out[k].component == c && out[k].time in grid && Clear(out[k].time, TimesOf(table, c), near)
    ensures err.None? ==> forall g :: g in grid && Clear(g, TimesOf(table, c), near) ==> (c, g) in Pairs(out)
    ensures Distinct(grid) ==> AddsOnlyMissing(table, out)
    ensures err.Some? ==> err == Some(ValueError)
  {
    var ctimes := TimesOf(table, c);
    forall m | 0 <= m < |grid| && grid[m] !in ctimes
      ensures (c, grid[m]) !in Pairs(table)
    {
      PairsTimesOf(table, c, grid[m]);
    }
    out := table;
    err := None;
    var k := 0;
    while k < |grid|
      invariant 0 <= k <= |grid|
      invariant Extends(orig, out) && |table| <= |out| && out[..|table|] == table
      invariant forall j :: |table| <= j < |out| ==>
        out[j].component == c && out[j].time in grid && Clear(out[j].time, ctimes, near)
      invariant forall j :: 0 <= j < k && Clear(grid[j], ctimes, near) ==> (c, grid[j]) in Pairs(out)
      invariant Distinct(grid) ==> AddsOnlyMissing(table, out)
      invariant Distinct(grid) ==> forall m :: k <= m < |grid| && grid[m] !in ctimes ==> (c, grid[m]) !in Pairs(out)
    {
      var g := grid[k];
      if g !in ctimes && g + near !in ctimes && g - near !in ctimes {
        ghost var prev := out;
        var e;
        out, e := AppendCopy(orig, out, c, g);
        if e.Some? {
          return out, e;
        }
        PhaseTwoStep(table, prev, out, c, grid, ctimes, near, k);
      }
      k := k + 1;
    }
  }

  // -----------------------------------------------------------------------
  // Simulated time stamps and the step skeleton

  /** A row of the wide event table: a component and the time it is
      functional again. */
  datatype WideRow = WideRow(component: string, functionalStart: int)

  /** The solver calls of one simulation step. */
  datatype Call =
    | UpdateDirect(from: int, to: int)
    | RunPower
    | UpdateDependencies(from: int, to: int)
    | RunWater
    | Record(time: int)

  /** One simulation step: the water model's time window and the time stamp
      whose results it records. */
  datatype Step = Step(from: int, to: int, time: int)

  /** The component lookup of this variant with the water table fixed. */
  function LookupWith(water: Table): string -> Result<Lookup> {
    c => GetComponDetails(c, water)
  }

  /** `simtime_max`: the latest functional start of a water or power
      component (0 when there is none). A name whose details are `None`
      cannot be indexed: a TypeError. */
  function MaxFunctionalStart(wide: seq<WideRow>, lookup: string -> Result<Lookup>): Result<int> {
    if wide == [] then Ok(0)
    else match MaxFunctionalStart(wide[..|wide| - 1], lookup)
      case Err(e) => Err(e)
      case Ok(m) => StartStep(m, wide[|wide| - 1], lookup)
  }

  /** One row of the scan: the lookup's error, TypeError for an unknown
      name, or the larger of `m` and the row's functional start when the
      component is outside the transport network. */
  function StartStep(m: int, row: WideRow, lookup: string -> Result<Lookup>): Result<int> {
    match lookup(row.component)
    case Err(e) => Err(e)
    case Ok(Unknown(_)) => Err(TypeError)
    case Ok(Found(d)) =>
      if d.infra != Transpo && row.functionalStart > m then Ok(row.functionalStart) else Ok(m)
  }

  /** The loop of `get_sim_times` over the wide event table: the latest
      functional start of a component outside the transport network; the
      first name the lookup rejects ends it with the lookup's error, and
      an unknown name with TypeError. */
  method ScanFunctionalStarts(rows: seq<WideRow>, lookup: string -> Result<Lookup>) returns (r: Result<int>)
    ensures r == MaxFunctionalStart(rows, lookup)
  {
    var simtimeMax := 0;
    var i := 0;
    while i < |rows|
      invariant 0 <= i <= |rows|
      invariant MaxFunctionalStart(rows[..i], lookup) == Ok(simtimeMax)
    {
      assert rows[..i + 1][..i] == rows[..i];
      var step := StartStep(simtimeMax, rows[i], lookup);
      if step.Err? {
        MaxFunctionalStartStops(rows, i + 1, lookup);
        return Err(step.error);
      }
      simtimeMax := step.value;
      i := i + 1;
    }
    assert rows[..i] == rows;
    r := Ok(simtimeMax);
  }

  /** Once a prefix fails, the whole table fails with the same error. */
  lemma {:induction false} MaxFunctionalStartStops(rows: seq<WideRow>, i: nat, lookup: string -> Result<Lookup>)
    requires 0 < i <= |rows|
    requires MaxFunctionalStart(rows[..i], lookup).Err?
    ensures MaxFunctionalStart(rows, lookup) == MaxFunctionalStart(rows[..i], lookup)
    decreases |rows| - i
  {
    if i == |rows| {
      assert rows[..i] == rows;
    } else {
      assert rows[..i + 1][..i] == rows[..i];
      MaxFunctionalStartStops(rows, i + 1, lookup);
    }
  }

  lemma {:induction false} MaxFunctionalStartSpec(wide: seq<WideRow>, lookup: string -> Result<Lookup>)
    requires MaxFunctionalStart(wide, lookup).Ok?
    ensures MaxFunctionalStart(wide, lookup).value >= 0
    ensures forall r :: r in wide && lookup(r.component).Ok?
                        && lookup(r.component).value.Found?
                        && lookup(r.component).value.details.infra != Transpo
                        ==> r.functionalStart <= MaxFunctionalStart(wide, lookup).value
  {
    if wide != [] {
      var init := wide[..|wide| - 1];
      MaxFunctionalStartSpec(init, lookup);
      assert wide == init + [wide[|wide| - 1]];
    }
  }

  function CountBelow(ts: seq<int>, bound: int): (n: nat)
    ensures n <= |ts|
  {
    if ts == [] then 0 else CountBelow(ts[1..], bound) + (if ts[0] < bound then 1 else 0)
  }

  /** How many unique time stamps `get_sim_times` keeps: up to three past
      those before five hours after the last functional start, and never
      more than there are. */
  function SimTimeCount(times: seq<int>, simtimeMax: int): (n: nat)
    ensures n <= |times|
  {
    var c := CountBelow(times, simtimeMax + 5 * 3600) + 3;
    if |times| < c then |times| else c
  }

  /** The gaps the step loop advances by: `sim[i + 1] - all[i]`, where `all`
      is the sorted list of every unique time stamp (the first difference,
      taken against `all[-1]`, is dropped). */
  function Gaps(sim: seq<int>, all: seq<int>): (g: seq<int>)
    requires |sim| <= |all|
    ensures |g| == if |sim| == 0 then 0 else |sim| - 1
  {
    if |sim| <= 1 then [] else seq(|sim| - 1, i requires 0 <= i < |sim| - 1 => sim[i + 1] - all[i])
  }

  function Sum(s: seq<int>): int {
    if s == [] then 0 else Sum(s[..|s| - 1]) + s[|s| - 1]
  }

  /** The five calls of one step, in the order the loop makes them: the
      directly affected components over the window, the power flow, the
      dependencies over the same window, the water model, and the record
      at the step's time stamp. */
  function CallsOf(st: Step): seq<Call> {
    [UpdateDirect(st.from, st.to), RunPower, UpdateDependencies(st.from, st.to), RunWater, Record(st.time)]
  }

  /** The first `n` steps, each starting where the clock stands after the
      gaps before it. */
  function Trace(sim: seq<int>, gaps: seq<int>, d: int, n: nat): (t: seq<Step>)
    requires n <= |gaps| <= |sim|
    ensures |t| == n
  {
    if n == 0 then []
    else
      var from := d + Sum(gaps[..n - 1]);
      Trace(sim, gaps, d, n - 1) + [Step(from, from + gaps[n - 1], sim[n - 1])]
  }

  lemma {:induction false} TraceAt(sim: seq<int>, gaps: seq<int>, d: int, n: nat, k: nat)
    requires n <= |gaps| <= |sim| && k < n
    ensures Trace(sim, gaps, d, n)[k] == Step(d + Sum(gaps[..k]), d + Sum(gaps[..k]) + gaps[k], sim[k])
  {
    if k < n - 1 {
      TraceAt(sim, gaps, d, n - 1, k);
    } else if n > 1 {
      TraceAt(sim, gaps, d, n - 1, 0);
    }
  }

  /** When the simulated times are the first of the sorted time stamps, the
      gaps telescope: after `k` steps the clock has moved `sim[k] - sim[0]`. */
  lemma {:induction false} SumTelescopes(sim: seq<int>, all: seq<int>, k: nat)
    requires |sim| <= |all| && sim == all[..|sim|] && k < |sim|
    ensures Sum(Gaps(sim, all)[..k]) == sim[k] - sim[0]
  {
    if k > 0 {
      var gaps := Gaps(sim, all);
      SumTelescopes(sim, all, k - 1);
      assert gaps[..k][..k - 1] == gaps[..k - 1];
      assert gaps[k - 1] == sim[k] - all[k - 1] == sim[k] - sim[k - 1];
    }
  }

  // -----------------------------------------------------------------------
  // The driver

  /** `list.remove`: the first occurrence goes. */
  function RemoveFirst(s: seq<string>, x: string): (r: seq<string>)
    requires x in s
    ensures multiset(r) == multiset(s) - multiset{x}
    ensures |r| == |s| - 1
  {
    if s[0] == x then (assert s == [s[0]] + s[1..]; s[1..])
    else
      assert s == [s[0]] + s[1..];
      [s[0]] + RemoveFirst(s[1..], x)
  }

  class NetworkSimulation {
    const recovery: NetworkRecovery.Recovery
    const simStep: int
    var componentsToRepair: seq<string>
    var componentsRepaired: seq<string>

    constructor (recovery: NetworkRecovery.Recovery, simStep: int)
      ensures this.recovery == recovery && this.simStep == simStep
      ensures componentsToRepair == recovery.network.disruptedComponents
      ensures componentsRepaired == []
    {
      this.recovery := recovery;
      this.simStep := simStep;
      componentsToRepair := recovery.network.disruptedComponents;
      componentsRepaired := [];
    }

    /** `update_repaired_components`: the component moves from one list to
        the other; `remove` of an absent value is a ValueError, before
        anything changes. */
    method UpdateRepairedComponents(c: string) returns (r: Result<()>)
      modifies this`componentsToRepair, this`componentsRepaired
      ensures r.Ok? <==> c in old(componentsToRepair)
      ensures r.Ok? ==> componentsToRepair == RemoveFirst(old(componentsToRepair), c)
                        && componentsRepaired == old(componentsRepaired) + [c]
      ensures r.Err? ==> r.error == ValueError && componentsToRepair == old(componentsToRepair)
                         && componentsRepaired == old(componentsRepaired)
      ensures multiset(componentsToRepair) + multiset(componentsRepaired)
           == multiset(old(componentsToRepair)) + multiset(old(componentsRepaired))
    {
      if c !in componentsToRepair {
        return Err(ValueError);
      }
      componentsToRepair := RemoveFirst(componentsToRepair, c);
      componentsRepaired := componentsRepaired + [c];
      r := Ok(());
    }

    /** `expand_event_table`: forward-filled rows at every original time
        stamp and at the clear grid times, then the table sorted by time and
        every time stamp moved 60 s later. Without an event table the
        attribute is missing. On an error the rows appended so far stay. */
    method ExpandEventTable(addPoints: int) returns (r: Result<()>)
      modifies recovery`eventTable
      ensures !recovery.hasEventTable ==> r == Err(AttributeError) && recovery.eventTable == old(recovery.eventTable)
      ensures recovery.hasEventTable && GridOf(Unique(TimeColumn(old(recovery.eventTable))), addPoints, simStep).Err?
        ==> r.Err? && recovery.eventTable == old(recovery.eventTable)
      ensures r.Err? ==> Extends(old(recovery.eventTable), recovery.eventTable)
      ensures r.Ok? ==>
        var grid := GridOf(Unique(TimeColumn(old(recovery.eventTable))), addPoints, simStep);
        grid.Ok? && exists table, sorted ::
          Expanded(old(recovery.eventTable), table, grid.value)
          && AddsOnlyMissing(old(recovery.eventTable), table)
          && SortedByTime(sorted) && multiset(sorted) == multiset(table)
          && recovery.eventTable == Shifted(sorted, 60)
    {
      if !recovery.hasEventTable {
        return Err(AttributeError);
      }
      var orig := recovery.eventTable;
      var comps := Unique(ComponentColumn(orig));
      var times := Unique(TimeColumn(orig));
      var grid := GridOf(times, addPoints, simStep);
      if grid.Err? {
        return Err(grid.error);
      }
      UniqueColumns(orig);
      var table, err := FillTimes(orig, comps, times);
      if err.Some? {
        recovery.eventTable := table;
        return Err(err.value);
      }
      ghost var table1 := table;
      ExtendsSpec(orig, table1);
      table, err := FillGrids(orig, table, comps, grid.value);
      recovery.eventTable := table;
      if err.Some? {
        return Err(err.value);
      }
      GridDistinct(times, addPoints, simStep);
      AddsOnlyMissingTrans(orig, table1, table);
      var sorted := SortValues(table);
      recovery.eventTable := Shifted(sorted, 60);
      r := Ok(());
    }

    /** Phase one of the expansion, time stamp by time stamp. */
    static method FillTimes(orig: seq<Row>, comps: seq<string>, times: seq<int>)
      returns (table: seq<Row>, err: Option<Exception>)
      requires forall x :: x in times <==> x in TimeSet(orig)
      requires forall x :: x in comps <==> x in ComponentSet(orig)
      requires Distinct(comps)
      ensures Extends(orig, table)
      ensures forall k :: |orig| <= k < |table| ==> table[k].time in TimeSet(orig) && table[k].component in ComponentSet(orig)
      ensures AddsOnlyMissing(orig, table)
      ensures err.None? ==> forall c, t :: c in ComponentSet(orig) && t in TimeSet(orig) ==> (c, t) in Pairs(table)
      ensures err.Some? ==> err == Some(ValueError)
    {
      table := orig;
      err := None;
      var i := 0;
      while i < |times|
        invariant 0 <= i <= |times|
        invariant Extends(orig, table)
        invariant forall k :: |orig| <= k < |table| ==> table[k].time in TimeSet(orig) && table[k].component in ComponentSet(orig)
        invariant forall j, c :: 0 <= j < i && c in comps ==> (c, times[j]) in Pairs(table)
        invariant AddsOnlyMissing(orig, table)
      {
        ExtendsSpec(orig, table);
        KnownComponents(orig, table, comps);
        ghost var before := table;
        var out, e := FillAtTime(orig, table, comps, times[i]);
        TimesStep(orig, before, out, comps, times[i]);
        table := out;
        if e.Some? {
          return table, e;
        }
        CoverStep(before, out, comps, times, i);
        i := i + 1;
      }
    }

    /** The rows phase one adds at one original time stamp `t` keep its
        invariants. */
    static lemma TimesStep(orig: seq<Row>, before: seq<Row>, out: seq<Row>, comps: seq<string>, t: int)
      requires t in TimeSet(orig)
      requires forall x :: x in comps <==> x in ComponentSet(orig)
      requires |orig| <= |before| && before[..|orig|] == orig
      requires |before| <= |out| && out[..|before|] == before
      requires forall k :: |orig| <= k < |before| ==> before[k].time in TimeSet(orig) && before[k].component in ComponentSet(orig)
      requires forall k :: |before| <= k < |out| ==> out[k].time == t && out[k].component in comps
      requires AddsOnlyMissing(orig, before) && AddsOnlyMissing(before, out)
      ensures forall k :: |orig| <= k < |out| ==> out[k].time in TimeSet(orig) && out[k].component in ComponentSet(orig)
      ensures AddsOnlyMissing(orig, out)
    {
      AddsOnlyMissingTrans(orig, before, out);
      forall k | |orig| <= k < |out|
        ensures out[k].time in TimeSet(orig) && out[k].component in ComponentSet(orig)
      {
        if k < |before| {
          assert out[k] == before[k];
        }
      }
    }

    /** After phase one at `times[i]`, every component has a row at each of
        the first i + 1 time stamps. */
    static lemma CoverStep(before: seq<Row>, out: seq<Row>, comps: seq<string>, times: seq<int>, i: nat)
      requires i < |times|
      requires |before| <= |out| && out[..|before|] == before
      requires forall j, c :: 0 <= j < i && c in comps ==> (c, times[j]) in Pairs(before)
      requires forall c :: c in comps ==> (c, times[i]) in Pairs(out)
      ensures forall j, c :: 0 <= j < i + 1 && c in comps ==> (c, times[j]) in Pairs(out)
    {
      PairsGrow(before, out);
      forall j, c | 0 <= j < i + 1 && c in comps
        ensures (c, times[j]) in Pairs(out)
      {
        if j < i {
          assert (c, times[j]) in Pairs(before);
        }
      }
    }

    /** Every row of a table grown from `orig` by rows of its own components
        names one of `comps`. */
    static lemma KnownComponents(orig: seq<Row>, table: seq<Row>, comps: seq<string>)
      requires forall x :: x in comps <==> x in ComponentSet(orig)
      requires |orig| <= |table| && table[..|orig|] == orig
      requires forall k :: |orig| <= k < |table| ==> table[k].component in ComponentSet(orig)
      ensures forall k :: 0 <= k < |table| ==> table[k].component in comps
    {
      forall k | 0 <= k < |table|
        ensures table[k].component in comps
      {
        if k < |orig| {
          assert table[k] == orig[k];
          assert orig[k] in orig;
          SetsSpec(orig);
        }
      }
    }

    /** Phase two of the expansion, component by component. */
    static method FillGrids(ghost orig: seq<Row>, table1: seq<Row>, comps: seq<string>, grid: seq<int>)
      returns (table: seq<Row>, err: Option<Exception>)
      requires Extends(orig, table1)
      requires Distinct(comps)
      requires forall x :: x in comps <==> x in ComponentSet(orig)
      requires forall k :: |orig| <= k < |table1| ==> table1[k].time in TimeSet(orig) && table1[k].component in ComponentSet(orig)
      requires forall c, t :: c in ComponentSet(orig) && t in TimeSet(orig) ==> (c, t) in Pairs(table1)
      ensures Extends(orig, table)
      ensures err.Some? ==> err == Some(ValueError)
      ensures err.None? ==> Expanded(orig, table, grid)
      ensures |table1| <= |table| && table[..|table1|] == table1
      ensures Distinct(grid) ==> AddsOnlyMissing(table1, table)
    {
      table := table1;
      err := None;
      var j := 0;
      while j < |comps|
        invariant 0 <= j <= |comps|
        invariant Extends(orig, table) && |table1| <= |table| && table[..|table1|] == table1
        invariant forall k :: |table1| <= k < |table| ==>
          table[k].component in comps[..j] && table[k].time in grid && Clear(table[k].time, TimeSet(orig), 60)
        invariant forall c, g :: c in comps[..j] && g in grid && Clear(g, TimeSet(orig), 60) ==> (c, g) in Pairs(table)
        invariant Distinct(grid) ==> AddsOnlyMissing(table1, table)
      {
        var c := comps[j];
        TimesAfterPhaseOne(orig, table1, table, c, comps, j);
        ghost var before := table;
        var out, e := FillGrid(orig, table, c, grid, 60);
        assert before == out[..|before|];
        if Distinct(grid) {
          AddsOnlyMissingTrans(table1, before, out);
        }
        table := out;
        if e.Some? {
          return table, e;
        }
        GridsStep(table1, before, out, comps, j, grid, TimeSet(orig));
        j := j + 1;
      }
      assert comps[..j] == comps;
      PairsGrow(table1, table);
      forall c, t | c in ComponentSet(orig) && t in TimeSet(orig)
        ensures (c, t) in Pairs(table)
      {
        assert (c, t) in Pairs(table1);
      }
      forall k | |orig| <= k < |table|
        ensures table[k].component in ComponentSet(orig)
             && (table[k].time in TimeSet(orig) || (table[k].time in grid && Clear(table[k].time, TimeSet(orig), 60)))
      {
        if k < |table1| {
          assert table[k] == table1[k];
        }
      }
    }

    /** The turn of `comps[j]` in phase two keeps the invariants of the
        phase. */
    static lemma GridsStep(table1: seq<Row>, before: seq<Row>, out: seq<Row>, comps: seq<string>, j: nat,
                           grid: seq<int>, ts: set<int>)
      requires j < |comps|
      requires |table1| <= |before| && before[..|table1|] == table1
      requires |before| <= |out| && out[..|before|] == before
      requires forall k :: |before| <= k < |out| ==> out[k].component == comps[j] && out[k].time in grid && Clear(out[k].time, ts, 60)
      requires forall g :: g in grid && Clear(g, ts, 60) ==> (comps[j], g) in Pairs(out)
      requires forall k :: |table1| <= k < |before| ==> before[k].component in comps[..j] && before[k].time in grid && Clear(before[k].time, ts, 60)
      requires forall c, g :: c in comps[..j] && g in grid && Clear(g, ts, 60) ==> (c, g) in Pairs(before)
      ensures |table1| <= |out| && out[..|table1|] == table1
      ensures forall k :: |table1| <= k < |out| ==> out[k].component in comps[..j + 1] && out[k].time in grid && Clear(out[k].time, ts, 60)
      ensures forall c, g :: c in comps[..j + 1] && g in grid && Clear(g, ts, 60) ==> (c, g) in Pairs(out)
    {
      PairsGrow(before, out);
      assert comps[..j + 1] == comps[..j] + [comps[j]];
      assert out[..|table1|] == before[..|table1|];
      forall k | |table1| <= k < |out|
        ensures out[k].component in comps[..j + 1] && out[k].time in grid && Clear(out[k].time, ts, 60)
      {
        if k < |before| {
          assert out[k] == before[k];
        }
      }
    }

    /** When component `comps[j]` takes its turn in phase two, its times are
        exactly the original time stamps. */
    static lemma TimesAfterPhaseOne(orig: seq<Row>, table1: seq<Row>, table: seq<Row>, c: string, comps: seq<string>, j: int)
      requires 0 <= j < |comps| && c == comps[j] && Distinct(comps)
      requires forall x :: x in comps <==> x in ComponentSet(orig)
      requires Extends(orig, table1)
      requires forall k :: |orig| <= k < |table1| ==> table1[k].time in TimeSet(orig) && table1[k].component in ComponentSet(orig)
      requires forall c, t :: c in ComponentSet(orig) && t in TimeSet(orig) ==> (c, t) in Pairs(table1)
      requires |table1| <= |table| && table[..|table1|] == table1
      requires forall k :: |table1| <= k < |table| ==> table[k].component in comps[..j]
      ensures TimesOf(table, c) == TimeSet(orig)
    {
      ExtendsSpec(orig, table1);
      TimesOfSpec(table, c);
      SetsSpec(orig);
      assert c !in comps[..j] by {
        forall i | 0 <= i < j ensures comps[i] != c { }
      }
      forall t | t in TimesOf(table, c)
        ensures t in TimeSet(orig)
      {
        var r :| r in table && r.component == c && r.time == t;
        var k :| 0 <= k < |table| && table[k] == r;
        assert k < |table1|;
        if k >= |orig| {
          assert table1[k] == r;
        } else {
          assert table1[..|orig|] == orig;
          assert orig[k] == table1[k] == r;
        }
      }
      forall t | t in TimeSet(orig)
        ensures t in TimesOf(table, c)
      {
        assert c in ComponentSet(orig);
        assert (c, t) in Pairs(table1);
        PairsSpec(table1);
        var r :| r in table1 && (r.component, r.time) == (c, t);
        var k :| 0 <= k < |table1| && table1[k] == r;
        assert table[k] == r;
      }
    }

    /** `get_sim_times`. The wide event table is never set on the recovery
        object in this version, so `wide` is `None` and reading it is an
        AttributeError; it is kept as a parameter for the table the method
        expects. */
    method GetSimTimes(wide: Option<seq<WideRow>>, water: Table) returns (r: Result<seq<int>>)
      ensures wide.None? ==> r == Err(AttributeError)
      ensures wide.Some? && MaxFunctionalStart(wide.value, LookupWith(water)).Err? ==> r.Err?
      ensures wide.Some? && MaxFunctionalStart(wide.value, LookupWith(water)).Ok? ==>
        var times := Unique(TimeColumn(recovery.eventTable));
        r == Ok(times[..SimTimeCount(times, MaxFunctionalStart(wide.value, LookupWith(water)).value)])
    {
      if wide.None? {
        return Err(AttributeError);
      }
      var m := ScanFunctionalStarts(wide.value, LookupWith(water));
      if m.Err? {
        return Err(m.error);
      }
      var times := Unique(TimeColumn(recovery.eventTable));
      r := Ok(times[..SimTimeCount(times, m.value)]);
    }

    /** The step loop of `simulate_interdependent_effects`: the steps it
        takes, each making the calls `CallsOf` lists, for the simulated times
        `sim`, all but the last of them, where
        `all` is the sorted list of every unique time stamp, starting from
        the water model's duration `d`. The duration advances only while the
        step index is below `len(all) - 1`, which every step is. */
    method SimulateSteps(sim: seq<int>, all: seq<int>, d: int) returns (steps: seq<Step>, duration: int)
      requires |sim| <= |all|
      ensures steps == Trace(sim, Gaps(sim, all), d, |Gaps(sim, all)|)
      ensures duration == d + Sum(Gaps(sim, all))
      ensures sim == all[..|sim|] && |sim| >= 1 ==> duration == d + sim[|sim| - 1] - sim[0]
    {
      var gaps := Gaps(sim, all);
      steps := [];
      duration := d;
      var index := 0;
      while index < |gaps|
        invariant 0 <= index <= |gaps|
        invariant steps == Trace(sim, gaps, d, index)
        invariant duration == d + Sum(gaps[..index])
      {
        steps := steps + [Step(duration, duration + gaps[index], sim[index])];
        if index < |all| - 1 {
          duration := duration + gaps[index];
        }
        assert gaps[..index + 1][..index] == gaps[..index];
        index := index + 1;
      }
      assert gaps[..index] == gaps;
      if sim == all[..|sim|] && |sim| >= 1 {
        SumTelescopes(sim, all, |sim| - 1);
      }
    }

    /** What the step loop promises when the simulated times are the first
        of the sorted time stamps: step `k` runs over the window from `d + sim[k] - sim[0]` to `d + sim[k + 1] -
        sim[0]`, so the windows follow one another without gap or overlap. */
    static lemma StepWindows(sim: seq<int>, all: seq<int>, d: int)
      requires |sim| <= |all| && sim == all[..|sim|] && |sim| >= 1
      ensures var steps := Trace(sim, Gaps(sim, all), d, |sim| - 1);
        |steps| == |sim| - 1
        && forall k :: 0 <= k < |sim| - 1 ==> steps[k] == Step(d + sim[k] - sim[0], d + sim[k + 1] - sim[0], sim[k])
    {
      var gaps := Gaps(sim, all);
      var steps := Trace(sim, gaps, d, |sim| - 1);
      forall k | 0 <= k < |sim| - 1
        ensures steps[k] == Step(d + sim[k] - sim[0], d + sim[k + 1] - sim[0], sim[k])
      {
        SumTelescopes(sim, all, k);
        TraceAt(sim, gaps, d, |sim| - 1, k);
        assert gaps[k] == sim[k + 1] - all[k];
      }
    }
  }
}
