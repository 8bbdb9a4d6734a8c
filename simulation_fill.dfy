/** The forward fill behind `expand_event_table`: the performance level and
    state of a component at a time are read off its latest row at or
    before that time (the first such row in table order when several rows
    share that time). Rows the expansion appends are copies made this way,
    and this file proves that appending such copies never changes what a
    later lookup reads, which is why the expansion may look values up in
    the table it is growing. */
module EventFill {
  import opened Wrappers
  import opened EventTable

  /** The latest time at or before `t` at which `c` has a row. */
  function Latest(rows: seq<Row>, c: string, t: int): Option<int> {
    if rows == [] then None
    else
      var m := Latest(rows[..|rows| - 1], c, t);
      var r := rows[|rows| - 1];
      if r.component == c && r.time <= t && (m.None? || m.value < r.time) then Some(r.time) else m
  }

  /** `max(compon_time_list[compon_time_list <= time])`, stated outright. */
  lemma {:induction false} LatestSpec(rows: seq<Row>, c: string, t: int)
    ensures Latest(rows, c, t).None? <==> forall r :: r in rows && r.component == c ==> r.time > t
    ensures Latest(rows, c, t).Some? ==>
      Latest(rows, c, t).value <= t
      && (exists r :: r in rows && r.component == c && r.time == Latest(rows, c, t).value)
      && forall r :: r in rows && r.component == c && r.time <= t ==> r.time <= Latest(rows, c, t).value
  {
    if rows != [] {
      var init := rows[..|rows| - 1];
      LatestSpec(init, c, t);
      assert rows == init + [rows[|rows| - 1]];
    }
  }

  /** The first row of `c` at time `m`: `.values[0]` of the selection. */
  function FirstAt(rows: seq<Row>, c: string, m: int): Option<Row> {
    if rows == [] then None
    else if rows[0].component == c && rows[0].time == m then Some(rows[0])
    else FirstAt(rows[1..], c, m)
  }

  lemma {:induction false} FirstAtSpec(rows: seq<Row>, c: string, m: int)
    ensures FirstAt(rows, c, m).Some? <==> exists r :: r in rows && r.component == c && r.time == m
    ensures FirstAt(rows, c, m).Some? ==>
      FirstAt(rows, c, m).value in rows
      && FirstAt(rows, c, m).value.component == c && FirstAt(rows, c, m).value.time == m
  {
    if rows != [] {
      FirstAtSpec(rows[1..], c, m);
      assert rows == [rows[0]] + rows[1..];
    }
  }

  lemma {:induction false} FirstAtAppend(a: seq<Row>, b: seq<Row>, c: string, m: int)
    ensures FirstAt(a + b, c, m) == if FirstAt(a, c, m).Some? then FirstAt(a, c, m) else FirstAt(b, c, m)
  {
    if a != [] {
      FirstAtAppend(a[1..], b, c, m);
      assert (a + b)[1..] == a[1..] + b;
    } else {
      assert a + b == b;
    }
  }

  /** The value the expansion copies: perf level and state of `c` at `t`.
      With no row of `c` at or before `t`, `max` of an empty selection
      raises a ValueError. */
  function ValueAt(rows: seq<Row>, c: string, t: int): Result<(real, State)> {
    match Latest(rows, c, t)
    case None => Err(ValueError)
    case Some(m) =>
      match FirstAt(rows, c, m)
      case None => Err(IndexError)
      case Some(r) => Ok((r.perf, r.state))
  }

  /** The lookup fails exactly when `c` has no row at or before `t`, and
      then with the ValueError of `max` on an empty selection: the
      IndexError of `.values[0]` cannot happen. */
  lemma ValueAtError(rows: seq<Row>, c: string, t: int)
    ensures ValueAt(rows, c, t).Err? <==> forall r :: r in rows && r.component == c ==> r.time > t
    ensures ValueAt(rows, c, t).Err? ==> ValueAt(rows, c, t).error == ValueError
  {
    LatestSpec(rows, c, t);
    if Latest(rows, c, t).Some? {
      FirstAtSpec(rows, c, Latest(rows, c, t).value);
    }
  }

  /** A row that copies what the original table holds at its time. */
  predicate Faithful(orig: seq<Row>, r: Row) {
    ValueAt(orig, r.component, r.time) == Ok((r.perf, r.state))
  }

  predicate AllFaithful(orig: seq<Row>, added: seq<Row>) {
    forall k :: 0 <= k < |added| ==> Faithful(orig, added[k])
  }

  function MaxOpt(a: Option<int>, b: Option<int>): Option<int> {
    if a.None? then b else if b.None? then a else if a.value < b.value then b else a
  }

  lemma {:induction false} LatestAppend(a: seq<Row>, b: seq<Row>, c: string, t: int)
    ensures Latest(a + b, c, t) == MaxOpt(Latest(a, c, t), Latest(b, c, t))
    decreases |b|
  {
    if b == [] {
      assert a + b == a;
    } else {
      var init := b[..|b| - 1];
      LatestAppend(a, init, c, t);
      assert (a + b)[..|a + b| - 1] == a + init;
    }
  }

  /** Two cut-offs with no row of `c` between them see the same latest row. */
  lemma {:induction false} LatestSameBelow(rows: seq<Row>, c: string, lo: int, t: int)
    requires lo <= t
    requires forall r :: r in rows && r.component == c && r.time <= t ==> r.time <= lo
    ensures Latest(rows, c, lo) == Latest(rows, c, t)
  {
    if rows != [] {
      var init := rows[..|rows| - 1];
      assert forall r :: r in init ==> r in rows;
      assert rows[|rows| - 1] in rows;
      LatestSameBelow(init, c, lo, t);
    }
  }

  /** The heart of the expansion: once only faithful copies have been
      appended, every lookup reads what it would read in the original
      table. */
  lemma LookupFaithful(orig: seq<Row>, added: seq<Row>, c: string, t: int)
    requires AllFaithful(orig, added)
    ensures ValueAt(orig + added, c, t) == ValueAt(orig, c, t)
  {
    var la := Latest(orig, c, t);
    var lb := Latest(added, c, t);
    LatestAppend(orig, added, c, t);
    LatestSpec(orig, c, t);
    LatestSpec(added, c, t);
    if lb.None? || (la.Some? && lb.value <= la.value) {
      if la.Some? {
        FirstAtAppend(orig, added, c, la.value);
        FirstAtSpec(orig, c, la.value);
      }
    } else {
      var mb := lb.value;
      FirstAtSpec(orig, c, mb);
      FirstAtAppend(orig, added, c, mb);
      FirstAtSpec(added, c, mb);
      var r := FirstAt(added, c, mb).value;
      var k :| 0 <= k < |added| && added[k] == r;
      assert Faithful(orig, added[k]);
      LatestSameBelow(orig, c, mb, t);
    }
  }

  /** Appending a faithful copy keeps the table faithful. */
  lemma FaithfulCopy(orig: seq<Row>, added: seq<Row>, c: string, t: int)
    requires AllFaithful(orig, added)
    requires ValueAt(orig + added, c, t).Ok?
    ensures Faithful(orig, Row(t, c, ValueAt(orig + added, c, t).value.0, ValueAt(orig + added, c, t).value.1))
  {
    LookupFaithful(orig, added, c, t);
  }

  /** Every copy carries the latest original row at or before its time. */
  lemma FaithfulMeansLatest(orig: seq<Row>, r: Row)
    requires Faithful(orig, r)
    ensures exists o :: o in orig && o.component == r.component && o.time <= r.time
                     && o.perf == r.perf && o.state == r.state
                     && forall x :: x in orig && x.component == r.component && x.time <= r.time ==> x.time <= o.time
  {
    LatestSpec(orig, r.component, r.time);
    var m := Latest(orig, r.component, r.time).value;
    FirstAtSpec(orig, r.component, m);
    var o := FirstAt(orig, r.component, m).value;
    assert o in orig && o.time == m;
  }
}
