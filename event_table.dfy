/** Ordering rows by a time key. The recovery code sorts its event tables
    with pandas' default sort, which is not stable, so all that the model
    promises of a sorted table is what that sort promises: the rows are in
    time order and are the same rows. */
module Sorting {

  predicate SortedBy<T>(s: seq<T>, key: T -> int) {
    forall i, j :: 0 <= i < j < |s| ==> key(s[i]) <= key(s[j])
  }

  function InsertBy<T>(x: T, s: seq<T>, key: T -> int): (r: seq<T>)
    ensures |r| == |s| + 1
  {
    if s == [] then [x]
    else if key(x) <= key(s[0]) then [x] + s
    else [s[0]] + InsertBy(x, s[1..], key)
  }

  lemma {:induction false} InsertByKeeps<T>(x: T, s: seq<T>, key: T -> int)
    ensures multiset(InsertBy(x, s, key)) == multiset(s) + multiset{x}
  {
    if s != [] && key(s[0]) < key(x) {
      InsertByKeeps(x, s[1..], key);
      assert s == [s[0]] + s[1..];
    }
  }

  lemma {:induction false} InsertBySorted<T>(x: T, s: seq<T>, key: T -> int)
    requires SortedBy(s, key)
    ensures SortedBy(InsertBy(x, s, key), key)
  {
    if s != [] && key(s[0]) < key(x) {
      var rest := InsertBy(x, s[1..], key);
      InsertBySorted(x, s[1..], key);
      InsertByKeeps(x, s[1..], key);
      forall k | 0 <= k < |rest|
        ensures key(s[0]) <= key(rest[k])
      {
        assert rest[k] in multiset(rest);
        if rest[k] != x {
          assert rest[k] in multiset(s[1..]);
          var j :| 0 <= j < |s[1..]| && s[1..][j] == rest[k];
          assert s[j + 1] == rest[k];
        }
      }
    }
  }

  /** An insertion sort; any sort with these two properties would do. */
  function SortBy<T>(s: seq<T>, key: T -> int): (r: seq<T>)
    ensures SortedBy(r, key)
    ensures multiset(r) == multiset(s)
    ensures |r| == |s|
  {
    if s == [] then []
    else
      var rest := SortBy(s[1..], key);
      InsertBySorted(s[0], rest, key);
      InsertByKeeps(s[0], rest, key);
      assert s == [s[0]] + s[1..];
      InsertBy(s[0], rest, key)
  }
}

/** The event table shared by the recovery scheduler and the simulation:
    one row per (time stamp, component) with the component's performance
    level in percent and its state. */
module EventTable {
  import opened Sorting

  datatype State = Functional | ServiceDisrupted | Repairing | ServiceRestored

  datatype Row = Row(time: int, component: string, perf: real, state: State)

  function TimeOf(r: Row): int { r.time }

  predicate SortedByTime(rows: seq<Row>) {
    SortedBy(rows, TimeOf)
  }

  /** `sort_values(by=["time_stamp"])`. */
  function SortByTime(rows: seq<Row>): (r: seq<Row>)
    ensures SortedByTime(r)
    ensures multiset(r) == multiset(rows)
  {
    SortBy(rows, TimeOf)
  }

  /** The table sort as the scheduler calls it. */
  method SortValues(rows: seq<Row>) returns (sorted: seq<Row>)
    ensures SortedByTime(sorted)
    ensures multiset(sorted) == multiset(rows)
  {
    sorted := SortByTime(rows);
  }
}
