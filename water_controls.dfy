/** The named controls of a water network model. The hydraulic solver keeps
    its controls in a dictionary keyed by name: adding a name that is
    already used is an error, and so is removing one that is not there.
    The recovery, dependency and actuator code only ever adds and removes
    names, so the model keeps the list of names and nothing else. */
module WaterControls {
  import opened Wrappers
  import opened Text

  predicate Distinct(s: seq<string>) {
    forall i, j :: 0 <= i < j < |s| ==> s[i] != s[j]
  }

  /** `s` with every occurrence of `x` removed, order kept. */
  function Without(s: seq<string>, x: string): (r: seq<string>)
    ensures forall y :: y in r <==> y in s && y != x
    ensures |r| <= |s|
  {
    if s == [] then []
    else if s[0] == x then Without(s[1..], x)
    else [s[0]] + Without(s[1..], x)
  }

  lemma {:induction false} WithoutDistinct(s: seq<string>, x: string)
    requires Distinct(s)
    ensures Distinct(Without(s, x))
  {
    if s != [] {
      WithoutDistinct(s[1..], x);
      var r := Without(s[1..], x);
      if s[0] != x {
        assert s[0] !in s[1..];
        assert s[0] !in r;
      }
    }
  }

  lemma {:induction false} WithoutAbsent(s: seq<string>, x: string)
    requires x !in s
    ensures Without(s, x) == s
  {
    if s != [] {
      WithoutAbsent(s[1..], x);
    }
  }

  /** The names of the two controls with which the solver implements a
      pump outage from `start` to `end`. */
  function OutageOffName(pump: string, start: int): string {
    pump + "_power_off_" + IntToString(start)
  }

  function OutageOnName(pump: string, end: int): string {
    pump + "_power_on_" + IntToString(end)
  }

  class Registry {
    var names: seq<string>

    ghost predicate Valid()
      reads this
    {
      Distinct(names)
    }

    constructor ()
      ensures Valid() && names == []
    {
      names := [];
    }

    /** `remove_control`: a KeyError when the name is not registered. */
    method Remove(name: string) returns (r: Result<()>)
      requires Valid()
      modifies this
      ensures Valid()
      ensures r.Ok? <==> name in old(names)
      ensures names == Without(old(names), name)
      ensures name !in names
    {
      WithoutDistinct(names, name);
      if name in names {
        r := Ok(());
      } else {
        WithoutAbsent(names, name);
        r := Err(KeyError);
      }
      names := Without(names, name);
    }

    /** `add_control`: a ValueError when the name is already used. */
    method Add(name: string) returns (r: Result<()>)
      requires Valid()
      modifies this
      ensures Valid()
      ensures r.Ok? <==> name !in old(names)
      ensures names == if r.Ok? then old(names) + [name] else old(names)
    {
      if name in names {
        r := Err(ValueError);
      } else {
        names := names + [name];
        r := Ok(());
      }
    }

    /** Removes `name` only when it is registered, as the callers do with
        an `in` test before `remove_control`; this never fails. */
    method Discard(name: string)
      requires Valid()
      modifies this
      ensures Valid()
      ensures names == Without(old(names), name)
      ensures name !in names
    {
      if name in names {
        var _ := Remove(name);
      } else {
        WithoutAbsent(names, name);
      }
    }

    /** A pump outage over `[start, end)`: the solver adds its two named
        controls, failing like `Add` when either name is taken. */
    method AddOutage(pump: string, start: int, end: int) returns (r: Result<()>)
      requires Valid()
      modifies this
      ensures Valid()
      ensures r.Ok? ==> names == old(names) + [OutageOffName(pump, start), OutageOnName(pump, end)]
      ensures r.Ok? <==> OutageOffName(pump, start) !in old(names)
                         && OutageOnName(pump, end) !in old(names)
                         && OutageOffName(pump, start) != OutageOnName(pump, end)
    {
      var off := OutageOffName(pump, start);
      var on := OutageOnName(pump, end);
      r := Add(off);
      if r.Ok? {
        r := Add(on);
      }
    }
  }
}
