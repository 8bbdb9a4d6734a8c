/** Component naming, dependency tables and repair-time lookups of the
    simulation-model variant (infrarisk/src/network_sim_models). A
    component name is `<infra>_<id>`, where `<infra>` is `P`, `W` or `T`
    and the letters of `<id>` are the type code looked up in that
    infrastructure's component table. The water table of this variant is
    not part of this model, so it is a parameter. */
module SimInterdependencies {
  import opened Wrappers
  import opened Text
  import opened ComponentTables
  import WaterControls

  datatype Infra = Power | Water | Transpo

  /** The tuple `(infra, type code, collection code, display name)`. */
  datatype Details = Details(infra: Infra, typeCode: string, code: string, name: string)

  /** What the lookup returns: the tuple, or `None`; `reported` says
      whether a message was printed on the way to `None`. */
  datatype Lookup = Found(details: Details) | Unknown(reported: bool)

  function PrefixOf(infra: Infra): string {
    match infra
    case Power => "P"
    case Water => "W"
    case Transpo => "T"
  }

  function InfraOfPrefix(p: string): (r: Option<Infra>)
    ensures r.Some? ==> PrefixOf(r.value) == p
    ensures (exists i :: PrefixOf(i) == p) ==> r.Some?
  {
    if p == "P" then Some(Power)
    else if p == "W" then Some(Water)
    else if p == "T" then Some(Transpo)
    else None
  }

  function TableOf(infra: Infra, water: Table): Table {
    match infra
    case Power => SimPowerTable()
    case Water => water
    case Transpo => TranspoTable()
  }

  /** `get_compon_details`: a ValueError unless the name splits on `_`
      into exactly two parts. */
  function GetComponDetails(name: string, water: Table): Result<Lookup>
  {
    match SplitTwo(name, '_')
    case Err(e) => Err(e)
    case Ok((pre, id)) =>
      var t := Letters(id);
      match InfraOfPrefix(pre)
      case None => Ok(Unknown(true))
      case Some(infra) =>
        var table := TableOf(infra, water);
        if t in table then Ok(Found(Details(infra, t, table[t].code, table[t].name)))
        else Ok(Unknown(infra != Transpo))
  }

  /** What `get_compon_details` reports: an error for a name without
      exactly one `_`; otherwise either the details of its type, taken from
      its infrastructure's table, or an unknown type, reported unless the
      name is a road type. */
  lemma GetComponDetailsSpec(name: string, water: Table)
    ensures GetComponDetails(name, water).Err? <==> Count(name, '_') != 1
    ensures GetComponDetails(name, water).Err? ==> GetComponDetails(name, water).error == ValueError
    ensures GetComponDetails(name, water).Ok? && GetComponDetails(name, water).value.Found? ==>
      var (pre, id) := SplitTwo(name, '_').value;
      var d := GetComponDetails(name, water).value.details;
      PrefixOf(d.infra) == pre && d.typeCode == Letters(id)
      && d.typeCode in TableOf(d.infra, water)
      && d.code == TableOf(d.infra, water)[d.typeCode].code
      && d.name == TableOf(d.infra, water)[d.typeCode].name
    ensures GetComponDetails(name, water).Ok? && GetComponDetails(name, water).value.Unknown? ==>
      var (pre, id) := SplitTwo(name, '_').value;
      match InfraOfPrefix(pre)
      case None => GetComponDetails(name, water).value.reported
      case Some(i) => Letters(id) !in TableOf(i, water) && (GetComponDetails(name, water).value.reported <==> i != Transpo)
  {
  }

  /** The naming convention read backwards: a name built from an
      infrastructure prefix, a known type code and a number is looked up
      as that type. */
  lemma NamingRoundTrip(infra: Infra, t: string, n: nat, water: Table)
    requires t in TableOf(infra, water)
    requires forall i :: 0 <= i < |t| ==> IsAlpha(t[i])
    ensures GetComponDetails(PrefixOf(infra) + "_" + t + NatToString(n), water)
         == Ok(Found(Details(infra, t, TableOf(infra, water)[t].code, TableOf(infra, water)[t].name)))
  {
    var id := t + NatToString(n);
    var name := PrefixOf(infra) + "_" + id;
    assert name == PrefixOf(infra) + ['_'] + id;
    assert '_' !in id by {
      assert forall i :: 0 <= i < |id| ==> IsAlpha(id[i]) || IsDigit(id[i]);
    }
    assert '_' !in PrefixOf(infra);
    SplitTwoOf(PrefixOf(infra), id, '_');
    LettersOfTypedNumber(t, n);
    assert InfraOfPrefix(PrefixOf(infra)) == Some(infra);
    assert SplitTwo(name, '_') == Ok((PrefixOf(infra), id));
    assert Letters(id) == t;
    assert name == PrefixOf(infra) + "_" + t + NatToString(n);
  }

  lemma SplitTwoOf(a: string, b: string, sep: char)
    requires sep !in a && sep !in b
    ensures SplitTwo(a + [sep] + b, sep) == Ok((a, b))
  {
    var s := a + [sep] + b;
    CountSplit(a, b, sep);
    var r := SplitTwo(s, sep);
    var (x, y) := r.value;
    assert x + [sep] + y == a + [sep] + b;
    SeparatedUnique(x, y, a, b, sep);
  }

  lemma {:induction false} CountSplit(a: string, b: string, sep: char)
    requires sep !in a && sep !in b
    ensures Count(a + [sep] + b, sep) == 1
  {
    if a == [] {
      assert a + [sep] + b == [sep] + b;
      assert ([sep] + b)[1..] == b;
      CountAbsent(b, sep);
    } else {
      assert (a + [sep] + b)[1..] == a[1..] + [sep] + b;
      CountSplit(a[1..], b, sep);
    }
  }

  lemma {:induction false} CountAbsent(s: string, c: char)
    requires c !in s
    ensures Count(s, c) == 0
  {
    if s != [] {
      CountAbsent(s[1..], c);
    }
  }

  lemma SeparatedUnique(x: string, y: string, a: string, b: string, sep: char)
    requires sep !in x && sep !in a
    requires x + [sep] + y == a + [sep] + b
    ensures x == a && y == b
  {
    var s := x + [sep] + y;
    FindSeparated(x, y, sep);
    FindSeparated(a, b, sep);
    assert x == s[..|x|] && a == s[..|a|];
    assert y == s[|x| + 1..] && b == s[|a| + 1..];
  }

  lemma FindSeparated(x: string, y: string, sep: char)
    requires sep !in x
    ensures Find(x + [sep] + y, sep) == |x|
  {
    var s := x + [sep] + y;
    assert s[|x|] == sep;
  }

  lemma LettersOfTypedNumber(t: string, n: nat)
    requires forall i :: 0 <= i < |t| ==> IsAlpha(t[i])
    ensures Letters(t + NatToString(n)) == t
  {
    LettersAppend(t, NatToString(n));
    LettersAllAlpha(t);
    LettersNoAlpha(NatToString(n));
  }

  lemma {:induction false} LettersAllAlpha(s: string)
    requires forall i :: 0 <= i < |s| ==> IsAlpha(s[i])
    ensures Letters(s) == s
  {
    if s != [] {
      LettersAllAlpha(s[1..]);
    }
  }

  lemma {:induction false} LettersNoAlpha(s: string)
    requires forall i :: 0 <= i < |s| ==> IsDigit(s[i])
    ensures Letters(s) == []
  {
    if s != [] {
      LettersNoAlpha(s[1..]);
    }
  }

  // -----------------------------------------------------------------------
  // Dependency table

  /** The three kinds of power-water coupling. */
  datatype Coupling = PumpMotor | PumpLoadMotor | GenReserv

  function WaterType(k: Coupling): string {
    match k
    case PumpMotor => "Pump"
    case PumpLoadMotor => "Pump"
    case GenReserv => "Reservoir"
  }

  function PowerType(k: Coupling): string {
    match k
    case PumpMotor => "Motor"
    case PumpLoadMotor => "Motor as Load"
    case GenReserv => "Generator"
  }

  /** The classification of a (water, power) pair of display names; every
      other pair is rejected with a message. */
  function Classify(waterName: string, powerName: string): (r: Option<Coupling>)
    ensures r.Some? ==> WaterType(r.value) == waterName && PowerType(r.value) == powerName
    ensures r.None? ==> forall k: Coupling :: !(WaterType(k) == waterName && PowerType(k) == powerName)
  {
    if powerName == "Motor" && waterName == "Pump" then Some(PumpMotor)
    else if powerName == "Motor as Load" && waterName == "Pump" then Some(PumpLoadMotor)
    else if waterName == "Reservoir" && powerName == "Generator" then Some(GenReserv)
    else None
  }

  datatype WpRow = WpRow(waterId: string, powerId: string, kind: Coupling)

  /** One row of the dependency file: the row the table gains (`None` for
      a rejected pair) or the exception that stops the reading. Both
      lookups run before either result is indexed, so a malformed name is
      reported before a missing type. */
  function CouplingOf(waterId: string, powerId: string, water: Table): (r: Result<Option<WpRow>>)
    ensures r.Ok? && r.value.Some? ==>
      r.value.value.waterId == waterId && r.value.value.powerId == powerId
  {
    match (GetComponDetails(waterId, water), GetComponDetails(powerId, water))
    case (Err(e), _) => Err(e)
    case (_, Err(e)) => Err(e)
    case (Ok(wd), Ok(pd)) =>
      if wd.Unknown? || pd.Unknown? then Err(TypeError)
      else match Classify(wd.details.name, pd.details.name)
        case Some(k) => Ok(Some(WpRow(waterId, powerId, k)))
        case None => Ok(None)
  }

  /** The rows a whole dependency file adds, and the exception (if any)
      that stopped the reading; rows read before the exception stay. */
  function Couplings(rows: seq<(string, string)>, water: Table): (out: (seq<WpRow>, Option<Exception>))
    ensures |out.0| <= |rows|
  {
    if rows == [] then ([], None)
    else
      var (prev, e) := Couplings(rows[..|rows| - 1], water);
      if e.Some? then (prev, e)
      else match CouplingOf(rows[|rows| - 1].0, rows[|rows| - 1].1, water)
        case Err(x) => (prev, Some(x))
        case Ok(None) => (prev, None)
        case Ok(Some(row)) => (prev + [row], None)
  }

  lemma CouplingsSnoc(rows: seq<(string, string)>, i: nat, water: Table)
    requires i < |rows|
    ensures Couplings(rows[..i + 1], water) ==
      var (prev, e) := Couplings(rows[..i], water);
      if e.Some? then (prev, e)
      else match CouplingOf(rows[i].0, rows[i].1, water)
        case Err(x) => (prev, Some(x))
        case Ok(None) => (prev, None)
        case Ok(Some(row)) => (prev + [row], None)
  {
    assert rows[..i + 1][..i] == rows[..i];
  }

  /** Once the reading has stopped, later rows change nothing. */
  lemma {:induction false} CouplingsStopped(rows: seq<(string, string)>, i: nat, water: Table)
    requires i <= |rows|
    requires Couplings(rows[..i], water).1.Some?
    ensures Couplings(rows, water) == Couplings(rows[..i], water)
    decreases |rows| - i
  {
    if i == |rows| {
      assert rows[..i] == rows;
    } else {
      assert rows[..i + 1][..i] == rows[..i];
      assert Couplings(rows[..i + 1], water) == Couplings(rows[..i], water);
      CouplingsStopped(rows, i + 1, water);
    }
  }

  /** Each accepted row of a dependency file names the pair it was read
      from. */
  lemma {:induction false} CouplingsFromFile(rows: seq<(string, string)>, water: Table)
    ensures forall r :: r in Couplings(rows, water).0 ==> (r.waterId, r.powerId) in rows
  {
    if rows != [] {
      var init := rows[..|rows| - 1];
      CouplingsFromFile(init, water);
      assert forall x :: x in init ==> x in rows;
    }
  }

  datatype AccessRow = AccessRow(originId: string, transpId: string, originCat: Infra, originType: string, accessDist: real)

  datatype NodeKind = PowerNode | WaterNode | TranspoNode

  function AccessRowOf(node: string, water: Table, nearest: string -> (string, real)): (r: Result<AccessRow>)
    ensures r.Ok? ==> r.value.originId == node && r.value.transpId == nearest(node).0
  {
    match GetComponDetails(node, water)
    case Err(e) => Err(e)
    case Ok(Unknown(_)) => Err(TypeError)
    case Ok(Found(d)) => Ok(AccessRow(node, nearest(node).0, d.infra, d.name, nearest(node).1))
  }

  /** The graph's power and water nodes, in graph order. */
  function NodesOfInterest(nodes: seq<(string, NodeKind)>): (r: seq<string>)
    ensures |r| <= |nodes|
    ensures forall x :: x in r <==> exists i :: 0 <= i < |nodes| && nodes[i].0 == x && nodes[i].1 != TranspoNode
  {
    if nodes == [] then []
    else
      var rest := NodesOfInterest(nodes[..|nodes| - 1]);
      assert forall i :: 0 <= i < |nodes| - 1 ==> nodes[..|nodes| - 1][i] == nodes[i];
      if nodes[|nodes| - 1].1 != TranspoNode then rest + [nodes[|nodes| - 1].0] else rest
  }

  class DependencyTable {
    var wpTable: seq<WpRow>
    var accessTable: seq<AccessRow>

    constructor ()
      ensures wpTable == [] && accessTable == []
    {
      wpTable := [];
      accessTable := [];
    }

    /** `build_power_water_dependencies`: `None` is a missing file, which
        is reported and adds nothing. */
    method BuildPowerWaterDependencies(file: Option<seq<(string, string)>>, water: Table)
      returns (err: Option<Exception>)
      modifies this`wpTable
      ensures file.None? ==> wpTable == old(wpTable) && err.None?
      ensures file.Some? ==> wpTable == old(wpTable) + Couplings(file.value, water).0
                             && err == Couplings(file.value, water).1
    {
      err := None;
      if file.None? {
        return;
      }
      var rows := file.value;
      var i := 0;
      while i < |rows| && err.None?
        invariant 0 <= i <= |rows|
        invariant wpTable == old(wpTable) + Couplings(rows[..i], water).0
        invariant err == Couplings(rows[..i], water).1
        decreases |rows| - i
      {
        CouplingsSnoc(rows, i, water);
        var c := CouplingOf(rows[i].0, rows[i].1, water);
        match c {
          case Err(x) => err := Some(x);
          case Ok(None) =>
          case Ok(Some(row)) =>
            AppendAssoc(old(wpTable), Couplings(rows[..i], water).0, [row]);
            wpTable := wpTable + [row];
        }
        i := i + 1;
      }
      if i < |rows| {
        CouplingsStopped(rows, i, water);
      } else {
        assert rows[..i] == rows;
      }
    }

    /** `add_transpo_access`: one row per power or water node of the graph,
        in graph order, until a name fails to look up. */
    method AddTranspoAccess(nodes: seq<(string, NodeKind)>, water: Table, nearest: string -> (string, real))
      returns (err: Option<Exception>)
      modifies this`accessTable
      ensures accessTable == old(accessTable) + AccessRows(NodesOfInterest(nodes), water, nearest).0
      ensures err == AccessRows(NodesOfInterest(nodes), water, nearest).1
    {
      var targets := NodesOfInterest(nodes);
      err := None;
      var i := 0;
      while i < |targets| && err.None?
        invariant 0 <= i <= |targets|
        invariant accessTable == old(accessTable) + AccessRows(targets[..i], water, nearest).0
        invariant err == AccessRows(targets[..i], water, nearest).1
        decreases |targets| - i
      {
        AccessRowsSnoc(targets, i, water, nearest);
        var row := AccessRowOf(targets[i], water, nearest);
        match row {
          case Err(x) => err := Some(x);
          case Ok(a) =>
            AppendAssoc(old(accessTable), AccessRows(targets[..i], water, nearest).0, [a]);
            accessTable := accessTable + [a];
        }
        i := i + 1;
      }
      if i < |targets| {
        AccessRowsStopped(targets, i, water, nearest);
      } else {
        assert targets[..i] == targets;
      }
    }

    /** `update_dependencies`: for each pump coupled to a motor (or a motor
        modelled as a load) that is out of service, stale outage controls
        for this step are removed and a pump outage over
        `[timeStamp, nextTimeStamp)` is added; an in-service motor changes
        nothing. `inService` is the in-service flag of the named power
        element, `None` when the name does not select exactly one row,
        which raises a ValueError and stops the update. */
    method UpdateDependencies(controls: WaterControls.Registry, inService: string -> Option<bool>,
                              timeStamp: int, nextTimeStamp: int)
      returns (err: Option<Exception>)
      requires controls.Valid()
      modifies controls
      ensures controls.Valid()
      ensures (controls.names, err) == ControlsAfter(wpTable, old(controls.names), DownOf(inService), timeStamp, nextTimeStamp, true)
      ensures err.None? ==> forall j :: 0 <= j < |wpTable| ==>
        Handled(wpTable[j], controls.names, inService, timeStamp, nextTimeStamp)
      ensures err.Some? <==> exists j :: 0 <= j < |wpTable| && Unreadable(wpTable[j], inService)
      ensures err.Some? ==> err == Some(ValueError)
      ensures forall x :: x in old(controls.names) ==> x in controls.names
      ensures forall x :: x in controls.names ==>
        x in old(controls.names)
        || exists j :: 0 <= j < |wpTable| && OutageName(wpTable[j], x, Down(wpTable[j], inService), timeStamp, nextTimeStamp)
      ensures (forall j :: 0 <= j < |wpTable| ==> Unaffected(wpTable[j], inService))
        ==> controls.names == old(controls.names) && err.None?
    {
      ghost var down := DownOf(inService);
      ghost var names0 := controls.names;
      err := None;
      var i := 0;
      while i < |wpTable| && err.None?
        invariant 0 <= i <= |wpTable|
        invariant controls.Valid()
        invariant (controls.names, err) == ControlsAfter(wpTable[..i], names0, down, timeStamp, nextTimeStamp, true)
      {
        ControlsAfterSnoc(wpTable, i, names0, down, timeStamp, nextTimeStamp, true);
        err := UpdateRow(controls, wpTable[i], inService, timeStamp, nextTimeStamp);
        i := i + 1;
      }
      if err.Some? {
        ControlsAfterStopped(wpTable, i, names0, down, timeStamp, nextTimeStamp, true);
      } else {
        assert wpTable[..i] == wpTable;
      }
      ControlsAfterError(wpTable, names0, down, timeStamp, nextTimeStamp);
      ControlsAfterKeeps(wpTable, names0, down, timeStamp, nextTimeStamp);
      ControlsAfterHandled(wpTable, names0, down, timeStamp, nextTimeStamp);
      ControlsAfterAdds(wpTable, names0, down, timeStamp, nextTimeStamp);
      if forall j :: 0 <= j < |wpTable| ==> Unaffected(wpTable[j], inService) {
        ControlsAfterKeep(wpTable, names0, down, timeStamp, nextTimeStamp, true);
      }
    }
  }

  /** The rows `add_transpo_access` appends for a list of nodes, and the
      exception (if any) that stopped it; rows made before it stay. */
  function AccessRows(targets: seq<string>, water: Table, nearest: string -> (string, real))
    : (out: (seq<AccessRow>, Option<Exception>))
  {
    if targets == [] then ([], None)
    else
      var (prev, e) := AccessRows(targets[..|targets| - 1], water, nearest);
      if e.Some? then (prev, e)
      else match AccessRowOf(targets[|targets| - 1], water, nearest)
        case Err(x) => (prev, Some(x))
        case Ok(a) => (prev + [a], None)
  }

  lemma AccessRowsSnoc(targets: seq<string>, i: nat, water: Table, nearest: string -> (string, real))
    requires i < |targets|
    ensures AccessRows(targets[..i + 1], water, nearest) ==
      var (prev, e) := AccessRows(targets[..i], water, nearest);
      if e.Some? then (prev, e)
      else match AccessRowOf(targets[i], water, nearest)
        case Err(x) => (prev, Some(x))
        case Ok(a) => (prev + [a], None)
  {
    assert targets[..i + 1][..i] == targets[..i];
  }

  lemma {:induction false} AccessRowsStopped(targets: seq<string>, i: nat, water: Table, nearest: string -> (string, real))
    requires i <= |targets|
    requires AccessRows(targets[..i], water, nearest).1.Some?
    ensures AccessRows(targets, water, nearest) == AccessRows(targets[..i], water, nearest)
    decreases |targets| - i
  {
    if i == |targets| {
      assert targets[..i] == targets;
    } else {
      AccessRowsSnoc(targets, i, water, nearest);
      AccessRowsStopped(targets, i + 1, water, nearest);
    }
  }

  /** The access rows follow the nodes one for one, each pointing at the
      node's nearest road node, and there is a row for every node unless
      a lookup failed. */
  lemma {:induction false} AccessRowsFollowNodes(targets: seq<string>, water: Table, nearest: string -> (string, real))
    ensures var out := AccessRows(targets, water, nearest);
      && |out.0| <= |targets|
      && (out.1.None? <==> |out.0| == |targets|)
      && forall j :: 0 <= j < |out.0| ==> out.0[j].originId == targets[j] && out.0[j].transpId == nearest(targets[j]).0
  {
    if targets != [] {
      var init := targets[..|targets| - 1];
      AccessRowsFollowNodes(init, water, nearest);
      var prev := AccessRows(init, water, nearest);
      var out := AccessRows(targets, water, nearest);
      assert forall j :: 0 <= j < |init| ==> init[j] == targets[j];
      if prev.1.None? {
        match AccessRowOf(targets[|targets| - 1], water, nearest)
        case Err(_) =>
          assert out == (prev.0, out.1);
        case Ok(a) =>
          assert out.0 == prev.0 + [a];
      }
    }
  }

  /** A coupling the update must act on: a pump fed by a motor. */
  predicate Drives(r: WpRow) {
    r.kind != GenReserv
  }

  /** The motor state of a row as `update_dependencies` reads it: `None`
      when the motor's in-service flag cannot be read, `Some(true)` when
      the motor is out of service, `Some(false)` when it is in service or
      the row couples a generator. */
  function Down(r: WpRow, inService: string -> Option<bool>): Option<bool> {
    if !Drives(r) then Some(false)
    else match inService(r.powerId)
      case None => None
      case Some(b) => Some(!b)
  }

  function DownOf(inService: string -> Option<bool>): WpRow -> Option<bool> {
    r => Down(r, inService)
  }

  /** A row whose motor's in-service flag cannot be read. */
  predicate Unreadable(r: WpRow, inService: string -> Option<bool>) {
    Down(r, inService).None?
  }

  /** A row the update leaves alone: a generator, or a motor in service. */
  predicate Unaffected(r: WpRow, inService: string -> Option<bool>) {
    Down(r, inService) == Some(false)
  }

  /** After the update, every driving row was readable, and a pump whose
      motor is out of service has its outage controls for the step. */
  predicate Handled(r: WpRow, names: seq<string>, inService: string -> Option<bool>, timeStamp: int, nextTimeStamp: int) {
    HandledBy(r, names, Down(r, inService), timeStamp, nextTimeStamp)
  }

  /** `Handled` for a row whose motor state is `down`. */
  predicate HandledBy(r: WpRow, names: seq<string>, down: Option<bool>, timeStamp: int, nextTimeStamp: int) {
    down.Some?
    && (down == Some(true) ==>
          WaterControls.OutageOffName(r.waterId, timeStamp) in names
          && WaterControls.OutageOnName(r.waterId, nextTimeStamp) in names)
  }

  /** `x` is one of the two outage control names of a row whose motor is
      out of service. */
  predicate OutageName(r: WpRow, x: string, down: Option<bool>, timeStamp: int, nextTimeStamp: int) {
    down == Some(true)
    && (x == WaterControls.OutageOffName(r.waterId, timeStamp) || x == WaterControls.OutageOnName(r.waterId, nextTimeStamp))
  }

  /** The control names after the outage step for one pump: its outage
      controls for the step are removed, then added at the end. */
  function Replaced(names: seq<string>, pump: string, timeStamp: int, nextTimeStamp: int): seq<string> {
    var off := WaterControls.OutageOffName(pump, timeStamp);
    var on := WaterControls.OutageOnName(pump, nextTimeStamp);
    WaterControls.Without(WaterControls.Without(names, off), on) + [off, on]
  }

  lemma ReplacedSpec(names: seq<string>, pump: string, timeStamp: int, nextTimeStamp: int)
    ensures forall x :: x in Replaced(names, pump, timeStamp, nextTimeStamp) <==>
      x in names || x == WaterControls.OutageOffName(pump, timeStamp) || x == WaterControls.OutageOnName(pump, nextTimeStamp)
    ensures WaterControls.Distinct(names) ==> WaterControls.Distinct(Replaced(names, pump, timeStamp, nextTimeStamp))
  {
    var off := WaterControls.OutageOffName(pump, timeStamp);
    var on := WaterControls.OutageOnName(pump, nextTimeStamp);
    var w := WaterControls.Without(WaterControls.Without(names, off), on);
    var r := w + [off, on];
    assert r == Replaced(names, pump, timeStamp, nextTimeStamp);
    OutageNamesDiffer(pump, timeStamp, nextTimeStamp);
    if WaterControls.Distinct(names) {
      WaterControls.WithoutDistinct(names, off);
      WaterControls.WithoutDistinct(WaterControls.Without(names, off), on);
      forall i, j | 0 <= i < j < |r|
        ensures r[i] != r[j]
      {
        if i < |w| {
          assert r[i] == w[i] && w[i] in w;
          if j < |w| {
            assert r[j] == w[j];
          }
        }
      }
    }
  }

  /** One row of `update_dependencies`, on names: an unreadable motor stops
      the update with a ValueError; a motor out of service has the pump's
      outage controls for the step removed and, when the outage call
      `outageDefined`, added afresh; an outage call that names no function
      stops the update with an AttributeError once the stale controls are
      gone. Any other row changes nothing. */
  function OutageStep(r: WpRow, names: seq<string>, down: Option<bool>, timeStamp: int, nextTimeStamp: int,
                      outageDefined: bool): (seq<string>, Option<Exception>)
  {
    match down
    case None => (names, Some(ValueError))
    case Some(isDown) =>
      if !isDown then (names, None)
      else if outageDefined then (Replaced(names, r.waterId, timeStamp, nextTimeStamp), None)
      else
        var off := WaterControls.OutageOffName(r.waterId, timeStamp);
        var on := WaterControls.OutageOnName(r.waterId, nextTimeStamp);
        (WaterControls.Without(WaterControls.Without(names, off), on), Some(AttributeError))
  }

  /** The control names and the exception after `update_dependencies` has
      run over `rows`, in order, stopping at the first exception. */
  function ControlsAfter(rows: seq<WpRow>, names: seq<string>, down: WpRow -> Option<bool>,
                         timeStamp: int, nextTimeStamp: int, outageDefined: bool): (seq<string>, Option<Exception>)
  {
    if rows == [] then (names, None)
    else
      var prev := ControlsAfter(rows[..|rows| - 1], names, down, timeStamp, nextTimeStamp, outageDefined);
      if prev.1.Some? then prev
      else OutageStep(rows[|rows| - 1], prev.0, down(rows[|rows| - 1]), timeStamp, nextTimeStamp, outageDefined)
  }

  lemma ControlsAfterSnoc(rows: seq<WpRow>, i: nat, names: seq<string>, down: WpRow -> Option<bool>,
                          timeStamp: int, nextTimeStamp: int, outageDefined: bool)
    requires i < |rows|
    requires ControlsAfter(rows[..i], names, down, timeStamp, nextTimeStamp, outageDefined).1.None?
    ensures ControlsAfter(rows[..i + 1], names, down, timeStamp, nextTimeStamp, outageDefined)
      == OutageStep(rows[i], ControlsAfter(rows[..i], names, down, timeStamp, nextTimeStamp, outageDefined).0,
                    down(rows[i]), timeStamp, nextTimeStamp, outageDefined)
  {
    assert rows[..i + 1][..i] == rows[..i];
  }

  lemma {:induction false} ControlsAfterStopped(rows: seq<WpRow>, i: nat, names: seq<string>, down: WpRow -> Option<bool>,
                                                timeStamp: int, nextTimeStamp: int, outageDefined: bool)
    requires i <= |rows|
    requires ControlsAfter(rows[..i], names, down, timeStamp, nextTimeStamp, outageDefined).1.Some?
    ensures ControlsAfter(rows, names, down, timeStamp, nextTimeStamp, outageDefined)
      == ControlsAfter(rows[..i], names, down, timeStamp, nextTimeStamp, outageDefined)
    decreases |rows| - i
  {
    if i < |rows| {
      assert rows[..i + 1][..i] == rows[..i];
      ControlsAfterStopped(rows, i + 1, names, down, timeStamp, nextTimeStamp, outageDefined);
    } else {
      assert rows[..i] == rows;
    }
  }

  /** With the outage call defined, the update fails exactly when some
      motor cannot be read, and then with a ValueError. */
  lemma {:induction false} ControlsAfterError(rows: seq<WpRow>, names: seq<string>, down: WpRow -> Option<bool>,
                                              timeStamp: int, nextTimeStamp: int)
    ensures var u := ControlsAfter(rows, names, down, timeStamp, nextTimeStamp, true);
      (u.1.Some? <==> exists j :: 0 <= j < |rows| && down(rows[j]).None?)
      && (u.1.Some? ==> u.1 == Some(ValueError))
  {
    if rows != [] {
      var init := rows[..|rows| - 1];
      assert forall j :: 0 <= j < |init| ==> init[j] == rows[j];
      ControlsAfterError(init, names, down, timeStamp, nextTimeStamp);
    }
  }

  /** Names present before the update are still present after it. */
  lemma {:induction false} ControlsAfterKeeps(rows: seq<WpRow>, names: seq<string>, down: WpRow -> Option<bool>,
                                              timeStamp: int, nextTimeStamp: int)
    ensures forall x :: x in names ==> x in ControlsAfter(rows, names, down, timeStamp, nextTimeStamp, true).0
  {
    if rows != [] {
      var init := rows[..|rows| - 1];
      var last := rows[|rows| - 1];
      ControlsAfterKeeps(init, names, down, timeStamp, nextTimeStamp);
      var prev := ControlsAfter(init, names, down, timeStamp, nextTimeStamp, true);
      if prev.1.None? && down(last) == Some(true) {
        ReplacedSpec(prev.0, last.waterId, timeStamp, nextTimeStamp);
      }
    }
  }

  /** On success, every row is handled. */
  lemma {:induction false} ControlsAfterHandled(rows: seq<WpRow>, names: seq<string>, down: WpRow -> Option<bool>,
                                                timeStamp: int, nextTimeStamp: int)
    ensures var u := ControlsAfter(rows, names, down, timeStamp, nextTimeStamp, true);
      u.1.None? ==> forall j :: 0 <= j < |rows| ==> HandledBy(rows[j], u.0, down(rows[j]), timeStamp, nextTimeStamp)
  {
    if rows != [] {
      var init := rows[..|rows| - 1];
      var last := rows[|rows| - 1];
      ControlsAfterHandled(init, names, down, timeStamp, nextTimeStamp);
      var prev := ControlsAfter(init, names, down, timeStamp, nextTimeStamp, true);
      var u := ControlsAfter(rows, names, down, timeStamp, nextTimeStamp, true);
      if u.1.None? {
        assert prev.1.None?;
        if down(last) == Some(true) {
          ReplacedSpec(prev.0, last.waterId, timeStamp, nextTimeStamp);
        }
        forall j | 0 <= j < |rows|
          ensures HandledBy(rows[j], u.0, down(rows[j]), timeStamp, nextTimeStamp)
        {
          if j < |init| {
            assert rows[j] == init[j];
          }
        }
      }
    }
  }

  /** The only names the update adds are the outage controls of pumps
      whose motor is out of service. */
  lemma {:induction false} ControlsAfterAdds(rows: seq<WpRow>, names: seq<string>, down: WpRow -> Option<bool>,
                                             timeStamp: int, nextTimeStamp: int)
    ensures forall x :: x in ControlsAfter(rows, names, down, timeStamp, nextTimeStamp, true).0 ==>
      x in names || exists j :: 0 <= j < |rows| && OutageName(rows[j], x, down(rows[j]), timeStamp, nextTimeStamp)
  {
    if rows != [] {
      var init := rows[..|rows| - 1];
      var last := rows[|rows| - 1];
      ControlsAfterAdds(init, names, down, timeStamp, nextTimeStamp);
      var prev := ControlsAfter(init, names, down, timeStamp, nextTimeStamp, true);
      var u := ControlsAfter(rows, names, down, timeStamp, nextTimeStamp, true);
      forall x | x in u.0
        ensures x in names || exists j :: 0 <= j < |rows| && OutageName(rows[j], x, down(rows[j]), timeStamp, nextTimeStamp)
      {
        if x in prev.0 {
          if x !in names {
            var j :| 0 <= j < |init| && OutageName(init[j], x, down(init[j]), timeStamp, nextTimeStamp);
            assert rows[j] == init[j];
          }
        } else {
          assert prev.1.None? && down(last) == Some(true);
          ReplacedSpec(prev.0, last.waterId, timeStamp, nextTimeStamp);
          assert OutageName(rows[|rows| - 1], x, down(rows[|rows| - 1]), timeStamp, nextTimeStamp);
        }
      }
    }
  }

  /** Rows that all leave the names alone change nothing. */
  lemma {:induction false} ControlsAfterKeep(rows: seq<WpRow>, names: seq<string>, down: WpRow -> Option<bool>,
                                             timeStamp: int, nextTimeStamp: int, outageDefined: bool)
    requires forall j :: 0 <= j < |rows| ==> down(rows[j]) == Some(false)
    ensures ControlsAfter(rows, names, down, timeStamp, nextTimeStamp, outageDefined) == (names, None)
  {
    if rows != [] {
      var init := rows[..|rows| - 1];
      assert forall j :: 0 <= j < |init| ==> init[j] == rows[j];
      ControlsAfterKeep(init, names, down, timeStamp, nextTimeStamp, outageDefined);
    }
  }

  /** With the outage call undefined and every motor readable, the update
      fails exactly when some motor is out of service, and then with an
      AttributeError. */
  lemma {:induction false} ControlsAfterUndefined(rows: seq<WpRow>, names: seq<string>, down: WpRow -> Option<bool>,
                                                  timeStamp: int, nextTimeStamp: int)
    requires forall j :: 0 <= j < |rows| ==> down(rows[j]).Some?
    ensures var u := ControlsAfter(rows, names, down, timeStamp, nextTimeStamp, false);
      (u.1.Some? <==> exists j :: 0 <= j < |rows| && down(rows[j]) == Some(true))
      && (u.1.Some? ==> u.1 == Some(AttributeError))
  {
    if rows != [] {
      var init := rows[..|rows| - 1];
      assert forall j :: 0 <= j < |init| ==> init[j] == rows[j];
      ControlsAfterUndefined(init, names, down, timeStamp, nextTimeStamp);
    }
  }

  /** One row of `update_dependencies`. */
  method UpdateRow(controls: WaterControls.Registry, row: WpRow, inService: string -> Option<bool>,
                   timeStamp: int, nextTimeStamp: int)
    returns (err: Option<Exception>)
    requires controls.Valid()
    modifies controls
    ensures controls.Valid()
    ensures (controls.names, err) == OutageStep(row, old(controls.names), Down(row, inService), timeStamp, nextTimeStamp, true)
  {
    err := None;
    if Drives(row) {
      var status := inService(row.powerId);
      if status.None? {
        err := Some(ValueError);
        return;
      }
      if !status.value {
        ReplacePumpOutage(controls, row.waterId, timeStamp, nextTimeStamp);
      }
    }
  }

  /** The outage step for one pump: its outage controls for this step are
      removed if present, then the outage is added; names of other
      controls are kept. */
  method ReplacePumpOutage(controls: WaterControls.Registry, pump: string, timeStamp: int, nextTimeStamp: int)
    requires controls.Valid()
    modifies controls
    ensures controls.Valid()
    ensures controls.names == Replaced(old(controls.names), pump, timeStamp, nextTimeStamp)
  {
    var off := WaterControls.OutageOffName(pump, timeStamp);
    var on := WaterControls.OutageOnName(pump, nextTimeStamp);
    controls.Discard(off);
    controls.Discard(on);
    OutageNamesDiffer(pump, timeStamp, nextTimeStamp);
    var r := controls.AddOutage(pump, timeStamp, nextTimeStamp);
    assert r.Ok?;
  }

  lemma OutageNamesDiffer(pump: string, start: int, end: int)
    ensures WaterControls.OutageOffName(pump, start) != WaterControls.OutageOnName(pump, end)
  {
    var offTail := "_power_off_" + IntToString(start);
    var onTail := "_power_on_" + IntToString(end);
    AppendAssoc(pump, "_power_off_", IntToString(start));
    AppendAssoc(pump, "_power_on_", IntToString(end));
    assert (pump + offTail)[|pump| + 8] == offTail[8] == 'f';
    assert (pump + onTail)[|pump| + 8] == onTail[8] == 'n';
  }

  // -----------------------------------------------------------------------
  // Repair-time lookups (hours)

  function PowerRepairTime(component: string, water: Table): (r: Result<nat>)
    ensures r.Ok? ==> exists d :: GetComponDetails(component, water) == Ok(Found(d))
                                 && d.typeCode in SimPowerTable()
                                 && r.value == SimPowerTable()[d.typeCode].repairTime
  {
    match GetComponDetails(component, water)
    case Err(e) => Err(e)
    case Ok(Unknown(_)) => Err(TypeError)
    case Ok(Found(d)) =>
      if d.typeCode in SimPowerTable() then Ok(SimPowerTable()[d.typeCode].repairTime) else Err(KeyError)
  }

  function TranspoRepairTime(component: string, water: Table): (r: Result<nat>)
    ensures r.Ok? ==> exists d :: GetComponDetails(component, water) == Ok(Found(d))
                                 && d.typeCode in TranspoTable()
                                 && r.value == TranspoTable()[d.typeCode].repairTime
  {
    match GetComponDetails(component, water)
    case Err(e) => Err(e)
    case Ok(Unknown(_)) => Err(TypeError)
    case Ok(Found(d)) =>
      if d.typeCode in TranspoTable() then Ok(TranspoTable()[d.typeCode].repairTime) else Err(KeyError)
  }

  predicate WaterRepairRule(d: Details, component: string, water: Table, diameter: string -> real, hours: real) {
    if d.typeCode in DiameterRatedPipes then hours == diameter(component) * 10.0 + 2.0
    else d.typeCode in water && hours == water[d.typeCode].repairTime as real
  }

  const DiameterRatedPipes: set<string> := {"P", "PMA", "PSC", "PV", "PHC"}

  /** `get_water_repair_time`: pipes take `diameter * 10 + 2` hours (the
      diameter is read from the hydraulic model), every other water type
      its table value. */
  function WaterRepairTime(component: string, water: Table, diameter: string -> real): (r: Result<real>)
    ensures r.Ok? ==>
      exists d :: GetComponDetails(component, water) == Ok(Found(d)) && WaterRepairRule(d, component, water, diameter, r.value)
    ensures r.Ok? && diameter(component) >= 0.0 ==> r.value >= 0.0
  {
    match GetComponDetails(component, water)
    case Err(e) => Err(e)
    case Ok(Unknown(_)) => Err(TypeError)
    case Ok(Found(d)) =>
      if d.typeCode in DiameterRatedPipes then Ok(diameter(component) * 10.0 + 2.0)
      else if d.typeCode in water then Ok(water[d.typeCode].repairTime as real)
      else Err(KeyError)
  }
}
