/** Component naming and the dependency table of the older `src` package
    (dreaminsg_integrated_model/src/network_sim_models/interdependencies.py).
    Names follow the `<infra>_<id>` convention of the newer variant, but
    only the power (`P`) and water (`W`) prefixes are known, and the type
    code is read from the first two characters of `<id>` only. The power
    component table of this package is not part of this model, so it is a
    parameter; the water table is `ComponentTables.OldSrcWaterTable`. */
module OldInterdependencies {
  import opened Wrappers
  import opened Text
  import opened ComponentTables
  import opened SimInterdependencies
  import DirectEffects

  /** The first two characters of an id, or all of it when it is shorter. */
  function Head2(id: string): (h: string)
    ensures |h| <= 2 && h <= id
    ensures |id| >= 2 ==> |h| == 2
  {
    if |id| <= 2 then id else id[..2]
  }

  /** The type code as this package reads it: the letters among the first
      two characters of the id, in order. */
  function TwoCharCode(id: string): (t: string)
    ensures |t| <= 2
    ensures forall i :: 0 <= i < |t| ==> IsAlpha(t[i])
  {
    Letters(Head2(id))
  }

  /** The table a known prefix is looked up in. */
  function OldTableOf(infra: Infra, power: Table): Table {
    match infra
    case Power => power
    case Water => OldSrcWaterTable()
    case Transpo => map[]
  }

  /** The prefixes this package knows. */
  function OldInfraOfPrefix(p: string): (r: Option<Infra>)
    ensures r.Some? ==> PrefixOf(r.value) == p && r.value != Transpo
  {
    if p == "P" then Some(Power) else if p == "W" then Some(Water) else None
  }

  /** The lookup of type code `t` in the table of `infra`; every miss is
      reported. */
  function FoundIn(infra: Infra, t: string, table: Table): Lookup {
    if t in table then Found(Details(infra, t, table[t].code, table[t].name)) else Unknown(true)
  }

  /** `get_compon_details` as written: a ValueError unless the name splits
      on `_` into exactly two parts; otherwise the type code is the letters
      of the first two characters of the id. */
  function ComponDetails(name: string, power: Table): Result<Lookup> {
    match SplitTwo(name, '_')
    case Err(e) => Err(e)
    case Ok((pre, id)) =>
      match OldInfraOfPrefix(pre)
      case None => Ok(Unknown(true))
      case Some(infra) => Ok(FoundIn(infra, TwoCharCode(id), OldTableOf(infra, power)))
  }

  /** The lookup with the type code read from the whole id, as the newer
      variant reads it. */
  function CorrectedComponDetails(name: string, power: Table): Result<Lookup> {
    match SplitTwo(name, '_')
    case Err(e) => Err(e)
    case Ok((pre, id)) =>
      match OldInfraOfPrefix(pre)
      case None => Ok(Unknown(true))
      case Some(infra) => Ok(FoundIn(infra, Letters(id), OldTableOf(infra, power)))
  }

  /** What the lookup as written reports: an error for a name without
      exactly one `_`; a found type is a power or water type taken from
      the letters of the first two characters of the id; every miss, an
      unknown prefix included, is reported. */
  lemma ComponDetailsSpec(name: string, power: Table)
    ensures ComponDetails(name, power).Err? <==> Count(name, '_') != 1
    ensures ComponDetails(name, power).Err? ==> ComponDetails(name, power).error == ValueError
    ensures ComponDetails(name, power).Ok? && ComponDetails(name, power).value.Found? ==>
      var (pre, id) := SplitTwo(name, '_').value;
      var d := ComponDetails(name, power).value.details;
      d.infra != Transpo && PrefixOf(d.infra) == pre && d.typeCode == TwoCharCode(id)
      && d.typeCode in OldTableOf(d.infra, power)
      && d.code == OldTableOf(d.infra, power)[d.typeCode].code
      && d.name == OldTableOf(d.infra, power)[d.typeCode].name
    ensures ComponDetails(name, power).Ok? && ComponDetails(name, power).value.Unknown? ==>
      ComponDetails(name, power).value.reported
      && var (pre, id) := SplitTwo(name, '_').value;
      (pre == "P" ==> TwoCharCode(id) !in power) && (pre == "W" ==> TwoCharCode(id) !in OldSrcWaterTable())
  {
  }

  /** A name built from a known prefix, a type code of at most two letters
      and a number is looked up as that type, by both readings. */
  lemma ShortCodeRoundTrip(infra: Infra, t: string, n: nat, power: Table)
    requires infra != Transpo && t in OldTableOf(infra, power) && |t| <= 2
    requires forall i :: 0 <= i < |t| ==> IsAlpha(t[i])
    ensures var name := PrefixOf(infra) + "_" + t + NatToString(n);
      var table := OldTableOf(infra, power);
      ComponDetails(name, power) == Ok(Found(Details(infra, t, table[t].code, table[t].name)))
      && CorrectedComponDetails(name, power) == ComponDetails(name, power)
  {
    var id := t + NatToString(n);
    TypedNameSplits(infra, t, n);
    LettersOfTypedNumber(t, n);
    TwoCharOfTypedNumber(t, n);
    assert OldInfraOfPrefix(PrefixOf(infra)) == Some(infra);
  }

  lemma TypedNameSplits(infra: Infra, t: string, n: nat)
    requires forall i :: 0 <= i < |t| ==> IsAlpha(t[i])
    ensures SplitTwo(PrefixOf(infra) + "_" + t + NatToString(n), '_') == Ok((PrefixOf(infra), t + NatToString(n)))
  {
    var id := t + NatToString(n);
    assert PrefixOf(infra) + "_" + t + NatToString(n) == PrefixOf(infra) + ['_'] + id;
    assert '_' !in id by {
      assert forall i :: 0 <= i < |id| ==> IsAlpha(id[i]) || IsDigit(id[i]);
    }
    SplitTwoOf(PrefixOf(infra), id, '_');
  }

  lemma TwoCharOfTypedNumber(t: string, n: nat)
    requires |t| <= 2
    requires forall i :: 0 <= i < |t| ==> IsAlpha(t[i])
    ensures TwoCharCode(t + NatToString(n)) == t
  {
    var digits := NatToString(n);
    var id := t + digits;
    var k := if |id| <= 2 then |digits| else 2 - |t|;
    assert Head2(id) == t + digits[..k];
    LettersAppend(t, digits[..k]);
    LettersAllAlpha(t);
    LettersNoAlpha(digits[..k]);
  }

  /** A type code of more than two letters is never found by the lookup
      as written: every three-letter water type (`W_PSC1`, a service
      connection pipe, say) is reported as unknown, while the whole-id
      reading finds it. */
  lemma LongCodeMisread(t: string, n: nat, power: Table)
    requires t in OldSrcWaterTable() && |t| > 2
    ensures ComponDetails("W_" + t + NatToString(n), power) == Ok(Unknown(true))
    ensures CorrectedComponDetails("W_" + t + NatToString(n), power)
         == Ok(Found(Details(Water, t, OldSrcWaterTable()[t].code, OldSrcWaterTable()[t].name)))
  {
    LongWaterCodes(t);
    var digits := NatToString(n);
    assert "W_" + t + digits == PrefixOf(Water) + "_" + t + digits;
    TypedNameSplits(Water, t, n);
    LettersOfTypedNumber(t, n);
    assert Head2(t + digits) == t[..2];
    LettersAllAlpha(t[..2]);
    assert OldInfraOfPrefix("W") == Some(Water);
  }

  /** The water types with three-letter codes; the first two letters of
      none of them is a type code. */
  lemma LongWaterCodes(t: string)
    requires t in OldSrcWaterTable() && |t| > 2
    ensures forall i :: 0 <= i < |t| ==> IsAlpha(t[i])
    ensures t[..2] !in OldSrcWaterTable()
  {
    OldSrcWaterTableKeys();
    assert t == "PSC" || t == "PMA" || t == "PHC" || t == "JIN" || t == "JVN" || t == "JTN" || t == "JHY";
    if t == "PSC" {
      assert t[..2] == "PS";
    } else if t == "PMA" {
      assert t[..2] == "PM";
    } else if t == "PHC" {
      assert t[..2] == "PH";
    } else if t == "JIN" {
      assert t[..2] == "JI";
    } else if t == "JVN" {
      assert t[..2] == "JV";
    } else if t == "JTN" {
      assert t[..2] == "JT";
    } else {
      assert t[..2] == "JH";
    }
  }

  /** Neither reading ever places a component in the transport network. */
  lemma NeverTranspo(name: string, power: Table)
    ensures ComponDetails(name, power).Ok? && ComponDetails(name, power).value.Found? ==>
      ComponDetails(name, power).value.details.infra != Transpo
    ensures CorrectedComponDetails(name, power).Ok? && CorrectedComponDetails(name, power).value.Found? ==>
      CorrectedComponDetails(name, power).value.details.infra != Transpo
  {
  }

  /** The infrastructure of a component, or what unpacking the lookup
      raises: `None` cannot be unpacked. */
  function Classified(c: string, lookup: string -> Result<Lookup>): Result<Infra> {
    match lookup(c)
    case Err(e) => Err(e)
    case Ok(Unknown(_)) => Err(TypeError)
    case Ok(Found(d)) => Ok(d.infra)
  }

  /** The classifier of the older package's partition, on the corrected
      lookup (`CorrectedComponDetails`) rather than the two-character
      reading the source makes. */
  function OldClassifier(power: Table): string -> Result<Infra> {
    c => Classified(c, n => CorrectedComponDetails(n, power))
  }

  // -----------------------------------------------------------------------
  // Dependency table

  /** The couplings this package accepts: a pump on a motor, and a
      generator on a reservoir. */
  function OldClassify(waterName: string, powerName: string): (r: Option<Coupling>)
    ensures r.Some? ==> WaterType(r.value) == waterName && PowerType(r.value) == powerName && r.value != PumpLoadMotor
    ensures r.None? ==> !(waterName == "Pump" && powerName == "Motor") && !(waterName == "Reservoir" && powerName == "Generator")
  {
    if waterName == "Pump" && powerName == "Motor" then Some(PumpMotor)
    else if waterName == "Reservoir" && powerName == "Generator" then Some(GenReserv)
    else None
  }

  /** One row of the dependency file. The water component's details are
      unpacked before the power component is looked up, so a bad water
      name is reported first. */
  function PairCoupling(waterId: string, powerId: string, lookup: string -> Result<Lookup>): (r: Result<Option<WpRow>>)
    ensures r.Ok? && r.value.Some? ==>
      r.value.value.waterId == waterId && r.value.value.powerId == powerId && r.value.value.kind != PumpLoadMotor
  {
    match lookup(waterId)
    case Err(e) => Err(e)
    case Ok(Unknown(_)) => Err(TypeError)
    case Ok(Found(wd)) =>
      match lookup(powerId)
      case Err(e) => Err(e)
      case Ok(Unknown(_)) => Err(TypeError)
      case Ok(Found(pd)) =>
        match OldClassify(wd.name, pd.name)
        case Some(k) => Ok(Some(WpRow(waterId, powerId, k)))
        case None => Ok(None)
  }

  /** The rows a dependency file adds, and the exception (if any) that
      stopped the reading; rows read before it stay. */
  function FileCouplings(rows: seq<(string, string)>, lookup: string -> Result<Lookup>): (out: (seq<WpRow>, Option<Exception>))
  {
    if rows == [] then ([], None)
    else
      var (prev, e) := FileCouplings(rows[..|rows| - 1], lookup);
      if e.Some? then (prev, e)
      else match PairCoupling(rows[|rows| - 1].0, rows[|rows| - 1].1, lookup)
        case Err(x) => (prev, Some(x))
        case Ok(None) => (prev, None)
        case Ok(Some(row)) => (prev + [row], None)
  }

  lemma FileCouplingsSnoc(rows: seq<(string, string)>, i: nat, lookup: string -> Result<Lookup>)
    requires i < |rows|
    ensures FileCouplings(rows[..i + 1], lookup) ==
      var (prev, e) := FileCouplings(rows[..i], lookup);
      if e.Some? then (prev, e)
      else match PairCoupling(rows[i].0, rows[i].1, lookup)
        case Err(x) => (prev, Some(x))
        case Ok(None) => (prev, None)
        case Ok(Some(row)) => (prev + [row], None)
  {
    assert rows[..i + 1][..i] == rows[..i];
  }

  lemma {:induction false} FileCouplingsStopped(rows: seq<(string, string)>, i: nat, lookup: string -> Result<Lookup>)
    requires i <= |rows|
    requires FileCouplings(rows[..i], lookup).1.Some?
    ensures FileCouplings(rows, lookup) == FileCouplings(rows[..i], lookup)
    decreases |rows| - i
  {
    if i == |rows| {
      assert rows[..i] == rows;
    } else {
      FileCouplingsSnoc(rows, i, lookup);
      FileCouplingsStopped(rows, i + 1, lookup);
    }
  }

  /** Every row the table gains is a pump on a motor or a generator on a
      reservoir, read from a pair of the file. */
  lemma {:induction false} FileCouplingsAccepted(rows: seq<(string, string)>, lookup: string -> Result<Lookup>)
    ensures forall r :: r in FileCouplings(rows, lookup).0 ==> (r.waterId, r.powerId) in rows && r.kind != PumpLoadMotor
  {
    if rows != [] {
      var init := rows[..|rows| - 1];
      FileCouplingsAccepted(init, lookup);
      assert forall x :: x in init ==> x in rows;
    }
  }

  /** One access row: the node's infrastructure and type name, and its
      nearest road node and distance. */
  function NodeAccess(node: string, lookup: string -> Result<Lookup>, nearest: string -> (string, real))
    : (r: Result<AccessRow>)
    ensures r.Ok? ==> r.value.originId == node && r.value.transpId == nearest(node).0 && r.value.accessDist == nearest(node).1
  {
    match lookup(node)
    case Err(e) => Err(e)
    case Ok(Unknown(_)) => Err(TypeError)
    case Ok(Found(d)) => Ok(AccessRow(node, nearest(node).0, d.infra, d.name, nearest(node).1))
  }

  function NodeAccessRows(targets: seq<string>, lookup: string -> Result<Lookup>, nearest: string -> (string, real))
    : (out: (seq<AccessRow>, Option<Exception>))
  {
    if targets == [] then ([], None)
    else
      var (prev, e) := NodeAccessRows(targets[..|targets| - 1], lookup, nearest);
      if e.Some? then (prev, e)
      else match NodeAccess(targets[|targets| - 1], lookup, nearest)
        case Err(x) => (prev, Some(x))
        case Ok(a) => (prev + [a], None)
  }

  lemma NodeAccessRowsSnoc(targets: seq<string>, i: nat, lookup: string -> Result<Lookup>, nearest: string -> (string, real))
    requires i < |targets|
    ensures NodeAccessRows(targets[..i + 1], lookup, nearest) ==
      var (prev, e) := NodeAccessRows(targets[..i], lookup, nearest);
      if e.Some? then (prev, e)
      else match NodeAccess(targets[i], lookup, nearest)
        case Err(x) => (prev, Some(x))
        case Ok(a) => (prev + [a], None)
  {
    assert targets[..i + 1][..i] == targets[..i];
  }

  lemma {:induction false} NodeAccessRowsStopped(targets: seq<string>, i: nat, lookup: string -> Result<Lookup>,
                                              nearest: string -> (string, real))
    requires i <= |targets|
    requires NodeAccessRows(targets[..i], lookup, nearest).1.Some?
    ensures NodeAccessRows(targets, lookup, nearest) == NodeAccessRows(targets[..i], lookup, nearest)
    decreases |targets| - i
  {
    if i == |targets| {
      assert targets[..i] == targets;
    } else {
      NodeAccessRowsSnoc(targets, i, lookup, nearest);
      NodeAccessRowsStopped(targets, i + 1, lookup, nearest);
    }
  }

  /** One access row per node, in node order, each pointing at the node's
      nearest road node; a row is missing only when a lookup failed. */
  lemma {:induction false} NodeAccessRowsFollowNodes(targets: seq<string>, lookup: string -> Result<Lookup>,
                                                  nearest: string -> (string, real))
    ensures var out := NodeAccessRows(targets, lookup, nearest);
      && |out.0| <= |targets|
      && (out.1.None? <==> |out.0| == |targets|)
      && forall j :: 0 <= j < |out.0| ==> out.0[j].originId == targets[j] && out.0[j].transpId == nearest(targets[j]).0
  {
    if targets != [] {
      var init := targets[..|targets| - 1];
      NodeAccessRowsFollowNodes(init, lookup, nearest);
      var prev := NodeAccessRows(init, lookup, nearest);
      var out := NodeAccessRows(targets, lookup, nearest);
      assert forall j :: 0 <= j < |init| ==> init[j] == targets[j];
      if prev.1.None? {
        match NodeAccess(targets[|targets| - 1], lookup, nearest)
        case Err(_) =>
          assert out == (prev.0, out.1);
        case Ok(a) =>
          assert out.0 == prev.0 + [a];
      }
    }
  }

  /** What one dependency row does to the water model at a step: a pump on
      a motor that is out of service gets an outage over `[t, next)`, a
      pump on a working motor is opened; `inService` is `None` when the
      motor's name does not select exactly one row, which raises. */
  function RowActions(r: WpRow, inService: string -> Option<bool>, t: int, next: int)
    : Result<seq<DirectEffects.Action>>
  {
    if r.kind != PumpMotor then Ok([])
    else match inService(r.powerId)
      case None => Err(ValueError)
      case Some(false) => Ok([DirectEffects.PumpOutage(r.waterId, t, next)])
      case Some(true) => Ok([DirectEffects.LinkStatus(r.waterId, true)])
  }

  /** `update_dependencies` read as a whole: the commands of every row in
      table order; the first unreadable motor stops it. */
  function DependencyActions(rows: seq<WpRow>, inService: string -> Option<bool>, t: int, next: int)
    : Result<seq<DirectEffects.Action>>
  {
    if rows == [] then Ok([])
    else
      match DependencyActions(rows[..|rows| - 1], inService, t, next)
      case Err(e) => Err(e)
      case Ok(acts) =>
        match RowActions(rows[|rows| - 1], inService, t, next)
        case Err(e) => Err(e)
        case Ok(more) => Ok(acts + more)
  }

  /** A pump–motor row whose motor cannot be read. */
  predicate MotorUnreadable(r: WpRow, inService: string -> Option<bool>) {
    r.kind == PumpMotor && inService(r.powerId).None?
  }

  /** The command a readable pump–motor row gives its pump. */
  function PumpCommand(r: WpRow, inService: string -> Option<bool>, t: int, next: int): DirectEffects.Action
    requires r.kind == PumpMotor && inService(r.powerId).Some?
  {
    if inService(r.powerId).value then DirectEffects.LinkStatus(r.waterId, true)
    else DirectEffects.PumpOutage(r.waterId, t, next)
  }

  /** The update fails exactly when some pump–motor row is unreadable;
      otherwise every pump on a motor gets its command, and every command
      comes from such a row. */
  lemma {:induction false} DependencyActionsSpec(rows: seq<WpRow>, inService: string -> Option<bool>, t: int, next: int)
    ensures DependencyActions(rows, inService, t, next).Err? <==> exists j :: 0 <= j < |rows| && MotorUnreadable(rows[j], inService)
    ensures DependencyActions(rows, inService, t, next).Err? ==> DependencyActions(rows, inService, t, next).error == ValueError
    ensures DependencyActions(rows, inService, t, next).Ok? ==>
      (forall j :: 0 <= j < |rows| && rows[j].kind == PumpMotor ==>
         PumpCommand(rows[j], inService, t, next) in DependencyActions(rows, inService, t, next).value)
      && (forall a :: a in DependencyActions(rows, inService, t, next).value ==>
            exists j :: 0 <= j < |rows| && rows[j].kind == PumpMotor && a == PumpCommand(rows[j], inService, t, next))
  {
    if rows != [] {
      var init := rows[..|rows| - 1];
      var last := rows[|rows| - 1];
      DependencyActionsSpec(init, inService, t, next);
      assert forall j :: 0 <= j < |init| ==> init[j] == rows[j];
    }
  }

  lemma DependencyActionsSnoc(rows: seq<WpRow>, i: nat, inService: string -> Option<bool>, t: int, next: int)
    requires i < |rows|
    ensures DependencyActions(rows[..i + 1], inService, t, next) ==
      match DependencyActions(rows[..i], inService, t, next)
      case Err(e) => Err(e)
      case Ok(acts) =>
        match RowActions(rows[i], inService, t, next)
        case Err(e) => Err(e)
        case Ok(more) => Ok(acts + more)
  {
    assert rows[..i + 1][..i] == rows[..i];
  }

  lemma {:induction false} DependencyActionsStopped(rows: seq<WpRow>, i: nat, inService: string -> Option<bool>,
                                                    t: int, next: int)
    requires i <= |rows|
    requires DependencyActions(rows[..i], inService, t, next).Err?
    ensures DependencyActions(rows, inService, t, next) == DependencyActions(rows[..i], inService, t, next)
    decreases |rows| - i
  {
    if i == |rows| {
      assert rows[..i] == rows;
    } else {
      DependencyActionsSnoc(rows, i, inService, t, next);
      DependencyActionsStopped(rows, i + 1, inService, t, next);
    }
  }

  class OldDependencyTable {
    var wpTable: seq<WpRow>
    var accessTable: seq<AccessRow>

    constructor ()
      ensures wpTable == [] && accessTable == []
    {
      wpTable := [];
      accessTable := [];
    }

    /** `build_power_water_dependencies`: `None` is a missing file, which
        is reported and adds nothing; any other exception ends the
        reading, keeping the rows read before it. */
    method BuildPowerWaterDependencies(file: Option<seq<(string, string)>>, lookup: string -> Result<Lookup>)
      returns (err: Option<Exception>)
      modifies this`wpTable
      ensures file.None? ==> wpTable == old(wpTable) && err.None?
      ensures file.Some? ==> wpTable == old(wpTable) + FileCouplings(file.value, lookup).0
                             && err == FileCouplings(file.value, lookup).1
    {
      err := None;
      if file.None? {
        return;
      }
      var rows := file.value;
      var i := 0;
      while i < |rows| && err.None?
        invariant 0 <= i <= |rows|
        invariant wpTable == old(wpTable) + FileCouplings(rows[..i], lookup).0
        invariant err == FileCouplings(rows[..i], lookup).1
        decreases |rows| - i
      {
        FileCouplingsSnoc(rows, i, lookup);
        var c := PairCoupling(rows[i].0, rows[i].1, lookup);
        match c {
          case Err(x) => err := Some(x);
          case Ok(None) =>
          case Ok(Some(row)) =>
            AppendAssoc(old(wpTable), FileCouplings(rows[..i], lookup).0, [row]);
            wpTable := wpTable + [row];
        }
        i := i + 1;
      }
      if i < |rows| {
        FileCouplingsStopped(rows, i, lookup);
      } else {
        assert rows[..i] == rows;
      }
    }

    /** `add_transpo_access`: one row per power or water node of the graph,
        in graph order, until a name fails to look up. */
    method AddTranspoAccess(nodes: seq<(string, NodeKind)>, lookup: string -> Result<Lookup>,
                            nearest: string -> (string, real))
      returns (err: Option<Exception>)
      modifies this`accessTable
      ensures accessTable == old(accessTable) + NodeAccessRows(NodesOfInterest(nodes), lookup, nearest).0
      ensures err == NodeAccessRows(NodesOfInterest(nodes), lookup, nearest).1
    {
      var targets := NodesOfInterest(nodes);
      err := None;
      var i := 0;
      while i < |targets| && err.None?
        invariant 0 <= i <= |targets|
        invariant accessTable == old(accessTable) + NodeAccessRows(targets[..i], lookup, nearest).0
        invariant err == NodeAccessRows(targets[..i], lookup, nearest).1
        decreases |targets| - i
      {
        NodeAccessRowsSnoc(targets, i, lookup, nearest);
        var row := NodeAccess(targets[i], lookup, nearest);
        match row {
          case Err(x) => err := Some(x);
          case Ok(a) =>
            AppendAssoc(old(accessTable), NodeAccessRows(targets[..i], lookup, nearest).0, [a]);
            accessTable := accessTable + [a];
        }
        i := i + 1;
      }
      if i < |targets| {
        NodeAccessRowsStopped(targets, i, lookup, nearest);
      } else {
        assert targets[..i] == targets;
      }
    }

    /** `update_dependencies` over `[t, next)`: the commands the rows give
        the water model, in table order. */
    method UpdateDependencies(inService: string -> Option<bool>, t: int, next: int)
      returns (r: Result<seq<DirectEffects.Action>>)
      ensures r == DependencyActions(wpTable, inService, t, next)
    {
      var acts: seq<DirectEffects.Action> := [];
      var i := 0;
      while i < |wpTable|
        invariant 0 <= i <= |wpTable|
        invariant DependencyActions(wpTable[..i], inService, t, next) == Ok(acts)
      {
        DependencyActionsSnoc(wpTable, i, inService, t, next);
        var more := RowActions(wpTable[i], inService, t, next);
        if more.Err? {
          DependencyActionsStopped(wpTable, i + 1, inService, t, next);
          return Err(more.error);
        }
        acts := acts + more.value;
        i := i + 1;
      }
      assert wpTable[..i] == wpTable;
      r := Ok(acts);
    }
  }
}
