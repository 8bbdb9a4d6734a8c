/** Component naming and the dependency table of the physical-model
    variant (infrarisk/src/physical/interdependencies.py). Names follow the
    same `<infra>_<id>` convention as the simulation-model variant, but the
    lookup returns a dictionary that also carries the infrastructure prefix
    and the component number, the first run of digits in the name. The
    power and water tables are those of the physical model; the transport
    table of this variant is not part of this model, so it is a parameter. */
module PhysicalInterdependencies {
  import opened Wrappers
  import opened Text
  import opened ComponentTables
  import SI = SimInterdependencies
  import WaterControls

  /** The dictionary `get_compon_details` returns: keys `infra`,
      `infra_code`, `type_code`, `type` (here `code`), `name` and `id`. */
  datatype Details = Details(infra: SI.Infra, infraCode: string, typeCode: string, code: string, name: string, id: string)

  /** The dictionary, or `None`; `reported` says whether a message was
      printed on the way to `None`. */
  datatype Lookup = Found(details: Details) | Unknown(reported: bool)

  /** The value stored under `infra`. */
  function InfraName(i: SI.Infra): string {
    match i
    case Power => "power"
    case Water => "water"
    case Transpo => "transpo"
  }

  function TableOf(infra: SI.Infra, transpo: Table): Table {
    match infra
    case Power => PhysicalPowerTable()
    case Water => PhysicalWaterTable()
    case Transpo => transpo
  }

  /** The lookup over any three tables, one per infrastructure. */
  function LookupIn(name: string, tables: SI.Infra -> Table): Result<Lookup>
  {
    match SplitTwo(name, '_')
    case Err(e) => Err(e)
    case Ok((pre, rest)) =>
      match FirstDigitRun(name)
      case Err(e) => Err(e)
      case Ok(num) =>
        var t := Letters(rest);
        match SI.InfraOfPrefix(pre)
        case None => Ok(Unknown(true))
        case Some(infra) =>
          var table := tables(infra);
          if t in table then Ok(Found(Details(infra, pre, t, table[t].code, table[t].name, num)))
          else Ok(Unknown(infra != SI.Transpo))
  }

  /** The tables of this variant. */
  function Tables(transpo: Table): SI.Infra -> Table {
    i => TableOf(i, transpo)
  }

  /** `get_compon_details`: the split into exactly two parts comes first
      (a ValueError otherwise), then the first digit run of the whole name
      (an IndexError when there is none), then the prefix and the type. */
  function GetComponDetails(name: string, transpo: Table): Result<Lookup>
  {
    LookupIn(name, Tables(transpo))
  }

  /** `get_compon_details` as a function of the name alone. */
  function Lookups(transpo: Table): string -> Result<Lookup> {
    n => GetComponDetails(n, transpo)
  }

  /** What the lookup reports, whatever the tables: a ValueError for a
      name without exactly one `_`, an IndexError for a name without a
      digit, and otherwise either the dictionary of its type, whose `id` is
      the first digit run of the name, or `None`, reported unless it is a
      road type. */
  lemma LookupInErrors(name: string, tables: SI.Infra -> Table)
    ensures LookupIn(name, tables).Err? <==>
      Count(name, '_') != 1 || forall i :: 0 <= i < |name| ==> !IsDigit(name[i])
    ensures Count(name, '_') != 1 ==> LookupIn(name, tables) == Err(ValueError)
  {
    var sp, run := SplitTwo(name, '_'), FirstDigitRun(name);
    if sp.Ok? && run.Ok? {
      assert LookupIn(name, tables).Ok?;
    }
  }

  lemma LookupInNoDigit(name: string, tables: SI.Infra -> Table)
    requires Count(name, '_') == 1
    requires forall i :: 0 <= i < |name| ==> !IsDigit(name[i])
    ensures LookupIn(name, tables) == Err(IndexError)
  {
  }

  lemma LookupInFound(name: string, tables: SI.Infra -> Table)
    ensures LookupIn(name, tables).Ok? && LookupIn(name, tables).value.Found? ==>
      var (pre, rest) := SplitTwo(name, '_').value;
      var d := LookupIn(name, tables).value.details;
      SI.PrefixOf(d.infra) == pre && d.infraCode == pre && d.typeCode == Letters(rest)
      && d.typeCode in tables(d.infra)
      && d.code == tables(d.infra)[d.typeCode].code
      && d.name == tables(d.infra)[d.typeCode].name
      && d.id == FirstDigitRun(name).value
  {
    match SplitTwo(name, '_') {
      case Err(_) =>
      case Ok((pre, rest)) =>
        match FirstDigitRun(name) {
          case Err(_) =>
          case Ok(num) =>
            match SI.InfraOfPrefix(pre) {
              case None =>
              case Some(infra) =>
            }
        }
    }
  }

  lemma LookupInUnknown(name: string, tables: SI.Infra -> Table)
    ensures LookupIn(name, tables).Ok? && LookupIn(name, tables).value.Unknown? ==>
      var (pre, rest) := SplitTwo(name, '_').value;
      match SI.InfraOfPrefix(pre)
      case None => LookupIn(name, tables).value.reported
      case Some(i) => Letters(rest) !in tables(i) && (LookupIn(name, tables).value.reported <==> i != SI.Transpo)
  {
  }

  /** The same for this variant's tables. */
  lemma GetComponDetailsSpec(name: string, transpo: Table)
    ensures GetComponDetails(name, transpo).Err? <==>
      Count(name, '_') != 1 || forall i :: 0 <= i < |name| ==> !IsDigit(name[i])
    ensures GetComponDetails(name, transpo).Ok? && GetComponDetails(name, transpo).value.Found? ==>
      var d := GetComponDetails(name, transpo).value.details;
      d.typeCode in TableOf(d.infra, transpo)
      && d.code == TableOf(d.infra, transpo)[d.typeCode].code
      && d.name == TableOf(d.infra, transpo)[d.typeCode].name
  {
    LookupInErrors(name, Tables(transpo));
    LookupInFound(name, Tables(transpo));
  }

  /** The naming convention read backwards: a name built from an
      infrastructure prefix, a known type code and a number is looked up
      as that type, and its `id` is the number. */
  lemma NamingRoundTripIn(infra: SI.Infra, t: string, n: nat, tables: SI.Infra -> Table)
    requires t in tables(infra)
    requires forall i :: 0 <= i < |t| ==> IsAlpha(t[i])
    ensures LookupIn(SI.PrefixOf(infra) + "_" + t + NatToString(n), tables)
         == Ok(Found(Details(infra, SI.PrefixOf(infra), t, tables(infra)[t].code,
                             tables(infra)[t].name, NatToString(n))))
  {
    NameParts(infra, t, n);
    assert SI.InfraOfPrefix(SI.PrefixOf(infra)) == Some(infra);
  }

  /** How a conventional name splits: its prefix, its type code as the
      letters after `_`, and its number as the first digit run. */
  lemma NameParts(infra: SI.Infra, t: string, n: nat)
    requires forall i :: 0 <= i < |t| ==> IsAlpha(t[i])
    ensures var name := SI.PrefixOf(infra) + "_" + t + NatToString(n);
      SplitTwo(name, '_') == Ok((SI.PrefixOf(infra), t + NatToString(n)))
      && Letters(t + NatToString(n)) == t
      && FirstDigitRun(name) == Ok(NatToString(n))
  {
    NameSplits(infra, t, n);
    SI.LettersOfTypedNumber(t, n);
    NameDigits(infra, t, n);
  }

  lemma NameSplits(infra: SI.Infra, t: string, n: nat)
    requires forall i :: 0 <= i < |t| ==> IsAlpha(t[i])
    ensures SplitTwo(SI.PrefixOf(infra) + "_" + t + NatToString(n), '_') == Ok((SI.PrefixOf(infra), t + NatToString(n)))
  {
    var rest := t + NatToString(n);
    var name := SI.PrefixOf(infra) + "_" + t + NatToString(n);
    assert name == SI.PrefixOf(infra) + ['_'] + rest;
    assert '_' !in rest by {
      assert forall i :: 0 <= i < |rest| ==> IsAlpha(rest[i]) || IsDigit(rest[i]);
    }
    SI.SplitTwoOf(SI.PrefixOf(infra), rest, '_');
  }

  lemma NameDigits(infra: SI.Infra, t: string, n: nat)
    requires forall i :: 0 <= i < |t| ==> IsAlpha(t[i])
    ensures FirstDigitRun(SI.PrefixOf(infra) + "_" + t + NatToString(n)) == Ok(NatToString(n))
  {
    var p := SI.PrefixOf(infra);
    var head := p + "_" + t;
    assert |p| == 1 && IsAlpha(p[0]);
    forall i | 0 <= i < |head|
      ensures !IsDigit(head[i])
    {
      if i == 0 {
        assert head[i] == p[0];
      } else if i == 1 {
        assert head[i] == '_';
      } else {
        assert head[i] == t[i - 2];
      }
    }
    assert p + "_" + t + NatToString(n) == head + NatToString(n);
    FirstDigitRunAfter(head, NatToString(n));
  }

  /** The same for this variant's tables. */
  lemma NamingRoundTrip(infra: SI.Infra, t: string, n: nat, transpo: Table)
    requires t in TableOf(infra, transpo)
    requires forall i :: 0 <= i < |t| ==> IsAlpha(t[i])
    ensures GetComponDetails(SI.PrefixOf(infra) + "_" + t + NatToString(n), transpo)
         == Ok(Found(Details(infra, SI.PrefixOf(infra), t, TableOf(infra, transpo)[t].code,
                             TableOf(infra, transpo)[t].name, NatToString(n))))
  {
    NamingRoundTripIn(infra, t, n, Tables(transpo));
  }

  /** Digits following a digit-free head are the first digit run. */
  lemma {:induction false} FirstDigitRunAfter(head: string, num: string)
    requires forall i :: 0 <= i < |head| ==> !IsDigit(head[i])
    requires num != [] && forall i :: 0 <= i < |num| ==> IsDigit(num[i])
    ensures FirstDigitRun(head + num) == Ok(num)
  {
    if head == [] {
      assert head + num == num;
      DigitsAll(num);
    } else {
      assert (head + num)[1..] == head[1..] + num;
      FirstDigitRunAfter(head[1..], num);
    }
  }

  lemma {:induction false} DigitsAll(s: string)
    requires forall i :: 0 <= i < |s| ==> IsDigit(s[i])
    ensures Digits(s) == s
  {
    if s != [] {
      DigitsAll(s[1..]);
    }
  }

  // -----------------------------------------------------------------------
  // Nearest node and repair time

  /** The branches of `get_nearest_node` once the node is found. */
  function NearestFrom(d: Details, node: string, targetType: string,
                       nearest: (string, string) -> (string, real)): (string, real)
  {
    if InfraName(d.infra) == "target_type" then (node, 0.0)
    else if d.infra == SI.Power || d.infra == SI.Water then nearest(node, targetType)
    else (node, 0.0)
  }

  /** `get_nearest_node`: the node's own infrastructure is compared with
      the literal text `"target_type"` rather than the argument, so that
      short cut never applies; a power or water node asks the spatial
      search `nearest` for the closest node of the target type, and any
      other node is its own nearest node at distance 0. A name the lookup
      rejects fails as it does, and `None` fails when it is subscripted. */
  function GetNearestNode(node: string, targetType: string, transpo: Table,
                          nearest: (string, string) -> (string, real)): (r: Result<(string, real)>)
  {
    match GetComponDetails(node, transpo)
    case Err(e) => Err(e)
    case Ok(Unknown(_)) => Err(TypeError)
    case Ok(Found(d)) => Ok(NearestFrom(d, node, targetType, nearest))
  }

  /** No infrastructure is called `"target_type"`. */
  lemma NoInfraIsTargetType()
    ensures forall i :: InfraName(i) != "target_type"
  {
    forall i: SI.Infra ensures InfraName(i) != "target_type" {
      var n := InfraName(i);
      assert n[0] != 't' || n[1] != 'a';
    }
  }

  /** So a power or water node always goes to the spatial search, even
      when it is already of the target type, and every other node found
      is its own nearest node at distance 0; the lookup's failures are the
      only errors. */
  lemma GetNearestNodeSpec(node: string, targetType: string, transpo: Table, nearest: (string, string) -> (string, real))
    ensures GetNearestNode(node, targetType, transpo, nearest).Err? <==>
      GetComponDetails(node, transpo).Err? || GetComponDetails(node, transpo).value.Unknown?
    ensures GetComponDetails(node, transpo).Ok? && GetComponDetails(node, transpo).value.Found? ==>
      var d := GetComponDetails(node, transpo).value.details;
      GetNearestNode(node, targetType, transpo, nearest)
        == Ok(if d.infra == SI.Transpo then (node, 0.0) else nearest(node, targetType))
  {
    NoInfraIsTargetType();
  }

  /** `get_compon_repair_time`: the repair hours of the component's type in
      its infrastructure's table. The three branches cover every
      infrastructure the lookup can return, so the unbound-variable path
      of the source cannot be reached; `None` fails when subscripted. */
  function GetComponRepairTime(name: string, transpo: Table): (r: Result<nat>)
    ensures r.Ok? <==> GetComponDetails(name, transpo).Ok? && GetComponDetails(name, transpo).value.Found?
    ensures r.Ok? ==> var d := GetComponDetails(name, transpo).value.details;
      r.value == TableOf(d.infra, transpo)[d.typeCode].repairTime
    ensures r.Err? && GetComponDetails(name, transpo).Ok? ==> r.error == TypeError
  {
    match GetComponDetails(name, transpo)
    case Err(e) => Err(e)
    case Ok(Unknown(_)) => Err(TypeError)
    case Ok(Found(d)) =>
      GetComponDetailsSpec(name, transpo);
      Ok(TableOf(d.infra, transpo)[d.typeCode].repairTime)
  }

  /** A conventionally named component takes the repair hours of its type,
      so for instance every pipe `W_P<n>` takes 12 hours and every main
      `W_PMA<n>` 12 hours. */
  lemma RepairTimeOfName(infra: SI.Infra, t: string, n: nat, transpo: Table)
    requires t in TableOf(infra, transpo)
    requires forall i :: 0 <= i < |t| ==> IsAlpha(t[i])
    ensures GetComponRepairTime(SI.PrefixOf(infra) + "_" + t + NatToString(n), transpo)
         == Ok(TableOf(infra, transpo)[t].repairTime)
  {
    NamingRoundTrip(infra, t, n, transpo);
  }

  // -----------------------------------------------------------------------
  // Water nodes a component is attached to

  const WaterLinkTypes: set<string> := {"P", "PMA", "PSC", "PV", "MP", "PHC", "WP"}
  const WaterNodeTypes: set<string> := {"R", "J", "JIN", "JVN", "JTN", "JHY", "T"}

  /** The attribute names a `connect_field` entry iterates over: the list,
      or the characters of a bare string. */
  function FieldNames(c: Connect): (fs: seq<string>)
    ensures c.Fields? ==> fs == c.names
  {
    match c
    case Fields(names) => names
    case Bare(n) => seq(|n|, i requires 0 <= i < |n| => [n[i]])
  }

  /** The values of `fields` on the component that lie in the original
      node list, in field order. */
  function KeptEndpoints(component: string, fields: seq<string>, attr: (string, string) -> string,
                         original: seq<string>): (r: seq<string>)
    ensures forall x :: x in r ==> x in original
    ensures |r| <= |fields|
  {
    if fields == [] then []
    else
      var prev := KeptEndpoints(component, fields[..|fields| - 1], attr, original);
      var v := attr(component, fields[|fields| - 1]);
      if v in original then prev + [v] else prev
  }

  /** Every field whose value is an original node contributes it. */
  lemma {:induction false} KeptEndpointsComplete(component: string, fields: seq<string>, attr: (string, string) -> string,
                                                  original: seq<string>)
    ensures forall f :: f in fields && attr(component, f) in original ==>
      attr(component, f) in KeptEndpoints(component, fields, attr, original)
    ensures forall x :: x in KeptEndpoints(component, fields, attr, original) ==>
      exists f :: f in fields && attr(component, f) == x
  {
    if fields != [] {
      var init := fields[..|fields| - 1];
      KeptEndpointsComplete(component, init, attr, original);
      assert fields == init + [fields[|fields| - 1]];
    }
  }

  /** `find_connected_water_node`: the endpoints (for a link type) or the
      node itself (for a node type) named by the type's connection fields,
      kept only when they are original nodes of the network, so that
      nodes added by leak splitting never count. `attr(c, f)` is the
      attribute `f` of the link or node `c`. The dictionary lookup fails
      on `None` and the water table lookup on a type it does not know. */
  method FindConnectedWaterNode(component: string, transpo: Table, attr: (string, string) -> string,
                                original: seq<string>)
    returns (r: Result<seq<string>>)
    ensures r.Ok? <==> GetComponDetails(component, transpo).Ok? && GetComponDetails(component, transpo).value.Found?
                       && GetComponDetails(component, transpo).value.details.typeCode in PhysicalWaterTable()
    ensures r.Ok? ==>
      var t := GetComponDetails(component, transpo).value.details.typeCode;
      r.value == (if t in WaterLinkTypes || t in WaterNodeTypes
                  then KeptEndpoints(component, FieldNames(PhysicalWaterTable()[t].connect), attr, original)
                  else [])
    ensures r.Ok? ==> forall x :: x in r.value ==> x in original
    ensures r.Err? && GetComponDetails(component, transpo).Ok? ==>
      r.error == (if GetComponDetails(component, transpo).value.Found? then KeyError else TypeError)
  {
    var details := GetComponDetails(component, transpo);
    if details.Err? {
      return Err(details.error);
    }
    if details.value.Unknown? {
      return Err(TypeError);
    }
    var t := details.value.details.typeCode;
    if t !in PhysicalWaterTable() {
      return Err(KeyError);
    }
    var fields := FieldNames(PhysicalWaterTable()[t].connect);
    var connected: seq<string> := [];
    if t in WaterLinkTypes || t in WaterNodeTypes {
      connected := KeepEndpoints(component, fields, attr, original);
    }
    r := Ok(connected);
  }

  /** The loop over the connection fields of a water component: the node
      each names, when it is in the original node list. */
  method KeepEndpoints(component: string, fields: seq<string>, attr: (string, string) -> string,
                       original: seq<string>) returns (connected: seq<string>)
    ensures connected == KeptEndpoints(component, fields, attr, original)
  {
    connected := [];
    var i := 0;
    while i < |fields|
      invariant 0 <= i <= |fields|
      invariant connected == KeptEndpoints(component, fields[..i], attr, original)
    {
      assert fields[..i + 1][..i] == fields[..i];
      var node := attr(component, fields[i]);
      if node in original {
        connected := connected + [node];
      }
      i := i + 1;
    }
    assert fields[..i] == fields;
  }

  // -----------------------------------------------------------------------
  // Dependency table

  /** One row of the dependency file: the row the table gains (`None` for
      a pair the classification rejects) or the exception that stops the
      reading. Only a missing file is caught, so a malformed name and a
      `None` lookup stop it. */
  function CouplingOf(waterId: string, powerId: string, lookup: string -> Result<Lookup>): (r: Result<Option<SI.WpRow>>)
    ensures r.Ok? && r.value.Some? ==>
      r.value.value.waterId == waterId && r.value.value.powerId == powerId
  {
    match (lookup(waterId), lookup(powerId))
    case (Err(e), _) => Err(e)
    case (_, Err(e)) => Err(e)
    case (Ok(wd), Ok(pd)) =>
      if wd.Unknown? || pd.Unknown? then Err(TypeError)
      else match SI.Classify(wd.details.name, pd.details.name)
        case Some(k) => Ok(Some(SI.WpRow(waterId, powerId, k)))
        case None => Ok(None)
  }

  /** The classification by the `name` field: a motor (or a motor modelled
      as a load) feeding a pump, or a reservoir feeding a generator; every
      other pair of found components is rejected and adds no row. */
  lemma CouplingOfSpec(waterId: string, powerId: string, lookup: string -> Result<Lookup>)
    requires lookup(waterId).Ok? && lookup(waterId).value.Found?
    requires lookup(powerId).Ok? && lookup(powerId).value.Found?
    ensures var w := lookup(waterId).value.details.name;
            var p := lookup(powerId).value.details.name;
      && CouplingOf(waterId, powerId, lookup).Ok?
      && (CouplingOf(waterId, powerId, lookup).value.Some? <==>
            (w == "Pump" && (p == "Motor" || p == "Motor as Load")) || (w == "Reservoir" && p == "Generator"))
      && (CouplingOf(waterId, powerId, lookup).value.Some? ==>
            var k := CouplingOf(waterId, powerId, lookup).value.value.kind;
            SI.WaterType(k) == w && SI.PowerType(k) == p)
  {
  }

  /** The loop of `build_power_water_dependencies` over the rows of the
      coupling file: the rows kept, in order, until the first row whose
      names fail to look up. */
  method ReadCouplings(rows: seq<(string, string)>, lookup: string -> Result<Lookup>)
    returns (added: seq<SI.WpRow>, err: Option<Exception>)
    ensures (added, err) == Couplings(rows, lookup)
  {
    added, err := [], None;
    var i := 0;
    while i < |rows| && err.None?
      invariant 0 <= i <= |rows|
      invariant (added, err) == Couplings(rows[..i], lookup)
      decreases |rows| - i
    {
      assert rows[..i + 1][..i] == rows[..i];
      var c := CouplingOf(rows[i].0, rows[i].1, lookup);
      match c {
        case Err(x) => err := Some(x);
        case Ok(None) =>
        case Ok(Some(row)) => added := added + [row];
      }
      i := i + 1;
    }
    if i < |rows| {
      CouplingsStopped(rows, i, lookup);
    } else {
      assert rows[..i] == rows;
    }
  }

  /** The loop of `add_transpo_access` over the power and water nodes:
      one row per node until a name fails to look up. */
  method CollectAccessRows(targets: seq<string>, lookup: string -> Result<Lookup>,
                           nearest: (string, string) -> (string, real))
    returns (added: seq<SI.AccessRow>, err: Option<Exception>)
    ensures (added, err) == AccessRows(targets, lookup, nearest)
  {
    added, err := [], None;
    var i := 0;
    while i < |targets| && err.None?
      invariant 0 <= i <= |targets|
      invariant (added, err) == AccessRows(targets[..i], lookup, nearest)
      decreases |targets| - i
    {
      assert targets[..i + 1][..i] == targets[..i];
      var row := AccessRowOf(targets[i], lookup, nearest);
      match row {
        case Err(x) => err := Some(x);
        case Ok(a) => added := added + [a];
      }
      i := i + 1;
    }
    if i < |targets| {
      AccessRowsStopped(targets, i, lookup, nearest);
    } else {
      assert targets[..i] == targets;
    }
  }

  /** The rows a whole dependency file adds, and the exception (if any)
      that stopped the reading; rows read before the exception stay. */
  function Couplings(rows: seq<(string, string)>, lookup: string -> Result<Lookup>): (out: (seq<SI.WpRow>, Option<Exception>))
    ensures |out.0| <= |rows|
  {
    if rows == [] then ([], None)
    else
      var (prev, e) := Couplings(rows[..|rows| - 1], lookup);
      if e.Some? then (prev, e)
      else match CouplingOf(rows[|rows| - 1].0, rows[|rows| - 1].1, lookup)
        case Err(x) => (prev, Some(x))
        case Ok(None) => (prev, None)
        case Ok(Some(row)) => (prev + [row], None)
  }

  lemma {:induction false} CouplingsStopped(rows: seq<(string, string)>, i: nat, lookup: string -> Result<Lookup>)
    requires i <= |rows|
    requires Couplings(rows[..i], lookup).1.Some?
    ensures Couplings(rows, lookup) == Couplings(rows[..i], lookup)
    decreases |rows| - i
  {
    if i == |rows| {
      assert rows[..i] == rows;
    } else {
      assert rows[..i + 1][..i] == rows[..i];
      CouplingsStopped(rows, i + 1, lookup);
    }
  }

  /** Each accepted row names the pair it was read from. */
  lemma {:induction false} CouplingsFromFile(rows: seq<(string, string)>, lookup: string -> Result<Lookup>)
    ensures forall r :: r in Couplings(rows, lookup).0 ==> (r.waterId, r.powerId) in rows
  {
    if rows != [] {
      var init := rows[..|rows| - 1];
      CouplingsFromFile(init, lookup);
      assert forall x :: x in init ==> x in rows;
      var last := rows[|rows| - 1];
      var c := CouplingOf(last.0, last.1, lookup);
      if Couplings(init, lookup).1.None? && c.Ok? && c.value.Some? {
        assert Couplings(rows, lookup).0 == Couplings(init, lookup).0 + [c.value.value];
      }
    }
  }

  /** A file read to the end had no row whose lookups failed. */
  lemma {:induction false} CouplingsReadAll(rows: seq<(string, string)>, lookup: string -> Result<Lookup>)
    requires Couplings(rows, lookup).1.None?
    ensures forall j :: 0 <= j < |rows| ==> CouplingOf(rows[j].0, rows[j].1, lookup).Ok?
  {
    if rows != [] {
      var init := rows[..|rows| - 1];
      var last := rows[|rows| - 1];
      var c := CouplingOf(last.0, last.1, lookup);
      assert Couplings(init, lookup).1.None? && c.Ok?;
      CouplingsReadAll(init, lookup);
      assert forall j :: 0 <= j < |init| ==> init[j] == rows[j];
    }
  }

  /** One access row: the node, its nearest road node and distance, and
      the node's infrastructure and display name. */
  function AccessRowOf(node: string, lookup: string -> Result<Lookup>, nearest: (string, string) -> (string, real)): (r: Result<SI.AccessRow>)
    ensures r.Ok? ==> r.value.originId == node
  {
    match lookup(node)
    case Err(e) => Err(e)
    case Ok(Unknown(_)) => Err(TypeError)
    case Ok(Found(d)) =>
      var (near, dist) := NearestFrom(d, node, "transpo", nearest);
      Ok(SI.AccessRow(node, near, d.infra, d.name, dist))
  }

  /** The graph's nodes whose `node_type` is `"power"` or `"water"`, in
      graph order. */
  function NodesOfInterest(nodes: seq<(string, string)>): (r: seq<string>)
    ensures |r| <= |nodes|
    ensures forall x :: x in r <==> exists i :: 0 <= i < |nodes| && nodes[i].0 == x && nodes[i].1 in {"power", "water"}
  {
    if nodes == [] then []
    else
      var rest := NodesOfInterest(nodes[..|nodes| - 1]);
      assert forall i :: 0 <= i < |nodes| - 1 ==> nodes[..|nodes| - 1][i] == nodes[i];
      if nodes[|nodes| - 1].1 in {"power", "water"} then rest + [nodes[|nodes| - 1].0] else rest
  }

  /** The rows `add_transpo_access` appends for a list of nodes, and the
      exception (if any) that stopped it. */
  function AccessRows(targets: seq<string>, lookup: string -> Result<Lookup>, nearest: (string, string) -> (string, real))
    : (out: (seq<SI.AccessRow>, Option<Exception>))
  {
    if targets == [] then ([], None)
    else
      var (prev, e) := AccessRows(targets[..|targets| - 1], lookup, nearest);
      if e.Some? then (prev, e)
      else match AccessRowOf(targets[|targets| - 1], lookup, nearest)
        case Err(x) => (prev, Some(x))
        case Ok(a) => (prev + [a], None)
  }

  lemma {:induction false} AccessRowsStopped(targets: seq<string>, i: nat, lookup: string -> Result<Lookup>, nearest: (string, string) -> (string, real))
    requires i <= |targets|
    requires AccessRows(targets[..i], lookup, nearest).1.Some?
    ensures AccessRows(targets, lookup, nearest) == AccessRows(targets[..i], lookup, nearest)
    decreases |targets| - i
  {
    if i == |targets| {
      assert targets[..i] == targets;
    } else {
      assert targets[..i + 1][..i] == targets[..i];
      AccessRowsStopped(targets, i + 1, lookup, nearest);
    }
  }

  /** One access row per node of interest, in order, each pointing at the
      road node the spatial search returns for it (power and water nodes
      never take the short cut), unless a lookup failed. */
  lemma {:induction false} AccessRowsFollowNodes(targets: seq<string>, lookup: string -> Result<Lookup>, nearest: (string, string) -> (string, real))
    ensures var out := AccessRows(targets, lookup, nearest);
      && |out.0| <= |targets|
      && (out.1.None? <==> |out.0| == |targets|)
      && forall j :: 0 <= j < |out.0| ==> out.0[j].originId == targets[j]
  {
    if targets != [] {
      var init := targets[..|targets| - 1];
      AccessRowsFollowNodes(init, lookup, nearest);
      var prev := AccessRows(init, lookup, nearest);
      var out := AccessRows(targets, lookup, nearest);
      assert forall j :: 0 <= j < |init| ==> init[j] == targets[j];
      if prev.1.None? {
        match AccessRowOf(targets[|targets| - 1], lookup, nearest)
        case Err(_) =>
          assert out == (prev.0, out.1);
        case Ok(a) =>
          assert out.0 == prev.0 + [a];
      }
    }
  }

  /** A power or water node found in the tables is reached through the
      spatial search for the nearest road node. */
  lemma AccessRowUsesSearch(node: string, lookup: string -> Result<Lookup>, nearest: (string, string) -> (string, real))
    requires lookup(node).Ok? && lookup(node).value.Found?
    requires lookup(node).value.details.infra != SI.Transpo
    ensures AccessRowOf(node, lookup, nearest).Ok?
    ensures var a := AccessRowOf(node, lookup, nearest).value;
      a.transpId == nearest(node, "transpo").0 && a.accessDist == nearest(node, "transpo").1
      && a.originCat == lookup(node).value.details.infra
  {
    NoInfraIsTargetType();
  }

  /** A coupling `update_dependencies` acts on: only a pump on a motor;
      a motor modelled as a load is skipped in this variant. */
  predicate Drives(r: SI.WpRow) {
    r.kind == SI.PumpMotor
  }

  /** The motor state of a row as the update reads it: `None` when the
      motor name does not select exactly one row (`.item()` fails),
      `Some(true)` when the motor's power-flow result draws no power,
      `Some(false)` when it draws power or the row is not a driving row. */
  function Down(r: SI.WpRow, motorPower: string -> Option<real>): Option<bool> {
    if !Drives(r) then Some(false)
    else match motorPower(r.powerId)
      case None => None
      case Some(p) => Some(p == 0.0)
  }

  function DownOf(motorPower: string -> Option<real>): SI.WpRow -> Option<bool> {
    r => Down(r, motorPower)
  }

  /** A driving row whose motor result cannot be read. */
  predicate Unreadable(r: SI.WpRow, motorPower: string -> Option<real>) {
    Down(r, motorPower).None?
  }

  /** A row the update leaves alone: not a driving row, or a motor that
      draws power. */
  predicate Unaffected(r: SI.WpRow, motorPower: string -> Option<real>) {
    Down(r, motorPower) == Some(false)
  }

  /** After the update, every driving row was readable, and a pump whose
      motor draws no power has its outage controls for the step. */
  predicate Handled(r: SI.WpRow, names: seq<string>, motorPower: string -> Option<real>, timeStamp: int, nextTimeStamp: int) {
    SI.HandledBy(r, names, Down(r, motorPower), timeStamp, nextTimeStamp)
  }

  /** With every driving row readable, the update as written fails with an
      AttributeError exactly when some motor draws no power, while the
      update that adds the pump outage succeeds on the same table. */
  lemma PumpOutageUndefined(rows: seq<SI.WpRow>, names: seq<string>, motorPower: string -> Option<real>,
                            timeStamp: int, nextTimeStamp: int)
    requires forall j :: 0 <= j < |rows| ==> !Unreadable(rows[j], motorPower)
    ensures var asWritten := SI.ControlsAfter(rows, names, DownOf(motorPower), timeStamp, nextTimeStamp, false);
      (asWritten.1 == Some(AttributeError) <==>
         exists j :: 0 <= j < |rows| && Drives(rows[j]) && motorPower(rows[j].powerId) == Some(0.0))
      && (asWritten.1.Some? ==> asWritten.1 == Some(AttributeError))
    ensures SI.ControlsAfter(rows, names, DownOf(motorPower), timeStamp, nextTimeStamp, true).1.None?
  {
    SI.ControlsAfterUndefined(rows, names, DownOf(motorPower), timeStamp, nextTimeStamp);
    SI.ControlsAfterError(rows, names, DownOf(motorPower), timeStamp, nextTimeStamp);
    assert forall j :: 0 <= j < |rows| ==>
      (Down(rows[j], motorPower) == Some(true) <==> Drives(rows[j]) && motorPower(rows[j].powerId) == Some(0.0));
  }

  class DependencyTable {
    var wpTable: seq<SI.WpRow>
    var accessTable: seq<SI.AccessRow>

    constructor ()
      ensures wpTable == [] && accessTable == []
    {
      wpTable := [];
      accessTable := [];
    }

    /** `build_power_water_dependencies`: `None` is a missing file, which
        is reported and adds nothing. */
    method BuildPowerWaterDependencies(file: Option<seq<(string, string)>>, transpo: Table)
      returns (err: Option<Exception>)
      modifies this`wpTable
      ensures file.None? ==> wpTable == old(wpTable) && err.None?
      ensures file.Some? ==> wpTable == old(wpTable) + Couplings(file.value, Lookups(transpo)).0
                             && err == Couplings(file.value, Lookups(transpo)).1
    {
      err := None;
      if file.None? {
        return;
      }
      var added;
      added, err := ReadCouplings(file.value, Lookups(transpo));
      wpTable := wpTable + added;
    }

    /** `add_transpo_access`: one row per power or water node of the graph
        (given as `(name, node_type)` pairs), in graph order, until a name
        fails to look up. */
    method AddTranspoAccess(nodes: seq<(string, string)>, transpo: Table, nearest: (string, string) -> (string, real))
      returns (err: Option<Exception>)
      modifies this`accessTable
      ensures accessTable == old(accessTable) + AccessRows(NodesOfInterest(nodes), Lookups(transpo), nearest).0
      ensures err == AccessRows(NodesOfInterest(nodes), Lookups(transpo), nearest).1
    {
      var added;
      added, err := CollectAccessRows(NodesOfInterest(nodes), Lookups(transpo), nearest);
      accessTable := accessTable + added;
    }

    /** `update_dependencies` with the pump outage added, as the
        simulation-model variant does: for each pump on a motor whose
        power-flow result draws no power (`p_mw == 0`), stale outage
        controls for this step are removed and a pump outage over
        `[timeStamp, nextTimeStamp)` is added; a motor that draws power
        changes nothing. `motorPower` is the motor's result, `None` when
        the name does not select exactly one motor, which raises a
        ValueError and stops the update. */
    method UpdateDependencies(controls: WaterControls.Registry, motorPower: string -> Option<real>,
                              timeStamp: int, nextTimeStamp: int)
      returns (err: Option<Exception>)
      requires controls.Valid()
      modifies controls
      ensures controls.Valid()
      ensures (controls.names, err) == SI.ControlsAfter(wpTable, old(controls.names), DownOf(motorPower), timeStamp, nextTimeStamp, true)
      ensures err.None? ==> forall j :: 0 <= j < |wpTable| ==>
        Handled(wpTable[j], controls.names, motorPower, timeStamp, nextTimeStamp)
      ensures err.Some? <==> exists j :: 0 <= j < |wpTable| && Unreadable(wpTable[j], motorPower)
      ensures err.Some? ==> err == Some(ValueError)
      ensures forall x :: x in old(controls.names) ==> x in controls.names
      ensures forall x :: x in controls.names ==>
        x in old(controls.names)
        || exists j :: 0 <= j < |wpTable| && SI.OutageName(wpTable[j], x, Down(wpTable[j], motorPower), timeStamp, nextTimeStamp)
      ensures (forall j :: 0 <= j < |wpTable| ==> Unaffected(wpTable[j], motorPower))
        ==> controls.names == old(controls.names) && err.None?
    {
      ghost var down := DownOf(motorPower);
      ghost var names0 := controls.names;
      err := None;
      var i := 0;
      while i < |wpTable| && err.None?
        invariant 0 <= i <= |wpTable|
        invariant controls.Valid()
        invariant (controls.names, err) == SI.ControlsAfter(wpTable[..i], names0, down, timeStamp, nextTimeStamp, true)
      {
        SI.ControlsAfterSnoc(wpTable, i, names0, down, timeStamp, nextTimeStamp, true);
        var row := wpTable[i];
        if Drives(row) {
          var p := motorPower(row.powerId);
          if p.None? {
            err := Some(ValueError);
          } else if p.value == 0.0 {
            SI.ReplacePumpOutage(controls, row.waterId, timeStamp, nextTimeStamp);
          }
        }
        i := i + 1;
      }
      if err.Some? {
        SI.ControlsAfterStopped(wpTable, i, names0, down, timeStamp, nextTimeStamp, true);
      } else {
        assert wpTable[..i] == wpTable;
      }
      SI.ControlsAfterError(wpTable, names0, down, timeStamp, nextTimeStamp);
      SI.ControlsAfterKeeps(wpTable, names0, down, timeStamp, nextTimeStamp);
      SI.ControlsAfterHandled(wpTable, names0, down, timeStamp, nextTimeStamp);
      SI.ControlsAfterAdds(wpTable, names0, down, timeStamp, nextTimeStamp);
      if forall j :: 0 <= j < |wpTable| ==> Unaffected(wpTable[j], motorPower) {
        SI.ControlsAfterKeep(wpTable, names0, down, timeStamp, nextTimeStamp, true);
      }
    }

    /** `update_dependencies` as written: once the stale outage controls of
        a pump whose motor draws no power are removed, the outage is
        requested from a function the recovery module does not define, so
        the update stops there with an AttributeError. */
    method UpdateDependenciesAsWritten(controls: WaterControls.Registry, motorPower: string -> Option<real>,
                                       timeStamp: int, nextTimeStamp: int)
      returns (err: Option<Exception>)
      requires controls.Valid()
      modifies controls
      ensures controls.Valid()
      ensures (controls.names, err) == SI.ControlsAfter(wpTable, old(controls.names), DownOf(motorPower), timeStamp, nextTimeStamp, false)
    {
      ghost var down := DownOf(motorPower);
      ghost var names0 := controls.names;
      err := None;
      var i := 0;
      while i < |wpTable| && err.None?
        invariant 0 <= i <= |wpTable|
        invariant controls.Valid()
        invariant (controls.names, err) == SI.ControlsAfter(wpTable[..i], names0, down, timeStamp, nextTimeStamp, false)
      {
        SI.ControlsAfterSnoc(wpTable, i, names0, down, timeStamp, nextTimeStamp, false);
        var row := wpTable[i];
        if Drives(row) {
          var p := motorPower(row.powerId);
          if p.None? {
            err := Some(ValueError);
          } else if p.value == 0.0 {
            controls.Discard(WaterControls.OutageOffName(row.waterId, timeStamp));
            controls.Discard(WaterControls.OutageOnName(row.waterId, nextTimeStamp));
            err := Some(AttributeError);
          }
        }
        i := i + 1;
      }
      if err.Some? {
        SI.ControlsAfterStopped(wpTable, i, names0, down, timeStamp, nextTimeStamp, false);
      } else {
        assert wpTable[..i] == wpTable;
      }
    }
  }
}
