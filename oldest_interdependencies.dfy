/** The oldest interdependency helpers and dependency table,
    dreaminsg_integrated_model/network_sim_models/interdependencies.py.

    A component's type is the letters among the first two characters of its
    name. The water dictionary is the oldest one (five types, each entry a
    dictionary keyed by field name); the power dictionary comes from
    network_sim_models/power/power_system_model.py, which is not part of this
    model, so it is a parameter whose entries are read by position, as this
    file reads them: `[0]` the collection, `[1]` the display name, `[2]` the
    field that connects the element to a bus. */
module OldestInterdependencies {
  import opened Wrappers
  import opened Text
  import opened ComponentTables
  import OldInterdependencies
  import SimInterdependencies

  type PowerDict = map<string, seq<string>>

  /** A dictionary key: the water entries are keyed by field names, and an
      index such as `[0]` asks for an integer key. */
  datatype Key = Name(field: string) | Index(i: int)

  /** A value of a water entry: the repair time is a number, the rest text. */
  datatype Value = Text(s: string) | Number(n: nat)

  /** The type code of a name: letters among its first two characters. */
  function TypeCode(name: string): (t: string)
    ensures |t| <= 2 && forall i :: 0 <= i < |t| ==> IsAlpha(t[i])
  {
    OldInterdependencies.TwoCharCode(name)
  }

  /** `water_dict[t][k]`: a KeyError for an unknown type and for a key the
      entry does not have. */
  function WaterField(t: string, k: Key): (r: Result<Value>)
    ensures r.Ok? <==> t in OldestWaterTable() && k in {Name("code"), Name("name"), Name("connect_field"), Name("repair_time")}
    ensures r.Err? ==> r.error == KeyError
    ensures r.Ok? && k == Name("name") ==> r.value == Text(OldestWaterTable()[t].name)
    ensures r.Ok? && k == Name("connect_field") && OldestWaterTable()[t].connect.Bare? ==>
      r.value == Text(OldestWaterTable()[t].connect.name)
  {
    if t !in OldestWaterTable() then Err(KeyError)
    else
      var e := OldestWaterTable()[t];
      if k == Name("code") then Ok(Text(e.code))
      else if k == Name("name") then Ok(Text(e.name))
      else if k == Name("connect_field") then
        (match e.connect
         case Bare(f) => Ok(Text(f))
         case Fields(_) => Err(KeyError))
      else if k == Name("repair_time") then Ok(Number(e.repairTime))
      else Err(KeyError)
  }

  /** The connection field of every oldest water type is a single name. */
  lemma OldestConnectFields(t: string)
    requires t in OldestWaterTable()
    ensures OldestWaterTable()[t].connect.Bare?
    ensures WaterField(t, Name("connect_field")) ==
      Ok(Text(if t in {"WP", "P"} then "start_node_name" else "name"))
  {
    OldestWaterTableKeys();
    OldestWaterTableFacts();
  }

  /** `get_water_type` as written: the entry is a dictionary keyed by field
      names, so `[0]` fails for every name, known type or not. */
  function WaterTypeAsWritten(name: string): (r: Result<(string, string)>)
    ensures r == Err(KeyError)
  {
    var t := TypeCode(name);
    match WaterField(t, Index(0))
    case Err(e) => Err(e)
    case Ok(Text(s)) => Ok((t, s))
    case Ok(Number(_)) => Err(TypeError)
  }

  /** `get_water_type` as evidently intended: the type and its display
      name; a KeyError for a type the water table does not have. */
  function WaterType(name: string): (r: Result<(string, string)>)
    ensures r.Ok? <==> TypeCode(name) in OldestWaterTable()
    ensures r.Err? ==> r.error == KeyError
    ensures r.Ok? ==> r.value.0 == TypeCode(name) && r.value.1 == OldestWaterTable()[TypeCode(name)].name
  {
    var t := TypeCode(name);
    match WaterField(t, Name("name"))
    case Err(e) => Err(e)
    case Ok(Text(s)) => Ok((t, s))
    case Ok(Number(_)) => Err(TypeError)
  }

  /** A name made of a water type and a number reads back as that type. */
  lemma WaterTypeOfTypedName(t: string, n: nat)
    requires t in OldestWaterTable()
    ensures WaterType(t + NatToString(n)) == Ok((t, OldestWaterTable()[t].name))
  {
    OldestWaterTableKeys();
    assert |t| <= 2 && forall i :: 0 <= i < |t| ==> IsAlpha(t[i]);
    OldInterdependencies.TwoCharOfTypedNumber(t, n);
  }

  /** `power_dict[t][i]`: a KeyError for an unknown type, an IndexError for
      an entry that is too short. */
  function PowerField(power: PowerDict, t: string, i: nat): (r: Result<string>)
    ensures r.Ok? <==> t in power && i < |power[t]|
    ensures r.Ok? ==> r.value == power[t][i]
    ensures r.Err? ==> r.error == (if t in power then IndexError else KeyError)
  {
    if t !in power then Err(KeyError)
    else if i < |power[t]| then Ok(power[t][i])
    else Err(IndexError)
  }

  /** `get_power_type`: the type, its collection and its display name. */
  function PowerType(name: string, power: PowerDict): (r: Result<(string, string, string)>)
    ensures r.Ok? <==> TypeCode(name) in power && |power[TypeCode(name)]| >= 2
    ensures r.Ok? ==> var t := TypeCode(name); r.value == (t, power[t][0], power[t][1])
    ensures r.Err? ==> r.error == (if TypeCode(name) in power then IndexError else KeyError)
  {
    var t := TypeCode(name);
    match PowerField(power, t, 0)
    case Err(e) => Err(e)
    case Ok(code) =>
      match PowerField(power, t, 1)
      case Err(e) => Err(e)
      case Ok(display) => Ok((t, code, display))
  }

  /** A name made of a power type and a number reads back as that type. */
  lemma PowerTypeOfTypedName(t: string, n: nat, power: PowerDict)
    requires t in power && |power[t]| >= 2
    requires |t| <= 2 && forall i :: 0 <= i < |t| ==> IsAlpha(t[i])
    ensures PowerType(t + NatToString(n), power) == Ok((t, power[t][0], power[t][1]))
  {
    OldInterdependencies.TwoCharOfTypedNumber(t, n);
  }

  /** `get_near_node_field`: the third element of the power entry. */
  function NearNodeField(name: string, power: PowerDict): (r: Result<string>)
    ensures r.Ok? <==> TypeCode(name) in power && |power[TypeCode(name)]| >= 3
    ensures r.Ok? ==> r.value == power[TypeCode(name)][2]
  {
    PowerField(power, TypeCode(name), 2)
  }

  /** `get_infra_type`: the power table is asked first, then the water
      table; a type in neither is reported and gives `None`. */
  function InfraType(name: string, power: PowerDict): (r: Option<SimInterdependencies.Infra>)
    ensures r == Some(SimInterdependencies.Power) <==> TypeCode(name) in power
    ensures r == Some(SimInterdependencies.Water) <==> TypeCode(name) !in power && TypeCode(name) in OldestWaterTable()
    ensures r.None? <==> TypeCode(name) !in power && TypeCode(name) !in OldestWaterTable()
  {
    var t := TypeCode(name);
    if t in power then Some(SimInterdependencies.Power)
    else if t in OldestWaterTable() then Some(SimInterdependencies.Water)
    else None
  }

  /** `find_connected_water_node` as written: the water type lookup fails
      first, and the connection field would be read with `[1]`, which no
      entry has either. */
  function FindConnectedWaterNodeAsWritten(origin: string, linkAttr: (string, string) -> Result<string>,
                                           nodeAttr: (string, string) -> Result<string>): (r: Result<string>)
    ensures r == Err(KeyError)
  {
    match WaterTypeAsWritten(origin)
    case Err(e) => Err(e)
    case Ok((code, _)) =>
      match WaterField(code, Index(1))
      case Err(e) => Err(e)
      case Ok(Number(_)) => Err(TypeError)
      case Ok(Text(field)) =>
        if code in ["WP", "P"] then linkAttr(origin, field)
        else if code in ["R", "J", "T"] then nodeAttr(origin, field)
        else Err(UnboundLocalError)
  }

  /** `find_connected_water_node` as evidently intended: the attribute
      named by the type's connection field, read from the link for pumps
      and pipes and from the node for reservoirs, junctions and tanks.
      `linkAttr(id, f)` and `nodeAttr(id, f)` stand for the water model's
      `getattr(wn.get_link(id), f)` and `getattr(wn.get_node(id), f)`. */
  function FindConnectedWaterNode(origin: string, linkAttr: (string, string) -> Result<string>,
                                  nodeAttr: (string, string) -> Result<string>): (r: Result<string>)
    ensures TypeCode(origin) !in OldestWaterTable() ==> r == Err(KeyError)
    ensures TypeCode(origin) in {"WP", "P"} ==> r == linkAttr(origin, "start_node_name")
    ensures TypeCode(origin) in {"R", "J", "T"} ==> r == nodeAttr(origin, "name")
  {
    match WaterType(origin)
    case Err(e) => Err(e)
    case Ok((code, _)) =>
      match WaterField(code, Name("connect_field"))
      case Err(e) => Err(e)
      case Ok(Number(_)) => Err(TypeError)
      case Ok(Text(field)) =>
        OldestConnectFields(code);
        if code in ["WP", "P"] then linkAttr(origin, field)
        else if code in ["R", "J", "T"] then nodeAttr(origin, field)
        else Err(UnboundLocalError)
  }

  /** Corrected, the lookup never leaves the connected node unbound: every
      type the water table has is a link type or a node type. */
  lemma ConnectedWaterNodeBound(origin: string, linkAttr: (string, string) -> Result<string>,
                                nodeAttr: (string, string) -> Result<string>)
    requires forall id, f :: linkAttr(id, f) != Err(UnboundLocalError) && nodeAttr(id, f) != Err(UnboundLocalError)
    ensures FindConnectedWaterNode(origin, linkAttr, nodeAttr) != Err(UnboundLocalError)
  {
    OldestWaterTableKeys();
  }

  /** Python's `seq[i]` / `iloc[i]`: a negative index counts from the end. */
  function PyIndex(s: seq<string>, i: int): (r: Result<string>)
    ensures r.Ok? <==> -|s| <= i < |s|
    ensures r.Ok? ==> r.value in s
    ensures r.Ok? && i >= 0 ==> r.value == s[i]
    ensures r.Err? ==> r.error == IndexError
  {
    if 0 <= i < |s| then Ok(s[i])
    else if -|s| <= i < 0 then Ok(s[|s| + i])
    else Err(IndexError)
  }

  /** `find_connected_power_node`: the element's bus index, read from its
      collection by the entry's connection field, names a row of the bus
      table. `busIndex(collection, name, field)` stands for the power
      model's `pn[collection].query(name)[field].item()`. */
  function FindConnectedPowerNode(origin: string, power: PowerDict,
                                  busIndex: (string, string, string) -> Result<int>,
                                  busNames: seq<string>): (r: Result<string>)
    ensures r.Ok? <==>
      var t := TypeCode(origin);
      t in power && |power[t]| >= 3
      && busIndex(power[t][0], origin, power[t][2]).Ok?
      && -|busNames| <= busIndex(power[t][0], origin, power[t][2]).value < |busNames|
    ensures r.Ok? ==> r.value in busNames
    ensures TypeCode(origin) !in power ==> r == Err(KeyError)
  {
    match PowerType(origin, power)
    case Err(e) => Err(e)
    case Ok((code, collection, _)) =>
      match PowerField(power, code, 2)
      case Err(e) => Err(e)
      case Ok(_) =>
        match NearNodeField(origin, power)
        case Err(e) => Err(e)
        case Ok(field) =>
          match busIndex(collection, origin, field)
          case Err(e) => Err(e)
          case Ok(i) => PyIndex(busNames, i)
  }

  // -----------------------------------------------------------------------
  // The dependency table

  /** A water-power row: the two ids, the water type name and the power
      entry's display name. */
  datatype CouplingRow = CouplingRow(waterId: string, powerId: string, waterType: string, powerType: string)

  /** An access row; the category is `None` when neither table knows the
      type. */
  datatype AccessEntry = AccessEntry(originId: string, transpId: string, originCat: Option<SimInterdependencies.Infra>,
                                     originType: string, accessDist: real)

  /** The row a coupling adds: the water lookup runs before the power one. */
  function CouplingRowOf(waterId: string, powerId: string, power: PowerDict): (r: Result<CouplingRow>)
    ensures r.Ok? <==> WaterType(waterId).Ok? && PowerType(powerId, power).Ok?
    ensures r.Ok? ==> (r.value.waterId == waterId && r.value.powerId == powerId
                       && r.value.waterType == OldestWaterTable()[TypeCode(waterId)].name
                       && r.value.powerType == power[TypeCode(powerId)][1])
    ensures r.Err? && WaterType(waterId).Err? ==> r.error == KeyError
  {
    match WaterType(waterId)
    case Err(e) => Err(e)
    case Ok((_, waterName)) =>
      match PowerType(powerId, power)
      case Err(e) => Err(e)
      case Ok((_, _, powerName)) => Ok(CouplingRow(waterId, powerId, waterName, powerName))
  }

  /** A pump named by a type and a number, coupled to a power element
      whose entry calls it a motor, gives the row `update_dependencies`
      acts on. */
  lemma PumpMotorRow(n: nat, powerId: string, power: PowerDict)
    requires PowerType(powerId, power).Ok? && power[TypeCode(powerId)][1] == "Motor"
    ensures CouplingRowOf("WP" + NatToString(n), powerId, power).Ok?
    ensures CouplingRowOf("WP" + NatToString(n), powerId, power).value.waterType == "Pump"
    ensures CouplingRowOf("WP" + NatToString(n), powerId, power).value.powerType == "Motor"
  {
    OldestWaterTableKeys();
    WaterTypeOfTypedName("WP", n);
  }

  /** One access row: the node's category and type name (from the power
      entry's collection for power, the water type's name otherwise) and
      its nearest road node. */
  function AccessEntryOf(node: string, power: PowerDict, nearest: string -> (string, real)): (r: Result<AccessEntry>)
    ensures r.Ok? <==>
      if InfraType(node, power) == Some(SimInterdependencies.Power) then PowerType(node, power).Ok? else WaterType(node).Ok?
    ensures r.Ok? ==> (r.value.originId == node && r.value.originCat.Some? && r.value.originCat == InfraType(node, power)
                       && r.value.transpId == nearest(node).0 && r.value.accessDist == nearest(node).1)
  {
    var cat := InfraType(node, power);
    var ty := if cat == Some(SimInterdependencies.Power) then
                (match PowerType(node, power) case Err(e) => Err(e) case Ok(p) => Ok(p.1))
              else
                (match WaterType(node) case Err(e) => Err(e) case Ok(w) => Ok(w.1));
    match ty
    case Err(e) => Err(e)
    case Ok(name) => Ok(AccessEntry(node, nearest(node).0, cat, name, nearest(node).1))
  }

  /** The rows `add_transpo_access` adds for a list of nodes, and the
      exception (if any) that stopped it; rows added before it stay. */
  function AccessEntries(targets: seq<string>, power: PowerDict, nearest: string -> (string, real))
    : (out: (seq<AccessEntry>, Option<Exception>))
  {
    if targets == [] then ([], None)
    else
      var (prev, e) := AccessEntries(targets[..|targets| - 1], power, nearest);
      if e.Some? then (prev, e)
      else match AccessEntryOf(targets[|targets| - 1], power, nearest)
        case Err(x) => (prev, Some(x))
        case Ok(a) => (prev + [a], None)
  }

  lemma AccessEntriesSnoc(targets: seq<string>, i: nat, power: PowerDict, nearest: string -> (string, real))
    requires i < |targets|
    ensures AccessEntries(targets[..i + 1], power, nearest) ==
      var (prev, e) := AccessEntries(targets[..i], power, nearest);
      if e.Some? then (prev, e)
      else match AccessEntryOf(targets[i], power, nearest)
        case Err(x) => (prev, Some(x))
        case Ok(a) => (prev + [a], None)
  {
    assert targets[..i + 1][..i] == targets[..i];
  }

  lemma {:induction false} AccessEntriesStopped(targets: seq<string>, i: nat, power: PowerDict,
                                                nearest: string -> (string, real))
    requires i <= |targets|
    requires AccessEntries(targets[..i], power, nearest).1.Some?
    ensures AccessEntries(targets, power, nearest) == AccessEntries(targets[..i], power, nearest)
    decreases |targets| - i
  {
    if i == |targets| {
      assert targets[..i] == targets;
    } else {
      AccessEntriesSnoc(targets, i, power, nearest);
      AccessEntriesStopped(targets, i + 1, power, nearest);
    }
  }

  /** One row per node, in node order, each with a known category and the
      node's nearest road node; the rows stop short only at a failed
      lookup. */
  lemma {:induction false} AccessEntriesFollowNodes(targets: seq<string>, power: PowerDict,
                                                    nearest: string -> (string, real))
    ensures var out := AccessEntries(targets, power, nearest);
      && |out.0| <= |targets|
      && (out.1.None? <==> |out.0| == |targets|)
      && forall j :: 0 <= j < |out.0| ==>
           out.0[j].originId == targets[j] && out.0[j].originCat.Some? && out.0[j].transpId == nearest(targets[j]).0
  {
    if targets != [] {
      var init := targets[..|targets| - 1];
      AccessEntriesFollowNodes(init, power, nearest);
      var prev := AccessEntries(init, power, nearest);
      var out := AccessEntries(targets, power, nearest);
      assert forall j :: 0 <= j < |init| ==> init[j] == targets[j];
      if prev.1.None? {
        match AccessEntryOf(targets[|targets| - 1], power, nearest)
        case Err(_) =>
          assert out == (prev.0, out.1);
        case Ok(a) =>
          assert out.0 == prev.0 + [a];
      }
    }
  }

  /** A motor of the power model: its name and its `in_service` flag; its
      position is its index label, which also labels its result row. */
  datatype Motor = Motor(name: string, inService: bool)

  /** The positions of the motors with a given name, in order. */
  function MotorMatches(motors: seq<Motor>, id: string): (r: seq<nat>)
    ensures forall k :: k in r ==> k < |motors| && motors[k].name == id
    ensures forall k :: 0 <= k < |motors| && motors[k].name == id ==> k in r
  {
    if motors == [] then []
    else
      var rest := MotorMatches(motors[..|motors| - 1], id);
      if motors[|motors| - 1].name == id then rest + [|motors| - 1] else rest
  }

  /** A power assignment to a pump, in kilowatts. */
  datatype PumpPower = PumpPower(pump: string, kw: real)

  /** What `update_dependencies` does with one row. Only a row typed
      Pump and Motor acts: `.item()` needs exactly one motor of that name
      (a ValueError otherwise); an in-service motor's result power, read by
      the motor's index label from `pMw`, is given to the pump in kW,
      otherwise the pump gets 0. The power is read before the pump is
      fetched from the water model's `links`. */
  function RowPower(r: CouplingRow, motors: seq<Motor>, pMw: seq<real>, links: set<string>): Result<Option<PumpPower>>
  {
    if !(r.waterType == "Pump" && r.powerType == "Motor") then Ok(None)
    else
      var m := MotorMatches(motors, r.powerId);
      if |m| != 1 then Err(ValueError)
      else
        var k := m[0];
        assert k in m;
        if motors[k].inService then
          if k >= |pMw| then Err(KeyError)
          else if r.waterId !in links then Err(KeyError)
          else Ok(Some(PumpPower(r.waterId, pMw[k] * 1000.0)))
        else if r.waterId !in links then Err(KeyError)
        else Ok(Some(PumpPower(r.waterId, 0.0)))
  }

  /** The assignments of a whole pass, in row order, and the exception (if
      any) that stopped it; assignments made before it stay made. */
  function PumpPowers(rows: seq<CouplingRow>, motors: seq<Motor>, pMw: seq<real>, links: set<string>)
    : (out: (seq<PumpPower>, Option<Exception>))
  {
    if rows == [] then ([], None)
    else
      var (prev, e) := PumpPowers(rows[..|rows| - 1], motors, pMw, links);
      if e.Some? then (prev, e)
      else match RowPower(rows[|rows| - 1], motors, pMw, links)
        case Err(x) => (prev, Some(x))
        case Ok(None) => (prev, None)
        case Ok(Some(p)) => (prev + [p], None)
  }

  /** A pump-on-motor row whose motor is the only one of its name. */
  predicate DrivenPump(r: CouplingRow, motors: seq<Motor>) {
    r.waterType == "Pump" && r.powerType == "Motor" && |MotorMatches(motors, r.powerId)| == 1
  }

  /** The power a driven pump receives. */
  function DrivenPower(r: CouplingRow, motors: seq<Motor>, pMw: seq<real>): real
    requires DrivenPump(r, motors)
  {
    var k := MotorMatches(motors, r.powerId)[0];
    assert k in MotorMatches(motors, r.powerId);
    if motors[k].inService && k < |pMw| then pMw[k] * 1000.0 else 0.0
  }

  /** Every assignment goes to a pump on a motor: p_mw·1000 when the motor
      is in service and 0 when it is not. Without an exception every such
      pump gets its assignment. */
  lemma {:induction false} PumpPowersSpec(rows: seq<CouplingRow>, motors: seq<Motor>, pMw: seq<real>, links: set<string>)
    ensures forall p :: p in PumpPowers(rows, motors, pMw, links).0 ==>
      p.pump in links
      && exists j :: 0 <= j < |rows| && DrivenPump(rows[j], motors) && p.pump == rows[j].waterId
                     && p.kw == DrivenPower(rows[j], motors, pMw)
    ensures PumpPowers(rows, motors, pMw, links).1.None? ==>
      forall j :: 0 <= j < |rows| && rows[j].waterType == "Pump" && rows[j].powerType == "Motor" ==>
        DrivenPump(rows[j], motors) && PumpPower(rows[j].waterId, DrivenPower(rows[j], motors, pMw)) in PumpPowers(rows, motors, pMw, links).0
  {
    if rows != [] {
      var init := rows[..|rows| - 1];
      PumpPowersSpec(init, motors, pMw, links);
      assert forall j :: 0 <= j < |init| ==> init[j] == rows[j];
    }
  }

  lemma PumpPowersSnoc(rows: seq<CouplingRow>, i: nat, motors: seq<Motor>, pMw: seq<real>, links: set<string>)
    requires i < |rows|
    ensures PumpPowers(rows[..i + 1], motors, pMw, links) ==
      var (prev, e) := PumpPowers(rows[..i], motors, pMw, links);
      if e.Some? then (prev, e)
      else match RowPower(rows[i], motors, pMw, links)
        case Err(x) => (prev, Some(x))
        case Ok(None) => (prev, None)
        case Ok(Some(p)) => (prev + [p], None)
  {
    assert rows[..i + 1][..i] == rows[..i];
  }

  lemma {:induction false} PumpPowersStopped(rows: seq<CouplingRow>, i: nat, motors: seq<Motor>, pMw: seq<real>,
                                             links: set<string>)
    requires i <= |rows|
    requires PumpPowers(rows[..i], motors, pMw, links).1.Some?
    ensures PumpPowers(rows, motors, pMw, links) == PumpPowers(rows[..i], motors, pMw, links)
    decreases |rows| - i
  {
    if i == |rows| {
      assert rows[..i] == rows;
    } else {
      PumpPowersSnoc(rows, i, motors, pMw, links);
      PumpPowersStopped(rows, i + 1, motors, pMw, links);
    }
  }

  class OldestDependencyTable {
    var wpTable: seq<CouplingRow>
    var accessTable: seq<AccessEntry>

    constructor ()
      ensures wpTable == [] && accessTable == []
    {
      wpTable := [];
      accessTable := [];
    }

    /** `add_pump_motor_coupling`: the motor's rating and efficiency are
        not stored. */
    method AddPumpMotorCoupling(waterId: string, powerId: string, motorMw: real, pmEfficiency: real, power: PowerDict)
      returns (err: Option<Exception>)
      modifies this`wpTable
      ensures CouplingRowOf(waterId, powerId, power).Ok? ==>
        err.None? && wpTable == old(wpTable) + [CouplingRowOf(waterId, powerId, power).value]
      ensures CouplingRowOf(waterId, powerId, power).Err? ==>
        err == Some(CouplingRowOf(waterId, powerId, power).error) && wpTable == old(wpTable)
    {
      err := AppendCoupling(waterId, powerId, power);
    }

    /** `add_gen_reserv_coupling`: the generator's capacity and efficiency
        are not stored; the row is built as for a pump. */
    method AddGenReservCoupling(waterId: string, powerId: string, genMw: real, grEfficiency: real, power: PowerDict)
      returns (err: Option<Exception>)
      modifies this`wpTable
      ensures CouplingRowOf(waterId, powerId, power).Ok? ==>
        err.None? && wpTable == old(wpTable) + [CouplingRowOf(waterId, powerId, power).value]
      ensures CouplingRowOf(waterId, powerId, power).Err? ==>
        err == Some(CouplingRowOf(waterId, powerId, power).error) && wpTable == old(wpTable)
    {
      err := AppendCoupling(waterId, powerId, power);
    }

    method AppendCoupling(waterId: string, powerId: string, power: PowerDict) returns (err: Option<Exception>)
      modifies this`wpTable
      ensures CouplingRowOf(waterId, powerId, power).Ok? ==>
        err.None? && wpTable == old(wpTable) + [CouplingRowOf(waterId, powerId, power).value]
      ensures CouplingRowOf(waterId, powerId, power).Err? ==>
        err == Some(CouplingRowOf(waterId, powerId, power).error) && wpTable == old(wpTable)
    {
      var row := CouplingRowOf(waterId, powerId, power);
      if row.Err? {
        return Some(row.error);
      }
      wpTable := wpTable + [row.value];
      err := None;
    }

    /** `add_transpo_access`: one row per power or water node of the
        graph, in graph order, until a lookup fails. */
    method AddTranspoAccess(nodes: seq<(string, SimInterdependencies.NodeKind)>, power: PowerDict,
                            nearest: string -> (string, real))
      returns (err: Option<Exception>)
      modifies this`accessTable
      ensures accessTable == old(accessTable) + AccessEntries(SimInterdependencies.NodesOfInterest(nodes), power, nearest).0
      ensures err == AccessEntries(SimInterdependencies.NodesOfInterest(nodes), power, nearest).1
    {
      var targets := SimInterdependencies.NodesOfInterest(nodes);
      err := None;
      var i := 0;
      while i < |targets| && err.None?
        invariant 0 <= i <= |targets|
        invariant accessTable == old(accessTable) + AccessEntries(targets[..i], power, nearest).0
        invariant err == AccessEntries(targets[..i], power, nearest).1
        decreases |targets| - i
      {
        AccessEntriesSnoc(targets, i, power, nearest);
        var row := AccessEntryOf(targets[i], power, nearest);
        match row {
          case Err(x) => err := Some(x);
          case Ok(a) =>
            AppendAssoc(old(accessTable), AccessEntries(targets[..i], power, nearest).0, [a]);
            accessTable := accessTable + [a];
        }
        i := i + 1;
      }
      if i < |targets| {
        AccessEntriesStopped(targets, i, power, nearest);
      } else {
        assert targets[..i] == targets;
      }
    }

    /** `update_dependencies(pn, wn)`: the pump powers it assigns, in row
        order, and the exception that stopped it, if any. */
    method UpdateDependencies(motors: seq<Motor>, pMw: seq<real>, links: set<string>)
      returns (powers: seq<PumpPower>, err: Option<Exception>)
      ensures (powers, err) == PumpPowers(wpTable, motors, pMw, links)
    {
      powers := [];
      err := None;
      var i := 0;
      while i < |wpTable| && err.None?
        invariant 0 <= i <= |wpTable|
        invariant (powers, err) == PumpPowers(wpTable[..i], motors, pMw, links)
        decreases |wpTable| - i
      {
        PumpPowersSnoc(wpTable, i, motors, pMw, links);
        var p := RowPower(wpTable[i], motors, pMw, links);
        match p {
          case Err(x) => err := Some(x);
          case Ok(None) =>
          case Ok(Some(a)) => powers := powers + [a];
        }
        i := i + 1;
      }
      if i < |wpTable| {
        PumpPowersStopped(wpTable, i, motors, pMw, links);
      } else {
        assert wpTable[..i] == wpTable;
      }
    }
  }
}
