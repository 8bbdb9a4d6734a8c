/** The parts of the water network model (infrarisk/src/physical/water/
    water_network_model.py) that are not hydraulics: the solver options set
    on loading, the allowable level band of each tank, and the discharge
    junction and pipe added to each tank when the cyber layer is on. The
    network is reduced to its named nodes and links; tanks carry the three
    numbers the band is computed from. The older copies
    dreaminsg_integrated_model/src/network_sim_models/water/
    water_network_model.py and dreaminsg_integrated_model/
    network_sim_models/water/water_network_model.py only set the options. */
module WaterNetwork {
  import opened Wrappers
  import opened Text

  // ---------------------------------------------------------------------
  // Solver options set on loading

  /** `wn.options`: the three time steps in seconds, the demand model and
      the pressure bounds (`None` where the loader leaves the solver's
      default). */
  datatype Options = Options(duration: int, reportTimestep: int, hydraulicTimestep: int,
                             demandModel: string, requiredPressure: Option<real>,
                             minimumPressure: Option<real>)

  /** `load_water_network(network_inp, water_sim_type, initial_sim_step)`:
      the demand model is the one asked for, valid or not; only a message
      says that it is neither `DDA` nor `PDA`. */
  function LoadOptions(simType: string, initialStep: int): (o: Options)
    ensures o.duration == o.reportTimestep == o.hydraulicTimestep == initialStep
    ensures o.demandModel == simType
    ensures o.requiredPressure == Some(30.0) && o.minimumPressure == Some(0.0)
  {
    Options(initialStep, initialStep, initialStep, simType, Some(30.0), Some(0.0))
  }

  /** Whether loading prints that the simulation type is not valid. */
  predicate ReportsInvalidType(simType: string) {
    simType != "DDA" && simType != "PDA"
  }

  /** The older loaders always ask for pressure-dependent demand and leave
      the pressure bounds alone. */
  function LoadOptionsOld(initialStep: int): (o: Options)
    ensures o.duration == o.reportTimestep == o.hydraulicTimestep == initialStep
    ensures o.demandModel == "PDA" && !ReportsInvalidType(o.demandModel)
    ensures o.requiredPressure == None && o.minimumPressure == None
  {
    Options(initialStep, initialStep, initialStep, "PDA", None, None)
  }

  // ---------------------------------------------------------------------
  // Tank level bands

  /** A tank node: its elevation and its minimum and maximum level. */
  datatype Node = Tank(elevation: real, minLevel: real, maxLevel: real) | Junction(elevation: real) | OtherNode

  /** What `set_tank_levels` stores for a tank: the absolute band, the
      allowable band inside it, the tolerance and the initial level. */
  datatype TankLevels = TankLevels(absLow: real, absHigh: real, allowLow: real, allowHigh: real,
                                   tolerance: real, initialLevel: real)

  /** The levels of a tank; `round2` is Python's `round(x, 2)` on floats,
      which the model does not spell out. */
  function Levels(elevation: real, minLevel: real, maxLevel: real, tolerance: real, round2: real -> real): TankLevels {
    var absLow := round2(elevation + minLevel);
    var absHigh := round2(elevation + maxLevel);
    TankLevels(absLow, absHigh, absLow + tolerance, absHigh - tolerance, tolerance, round2(elevation) + minLevel)
  }

  /** The allowable band is the absolute band narrowed by the tolerance on
      both ends, so it lies within the absolute band for a non-negative
      tolerance, and is exactly the absolute band for a zero one. */
  lemma AllowWithinAbsolute(elevation: real, minLevel: real, maxLevel: real, tolerance: real, round2: real -> real)
    requires tolerance >= 0.0
    ensures var l := Levels(elevation, minLevel, maxLevel, tolerance, round2);
      l.absLow <= l.allowLow && l.allowHigh <= l.absHigh
      && l.allowLow - l.absLow == l.absHigh - l.allowHigh == tolerance
      && (tolerance == 0.0 ==> l.allowLow == l.absLow && l.allowHigh == l.absHigh)
  {
  }

  /** The tolerance the cyber layer uses: 15% of the tank's level range. */
  function CyberTolerance(minLevel: real, maxLevel: real): (t: real)
    ensures minLevel <= maxLevel ==> 0.0 <= t && 2.0 * t <= maxLevel - minLevel
  {
    0.15 * (maxLevel - minLevel)
  }

  /** Without rounding, the cyber layer's allowable band of a tank whose
      minimum level is below its maximum is a non-empty band strictly
      inside the absolute one. */
  lemma CyberBandInside(elevation: real, minLevel: real, maxLevel: real, round2: real -> real)
    requires minLevel < maxLevel
    requires round2(elevation + minLevel) == elevation + minLevel
    requires round2(elevation + maxLevel) == elevation + maxLevel
    ensures var l := Levels(elevation, minLevel, maxLevel, CyberTolerance(minLevel, maxLevel), round2);
      l.absLow < l.allowLow < l.allowHigh < l.absHigh
  {
  }

  // ---------------------------------------------------------------------
  // Discharge pipes

  /** The tank number in a tank id: `tank_id.split("W_T")[1]`. */
  function DischargeIndex(tankId: string): Result<string> {
    SecondPiece(tankId, "W_T")
  }

  function DischargeJunctionName(index: string): string {
    "W_JDP" + index
  }

  function DischargePipeName(index: string): string {
    "W_PDP" + index
  }

  /** A tank named `W_T` and a number gets the discharge junction and pipe
      of that number; a tank whose name does not hold `W_T` has none. */
  lemma DischargeNames(n: nat)
    ensures DischargeIndex("W_T" + NatToString(n)) == Ok(NatToString(n))
    ensures DischargePipeName(NatToString(n)) == "W_PDP" + NatToString(n)
  {
    var s := NatToString(n);
    assert 'W' !in s by {
      assert forall i :: 0 <= i < |s| ==> IsDigit(s[i]);
    }
    SecondPieceAfterPrefix("W_T", s);
  }

  lemma NoDischargeIndex(tankId: string)
    requires 'W' !in tankId
    ensures DischargeIndex(tankId) == Err(IndexError)
  {
    SecondPieceMissing(tankId, "W_T");
  }

  /** The discharge junction and the discharge pipe of a tank never share
      a name, and tanks with different numbers get different pipes. */
  lemma DischargeNamesDistinct(i: string, j: string)
    ensures DischargeJunctionName(i) != DischargePipeName(j)
    ensures DischargePipeName(i) == DischargePipeName(j) ==> i == j
  {
    assert DischargeJunctionName(i)[2] == 'J' && DischargePipeName(j)[2] == 'P';
    if DischargePipeName(i) == DischargePipeName(j) {
      assert i == DischargePipeName(i)[5..];
      assert j == DischargePipeName(j)[5..];
    }
  }

  /** A link: its two end nodes. */
  datatype Link = Link(start: string, end: string)

  class WaterNetworkModel {
    var nodes: map<string, Node>
    var links: map<string, Link>
    /** `wn.tank_level_dict`: `None` is a tank's empty dictionary. */
    var tankLevelDict: map<string, Option<TankLevels>>

    constructor (nodes: map<string, Node>, links: map<string, Link>)
      ensures this.nodes == nodes && this.links == links && tankLevelDict == map[]
    {
      this.nodes := nodes;
      this.links := links;
      tankLevelDict := map[];
    }

    /** `set_tank_levels`: a KeyError when the tank is not a node or has no
        entry in `tank_level_dict`, an AttributeError when the node is not
        a tank. */
    method SetTankLevels(tankId: string, tolerance: real, round2: real -> real) returns (r: Result<()>)
      modifies this
      ensures nodes == old(nodes) && links == old(links)
      ensures r.Ok? <==> tankId in nodes && nodes[tankId].Tank? && tankId in old(tankLevelDict)
      ensures r.Ok? ==> tankLevelDict == old(tankLevelDict)[tankId :=
                Some(Levels(nodes[tankId].elevation, nodes[tankId].minLevel, nodes[tankId].maxLevel, tolerance, round2))]
      ensures r.Err? ==> tankLevelDict == old(tankLevelDict)
      ensures r.Err? ==> r.error == (if tankId in nodes && !nodes[tankId].Tank? then AttributeError else KeyError)
    {
      if tankId !in nodes {
        return Err(KeyError);
      }
      var tank := nodes[tankId];
      if !tank.Tank? {
        return Err(AttributeError);
      }
      if tankId !in tankLevelDict {
        return Err(KeyError);
      }
      tankLevelDict := tankLevelDict[tankId := Some(Levels(tank.elevation, tank.minLevel, tank.maxLevel, tolerance, round2))];
      r := Ok(());
    }

    /** `add_discharge_pipe`: the junction `W_JDP{i}` at the given elevation
        and the pipe `W_PDP{i}` from the tank to it, where `i` is the
        tank's number; a name already in use is a ValueError. */
    method AddDischargePipe(tankId: string, elevation: real) returns (r: Result<()>)
      modifies this
      ensures tankLevelDict == old(tankLevelDict)
      ensures r.Ok? <==> tankId in old(nodes) && DischargeIndex(tankId).Ok?
                         && DischargeJunctionName(DischargeIndex(tankId).value) !in old(nodes)
                         && DischargePipeName(DischargeIndex(tankId).value) !in old(links)
      ensures r.Ok? ==>
        var i := DischargeIndex(tankId).value;
        nodes == old(nodes)[DischargeJunctionName(i) := Junction(elevation)]
        && links == old(links)[DischargePipeName(i) := Link(tankId, DischargeJunctionName(i))]
      ensures r.Err? ==> nodes == old(nodes) && links == old(links)
    {
      if tankId !in nodes {
        return Err(KeyError);
      }
      var index := DischargeIndex(tankId);
      if index.Err? {
        return Err(index.error);
      }
      var junction := DischargeJunctionName(index.value);
      var pipe := DischargePipeName(index.value);
      if junction in nodes {
        return Err(ValueError);
      }
      if pipe in links {
        return Err(ValueError);
      }
      nodes := nodes[junction := Junction(elevation)];
      links := links[pipe := Link(tankId, junction)];
      r := Ok(());
    }
  }

  /** Tank `t` has its band with the cyber tolerance and its discharge
      pipe. */
  predicate TankEquipped(nodes: map<string, Node>, links: map<string, Link>,
                         dict: map<string, Option<TankLevels>>, t: string, round2: real -> real)
  {
    t in nodes && nodes[t].Tank? && t in dict && DischargeIndex(t).Ok?
    && dict[t] == Some(Levels(nodes[t].elevation, nodes[t].minLevel, nodes[t].maxLevel,
                              CyberTolerance(nodes[t].minLevel, nodes[t].maxLevel), round2))
    && DischargePipeName(DischargeIndex(t).value) in links
    && links[DischargePipeName(DischargeIndex(t).value)].start == t
  }

  /** `b` keeps every entry of `a`. */
  ghost predicate Extends<K, V>(a: map<K, V>, b: map<K, V>) {
    forall k :: k in a ==> k in b && b[k] == a[k]
  }

  /** Adding nodes and links, and storing the levels of another tank or
      the same levels again, keeps a tank equipped. */
  lemma EquippedKept(nodes: map<string, Node>, links: map<string, Link>, dict: map<string, Option<TankLevels>>,
                     nodes': map<string, Node>, links': map<string, Link>, u: string, v: Option<TankLevels>,
                     t: string, round2: real -> real)
    requires TankEquipped(nodes, links, dict, t, round2)
    requires Extends(nodes, nodes') && Extends(links, links')
    requires u == t ==> v == dict[t]
    ensures TankEquipped(nodes', links', dict[u := v], t, round2)
  {
  }

  /** The first `i + 1` tanks are equipped once tank `i` is and nothing
      of the first `i` was lost. */
  lemma EquippedPrefix(nodes: map<string, Node>, links: map<string, Link>, dict: map<string, Option<TankLevels>>,
                       nodes': map<string, Node>, links': map<string, Link>, dict': map<string, Option<TankLevels>>,
                       tanks: seq<string>, i: nat, round2: real -> real)
    requires i < |tanks|
    requires forall k :: 0 <= k < i ==> TankEquipped(nodes, links, dict, tanks[k], round2)
    requires Extends(nodes, nodes') && Extends(links, links')
    requires tanks[i] in dict && tanks[i] in dict' && dict' == dict[tanks[i] := dict'[tanks[i]]]
    requires TankEquipped(nodes, links, dict, tanks[i], round2) ==> dict'[tanks[i]] == dict[tanks[i]]
    requires TankEquipped(nodes', links', dict', tanks[i], round2)
    ensures forall k :: 0 <= k < i + 1 ==> TankEquipped(nodes', links', dict', tanks[k], round2)
  {
    forall k | 0 <= k < i
      ensures TankEquipped(nodes', links', dict', tanks[k], round2)
    {
      EquippedKept(nodes, links, dict, nodes', links', tanks[i], dict'[tanks[i]], tanks[k], round2);
    }
  }

  /** One round of the loop in `load_water_network`: the band of tank `t`
      with the 15% tolerance, then its discharge pipe at the top of the
      allowable band. */
  method EquipTank(wn: WaterNetworkModel, t: string, round2: real -> real) returns (r: Result<()>)
    requires t in wn.nodes && wn.nodes[t].Tank? && t in wn.tankLevelDict
    modifies wn
    ensures r.Ok? ==> TankEquipped(wn.nodes, wn.links, wn.tankLevelDict, t, round2)
    ensures wn.tankLevelDict.Keys == old(wn.tankLevelDict.Keys)
    ensures wn.tankLevelDict == old(wn.tankLevelDict)[t := wn.tankLevelDict[t]]
    ensures old(TankEquipped(wn.nodes, wn.links, wn.tankLevelDict, t, round2)) ==>
              wn.tankLevelDict[t] == old(wn.tankLevelDict[t])
    ensures Extends(old(wn.nodes), wn.nodes) && Extends(old(wn.links), wn.links)
    ensures r.Err? ==> wn.nodes == old(wn.nodes) && wn.links == old(wn.links)
  {
    var tank := wn.nodes[t];
    var tolerance := CyberTolerance(tank.minLevel, tank.maxLevel);
    r := wn.SetTankLevels(t, tolerance, round2);
    var allowHigh := Levels(tank.elevation, tank.minLevel, tank.maxLevel, tolerance, round2).allowHigh;
    r := wn.AddDischargePipe(t, allowHigh);
    if r.Ok? {
      var i := DischargeIndex(t).value;
      DischargeNamesDistinct(i, i);
    }
  }

  /** The cyber-layer branch of `load_water_network`: every tank gets an
      empty level dictionary, then, tank by tank, its level band and its
      discharge pipe. An error stops the loading. */
  method EquipTanks(wn: WaterNetworkModel, tanks: seq<string>, round2: real -> real) returns (r: Result<()>)
    requires forall t :: t in tanks ==> t in wn.nodes && wn.nodes[t].Tank?
    modifies wn
    ensures r.Ok? ==> forall t :: t in tanks ==> TankEquipped(wn.nodes, wn.links, wn.tankLevelDict, t, round2)
    ensures wn.tankLevelDict.Keys == set t | t in tanks
  {
    wn.tankLevelDict := map t | t in tanks :: None;
    var i := 0;
    while i < |tanks|
      invariant 0 <= i <= |tanks|
      invariant wn.tankLevelDict.Keys == set t | t in tanks
      invariant forall t :: t in tanks ==> t in wn.nodes && wn.nodes[t].Tank?
      invariant forall k :: 0 <= k < i ==> TankEquipped(wn.nodes, wn.links, wn.tankLevelDict, tanks[k], round2)
    {
      var t := tanks[i];
      ghost var nodes0, links0, dict0 := wn.nodes, wn.links, wn.tankLevelDict;
      r := EquipTank(wn, t, round2);
      if r.Err? {
        return;
      }
      EquippedPrefix(nodes0, links0, dict0, wn.nodes, wn.links, wn.tankLevelDict, tanks, i, round2);
      i := i + 1;
    }
    r := Ok(());
  }
}
