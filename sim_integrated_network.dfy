/** The bookkeeping part of the integrated network of the simulation-model
    variant (infrarisk/src/network_sim_models/integrated_network.py): the
    disruption scenario, the partition of disrupted components by
    infrastructure, the crew locations and the map extents. Loading the
    three solver models and building the graphs are outside this model. */
module SimIntegratedNetwork {
  import opened Wrappers
  import opened ComponentTables
  import opened SimInterdependencies

  /** One row of the disruption scenario file. */
  datatype Disruption = Disruption(time: int, component: string, failPerc: real)

  function ComponentsOf(events: seq<Disruption>): (cs: seq<string>)
    ensures |cs| == |events|
    ensures forall i :: 0 <= i < |events| ==> cs[i] == events[i].component
  {
    if events == [] then [] else ComponentsOf(events[..|events| - 1]) + [events[|events| - 1].component]
  }

  datatype InfraLists = InfraLists(power: seq<string>, water: seq<string>, transpo: seq<string>)

  function AddTo(p: InfraLists, infra: Infra, c: string): InfraLists {
    match infra
    case Power => p.(power := p.power + [c])
    case Water => p.(water := p.water + [c])
    case Transpo => p.(transpo := p.transpo + [c])
  }

  function ListOf(p: InfraLists, infra: Infra): seq<string> {
    match infra
    case Power => p.power
    case Water => p.water
    case Transpo => p.transpo
  }

  /** The infrastructure a component name belongs to, or the exception
      that reading `get_compon_details(name)[0]` raises. */
  function Classified(c: string, water: Table): Result<Infra> {
    match GetComponDetails(c, water)
    case Err(e) => Err(e)
    case Ok(Unknown(_)) => Err(TypeError)
    case Ok(Found(d)) => Ok(d.infra)
  }

  /** The classification `set_disrupted_infra_dict` uses in this variant. */
  function Classifier(water: Table): string -> Result<Infra> {
    c => Classified(c, water)
  }

  /** `set_disrupted_infra_dict`, read as a whole: components in order,
      each appended to the list of the infrastructure `classify` gives it;
      the first one it rejects raises. */
  function Partition(cs: seq<string>, classify: string -> Result<Infra>): Result<InfraLists> {
    if cs == [] then Ok(InfraLists([], [], []))
    else
      match Partition(cs[..|cs| - 1], classify)
      case Err(e) => Err(e)
      case Ok(p) =>
        match classify(cs[|cs| - 1])
        case Err(e) => Err(e)
        case Ok(infra) => Ok(AddTo(p, infra, cs[|cs| - 1]))
  }

  /** An independent reading of the partition: the components classified
      as `infra`, in their original order. */
  function OfInfra(cs: seq<string>, infra: Infra, classify: string -> Result<Infra>): (r: seq<string>)
    ensures forall c :: c in r ==> c in cs
  {
    if cs == [] then []
    else
      var rest := OfInfra(cs[..|cs| - 1], infra, classify);
      var c := cs[|cs| - 1];
      if classify(c) == Ok(infra) then rest + [c] else rest
  }

  predicate AllKnown(cs: seq<string>, classify: string -> Result<Infra>) {
    forall i :: 0 <= i < |cs| ==> classify(cs[i]).Ok?
  }

  /** The partition succeeds exactly when every component is known. */
  lemma {:induction false} PartitionOk(cs: seq<string>, classify: string -> Result<Infra>)
    ensures Partition(cs, classify).Ok? <==> AllKnown(cs, classify)
  {
    if cs != [] {
      var init := cs[..|cs| - 1];
      var c := cs[|cs| - 1];
      PartitionOk(init, classify);
      assert AllKnown(cs, classify) <==> AllKnown(init, classify) && classify(c).Ok? by {
        if AllKnown(cs, classify) {
          forall i | 0 <= i < |init| ensures classify(init[i]).Ok? {
            assert init[i] == cs[i];
          }
        }
        if AllKnown(init, classify) && classify(c).Ok? {
          forall i | 0 <= i < |cs| ensures classify(cs[i]).Ok? {
            if i < |init| {
              assert cs[i] == init[i];
            }
          }
        }
      }
    }
  }

  /** A successful partition sends each component to the list of its own
      infrastructure, order kept. */
  lemma {:induction false} PartitionIsFilter(cs: seq<string>, classify: string -> Result<Infra>)
    requires Partition(cs, classify).Ok?
    ensures Partition(cs, classify).value.power == OfInfra(cs, Power, classify)
    ensures Partition(cs, classify).value.water == OfInfra(cs, Water, classify)
    ensures Partition(cs, classify).value.transpo == OfInfra(cs, Transpo, classify)
  {
    if cs != [] {
      PartitionIsFilter(cs[..|cs| - 1], classify);
    }
  }

  /** ... and to no other list: the three lists together hold exactly the
      disrupted components. */
  lemma {:induction false} PartitionCovers(cs: seq<string>, classify: string -> Result<Infra>)
    requires Partition(cs, classify).Ok?
    ensures Union(Partition(cs, classify).value) == multiset(cs)
  {
    if cs != [] {
      var init := cs[..|cs| - 1];
      PartitionCovers(init, classify);
      assert cs == init + [cs[|cs| - 1]];
      AddToCovers(Partition(init, classify).value, classify(cs[|cs| - 1]).value, cs[|cs| - 1]);
    }
  }

  /** Once a prefix fails, so does the whole list, with the same error. */
  lemma {:induction false} PartitionStopped(cs: seq<string>, i: nat, classify: string -> Result<Infra>)
    requires 0 < i <= |cs|
    requires Partition(cs[..i], classify).Err?
    ensures Partition(cs, classify) == Partition(cs[..i], classify)
    decreases |cs| - i
  {
    if i == |cs| {
      assert cs[..i] == cs;
    } else {
      assert cs[..i + 1][..i] == cs[..i];
      PartitionStopped(cs, i + 1, classify);
    }
  }

  /** The loop of `set_disrupted_infra_dict`: components in order, each
      appended to the list of its infrastructure; the first one `classify`
      rejects ends the loop with its error. */
  method PartitionLoop(cs: seq<string>, classify: string -> Result<Infra>) returns (r: Result<InfraLists>)
    ensures r == Partition(cs, classify)
  {
    var acc := InfraLists([], [], []);
    var i := 0;
    while i < |cs|
      invariant 0 <= i <= |cs|
      invariant Partition(cs[..i], classify) == Ok(acc)
    {
      assert cs[..i + 1][..i] == cs[..i];
      match classify(cs[i]) {
        case Err(e) =>
          PartitionStopped(cs, i + 1, classify);
          return Err(e);
        case Ok(infra) =>
          acc := AddTo(acc, infra, cs[i]);
      }
      i := i + 1;
    }
    assert cs[..i] == cs;
    r := Ok(acc);
  }

  function Union(p: InfraLists): multiset<string> {
    multiset(p.power) + multiset(p.water) + multiset(p.transpo)
  }

  lemma AddToCovers(p: InfraLists, infra: Infra, c: string)
    ensures Union(AddTo(p, infra, c)) == Union(p) + multiset{c}
  {
  }

  class IntegratedNetwork {
    const water: Table
    var disruptiveEvents: seq<Disruption>
    /** Whether `disruptive_events` has been assigned: `__init__` leaves it
        unset, so reading it before a scenario file was read fails. */
    var scenarioRead: bool
    var disruptedComponents: seq<string>
    var disruptedInfra: InfraLists
    var initPowerCrewLoc: string
    var initWaterCrewLoc: string
    var initTranspoCrewLoc: string
    var powerCrewLoc: string
    var waterCrewLoc: string
    var transpoCrewLoc: string
    /** `tn.link[name].freeFlowTime` and `tn.link[name].fft_base`. */
    var freeFlowTime: map<string, real>
    var fftBase: map<string, real>
    var mapExtends: ((real, real), (real, real))

    constructor (water: Table, fftBase: map<string, real>)
      ensures this.water == water && this.fftBase == fftBase && freeFlowTime == fftBase
      ensures !scenarioRead
      ensures disruptiveEvents == [] && disruptedComponents == [] && disruptedInfra == InfraLists([], [], [])
    {
      this.water := water;
      this.fftBase := fftBase;
      freeFlowTime := fftBase;
      disruptiveEvents := [];
      scenarioRead := false;
      disruptedComponents := [];
      disruptedInfra := InfraLists([], [], []);
      initPowerCrewLoc, initWaterCrewLoc, initTranspoCrewLoc := "", "", "";
      powerCrewLoc, waterCrewLoc, transpoCrewLoc := "", "", "";
      mapExtends := ((0.0, 0.0), (0.0, 0.0));
    }

    /** `copy.deepcopy`: a fresh network with the same state. */
    method Clone() returns (n: IntegratedNetwork)
      ensures fresh(n)
      ensures n.water == water && n.disruptiveEvents == disruptiveEvents && n.scenarioRead == scenarioRead
      ensures n.disruptedComponents == disruptedComponents && n.disruptedInfra == disruptedInfra
      ensures n.initPowerCrewLoc == initPowerCrewLoc && n.initWaterCrewLoc == initWaterCrewLoc
      ensures n.initTranspoCrewLoc == initTranspoCrewLoc
      ensures n.powerCrewLoc == powerCrewLoc && n.waterCrewLoc == waterCrewLoc && n.transpoCrewLoc == transpoCrewLoc
      ensures n.freeFlowTime == freeFlowTime && n.fftBase == fftBase && n.mapExtends == mapExtends
    {
      n := new IntegratedNetwork(water, fftBase);
      n.disruptiveEvents := disruptiveEvents;
      n.scenarioRead := scenarioRead;
      n.disruptedComponents := disruptedComponents;
      n.disruptedInfra := disruptedInfra;
      n.initPowerCrewLoc, n.initWaterCrewLoc, n.initTranspoCrewLoc := initPowerCrewLoc, initWaterCrewLoc, initTranspoCrewLoc;
      n.powerCrewLoc, n.waterCrewLoc, n.transpoCrewLoc := powerCrewLoc, waterCrewLoc, transpoCrewLoc;
      n.freeFlowTime := freeFlowTime;
      n.mapExtends := mapExtends;
    }

    /** `set_disrupted_components` with the scenario file already read
        (`None` is a missing file, reported, after which the previously
        stored scenario is used again, and an AttributeError raised when
        there is none), followed by the partition. */
    method SetDisruptedComponents(file: Option<seq<Disruption>>) returns (r: Result<()>)
      modifies this`disruptiveEvents, this`scenarioRead, this`disruptedComponents, this`disruptedInfra
      ensures file.None? && !old(scenarioRead) ==>
        r == Err(AttributeError) && disruptiveEvents == old(disruptiveEvents) && !scenarioRead
        && disruptedComponents == old(disruptedComponents) && disruptedInfra == old(disruptedInfra)
      ensures file.Some? || old(scenarioRead) ==>
        scenarioRead
        && disruptiveEvents == (if file.Some? then file.value else old(disruptiveEvents))
        && disruptedComponents == ComponentsOf(disruptiveEvents)
        && r == (if Partition(disruptedComponents, Classifier(water)).Ok? then Ok(()) else Err(Partition(disruptedComponents, Classifier(water)).error))
        && (r.Ok? ==> disruptedInfra == Partition(disruptedComponents, Classifier(water)).value)
        && (r.Err? ==> disruptedInfra == old(disruptedInfra))
    {
      if file.Some? {
        disruptiveEvents := file.value;
        scenarioRead := true;
      } else if !scenarioRead {
        return Err(AttributeError);
      }
      disruptedComponents := ComponentsOf(disruptiveEvents);
      r := SetDisruptedInfraDict();
    }

    /** `set_disrupted_infra_dict`: the dictionary is stored only once
        every component has been placed. */
    method SetDisruptedInfraDict() returns (r: Result<()>)
      modifies this`disruptedInfra
      ensures r == (if Partition(disruptedComponents, Classifier(water)).Ok? then Ok(()) else Err(Partition(disruptedComponents, Classifier(water)).error))
      ensures r.Ok? ==> disruptedInfra == Partition(disruptedComponents, Classifier(water)).value
      ensures r.Err? ==> disruptedInfra == old(disruptedInfra)
    {
      var p := PartitionLoop(disruptedComponents, Classifier(water));
      match p {
        case Err(e) =>
          return Err(e);
        case Ok(lists) =>
          disruptedInfra := lists;
          r := Ok(());
      }
    }

    /** `set_init_crew_locs`: the offices become both the initial and the
        current crew locations. */
    method SetInitCrewLocs(power: string, water: string, transpo: string)
      modifies this`initPowerCrewLoc, this`initWaterCrewLoc, this`initTranspoCrewLoc
      modifies this`powerCrewLoc, this`waterCrewLoc, this`transpoCrewLoc
      ensures initPowerCrewLoc == power && initWaterCrewLoc == water && initTranspoCrewLoc == transpo
      ensures powerCrewLoc == power && waterCrewLoc == water && transpoCrewLoc == transpo
    {
      initPowerCrewLoc, initWaterCrewLoc, initTranspoCrewLoc := power, water, transpo;
      powerCrewLoc, waterCrewLoc, transpoCrewLoc := initPowerCrewLoc, initWaterCrewLoc, initTranspoCrewLoc;
    }

    /** `reset_crew_locs`: every crew goes back to its initial location. */
    method ResetCrewLocs()
      modifies this`powerCrewLoc, this`waterCrewLoc, this`transpoCrewLoc
      ensures powerCrewLoc == initPowerCrewLoc && waterCrewLoc == initWaterCrewLoc && transpoCrewLoc == initTranspoCrewLoc
    {
      powerCrewLoc, waterCrewLoc, transpoCrewLoc := initPowerCrewLoc, initWaterCrewLoc, initTranspoCrewLoc;
    }

    method SetPowerCrewLoc(loc: string)
      modifies this`powerCrewLoc
      ensures powerCrewLoc == loc
    {
      powerCrewLoc := loc;
    }

    method SetWaterCrewLoc(loc: string)
      modifies this`waterCrewLoc
      ensures waterCrewLoc == loc
    {
      waterCrewLoc := loc;
    }

    method SetTranspoCrewLoc(loc: string)
      modifies this`transpoCrewLoc
      ensures transpoCrewLoc == loc
    {
      transpoCrewLoc := loc;
    }

    method GetPowerCrewLoc() returns (loc: string)
      ensures loc == powerCrewLoc
    {
      loc := powerCrewLoc;
    }

    method GetWaterCrewLoc() returns (loc: string)
      ensures loc == waterCrewLoc
    {
      loc := waterCrewLoc;
    }

    method GetTranspoCrewLoc() returns (loc: string)
      ensures loc == transpoCrewLoc
    {
      loc := transpoCrewLoc;
    }

    /** `set_map_extends`: the corners are the minimum and the maximum of
        the node coordinates; an empty graph makes `min` raise. */
    method SetMapExtends(coords: seq<(real, real)>) returns (r: Result<()>)
      modifies this`mapExtends
      ensures r.Ok? <==> coords != []
      ensures r.Ok? ==> MapExtendsOf(coords, mapExtends)
      ensures r.Err? ==> mapExtends == old(mapExtends)
    {
      if coords == [] {
        return Err(ValueError);
      }
      mapExtends := BoundingBox(coords);
      r := Ok(());
    }
  }

  /** The smallest box holding every coordinate: the minimum and the
      maximum of each axis, the computation both variants of
      `set_map_extends` start from. */
  method BoundingBox(coords: seq<(real, real)>) returns (box: ((real, real), (real, real)))
    requires coords != []
    ensures MapExtendsOf(coords, box)
  {
    var lo, hi := coords[0], coords[0];
    ghost var a, b, c, d := 0, 0, 0, 0;
    var i := 1;
    while i < |coords|
      invariant 1 <= i <= |coords|
      invariant forall k :: 0 <= k < i ==> lo.0 <= coords[k].0 <= hi.0 && lo.1 <= coords[k].1 <= hi.1
      invariant 0 <= a < i && 0 <= b < i && 0 <= c < i && 0 <= d < i
      invariant coords[a].0 == lo.0 && coords[b].1 == lo.1 && coords[c].0 == hi.0 && coords[d].1 == hi.1
    {
      var (x, y) := coords[i];
      if x < lo.0 { lo := (x, lo.1); a := i; }
      if y < lo.1 { lo := (lo.0, y); b := i; }
      if x > hi.0 { hi := (x, hi.1); c := i; }
      if y > hi.1 { hi := (hi.0, y); d := i; }
      i := i + 1;
    }
    box := (lo, hi);
  }

  /** Every coordinate lies within the box, and each side of the box is
      attained by some coordinate. */
  ghost predicate MapExtendsOf(coords: seq<(real, real)>, box: ((real, real), (real, real))) {
    (forall i :: 0 <= i < |coords| ==> box.0.0 <= coords[i].0 <= box.1.0 && box.0.1 <= coords[i].1 <= box.1.1)
    && (exists i :: 0 <= i < |coords| && coords[i].0 == box.0.0)
    && (exists i :: 0 <= i < |coords| && coords[i].1 == box.0.1)
    && (exists i :: 0 <= i < |coords| && coords[i].0 == box.1.0)
    && (exists i :: 0 <= i < |coords| && coords[i].1 == box.1.1)
  }
}
