/** The bookkeeping part of the integrated network of the older package
    (dreaminsg_integrated_model/src/network_sim_models/integrated_network.py):
    the disruption scenario, its partition by infrastructure and the crew
    locations. An attribute the source has not yet assigned is `None`
    here; reading it is the `AttributeError` Python raises. Loading the
    solver models and building the graphs are outside this model. */
module OldIntegratedNetwork {
  import opened Wrappers
  import opened ComponentTables
  import opened SimInterdependencies
  import opened SimIntegratedNetwork
  import OldInterdependencies

  /** The six crew-location attributes. */
  datatype CrewLocs = CrewLocs(
    initPower: Option<string>, initWater: Option<string>, initTranspo: Option<string>,
    power: Option<string>, water: Option<string>, transpo: Option<string>)

  /** Reading an attribute. */
  function Read(a: Option<string>): (r: Result<string>)
    ensures r.Ok? <==> a.Some?
    ensures r.Ok? ==> r.value == a.value
    ensures r.Err? ==> r.error == AttributeError
  {
    if a.Some? then Ok(a.value) else Err(AttributeError)
  }

  /** `set_init_crew_locs` as written: the transport office is stored in
      the water crew's attribute, overwriting the water office, and the
      transport crew's attributes are never assigned. */
  function InitAsWritten(s: CrewLocs, p: string, w: string, t: string): CrewLocs {
    var initWater := Some(t);
    s.(initPower := Some(p), initWater := initWater, power := Some(p), water := initWater)
  }

  /** `set_init_crew_locs` as evidently intended: each office is the
      initial and the current location of its own crew. */
  function Init(s: CrewLocs, p: string, w: string, t: string): CrewLocs {
    CrewLocs(Some(p), Some(w), Some(t), Some(p), Some(w), Some(t))
  }

  /** `reset_crew_locs` as written: the transport crew is left where it is. */
  function ResetAsWritten(s: CrewLocs): CrewLocs {
    s.(power := s.initPower, water := s.initWater)
  }

  /** `reset_crew_locs` as evidently intended. */
  function Reset(s: CrewLocs): CrewLocs {
    s.(power := s.initPower, water := s.initWater, transpo := s.initTranspo)
  }

  /** The current location of one crew. */
  function CurrentOf(s: CrewLocs, infra: Infra): Option<string> {
    match infra
    case Power => s.power
    case Water => s.water
    case Transpo => s.transpo
  }

  /** The office of one crew. */
  function OfficeOf(s: CrewLocs, infra: Infra): Option<string> {
    match infra
    case Power => s.initPower
    case Water => s.initWater
    case Transpo => s.initTranspo
  }

  /** `set_power_crew_loc`, `set_water_crew_loc`, `set_transpo_crew_loc`. */
  function Moved(s: CrewLocs, infra: Infra, loc: string): CrewLocs {
    match infra
    case Power => s.(power := Some(loc))
    case Water => s.(water := Some(loc))
    case Transpo => s.(transpo := Some(loc))
  }

  /** The office given for water is lost and the transport crew has no
      location at all unless one was stored earlier: as written, the water
      crew starts at the transport office. */
  lemma InitAsWrittenMisplaces(s: CrewLocs, p: string, w: string, t: string)
    ensures Read(CurrentOf(InitAsWritten(s, p, w, t), Water)) == Ok(t)
    ensures Read(OfficeOf(InitAsWritten(s, p, w, t), Water)) == Ok(t)
    ensures CurrentOf(InitAsWritten(s, p, w, t), Transpo) == s.transpo
    ensures s.transpo == None ==> Read(CurrentOf(InitAsWritten(s, p, w, t), Transpo)) == Err(AttributeError)
    ensures Read(CurrentOf(InitAsWritten(s, p, w, t), Power)) == Ok(p)
  {
  }

  /** After the intended initialisation every crew stands at its own
      office and every location can be read. */
  lemma InitPlacesEveryCrew(s: CrewLocs, p: string, w: string, t: string)
    ensures Read(CurrentOf(Init(s, p, w, t), Power)) == Ok(p)
    ensures Read(CurrentOf(Init(s, p, w, t), Water)) == Ok(w)
    ensures Read(CurrentOf(Init(s, p, w, t), Transpo)) == Ok(t)
    ensures forall i :: CurrentOf(Init(s, p, w, t), i) == OfficeOf(Init(s, p, w, t), i)
  {
  }

  /** Resetting sends every crew back to its office, keeps the offices,
      and a second reset changes nothing. */
  lemma ResetReturnsHome(s: CrewLocs)
    ensures forall i :: CurrentOf(Reset(s), i) == OfficeOf(s, i)
    ensures forall i :: OfficeOf(Reset(s), i) == OfficeOf(s, i)
    ensures Reset(Reset(s)) == Reset(s)
  {
  }

  /** Any number of moves between initialisation and reset leave no trace. */
  lemma {:induction false} ResetUndoesMoves(s: CrewLocs, moves: seq<(Infra, string)>)
    ensures Reset(MovedAll(s, moves)) == Reset(s)
    decreases |moves|
  {
    if moves != [] {
      var init := moves[..|moves| - 1];
      ResetUndoesMoves(s, init);
      var last := moves[|moves| - 1];
      MovedKeepsOffices(MovedAll(s, init), last.0, last.1);
    }
  }

  /** The same as written: the transport crew keeps its last move. */
  lemma ResetAsWrittenKeepsTranspo(s: CrewLocs, loc: string)
    ensures CurrentOf(ResetAsWritten(Moved(s, Transpo, loc)), Transpo) == Some(loc)
    ensures ResetAsWritten(s) == Reset(s) <==> s.transpo == s.initTranspo
  {
  }

  function MovedAll(s: CrewLocs, moves: seq<(Infra, string)>): CrewLocs
    decreases |moves|
  {
    if moves == [] then s
    else
      var last := moves[|moves| - 1];
      Moved(MovedAll(s, moves[..|moves| - 1]), last.0, last.1)
  }

  lemma MovedKeepsOffices(s: CrewLocs, infra: Infra, loc: string)
    ensures Reset(Moved(s, infra, loc)) == Reset(s)
  {
  }

  /** A setter followed by the matching getter returns what was set, and
      the other crews' locations are untouched. */
  lemma MovedRoundTrip(s: CrewLocs, infra: Infra, loc: string)
    ensures Read(CurrentOf(Moved(s, infra, loc), infra)) == Ok(loc)
    ensures forall j :: j != infra ==> CurrentOf(Moved(s, infra, loc), j) == CurrentOf(s, j)
    ensures forall j :: OfficeOf(Moved(s, infra, loc), j) == OfficeOf(s, j)
  {
  }

  /** The partition of this package never fills the transport list,
      because its lookup knows only the power and water prefixes. */
  lemma {:induction false} NoTranspoDisrupted(cs: seq<string>, power: Table)
    requires Partition(cs, OldInterdependencies.OldClassifier(power)).Ok?
    ensures Partition(cs, OldInterdependencies.OldClassifier(power)).value.transpo == []
  {
    PartitionIsFilter(cs, OldInterdependencies.OldClassifier(power));
    NoTranspoOf(cs, power);
  }

  lemma {:induction false} NoTranspoOf(cs: seq<string>, power: Table)
    ensures OfInfra(cs, Transpo, OldInterdependencies.OldClassifier(power)) == []
    decreases |cs|
  {
    if cs != [] {
      var c := cs[|cs| - 1];
      NoTranspoOf(cs[..|cs| - 1], power);
      OldInterdependencies.NeverTranspo(c, power);
    }
  }

  class OldIntegratedNetwork {
    /** The power component table of the package's power model, which is
        not part of this model. */
    const powerTable: Table
    var disruptiveEvents: Option<seq<Disruption>>
    var disruptedComponents: Option<seq<string>>
    var disruptedInfra: Option<InfraLists>
    var initPowerCrewLoc: Option<string>
    var initWaterCrewLoc: Option<string>
    var initTranspoCrewLoc: Option<string>
    var powerCrewLoc: Option<string>
    var waterCrewLoc: Option<string>
    var transpoCrewLoc: Option<string>

    /** The six crew-location attributes as one value. */
    function Crews(): CrewLocs
      reads this
    {
      CrewLocs(initPowerCrewLoc, initWaterCrewLoc, initTranspoCrewLoc, powerCrewLoc, waterCrewLoc, transpoCrewLoc)
    }

    constructor (powerTable: Table)
      ensures this.powerTable == powerTable
      ensures disruptiveEvents == None && disruptedComponents == None && disruptedInfra == None
      ensures Crews() == CrewLocs(None, None, None, None, None, None)
    {
      this.powerTable := powerTable;
      disruptiveEvents, disruptedComponents, disruptedInfra := None, None, None;
      initPowerCrewLoc, initWaterCrewLoc, initTranspoCrewLoc := None, None, None;
      powerCrewLoc, waterCrewLoc, transpoCrewLoc := None, None, None;
    }

    /** `copy.deepcopy`: a fresh network with the same state. */
    method Clone() returns (n: OldIntegratedNetwork)
      ensures fresh(n)
      ensures n.powerTable == powerTable && n.disruptiveEvents == disruptiveEvents
      ensures n.disruptedComponents == disruptedComponents && n.disruptedInfra == disruptedInfra
      ensures n.Crews() == Crews()
    {
      n := new OldIntegratedNetwork(powerTable);
      n.disruptiveEvents, n.disruptedComponents, n.disruptedInfra := disruptiveEvents, disruptedComponents, disruptedInfra;
      n.initPowerCrewLoc, n.initWaterCrewLoc, n.initTranspoCrewLoc := initPowerCrewLoc, initWaterCrewLoc, initTranspoCrewLoc;
      n.powerCrewLoc, n.waterCrewLoc, n.transpoCrewLoc := powerCrewLoc, waterCrewLoc, transpoCrewLoc;
    }

    /** `set_disrupted_components` with the scenario file already read
        (`None` is a missing file, which is reported; the previously read
        scenario is then used, and there is none on a first call). */
    method SetDisruptedComponents(file: Option<seq<Disruption>>) returns (r: Result<()>)
      modifies this`disruptiveEvents, this`disruptedComponents, this`disruptedInfra
      ensures disruptiveEvents == (if file.Some? then file else old(disruptiveEvents))
      ensures disruptiveEvents.None? ==> r == Err(AttributeError) && unchanged(this)
      ensures disruptiveEvents.Some? ==> disruptedComponents == Some(ComponentsOf(disruptiveEvents.value))
      ensures disruptiveEvents.Some? ==> r == PartitionOutcome(disruptedComponents.value)
      ensures disruptiveEvents.Some? && r.Ok? ==>
        disruptedInfra == Some(Partition(disruptedComponents.value, OldInterdependencies.OldClassifier(powerTable)).value)
      ensures r.Err? ==> disruptedInfra == old(disruptedInfra)
    {
      if file.Some? {
        disruptiveEvents := file;
      }
      if disruptiveEvents.None? {
        return Err(AttributeError);
      }
      disruptedComponents := Some(ComponentsOf(disruptiveEvents.value));
      r := SetDisruptedInfraDict();
    }

    /** Whether the partition succeeds, and the exception that stops it. */
    function PartitionOutcome(cs: seq<string>): Result<()>
      reads this
    {
      var p := Partition(cs, OldInterdependencies.OldClassifier(powerTable));
      if p.Ok? then Ok(()) else Err(p.error)
    }

    method GetDisruptedComponents() returns (r: Result<seq<string>>)
      ensures disruptedComponents.Some? ==> r == Ok(disruptedComponents.value)
      ensures disruptedComponents.None? ==> r == Err(AttributeError)
    {
      if disruptedComponents.None? {
        return Err(AttributeError);
      }
      r := Ok(disruptedComponents.value);
    }

    /** `set_disrupted_infra_dict`: the components in order, each added to
        the list of its infrastructure; a component whose details cannot
        be found stops the loop with the unpacking error and nothing is
        stored. */
    method SetDisruptedInfraDict() returns (r: Result<()>)
      modifies this`disruptedInfra
      ensures disruptedComponents.None? ==> r == Err(AttributeError) && disruptedInfra == old(disruptedInfra)
      ensures disruptedComponents.Some? ==> r == PartitionOutcome(disruptedComponents.value)
      ensures disruptedComponents.Some? && r.Ok? ==>
        disruptedInfra == Some(Partition(disruptedComponents.value, OldInterdependencies.OldClassifier(powerTable)).value)
      ensures r.Err? ==> disruptedInfra == old(disruptedInfra)
    {
      if disruptedComponents.None? {
        return Err(AttributeError);
      }
      var p := PartitionLoop(disruptedComponents.value, OldInterdependencies.OldClassifier(powerTable));
      match p {
        case Err(e) =>
          return Err(e);
        case Ok(lists) =>
          disruptedInfra := Some(lists);
          r := Ok(());
      }
    }

    method GetDisruptedInfraDict() returns (r: Result<InfraLists>)
      ensures disruptedInfra.Some? ==> r == Ok(disruptedInfra.value)
      ensures disruptedInfra.None? ==> r == Err(AttributeError)
    {
      if disruptedInfra.None? {
        return Err(AttributeError);
      }
      r := Ok(disruptedInfra.value);
    }

    /** `set_init_crew_locs` as written. */
    method SetInitCrewLocsAsWritten(p: string, w: string, t: string)
      modifies this`initPowerCrewLoc, this`initWaterCrewLoc, this`powerCrewLoc, this`waterCrewLoc
      ensures Crews() == InitAsWritten(old(Crews()), p, w, t)
    {
      initPowerCrewLoc := Some(p);
      initWaterCrewLoc := Some(w);
      initWaterCrewLoc := Some(t);
      powerCrewLoc := initPowerCrewLoc;
      waterCrewLoc := initWaterCrewLoc;
      waterCrewLoc := initWaterCrewLoc;
    }

    /** `set_init_crew_locs` as evidently intended. */
    method SetInitCrewLocs(p: string, w: string, t: string)
      modifies this`initPowerCrewLoc, this`initWaterCrewLoc, this`initTranspoCrewLoc
      modifies this`powerCrewLoc, this`waterCrewLoc, this`transpoCrewLoc
      ensures Crews() == Init(old(Crews()), p, w, t)
    {
      initPowerCrewLoc, initWaterCrewLoc, initTranspoCrewLoc := Some(p), Some(w), Some(t);
      powerCrewLoc, waterCrewLoc, transpoCrewLoc := initPowerCrewLoc, initWaterCrewLoc, initTranspoCrewLoc;
    }

    /** `reset_crew_locs` as written. */
    method ResetCrewLocsAsWritten()
      modifies this`powerCrewLoc, this`waterCrewLoc
      ensures Crews() == ResetAsWritten(old(Crews()))
    {
      powerCrewLoc := initPowerCrewLoc;
      waterCrewLoc := initWaterCrewLoc;
      waterCrewLoc := initWaterCrewLoc;
    }

    /** `reset_crew_locs` as evidently intended. */
    method ResetCrewLocs()
      modifies this`powerCrewLoc, this`waterCrewLoc, this`transpoCrewLoc
      ensures Crews() == Reset(old(Crews()))
    {
      powerCrewLoc, waterCrewLoc, transpoCrewLoc := initPowerCrewLoc, initWaterCrewLoc, initTranspoCrewLoc;
    }

    /** The three location setters. */
    method SetCrewLoc(infra: Infra, loc: string)
      modifies this`powerCrewLoc, this`waterCrewLoc, this`transpoCrewLoc
      ensures Crews() == Moved(old(Crews()), infra, loc)
    {
      match infra {
        case Power => powerCrewLoc := Some(loc);
        case Water => waterCrewLoc := Some(loc);
        case Transpo => transpoCrewLoc := Some(loc);
      }
    }

    /** The three location getters. */
    method GetCrewLoc(infra: Infra) returns (r: Result<string>)
      ensures r == Read(CurrentOf(Crews(), infra))
    {
      var a := match infra
        case Power => powerCrewLoc
        case Water => waterCrewLoc
        case Transpo => transpoCrewLoc;
      if a.None? {
        return Err(AttributeError);
      }
      r := Ok(a.value);
    }
  }
}
