/** The bookkeeping part of the integrated network of the physical-model
    variant (infrarisk/src/physical/integrated_network.py): the disruption
    scenario and its single time stamp, the partition of disrupted
    components by infrastructure, the repair crews kept per infrastructure
    under the keys 1..n, the choice of the idle crew, and the floored map
    extents. Loading the three network models and building the graphs are
    outside this model. */
module PhysicalIntegratedNetwork {
  import opened Wrappers
  import opened ComponentTables
  import opened Lists
  import Text
  import SI = SimInterdependencies
  import SIN = SimIntegratedNetwork
  import PI = PhysicalInterdependencies
  import opened RepairCrews

  function TimesOf(events: seq<SIN.Disruption>): (ts: seq<int>)
    ensures |ts| == |events|
    ensures forall i :: 0 <= i < |events| ==> ts[i] == events[i].time
  {
    if events == [] then [] else TimesOf(events[..|events| - 1]) + [events[|events| - 1].time]
  }

  /** `unique().item()` succeeds exactly when the column holds one value,
      possibly repeated. */
  lemma SingleTimeStamp(ts: seq<int>)
    ensures |Unique(ts)| == 1 <==> ts != [] && forall i :: 0 <= i < |ts| ==> ts[i] == ts[0]
    ensures |Unique(ts)| == 1 ==> Unique(ts)[0] == ts[0]
  {
    UniqueSpec(ts);
    var u := Unique(ts);
    if ts != [] {
      UniqueHead(ts);
      if |u| == 1 {
        forall i | 0 <= i < |ts| ensures ts[i] == ts[0] {
          assert ts[i] in u;
        }
      }
      if forall i :: 0 <= i < |ts| ==> ts[i] == ts[0] {
        if |u| > 1 {
          assert u[1] in ts;
          assert u[1] == ts[0] == u[0];
        }
      }
    }
  }

  /** The classification the code evidently intends: the `infra` entry of
      the details dictionary; an unknown name (`None`) cannot be indexed. */
  function ByInfra(lookup: string -> Result<PI.Lookup>): string -> Result<SI.Infra> {
    c => match lookup(c)
         case Err(e) => Err(e)
         case Ok(Unknown(_)) => Err(TypeError)
         case Ok(Found(d)) => Ok(d.infra)
  }

  /** The classification as written: `compon_details[0]` on the details
      dictionary, which has no key `0`, and on `None`. */
  function IndexedByZero(lookup: string -> Result<PI.Lookup>): string -> Result<SI.Infra> {
    c => match lookup(c)
         case Err(e) => Err(e)
         case Ok(Unknown(_)) => Err(TypeError)
         case Ok(Found(_)) => Err(KeyError)
  }

  /** As written, no component passes: any non-empty scenario fails to
      build the dictionary. */
  lemma IndexedByZeroRejects(cs: seq<string>, transpo: Table)
    ensures SIN.Partition(cs, IndexedByZero(PI.Lookups(transpo))).Ok? <==> cs == []
  {
    SIN.PartitionOk(cs, IndexedByZero(PI.Lookups(transpo)));
    if cs != [] {
      assert IndexedByZero(PI.Lookups(transpo))(cs[0]).Err?;
    }
  }

  /** A single pipe is enough: its lookup succeeds and the `[0]` raises
      KeyError ... */
  lemma IndexedByZeroOnPipe(n: nat, transpo: Table)
    ensures SIN.Partition(["W_P" + Text.NatToString(n)], IndexedByZero(PI.Lookups(transpo))) == Err(KeyError)
  {
    PhysicalPipe(n, transpo);
    PartitionSingle("W_P" + Text.NatToString(n), IndexedByZero(PI.Lookups(transpo)));
  }

  /** ... where the intended reading files it under water. */
  lemma ByInfraOnPipe(n: nat, transpo: Table)
    ensures SIN.Partition(["W_P" + Text.NatToString(n)], ByInfra(PI.Lookups(transpo)))
         == Ok(SIN.InfraLists([], ["W_P" + Text.NatToString(n)], []))
  {
    var c := "W_P" + Text.NatToString(n);
    PhysicalPipe(n, transpo);
    PartitionSingle(c, ByInfra(PI.Lookups(transpo)));
    assert SIN.AddTo(SIN.InfraLists([], [], []), SI.Water, c) == SIN.InfraLists([], [c], []);
  }

  lemma PartitionSingle(c: string, classify: string -> Result<SI.Infra>)
    ensures SIN.Partition([c], classify)
         == if classify(c).Err? then Err(classify(c).error) else Ok(SIN.AddTo(SIN.InfraLists([], [], []), classify(c).value, c))
  {
    assert [c][..0] == [];
  }

  lemma PhysicalPipe(n: nat, transpo: Table)
    ensures IndexedByZero(PI.Lookups(transpo))("W_P" + Text.NatToString(n)) == Err(KeyError)
    ensures ByInfra(PI.Lookups(transpo))("W_P" + Text.NatToString(n)) == Ok(SI.Water)
  {
    assert "P" in PI.TableOf(SI.Water, transpo);
    PI.NamingRoundTrip(SI.Water, "P", n, transpo);
    assert SI.PrefixOf(SI.Water) + "_" + "P" == "W_P";
  }

  /** A crew as `deploy_crews` creates it: key `name`, the given location
      and size, available, nothing repaired yet, and `time` as its next
      trip start. */
  predicate NewCrew(c: RepairCrew, kind: CrewKind, name: int, loc: string, size: Option<int>, time: Option<int>)
    reads c
  {
    c.kind == kind && c.name == name && c.initLoc == loc && c.crewLoc == loc && c.crewSize == size
    && c.availabilityStatus == 1 && c.componentsRepaired == [] && c.nextTripStart == time && c.currLoc.None?
  }

  /** The crews deployed for one infrastructure: crew `i + 1` (at index
      `i`) starts at the `i`-th location with the `i`-th size. */
  predicate Deployed(crews: seq<RepairCrew>, kind: CrewKind, locs: Option<seq<string>>,
                     sizes: Option<seq<int>>, time: Option<int>)
    reads crews
  {
    if locs.None? then crews == []
    else
      |crews| <= |locs.value| && (sizes.Some? ==> |crews| <= |sizes.value|)
      && forall i :: 0 <= i < |crews| ==>
        NewCrew(crews[i], kind, i + 1, locs.value[i], if sizes.None? then None else Some(sizes.value[i]), time)
  }

  /** The exception that escapes the deployment of one infrastructure's
      crews: the missing location list is caught; a size list shorter than
      the location list raises IndexError at the first missing size, and a
      network without a disruption time raises AttributeError once the
      first crew exists. */
  function DeployError(locs: Option<seq<string>>, sizes: Option<seq<int>>, time: Option<int>): Option<Exception> {
    if locs.None? || locs.value == [] then None
    else
      var n := |locs.value|;
      var m := if sizes.Some? then |sizes.value| else n;
      if time.None? then Some(if m == 0 then IndexError else AttributeError)
      else if m < n then Some(IndexError)
      else None
  }

  /** How many crews exist when the deployment of one infrastructure
      stops. */
  function DeployCount(locs: Option<seq<string>>, sizes: Option<seq<int>>, time: Option<int>): nat {
    if locs.None? then 0
    else
      var n := |locs.value|;
      var m := if sizes.Some? then |sizes.value| else n;
      if time.None? then (if n == 0 || m == 0 then 0 else 1)
      else if m < n then m
      else n
  }

  /** Without an escaping exception every location gets its crew. */
  lemma DeployComplete(locs: Option<seq<string>>, sizes: Option<seq<int>>, time: Option<int>)
    requires locs.Some? && DeployError(locs, sizes, time).None?
    ensures DeployCount(locs, sizes, time) == |locs.value|
    ensures locs.value != [] ==> time.Some? && (sizes.Some? ==> |sizes.value| >= |locs.value|)
  {
  }

  /** What `deploy_crews` leaves behind: the power crews first; the water
      crews only when no exception escaped the power block, the transport
      crews only when none escaped the water block either; and the first
      escaping exception as the result. */
  predicate DeployedAll(p: seq<RepairCrew>, w: seq<RepairCrew>, x: seq<RepairCrew>, r: Result<()>,
                        powerLocs: Option<seq<string>>, powerSizes: Option<seq<int>>,
                        waterLocs: Option<seq<string>>, waterSizes: Option<seq<int>>,
                        transpoLocs: Option<seq<string>>, transpoSizes: Option<seq<int>>, t: Option<int>)
    reads p, w, x
  {
    var pe := DeployError(powerLocs, powerSizes, t);
    var we := DeployError(waterLocs, waterSizes, t);
    var te := DeployError(transpoLocs, transpoSizes, t);
    && |p| == DeployCount(powerLocs, powerSizes, t)
    && Deployed(p, PowerCrew, powerLocs, powerSizes, t)
    && (pe.Some? ==> r == Err(pe.value) && w == [] && x == [])
    && (pe.None? ==> |w| == DeployCount(waterLocs, waterSizes, t)
                     && Deployed(w, WaterCrew, waterLocs, waterSizes, t))
    && (pe.None? && we.Some? ==> r == Err(we.value) && x == [])
    && (pe.None? && we.None? ==> |x| == DeployCount(transpoLocs, transpoSizes, t)
                                 && Deployed(x, TranspoCrew, transpoLocs, transpoSizes, t))
    && (pe.None? && we.None? ==> r == (if te.Some? then Err(te.value) else Ok(())))
  }

  /** The three `try` blocks of `deploy_crews` in order. */
  method DeployAll(powerLocs: Option<seq<string>>, powerSizes: Option<seq<int>>,
                   waterLocs: Option<seq<string>>, waterSizes: Option<seq<int>>,
                   transpoLocs: Option<seq<string>>, transpoSizes: Option<seq<int>>, t: Option<int>)
    returns (p: seq<RepairCrew>, w: seq<RepairCrew>, x: seq<RepairCrew>, r: Result<()>)
    ensures DeployedAll(p, w, x, r, powerLocs, powerSizes, waterLocs, waterSizes, transpoLocs, transpoSizes, t)
    ensures forall i :: 0 <= i < |p| ==> fresh(p[i])
    ensures forall i :: 0 <= i < |w| ==> fresh(w[i])
    ensures forall i :: 0 <= i < |x| ==> fresh(x[i])
  {
    var pe, we, xe;
    p, pe := Deploy(PowerCrew, powerLocs, powerSizes, t);
    w, we, x, xe := [], None, [], None;
    if pe.None? {
      w, we := Deploy(WaterCrew, waterLocs, waterSizes, t);
      if we.None? {
        x, xe := Deploy(TranspoCrew, transpoLocs, transpoSizes, t);
      }
    }
    r := if pe.Some? then Err(pe.value)
         else if we.Some? then Err(we.value)
         else if xe.Some? then Err(xe.value)
         else Ok(());
  }

  /** One `try` block of `deploy_crews`: the crews created, and the
      exception that escapes it, if any. */
  method Deploy(kind: CrewKind, locs: Option<seq<string>>, sizes: Option<seq<int>>, time: Option<int>)
    returns (crews: seq<RepairCrew>, err: Option<Exception>)
    ensures err == DeployError(locs, sizes, time)
    ensures |crews| == DeployCount(locs, sizes, time)
    ensures Deployed(crews, kind, locs, sizes, time)
    ensures forall i :: 0 <= i < |crews| ==> fresh(crews[i])
  {
    crews, err := [], None;
    if locs.None? {
      return;
    }
    var ls := locs.value;
    var i := 0;
    while i < |ls|
      invariant 0 <= i <= |ls| && |crews| == i
      invariant sizes.Some? ==> i <= |sizes.value|
      invariant time.None? ==> i == 0
      invariant Deployed(crews, kind, locs, sizes, time)
      invariant forall j :: 0 <= j < |crews| ==> fresh(crews[j])
    {
      if sizes.Some? && i >= |sizes.value| {
        err := Some(IndexError);
        return;
      }
      var size := if sizes.None? then None else Some(sizes.value[i]);
      var crew := new RepairCrew(kind, i + 1, ls[i], size);
      crews := crews + [crew];
      if time.None? {
        err := Some(AttributeError);
        return;
      }
      crew.SetNextTripStart(time.value);
      i := i + 1;
    }
  }

  /** The crew at index `k` is idle: every crew has a trip start, none
      starts earlier than crew `k`, and every crew before it starts
      strictly later. */
  predicate IdleAt(crews: seq<RepairCrew>, k: int)
    reads crews
  {
    0 <= k < |crews|
    && (forall j :: 0 <= j < |crews| ==> crews[j].nextTripStart.Some?)
    && (forall j :: 0 <= j < |crews| ==> crews[k].nextTripStart.value <= crews[j].nextTripStart.value)
    && (forall j :: 0 <= j < k ==> crews[k].nextTripStart.value < crews[j].nextTripStart.value)
  }

  /** The intended layout of the infrastructure graphs: node and link type
      codes per infrastructure. */
  function NodeLinkTypes(infra: SI.Infra): (r: (set<string>, set<string>))
    ensures r.0 * r.1 == {}
  {
    match infra
    case Water => ({"R", "J", "JIN", "JVN", "JTN", "JHY", "T"}, {"P", "PSC", "PMA", "PHC", "PV", "WP"})
    case Power => ({"B", "BL", "BS", "LO", "MP", "AL", "AS", "G"}, {"S", "L", "LS", "TF", "TH", "I", "DL"})
    case Transpo => ({"J"}, {"L"})
  }

  /** The water node types agree with the ones the connected-node search
      accepts; its link types add the motor pump `MP`. */
  lemma NodeLinkTypesAgree()
    ensures NodeLinkTypes(SI.Water).0 == PI.WaterNodeTypes
    ensures NodeLinkTypes(SI.Water).1 + {"MP"} == PI.WaterLinkTypes
  {
  }

  class IntegratedNetwork {
    const transpo: Table
    /** `None` until a scenario file has been read. */
    var disruptiveEvents: Option<seq<SIN.Disruption>>
    var disruptedComponents: seq<string>
    /** `None` until a scenario sets it. */
    var disruptionTime: Option<int>
    var disruptedInfra: SIN.InfraLists
    /** The crew dictionaries: the crew stored under key `i + 1` sits at
        index `i`. */
    var powerCrews: seq<RepairCrew>
    var waterCrews: seq<RepairCrew>
    var transpoCrews: seq<RepairCrew>
    var powerCrewLoc: string
    var waterCrewLoc: string
    var transpoCrewLoc: string
    var mapExtends: ((int, int), (int, int))

    constructor (transpo: Table)
      ensures this.transpo == transpo && disruptiveEvents.None? && disruptionTime.None?
      ensures disruptedComponents == [] && disruptedInfra == SIN.InfraLists([], [], [])
      ensures powerCrews == [] && waterCrews == [] && transpoCrews == []
    {
      this.transpo := transpo;
      disruptiveEvents := None;
      disruptedComponents := [];
      disruptionTime := None;
      disruptedInfra := SIN.InfraLists([], [], []);
      powerCrews, waterCrews, transpoCrews := [], [], [];
      powerCrewLoc, waterCrewLoc, transpoCrewLoc := "", "", "";
      mapExtends := ((0, 0), (0, 0));
    }

    /** The classification by the `infra` entry of the details of each
        name, looked up in the physical tables. */
    function Classify(): string -> Result<SI.Infra> {
      ByInfra(PI.Lookups(transpo))
    }

    /** `set_disrupted_components` with the scenario file already read
        (`None` is a missing file, reported, after which the previously
        stored scenario is used, if there is one). The time stamp column
        must hold a single value; the partition follows. */
    method SetDisruptedComponents(file: Option<seq<SIN.Disruption>>) returns (r: Result<()>)
      modifies this`disruptiveEvents, this`disruptedComponents, this`disruptionTime, this`disruptedInfra
      ensures disruptiveEvents == (if file.Some? then file else old(disruptiveEvents))
      ensures disruptiveEvents.None? ==> r == Err(AttributeError) && disruptedComponents == old(disruptedComponents)
      ensures disruptiveEvents.Some? ==> disruptedComponents == SIN.ComponentsOf(disruptiveEvents.value)
      ensures disruptiveEvents.Some? && |Unique(TimesOf(disruptiveEvents.value))| != 1 ==> r == Err(ValueError)
      ensures disruptiveEvents.Some? && |Unique(TimesOf(disruptiveEvents.value))| == 1 ==>
        disruptionTime == Some(disruptiveEvents.value[0].time)
        && r == (if SIN.Partition(disruptedComponents, Classify()).Ok? then Ok(())
                 else Err(SIN.Partition(disruptedComponents, Classify()).error))
      ensures r.Ok? ==> disruptedInfra == SIN.Partition(disruptedComponents, Classify()).value
      ensures r.Err? ==> disruptedInfra == old(disruptedInfra)
      ensures r.Err? && r.error != TypeError && r.error != ValueError && r.error != IndexError ==> disruptiveEvents.None?
    {
      if file.Some? {
        disruptiveEvents := file;
      }
      if disruptiveEvents.None? {
        return Err(AttributeError);
      }
      r := ApplyScenario(disruptiveEvents.value);
    }

    /** The part of `set_disrupted_components` after the scenario is read:
        the components, the single time stamp and the partition. */
    method ApplyScenario(events: seq<SIN.Disruption>) returns (r: Result<()>)
      modifies this`disruptedComponents, this`disruptionTime, this`disruptedInfra
      ensures disruptedComponents == SIN.ComponentsOf(events)
      ensures |Unique(TimesOf(events))| != 1 ==> r == Err(ValueError)
      ensures |Unique(TimesOf(events))| == 1 ==>
        disruptionTime == Some(events[0].time)
        && r == (if SIN.Partition(disruptedComponents, Classify()).Ok? then Ok(())
                 else Err(SIN.Partition(disruptedComponents, Classify()).error))
      ensures r.Ok? ==> disruptedInfra == SIN.Partition(disruptedComponents, Classify()).value
      ensures r.Err? ==> disruptedInfra == old(disruptedInfra)
      ensures r.Err? ==> r.error in {TypeError, ValueError, IndexError}
    {
      disruptedComponents := SIN.ComponentsOf(events);
      var stamps := Unique(TimesOf(events));
      SingleTimeStamp(TimesOf(events));
      if |stamps| != 1 {
        return Err(ValueError);
      }
      disruptionTime := Some(stamps[0]);
      r := SetDisruptedInfraDict();
    }

    /** The only exceptions the intended partition raises are the lookup's
        own and the TypeError of an unknown name. */
    lemma ByInfraErrors(cs: seq<string>)
      ensures SIN.Partition(cs, Classify()).Err? ==>
        SIN.Partition(cs, Classify()).error in {TypeError, ValueError, IndexError}
    {
      SIN.PartitionOk(cs, Classify());
      if SIN.Partition(cs, Classify()).Err? {
        FirstRejected(cs, Classify());
        var i :| 0 <= i < |cs| && Classify()(cs[i]) == Err(SIN.Partition(cs, Classify()).error);
        ByInfraErrorKinds(cs[i]);
      }
    }

    lemma ByInfraErrorKinds(c: string)
      ensures Classify()(c).Err? ==> Classify()(c).error in {TypeError, ValueError, IndexError}
    {
      PI.LookupInErrors(c, PI.Tables(transpo));
      if Text.Count(c, '_') == 1 && forall i :: 0 <= i < |c| ==> !Text.IsDigit(c[i]) {
        PI.LookupInNoDigit(c, PI.Tables(transpo));
      }
    }

    /** `set_disrupted_infra_dict` as the code evidently intends it:
        each component goes to the list of its infrastructure, in order;
        the dictionary is stored only once every component is placed. */
    method SetDisruptedInfraDict() returns (r: Result<()>)
      modifies this`disruptedInfra
      ensures r == (if SIN.Partition(disruptedComponents, Classify()).Ok? then Ok(())
                    else Err(SIN.Partition(disruptedComponents, Classify()).error))
      ensures r.Ok? ==> disruptedInfra == SIN.Partition(disruptedComponents, Classify()).value
      ensures r.Err? ==> disruptedInfra == old(disruptedInfra)
      ensures r.Err? ==> r.error in {TypeError, ValueError, IndexError}
    {
      r := StorePartition(Classify());
      ByInfraErrors(disruptedComponents);
    }

    /** `set_disrupted_infra_dict` as written: the `[0]` on the details
        dictionary raises for the first component. */
    method SetDisruptedInfraDictAsWritten() returns (r: Result<()>)
      modifies this`disruptedInfra
      ensures r.Ok? <==> disruptedComponents == []
      ensures r.Ok? ==> disruptedInfra == SIN.InfraLists([], [], [])
      ensures r.Err? ==> disruptedInfra == old(disruptedInfra)
    {
      r := StorePartition(IndexedByZero(PI.Lookups(transpo)));
      IndexedByZeroRejects(disruptedComponents, transpo);
    }

    /** The loop both readings share: place each component with `classify`
        and store the lists once all are placed. */
    method StorePartition(classify: string -> Result<SI.Infra>) returns (r: Result<()>)
      modifies this`disruptedInfra
      ensures r == (if SIN.Partition(disruptedComponents, classify).Ok? then Ok(())
                    else Err(SIN.Partition(disruptedComponents, classify).error))
      ensures r.Ok? ==> disruptedInfra == SIN.Partition(disruptedComponents, classify).value
      ensures r.Err? ==> disruptedInfra == old(disruptedInfra)
    {
      var p := SIN.PartitionLoop(disruptedComponents, classify);
      match p {
        case Err(e) =>
          return Err(e);
        case Ok(lists) =>
          disruptedInfra := lists;
          r := Ok(());
      }
    }

    /** `deploy_crews`: the three dictionaries are emptied, then filled
        one infrastructure at a time; an exception escaping one block
        leaves the later dictionaries empty. */
    method DeployCrews(powerLocs: Option<seq<string>>, powerSizes: Option<seq<int>>,
                       waterLocs: Option<seq<string>>, waterSizes: Option<seq<int>>,
                       transpoLocs: Option<seq<string>>, transpoSizes: Option<seq<int>>)
      returns (r: Result<()>)
      modifies this`powerCrews, this`waterCrews, this`transpoCrews
      ensures DeployedAll(powerCrews, waterCrews, transpoCrews, r, powerLocs, powerSizes,
                          waterLocs, waterSizes, transpoLocs, transpoSizes, disruptionTime)
      ensures forall i :: 0 <= i < |powerCrews| ==> fresh(powerCrews[i])
      ensures forall i :: 0 <= i < |waterCrews| ==> fresh(waterCrews[i])
      ensures forall i :: 0 <= i < |transpoCrews| ==> fresh(transpoCrews[i])
    {
      var p, w, x;
      p, w, x, r := DeployAll(powerLocs, powerSizes, waterLocs, waterSizes, transpoLocs, transpoSizes, disruptionTime);
      powerCrews, waterCrews, transpoCrews := p, w, x;
    }

    /** The crew dictionary `get_idle_crew` reads for a type name. */
    function CrewsOf(crewType: string): seq<RepairCrew>
      reads this
    {
      if crewType == "power" then powerCrews
      else if crewType == "water" then waterCrews
      else transpoCrews
    }

    /** `get_idle_crew`: the crew with the earliest next trip start, the
        first one in key order on ties; an unknown type gives `None`, an
        empty dictionary IndexError, and a crew without a trip start
        TypeError (`None` cannot be compared). */
    method GetIdleCrew(crewType: string) returns (r: Result<Option<RepairCrew>>)
      ensures crewType !in {"power", "water", "transpo"} ==> r == Ok(None)
      ensures crewType in {"power", "water", "transpo"} ==>
        var crews := CrewsOf(crewType);
        && (crews == [] ==> r == Err(IndexError))
        && (crews != [] ==> (r.Err? <==> exists j :: 0 <= j < |crews| && crews[j].nextTripStart.None?))
        && (crews != [] && r.Err? ==> r.error == TypeError)
        && (r.Ok? ==> exists k :: IdleAt(crews, k) && r.value == Some(crews[k]))
    {
      if crewType != "power" && crewType != "water" && crewType != "transpo" {
        return Ok(None);
      }
      var crews := CrewsOf(crewType);
      if crews == [] {
        return Err(IndexError);
      }
      var idle := 0;
      var i := 0;
      while i < |crews|
        invariant 0 <= i <= |crews| && 0 <= idle < |crews| && (i > 0 ==> idle < i)
        invariant forall j :: 0 <= j < i ==> crews[j].nextTripStart.Some?
        invariant i > 0 ==> forall j :: 0 <= j < i ==> crews[idle].nextTripStart.value <= crews[j].nextTripStart.value
        invariant i > 0 ==> forall j :: 0 <= j < idle ==> crews[idle].nextTripStart.value < crews[j].nextTripStart.value
        invariant i == 0 ==> idle == 0
      {
        var s, best := crews[i].nextTripStart, crews[idle].nextTripStart;
        if s.None? || best.None? {
          return Err(TypeError);
        }
        if s.value < best.value {
          idle := i;
        }
        i := i + 1;
      }
      assert IdleAt(crews, idle);
      r := Ok(Some(crews[idle]));
    }

    /** `reset_crew_locs`: every crew of every type writes its initial
        location into `curr_loc`; nothing else changes. */
    method ResetCrewLocs()
      modifies powerCrews, waterCrews, transpoCrews
      ensures forall c :: c in powerCrews + waterCrews + transpoCrews ==> c.currLoc == Some(c.initLoc)
      ensures forall c :: c in powerCrews + waterCrews + transpoCrews ==>
        c.crewLoc == old(c.crewLoc) && c.nextTripStart == old(c.nextTripStart)
    {
      var all := powerCrews + waterCrews + transpoCrews;
      var i := 0;
      while i < |all|
        invariant 0 <= i <= |all|
        invariant forall j :: 0 <= j < i ==> all[j].currLoc == Some(all[j].initLoc)
        invariant forall c :: c in all ==> c.crewLoc == old(c.crewLoc) && c.nextTripStart == old(c.nextTripStart)
      {
        all[i].ResetLocs();
        i := i + 1;
      }
    }

    method SetPowerCrewLoc(loc: string)
      modifies this`powerCrewLoc
      ensures powerCrewLoc == loc
    {
      powerCrewLoc := loc;
    }

    method SetWaterCrewLoc(loc: string)
      modifies this`waterCrewLoc
      ensures waterCrewLoc == loc
    {
      waterCrewLoc := loc;
    }

    method SetTranspoCrewLoc(loc: string)
      modifies this`transpoCrewLoc
      ensures transpoCrewLoc == loc
    {
      transpoCrewLoc := loc;
    }

    method GetPowerCrewLoc() returns (loc: string)
      ensures loc == powerCrewLoc
    {
      loc := powerCrewLoc;
    }

    method GetWaterCrewLoc() returns (loc: string)
      ensures loc == waterCrewLoc
    {
      loc := waterCrewLoc;
    }

    method GetTranspoCrewLoc() returns (loc: string)
      ensures loc == transpoCrewLoc
    {
      loc := transpoCrewLoc;
    }

    /** `set_map_extends`: the floor of the minimum and of the maximum of
        each axis; an empty graph makes `min` raise. Every node lies at or
        above the lower corner and below the upper corner plus one. */
    method SetMapExtends(coords: seq<(real, real)>) returns (r: Result<()>)
      modifies this`mapExtends
      ensures r.Ok? <==> coords != []
      ensures r.Ok? ==> exists box :: SIN.MapExtendsOf(coords, box) && mapExtends == FloorBox(box)
      ensures r.Ok? ==> forall i :: 0 <= i < |coords| ==>
        mapExtends.0.0 as real <= coords[i].0 < mapExtends.1.0 as real + 1.0
        && mapExtends.0.1 as real <= coords[i].1 < mapExtends.1.1 as real + 1.0
      ensures r.Err? ==> r.error == ValueError && mapExtends == old(mapExtends)
    {
      if coords == [] {
        return Err(ValueError);
      }
      var box := SIN.BoundingBox(coords);
      mapExtends := FloorBox(box);
      r := Ok(());
    }
  }

  function FloorBox(box: ((real, real), (real, real))): ((int, int), (int, int)) {
    ((box.0.0.Floor, box.0.1.Floor), (box.1.0.Floor, box.1.1.Floor))
  }

  /** A partition that fails fails on the first component `classify`
      rejects, with that component's exception. */
  lemma {:induction false} FirstRejected(cs: seq<string>, classify: string -> Result<SI.Infra>)
    requires SIN.Partition(cs, classify).Err?
    ensures exists i :: 0 <= i < |cs| && classify(cs[i]) == Err(SIN.Partition(cs, classify).error)
  {
    var init := cs[..|cs| - 1];
    if SIN.Partition(init, classify).Err? {
      FirstRejected(init, classify);
      var i :| 0 <= i < |init| && classify(init[i]) == Err(SIN.Partition(init, classify).error);
      assert cs[i] == init[i];
    } else {
      assert classify(cs[|cs| - 1]).Err?;
    }
  }

  /** A successful deployment followed by the idle-crew query returns the
      first power crew: all crews start together and ties go to key 1. */
  method IdleAfterDeploy(net: IntegratedNetwork, locs: seq<string>, t: int) returns (r: Result<Option<RepairCrew>>)
    requires net.disruptionTime == Some(t) && locs != []
    modifies net
    ensures |net.powerCrews| == |locs|
    ensures r == Ok(Some(net.powerCrews[0]))
  {
    var d := net.DeployCrews(Some(locs), None, None, None, None, None);
    r := net.GetIdleCrew("power");
  }
}
