/** The lookup tables that map a component type code (the letters of a
    component name after its infrastructure prefix, such as `PMA` in
    `W_PMA12`) to what the model needs about that type: the collection it
    lives in (`code`), a display name, the field(s) that connect it to the
    network, the repair time in hours, and, in the newer tables, where its
    results are read and which capacity fields it has. */
module ComponentTables {

  /** A dictionary key that may be missing, present with `None`, or set. */
  datatype Field<T> = Missing | PyNone | Present(value: T)

  /** `connect_field` is a list of attribute names in most entries and a
      bare attribute name in a few. */
  datatype Connect = Fields(names: seq<string>) | Bare(name: string)

  datatype Entry = Entry(
    code: string,
    name: string,
    connect: Connect,
    repairTime: nat,
    results: Field<string>,
    capacity: Field<seq<string>>)

  type Table = map<string, Entry>

  /** Entries of the water control table have no connection fields. */
  datatype ControlEntry = ControlEntry(code: string, name: string, repairTime: nat)

  /** An entry that sits between two nodes of its network. */
  predicate TwoEnded(e: Entry) { e.connect.Fields? && |e.connect.names| == 2 }

  // -----------------------------------------------------------------------
  // infrarisk/src/physical/water/water_network_model.py

  const PhysicalPipeCodes: set<string> := {"P", "PSC", "PMA", "PHC", "PV", "PTV"}
  const PhysicalJunctionCodes: set<string> := {"J", "JIN", "JVN", "JTN", "JHY", "JDP"}

  function WaterLink(code: string, name: string, hours: nat): Entry {
    Entry(code, name, Fields(["start_node_name", "end_node_name"]), hours, Present("link"), Missing)
  }

  function WaterNode(code: string, name: string, hours: nat): Entry {
    Entry(code, name, Fields(["name"]), hours, Present("node"), Missing)
  }

  /** The water component table of the physical model. */
  function PhysicalWaterTable(): Table
  {
    map[
      "WP" := WaterLink("pumps", "Pump", 12),
      "R" := WaterNode("reservoirs", "Reservoir", 24),
      "P" := WaterLink("pipes", "Pipe", 12),
      "PSC" := WaterLink("pipes", "Service Connection Pipe", 2),
      "PMA" := WaterLink("pipes", "Main Pipe", 12),
      "PHC" := WaterLink("pipes", "Hydrant Connection Pipe", 4),
      "PV" := WaterLink("pipes", "Valve converted to Pipe", 2),
      "PTV" := WaterLink("pipes", "Tank Valve converted to Pipe", 2),
      "J" := WaterNode("junctions", "Junction", 5),
      "JIN" := WaterNode("junctions", "Intermmediate Junction", 5),
      "JVN" := Entry("junctions", "Valve Junction", Fields(["name"]), 5, Missing, Missing),
      "JTN" := WaterNode("junctions", "Terminal Junction", 5),
      "JHY" := WaterNode("junctions", "Hydrant Junction", 5),
      "JDP" := WaterNode("junctions", "Discharge Pipe End Junction", 5),
      "T" := WaterNode("tanks", "Tank", 24)
    ]
  }

  lemma PhysicalWaterTableKeys()
    ensures PhysicalWaterTable().Keys == {"WP", "R", "T"} + PhysicalPipeCodes + PhysicalJunctionCodes
  {
  }

  lemma PhysicalPipesAreExactlyPipeCodes()
    ensures forall k :: k in PhysicalWaterTable() ==> (PhysicalWaterTable()[k].code == "pipes" <==> k in PhysicalPipeCodes)
  {
  }

  lemma PhysicalPipesAreTwoEnded()
    ensures forall k :: k in PhysicalPipeCodes ==> TwoEnded(PhysicalWaterTable()[k]) && PhysicalWaterTable()[k].results == Present("link")
  {
  }

  lemma PhysicalNameConnectedAreNodes()
    ensures forall k :: k in PhysicalWaterTable() && PhysicalWaterTable()[k].connect == Fields(["name"]) ==> k !in PhysicalPipeCodes && k != "WP"
  {
  }

  lemma PhysicalOnlyValveJunctionLacksResults()
    ensures forall k :: k in PhysicalWaterTable() ==> (PhysicalWaterTable()[k].results == Missing <==> k == "JVN")
  {
  }

  lemma PhysicalJunctionEntries()
    ensures forall k :: k in PhysicalJunctionCodes ==> PhysicalWaterTable()[k].code == "junctions" && PhysicalWaterTable()[k].repairTime == 5
  {
  }

  lemma PhysicalWaterNodeRepairTimes()
    ensures PhysicalWaterTable()["WP"].repairTime == 12 && PhysicalWaterTable()["R"].repairTime == 24 && PhysicalWaterTable()["T"].repairTime == 24
  {
  }

  lemma PhysicalPipeRepairTimes()
    ensures PhysicalWaterTable()["P"].repairTime == 12 && PhysicalWaterTable()["PSC"].repairTime == 2 && PhysicalWaterTable()["PMA"].repairTime == 12
  {
  }

  lemma PhysicalValvePipeRepairTimes()
    ensures PhysicalWaterTable()["PHC"].repairTime == 4 && PhysicalWaterTable()["PV"].repairTime == 2 && PhysicalWaterTable()["PTV"].repairTime == 2
  {
  }

  /** The water control table: every control component takes five hours
      to repair. */
  function WaterControlTable(): map<string, ControlEntry>
  {
    map[
      "AWP" := ControlEntry("pump", "Pump Actuator", 5),
      "AP" := ControlEntry("pipe", "Pipe Actuator", 5),
      "ATDP" := ControlEntry("tank discharge pipe", "Tank Discharge Pipe Actuator", 5),
      "SP" := ControlEntry("pipe", "Pipe Sensor", 5),
      "SJ" := ControlEntry("junction", "Junction Sensor", 5),
      "ST" := ControlEntry("tank", "Tank Level Sensor", 5),
      "C" := ControlEntry("controller", "Water Controller", 5)
    ]
  }

  lemma WaterControlTableKeys()
    ensures WaterControlTable().Keys == {"AWP", "AP", "ATDP", "SP", "SJ", "ST", "C"}
  {
  }

  lemma WaterControlTableFacts()
    ensures forall k :: k in WaterControlTable() ==> WaterControlTable()[k].repairTime == 5
  {
  }

  // -----------------------------------------------------------------------
  // infrarisk/src/physical/power/power_system_model.py

  const PhysicalBusCodes: set<string> := {"B", "BL", "BLO", "BS", "BG", "BEG"}

  function Bus(name: string): Entry {
    Entry("bus", name, Fields(["name"]), 3, Present("res_bus"), Present(["p_mw"]))
  }

  function OnBus(code: string, name: string, hours: nat, results: string, capacity: seq<string>): Entry {
    Entry(code, name, Fields(["bus"]), hours, Present(results), Present(capacity))
  }

  function Branch(code: string, name: string, ends: seq<string>, hours: nat, results: string, capacity: string): Entry {
    Entry(code, name, Fields(ends), hours, Present(results), Present([capacity]))
  }

  /** The power component table of the physical model. */
  function PhysicalPowerTable(): Table
  {
    map[
      "B" := Bus("Bus"),
      "BL" := Bus("Bus connected to load"),
      "BLO" := Bus("Bus connected to load"),
      "BS" := Bus("Bus connected to switch"),
      "BG" := Bus("Bus connected to gate station"),
      "BEG" := Bus("Bus connected to external grid connection"),
      "LO" := OnBus("load", "Load", 3, "res_load", ["p_mw"]),
      "LOA" := OnBus("asymmetric_load", "Asymmetric Load", 3, "res_asymmetric_load_3ph", ["p_a_mw", "p_b_mw", "p_c_mw"]),
      "SG" := OnBus("sgen", "Static Generator", 24, "res_sgen", ["p_mw"]),
      "MP" := OnBus("motor", "Motor", 24, "res_motor", ["p_mw"]),
      "AS" := OnBus("asymmetric_sgen", "Asymmetric Static Generator", 10, "res_asymmetric_sgen_3ph", ["p_a_mw", "p_b_mw", "p_c_mw"]),
      "ST" := OnBus("storage", "Storage", 5, "res_storage", ["p_mw"]),
      "G" := OnBus("gen", "Generator", 24, "res_gen", ["p_mw"]),
      "S" := Entry("switch", "Switch", Fields(["bus", "element"]), 4, PyNone, PyNone),
      "SH" := OnBus("shunt", "Shunt", 3, "res_shunt", ["p_mw"]),
      "EG" := OnBus("ext_grid", "External Grid", 10, "res_ext_grid", ["p_mw"]),
      "L" := Branch("line", "Line", ["from_bus", "to_bus"], 5, "res_line", "p_from_mw"),
      "LS" := Entry("line", "Line", Bare("from_bus"), 5, Present("res_line"), Present(["p_from_mw"])),
      "TF" := Branch("trafo", "Transformer", ["hv_bus", "lv_bus"], 10, "res_trafo", "p_hv_mw"),
      "I" := Branch("impedance", "Impedance", ["from_bus", "to_bus"], 5, "res_impedance", "p_from_mw"),
      "DL" := Branch("dcline", "DCLine", ["from_bus", "to_bus"], 3, "res_dcline", "p_from_mw")
    ]
  }

  lemma PhysicalPowerTableKeys()
    ensures PhysicalPowerTable().Keys == PhysicalBusCodes + {"LO", "LOA", "SG", "MP", "AS", "ST", "G", "S", "SH", "EG", "L", "LS", "TF", "I", "DL"}
  {
  }

  lemma PhysicalLineEntry()
    ensures TwoEnded(PhysicalPowerTable()["L"]) && PhysicalPowerTable()["L"].repairTime == 5
  {
  }

  lemma PhysicalTransformerEntry()
    ensures TwoEnded(PhysicalPowerTable()["TF"]) && PhysicalPowerTable()["TF"].repairTime == 10
  {
  }

  lemma PhysicalLineSwitchEntry()
    ensures PhysicalPowerTable()["LS"].connect == Bare("from_bus")
  {
  }

  lemma PhysicalSwitchEntry()
    ensures PhysicalPowerTable()["S"].results == PyNone && PhysicalPowerTable()["S"].capacity == PyNone
  {
  }

  lemma PhysicalMotorEntry()
    ensures PhysicalPowerTable()["MP"].repairTime == 24 && PhysicalPowerTable()["MP"].name == "Motor"
  {
  }

  lemma PhysicalGeneratorEntry()
    ensures PhysicalPowerTable()["G"].repairTime == 24 && PhysicalPowerTable()["G"].name == "Generator"
  {
  }

  // -----------------------------------------------------------------------
  // infrarisk/src/network_sim_models/power/power_system_model.py

  function Plain(code: string, name: string, connect: Connect, hours: nat): Entry {
    Entry(code, name, connect, hours, Missing, Missing)
  }

  /** The power component table of the simulation model. */
  function SimPowerTable(): Table
  {
    map[
      "B" := Plain("bus", "Bus", Fields(["name"]), 3),
      "BL" := Plain("bus", "Bus connected to load", Fields(["name"]), 3),
      "BS" := Plain("bus", "Bus connected to switch", Fields(["name"]), 3),
      "LO" := Plain("load", "Load", Fields(["bus"]), 3),
      "LOA" := Plain("asymmetric_load", "Asymmetric Load", Fields(["bus"]), 3),
      "LOMP" := Plain("load", "Motor as Load", Fields(["bus"]), 3),
      "SG" := Plain("sgen", "Static Generator", Fields(["bus"]), 24),
      "MP" := Plain("motor", "Motor", Fields(["bus"]), 24),
      "AL" := Plain("asymmetric_load", "Asymmetric Load", Fields(["bus"]), 10),
      "AS" := Plain("asymmetric_sgen", "Asymmetric Static Generator", Fields(["bus"]), 10),
      "ST" := Plain("storage", "Storage", Fields(["bus"]), 5),
      "G" := Plain("gen", "Generator", Fields(["bus"]), 24),
      "S" := Plain("switch", "Switch", Fields(["bus", "element"]), 4),
      "SH" := Plain("shunt", "Shunt", Fields(["bus"]), 3),
      "EG" := Plain("ext_grid", "External Grid", Fields(["bus"]), 10),
      "L" := Plain("line", "Line", Fields(["from_bus", "to_bus"]), 3),
      "LS" := Plain("line", "Line", Bare("from_bus"), 3),
      "TF" := Plain("trafo", "Transformer", Fields(["hv_bus", "lv_bus"]), 10),
      "TH" := Plain("trafo3w", "Three Phase Transformer", Fields(["hv_bus", "lv_bus"]), 10),
      "I" := Plain("impedance", "Impedance", Fields(["from_bus", "to_bus"]), 5),
      "DL" := Plain("dcline", "DCLine", Fields(["from_bus", "to_bus"]), 3)
    ]
  }

  lemma SimPowerTableKeys()
    ensures SimPowerTable().Keys == {"B", "BL", "BS", "LO", "LOA", "LOMP", "SG", "MP", "AL", "AS", "ST", "G", "S", "SH", "EG", "L", "LS", "TF", "TH", "I", "DL"}
  {
  }

  lemma SimPowerTableFacts()
    ensures SimPowerTable()["L"].repairTime == 3 && TwoEnded(SimPowerTable()["L"])
    ensures SimPowerTable()["LOMP"].name == "Motor as Load" && SimPowerTable()["LOMP"].code == "load"
    ensures SimPowerTable()["MP"].name == "Motor" && SimPowerTable()["MP"].code == "motor" && SimPowerTable()["MP"].repairTime == 24
    ensures SimPowerTable()["G"].name == "Generator"
    ensures SimPowerTable()["LS"].connect == Bare("from_bus")
    ensures forall k :: k in SimPowerTable() ==> (SimPowerTable()[k].connect.Bare? <==> k == "LS")
    ensures forall k :: k in SimPowerTable() ==> SimPowerTable()[k].results == Missing && SimPowerTable()[k].capacity == Missing
  {
  }

  // -----------------------------------------------------------------------
  // infrarisk/src/network_sim_models/transportation/transpo_compons.py

  /** The transport component table: junctions and links, both repaired in
      24 hours. */
  function TranspoTable(): Table
  {
    map[
      "J" := Plain("node", "Junction", Fields(["name"]), 24),
      "L" := Plain("link", "Link", Fields(["head", "tail"]), 24)
    ]
  }

  lemma TranspoTableKeys()
    ensures TranspoTable().Keys == {"J", "L"}
  {
  }

  lemma TranspoTableFacts()
    ensures TranspoTable()["J"].code == "node" && TranspoTable()["J"].connect == Fields(["name"])
    ensures TranspoTable()["L"].code == "link" && TranspoTable()["L"].connect == Fields(["head", "tail"])
    ensures forall k :: k in TranspoTable() ==> TranspoTable()[k].repairTime == 24
  {
  }

  // -----------------------------------------------------------------------
  // dreaminsg_integrated_model/src/network_sim_models/water/water_network_model.py

  /** The water table of the older `src` package: link types connect through
      the single attribute `start_node_name`, nodes through `name`. */
  function OldSrcWaterTable(): Table
  {
    map[
      "WP" := Plain("pumps", "Pump", Bare("start_node_name"), 10),
      "R" := Plain("reservoirs", "Reservoir", Bare("name"), 24),
      "P" := Plain("pipes", "Pipe", Bare("start_node_name"), 12),
      "PSC" := Plain("pipes", "Service Connection Pipe", Bare("start_node_name"), 4),
      "PMA" := Plain("pipes", "Main Pipe", Bare("start_node_name"), 2),
      "PHC" := Plain("pipes", "Hydrant Connection Pipe", Bare("start_node_name"), 4),
      "PV" := Plain("pipes", "Valve converted to Pipe", Bare("start_node_name"), 2),
      "J" := Plain("junctions", "Junction", Bare("name"), 5),
      "JIN" := Plain("junctions", "Intermmediate Junction", Bare("name"), 5),
      "JVN" := Plain("junctions", "Valve Junction", Bare("name"), 5),
      "JTN" := Plain("junctions", "Terminal Junction", Bare("name"), 5),
      "JHY" := Plain("junctions", "Hydrant Junction", Bare("name"), 5),
      "T" := Plain("tanks", "Tank", Bare("name"), 24)
    ]
  }

  lemma OldSrcWaterTableKeys()
    ensures OldSrcWaterTable().Keys == {"WP", "R", "P", "PSC", "PMA", "PHC", "PV", "J", "JIN", "JVN", "JTN", "JHY", "T"}
  {
  }

  lemma OldSrcWaterTableConnections()
    ensures forall k :: k in {"WP", "P", "PSC", "PMA", "PHC", "PV"} ==> OldSrcWaterTable()[k].connect == Bare("start_node_name")
    ensures forall k :: k in {"R", "J", "JIN", "JVN", "JTN", "JHY", "T"} ==> OldSrcWaterTable()[k].connect == Bare("name")
  {
  }

  lemma OldSrcWaterTableRepairTimes()
    ensures OldSrcWaterTable()["WP"].repairTime == 10 && OldSrcWaterTable()["R"].repairTime == 24 && OldSrcWaterTable()["T"].repairTime == 24
    ensures OldSrcWaterTable()["P"].repairTime == 12 && OldSrcWaterTable()["PSC"].repairTime == 4 && OldSrcWaterTable()["PMA"].repairTime == 2
    ensures OldSrcWaterTable()["PHC"].repairTime == 4 && OldSrcWaterTable()["PV"].repairTime == 2
    ensures forall k :: k in {"J", "JIN", "JVN", "JTN", "JHY"} ==> OldSrcWaterTable()[k].repairTime == 5
  {
  }

  // -----------------------------------------------------------------------
  // dreaminsg_integrated_model/network_sim_models/water/water_network_model.py

  /** The oldest water table: five types only. */
  function OldestWaterTable(): Table
  {
    map[
      "WP" := Plain("pumps", "Pump", Bare("start_node_name"), 10),
      "R" := Plain("reservoirs", "Reservoir", Bare("name"), 24),
      "P" := Plain("pipes", "Pipe", Bare("start_node_name"), 12),
      "J" := Plain("junctions", "Junction", Bare("name"), 5),
      "T" := Plain("tanks", "Tank", Bare("name"), 24)
    ]
  }

  lemma OldestWaterTableKeys()
    ensures OldestWaterTable().Keys == {"WP", "R", "P", "J", "T"}
  {
  }

  lemma OldestWaterTableFacts()
    ensures OldestWaterTable()["WP"].repairTime == 10 && OldestWaterTable()["R"].repairTime == 24 && OldestWaterTable()["P"].repairTime == 12
    ensures OldestWaterTable()["J"].repairTime == 5 && OldestWaterTable()["T"].repairTime == 24
    ensures forall k :: k in {"WP", "P"} ==> OldestWaterTable()[k].connect == Bare("start_node_name")
    ensures forall k :: k in {"R", "J", "T"} ==> OldestWaterTable()[k].connect == Bare("name")
  {
  }

  /** The two power tables disagree on a line's repair time. */
  lemma LineRepairDiffers()
    ensures PhysicalPowerTable()["L"].repairTime != SimPowerTable()["L"].repairTime
  {
  }
}
