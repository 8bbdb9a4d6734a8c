/** The solver dispatch of the power system model of the simulation-model
    variant (infrarisk/src/network_sim_models/power/power_system_model.py).
    Loading records the simulation type on the network; running picks the
    single-phase power flow for `1ph`, the three-phase one (after adding
    the zero-sequence impedances) for `3ph`, and runs nothing for any other
    type. The power flows themselves are not part of this model. */
module PowerSystem {

  /** The loaded network as far as the dispatch is concerned. */
  datatype PowerNetwork = PowerNetwork(simType: string)

  /** The solver calls one run makes. */
  datatype Run = SinglePhase | ThreePhase | NoRun

  /** `load_power_network(network_json, sim_type="1ph")`. */
  function LoadPowerNetwork(simType: string := "1ph"): (pn: PowerNetwork)
    ensures pn.simType == simType
  {
    PowerNetwork(simType)
  }

  /** Whether loading announces the kind of power flow it will use. */
  predicate AnnouncesFlow(simType: string) {
    simType == "1ph" || simType == "3ph"
  }

  function RunPowerSimulation(pn: PowerNetwork): (r: Run)
    ensures r == SinglePhase <==> pn.simType == "1ph"
    ensures r == ThreePhase <==> pn.simType == "3ph"
  {
    if pn.simType == "1ph" then SinglePhase
    else if pn.simType == "3ph" then ThreePhase
    else NoRun
  }

  /** A network loaded with the default type runs the single-phase flow,
      and a type that loading does not announce runs nothing. */
  lemma LoadThenRun(simType: string)
    ensures RunPowerSimulation(LoadPowerNetwork()) == SinglePhase
    ensures RunPowerSimulation(LoadPowerNetwork(simType)) == NoRun <==> !AnnouncesFlow(simType)
  {
  }
}
