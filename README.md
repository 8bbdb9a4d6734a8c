# Interdependent infrastructure recovery engine, in Dafny

This project models the recovery engine of an integrated simulator of
interdependent power, water and road networks. Both code bases of the
repository are modelled: the current `infrarisk` package, and the older
`dreaminsg_integrated_model` package with its two generations (`src/` and the
top-level modules). The older variants are separate modules, not merged into
the newer ones, because their constants, rules and bugs differ.

A disruption scenario names the damaged components, such as `P_L3` (a power
line), `W_PMA12` (a water main) or `T_L5` (a road link). Each name is an
infrastructure prefix followed by a type code and a number.

- **Recovery scheduler.** From a repair order it builds an event table. The
  table starts with a "Functional" row per component and a "Service
  Disrupted" row per disruption. Then each repair adds "Repairing" and
  "Service Restored" rows. Each infrastructure has its own crew and trip
  clock. A trip starts at the clock plus the travel time. The clock then
  moves to the start plus the repair time. Road links are closed while
  disrupted and reopened for the transport crew.
- **Simulation driver.** It expands the event table onto extra time stamps.
  A new row is a forward-filled copy of the component's latest row. It then
  picks the simulated time stamps. Each step runs in a fixed order: direct
  effects, power flow, dependencies, water model, record.
- **Repair-order optimizer.** It is a rolling-horizon search. Each pass
  scores every ordered selection of `k` components still to repair, keeps
  the best (the later one on a tie), and commits its first component.
- **Resilience metrics.** Consumer service ratios are clipped at 1. ECS is
  the mean of these ratios and PCS the served share of the base demand. The
  areas under the curves come from the trapezoid rule and are weighted
  0.5/0.5.
- **Component naming and lookup tables.** These cover name parsing, the type
  tables, the dependency tables (pump on motor, reservoir on generator),
  access to the road network, and the crew bookkeeping of the integrated
  network.
- **Transport network.** This covers TNTP file reading and validation, link
  and path costs (BPR), the label-correcting and topological shortest paths,
  the all-or-nothing loading, the topological ordering and the adjacency
  matrix.
- **Cyber layer.** Actuators switch a pump or a tank's discharge pipe by
  replacing its named open/close control.

The physical solvers are not modelled: the hydraulic model (wntr), the power
flow (pandapower) and the traffic assignment. Where the engine asks them
something, the question becomes a function parameter. Examples are the
travel time between two road nodes, the road node nearest a component, a
motor's service state, a candidate's score, and a number parsed from text.
Where the engine tells them something, the model records the command instead
of carrying it out. Objects whose fields the source updates in place are
classes with `modifies` clauses. Their methods are proved against
specification functions of the old state, and the properties are proved
about those functions. Python's exceptions are the error values of a
`Result`, so the error paths of the source are part of each contract.

The older `transportation/link.py` and `path.py` compute exactly the link and
path costs of `transpo_compons.py`, so `TranspoCompons` models both copies.

## Model

| member | source | states |
|---|---|---|
| NetworkRecovery.FailPerc | infrarisk/src/network_recovery.py:207-230 | the fail percentage is read exactly when the component has one disruption row; otherwise ValueError |
| NetworkRecovery.FailPercUnique | infrarisk/src/network_recovery.py:207-230 | the single disruption row of a component gives its fail percentage |
| NetworkRecovery.FailPercAbsent | infrarisk/src/network_recovery.py:207-230 | a component without a disruption row makes the lookup fail with ValueError |
| NetworkRecovery.FailPercRepeated | infrarisk/src/network_recovery.py:207-230 | a component with two disruption rows makes the lookup fail with ValueError |
| NetworkRecovery.RepairStepRows | infrarisk/src/network_recovery.py:109-258 | every repair writes five rows, all about the repaired component |
| NetworkRecovery.FiveRowsPerRepair | infrarisk/src/network_recovery.py:109-258 | a scheduled order gives each component five rows per time it appears in the order, and nothing else |
| NetworkRecovery.PowerClock | infrarisk/src/network_recovery.py:113-141 | a power repair starts 60·(10 + travel) seconds after the power crew's clock, moves that crew to the component's site and sets its clock to the repair's end |
| NetworkRecovery.WaterTravelsFromPowerCrew | infrarisk/src/network_recovery.py:143-173 | a water repair is timed from the water crew's clock, but its travel is measured from the power crew's location |
| NetworkRecovery.TranspoRestoresLink | infrarisk/src/network_recovery.py:175-206 | a road repair first gives the link back its base free-flow time, then times the road crew's trip on the restored network, and moves only that crew |
| NetworkRecovery.RepairRowsShape | infrarisk/src/network_recovery.py:207-258 | the five rows of a repair: Repairing at its start and two steps before its end at the performance the disruption left, then Service Restored at its end and 120 and 240 seconds later |
| NetworkRecovery.PowerStartsSpaced | infrarisk/src/network_recovery.py:113-141 | with non-negative travel times two successive power repairs start at least the first's duration plus ten minutes apart |
| NetworkRecovery.FunctionalRowsAt | infrarisk/src/network_recovery.py:81-93 | one Functional row at time 0 and full performance per disrupted component, in order |
| NetworkRecovery.DisruptedRowsAt | infrarisk/src/network_recovery.py:98-107 | one Service Disrupted row per disruption, at its time and at 100 minus its fail percentage |
| NetworkRecovery.FirstTimeSpec | infrarisk/src/network_recovery.py:27-65 | the start clock of a crew is the time of a disruption of one of its infrastructure's ordered components, the first such in the scenario, and there is none only when no such disruption exists |
| NetworkRecovery.Recovery.constructor | infrarisk/src/network_recovery.py:14-25 | the scheduler keeps the given network and works on a copy with the same scenario, free-flow times and crews |
| NetworkRecovery.Recovery.ReturnCrews | infrarisk/src/network_recovery.py:261 | after the repairs the crews go back to their initial locations |
| NetworkRecovery.Recovery.SetInitialCrewStart | infrarisk/src/network_recovery.py:27-65 | each crew clock becomes the first disruption time of its infrastructure's ordered components, and is left alone when there is none |
| NetworkRecovery.Recovery.FailTranspoLink | infrarisk/src/network_recovery.py:398-404 | a road link's free-flow time becomes 9999; a name that is not a link is a KeyError and changes nothing |
| NetworkRecovery.Recovery.RestoreTranspoLink | infrarisk/src/network_recovery.py:406-414 | a road link's free-flow time goes back to its base value; an unknown link is a KeyError and changes nothing |
| NetworkRecovery.Recovery.ScheduleOne | infrarisk/src/network_recovery.py:109-258 | one loop pass succeeds exactly when the repair step does, leaving its crews and appending its five rows |
| NetworkRecovery.Recovery.Dispatch | infrarisk/src/network_recovery.py:113-206 | a repair of the given infrastructure succeeds exactly when the model's repair does, with its crews and rows |
| NetworkRecovery.Recovery.DispatchPower | infrarisk/src/network_recovery.py:113-141 | the power crew's trip and repair, as the model's power repair |
| NetworkRecovery.Recovery.DispatchWater | infrarisk/src/network_recovery.py:143-173 | the water crew's trip and repair, as the model's water repair |
| NetworkRecovery.Recovery.DispatchTranspo | infrarisk/src/network_recovery.py:175-206 | the link is restored, then the road crew's trip and repair, as the model's road repair |
| NetworkRecovery.Recovery.Record | infrarisk/src/network_recovery.py:207-258 | the five rows of a repair are appended exactly when the component has one disruption row |
| NetworkRecovery.Recovery.ScheduleRecovery | infrarisk/src/network_recovery.py:67-264 | an empty order changes nothing; otherwise the call succeeds exactly when the schedule does, and leaves the table sorted by time with the schedule's rows and the crews back home |
| NetworkRecovery.Recovery.Rebuild | infrarisk/src/network_recovery.py:72-261 | a non-empty order rebuilds the table and crews as the schedule says, failing exactly when it does |
| NetworkRecovery.Recovery.RepairFromPrepared | infrarisk/src/network_recovery.py:109-261 | from the prepared table the repairs succeed exactly when the plan does, ending as the schedule says |
| NetworkRecovery.Recovery.PrepareTable | infrarisk/src/network_recovery.py:72-107 | the crew clocks are set, the table holds the Functional rows then the Service Disrupted rows, and the disrupted road links are closed, failing exactly when a link cannot be closed |
| NetworkRecovery.Recovery.MarkDisrupted | infrarisk/src/network_recovery.py:81-93 | a Functional row per disrupted component, and every disrupted road link closed, failing exactly when a lookup or a closure does |
| NetworkRecovery.Recovery.CloseLink | infrarisk/src/network_recovery.py:91-93 | a component is looked up and closed when it is a road link, as the model's closure |
| NetworkRecovery.Recovery.AddDisruptionRows | infrarisk/src/network_recovery.py:98-107 | a Service Disrupted row is appended per disruption |
| NetworkRecovery.Recovery.RepairAll | infrarisk/src/network_recovery.py:109-260 | the repairs in order succeed exactly when the plan does; the table then holds the old rows and the plan's rows, sorted by time |
| NetworkRecovery.Recovery.ScheduleSorted | infrarisk/src/network_recovery.py:109-260 | one repair then a sort: the same rows plus the repair's, sorted by time |
| NetworkRecovery.Recovery.ResetNetworks | infrarisk/src/network_recovery.py:388-390 | the working network becomes a fresh copy of the given one |
| DirectEffects.RowsAt | infrarisk/src/network_recovery.py:284-288 | the rows of the step are exactly the table rows at that time stamp |
| DirectEffects.RowActionsExplained | infrarisk/src/network_recovery.py:289-386 | every command of a row answers that row: a power element is in service exactly when its performance is 100, and outages, leaks and tank closures last from the row's time to the next simulated time |
| DirectEffects.WaterActionsExplained | infrarisk/src/network_recovery.py:311-386 | every water command answers its row |
| DirectEffects.PowerRowInService | infrarisk/src/network_recovery.py:296-309 | a power element listed exactly once gets its in-service command |
| DirectEffects.DirectActionsError | infrarisk/src/network_recovery.py:289-294 | the step raises exactly when some row raises, and then with the exception of the first such row |
| DirectEffects.DirectActionsComplete | infrarisk/src/network_recovery.py:289-386 | a step that does not raise gives every command of every row |
| DirectEffects.DirectActionsSound | infrarisk/src/network_recovery.py:289-386 | every command given answers one of the step's rows |
| DirectEffects.UpdateDirectlyAffected | infrarisk/src/network_recovery.py:278-386 | the commands are those of the rows at the time stamp, in table order, up to the first row that raises; without an event table the attribute is missing |
| DirectEffects.RowsToActions | infrarisk/src/network_recovery.py:289-386 | the loop over the step's rows gives the commands of the run over those rows, and its first exception |
| DirectEffects.DirectActionsStopped | infrarisk/src/network_recovery.py:289-294 | once a prefix of the rows raises, the whole step raises with the same commands and exception |
| DirectEffects.StepWindowsOnly | infrarisk/src/network_recovery.py:314-382 | every outage, leak and tank closure given at a step runs from that step's time stamp to the next simulated time |
| Sorting.InsertBy | infrarisk/src/network_recovery.py:260 | inserting a row into a table lengthens it by one |
| Sorting.InsertByKeeps | infrarisk/src/network_recovery.py:260 | inserting keeps every row and adds exactly the inserted one |
| Sorting.InsertBySorted | infrarisk/src/network_recovery.py:260 | inserting into a time-ordered table keeps it time-ordered |
| Sorting.SortBy | infrarisk/src/network_recovery.py:260 | the sorted table is in key order and holds the same rows |
| EventTable.SortByTime | infrarisk/src/simulation.py:134 | sorting by time stamp gives a time-ordered table with the same rows |
| EventTable.SortValues | infrarisk/src/network_recovery.py:260 | the sorted event table is time-ordered and is a permutation of the table |
| Simulation.SetsSpec | infrarisk/src/simulation.py:37-38 | the unique time stamps and components are exactly those some row carries |
| Simulation.TimesOfSpec | infrarisk/src/simulation.py:92-105 | a component's times are exactly the times of its rows |
| Simulation.PairsSpec | infrarisk/src/simulation.py:51-105 | the (component, time) pairs of a table are exactly those of its rows |
| Simulation.ComponentsAtSpec | infrarisk/src/simulation.py:52-56 | the components at a time stamp are exactly those with a row at it |
| Simulation.MissingSpec | infrarisk/src/simulation.py:57-61 | the components to add are exactly the known ones missing from the time stamp's rows, and the unknown ones at it |
| Simulation.MissingAtTime | infrarisk/src/simulation.py:55-61 | the components phase one adds at a time stamp are without repeats, and none already has a row at that time |
| Simulation.PhaseOnePlan | infrarisk/src/simulation.py:51-90 | phase one adds only known components, and every known component it skips already has a row at that time |
| Simulation.UniqueColumns | infrarisk/src/simulation.py:37-38 | the unique columns hold exactly the table's times and components, without repeats |
| Rounding.RoundHalfEven | infrarisk/src/simulation.py:43 | Python's round lands within a half of its argument |
| Rounding.RoundTo3 | infrarisk/src/resilience_metrics.py:243-255 | `round(x, 3)` lands within 0.0005 of its argument |
| Rounding.RoundTo3Idempotent | infrarisk/src/resilience_metrics.py:266-269 | rounding an area already rounded to three decimals changes nothing |
| Simulation.PyRangeSpec | infrarisk/src/simulation.py:45-49 | a range with a positive step holds a, a + step, … while below b, and stops at the first that is not |
| Simulation.PyRangeDistinct | infrarisk/src/simulation.py:45-49 | a range with a non-zero step has no repeated value |
| Simulation.GridDistinct | infrarisk/src/simulation.py:36-49 | the grid of new time stamps has no repeated time |
| Simulation.ExtendsSpec | infrarisk/src/simulation.py:51-131 | an expanded table keeps the original rows as its prefix and every added row copies the latest row of its component at or before its time |
| Simulation.Shifted | infrarisk/src/simulation.py:135-137 | the shift keeps the rows and moves each time stamp by the given amount |
| Simulation.AppendCopy | infrarisk/src/simulation.py:63-90 | a forward-filled copy is appended, and the maximum over no earlier row is a ValueError exactly when the component has no row at or before the time |
| Simulation.FillAtTime | infrarisk/src/simulation.py:51-90 | phase one at one time: every known component without a row there gets a faithful copy, the original rows stay as the prefix, and the added rows are only for (component, time) pairs the table lacked, each once |
| Simulation.FillGrid | infrarisk/src/simulation.py:92-131 | phase two for one component: a faithful copy at every grid time more than 60 seconds from the times it has when its turn comes; over a grid without repeats, only pairs the table lacked, each once |
| Simulation.ScanFunctionalStarts | infrarisk/src/simulation.py:172-178 | the loop finds the latest functional start of a power or water component, as the specification function |
| Simulation.MaxFunctionalStartSpec | infrarisk/src/simulation.py:172-178 | the latest functional start is non-negative and at least every power or water component's start |
| Simulation.CountBelow | infrarisk/src/simulation.py:181-184 | the count of time stamps below a bound is at most their number |
| Simulation.SimTimeCount | infrarisk/src/simulation.py:179-185 | the number of simulated times is at most the number of time stamps |
| Simulation.Gaps | infrarisk/src/simulation.py:205-208 | one gap per simulated time after the first |
| Simulation.Trace | infrarisk/src/simulation.py:211-285 | one step per gap requested |
| Simulation.SumTelescopes | infrarisk/src/simulation.py:205-285 | when the simulated times are the first sorted time stamps, the clock after k steps has moved sim[k] − sim[0] |
| Simulation.RemoveFirst | infrarisk/src/simulation.py:161 | removing a present value drops one occurrence of it and keeps the rest |
| Simulation.NetworkSimulation.constructor | infrarisk/src/simulation.py:18-29 | the simulation keeps the scheduler and step, with every disrupted component still to repair and none repaired |
| Simulation.NetworkSimulation.UpdateRepairedComponents | infrarisk/src/simulation.py:155-162 | a component still to repair moves to the repaired list; an absent one is a ValueError and changes nothing |
| Simulation.NetworkSimulation.ExpandEventTable | infrarisk/src/simulation.py:31-137 | without a table AttributeError; a bad grid is the grid's error; otherwise the table is the original rows plus faithful copies at every time stamp and clear grid time, each for a (component, time) pair the original lacked and each such pair once, sorted and shifted 60 seconds |
| Simulation.NetworkSimulation.FillTimes | infrarisk/src/simulation.py:51-90 | phase one over every time stamp keeps the original rows as prefix and adds only faithful copies of known components, each for a (component, time) pair the table lacked, each such pair once |
| Simulation.NetworkSimulation.KnownComponents | infrarisk/src/simulation.py:51-131 | every row of the growing table names a component of the original |
| Simulation.NetworkSimulation.FillGrids | infrarisk/src/simulation.py:92-131 | phase two over every component keeps the table as prefix and adds faithful copies at its clear grid times only; over a grid without repeats, only pairs the table lacked, each once |
| Simulation.NetworkSimulation.TimesAfterPhaseOne | infrarisk/src/simulation.py:92-105 | when a component's turn comes in phase two its times are exactly the original time stamps |
| Simulation.NetworkSimulation.GetSimTimes | infrarisk/src/simulation.py:164-186 | without the wide table AttributeError; a lookup error propagates; otherwise the first min(n, k + 3) time stamps, k those before five hours after the latest functional start |
| Simulation.NetworkSimulation.SimulateSteps | infrarisk/src/simulation.py:188-287 | one step per simulated time but the last, each over the gap to the next, and the water duration advances by the gaps' sum, sim[last] − sim[0] when the times are the first sorted time stamps |
| Simulation.NetworkSimulation.StepWindows | infrarisk/src/simulation.py:211-285 | the windows of successive steps follow one another without gap or overlap |
| EventFill.LatestSpec | infrarisk/src/simulation.py:92-105 | the latest time is absent exactly when the component has no row at or before the time, and otherwise is the largest such row time |
| EventFill.FirstAtSpec | infrarisk/src/simulation.py:107-121 | the first selected row exists exactly when the component has a row at that time, and is such a row |
| EventFill.FirstAtAppend | infrarisk/src/simulation.py:107-121 | appending rows does not change the first selected row when the table already had one |
| EventFill.ValueAtError | infrarisk/src/simulation.py:105-121 | the lookup fails exactly when the component has no row at or before the time, and then with the ValueError of an empty max |
| EventFill.LatestAppend | infrarisk/src/simulation.py:63-68 | the latest time over two tables is the larger of the two tables' latest times |
| EventFill.LatestSameBelow | infrarisk/src/simulation.py:63-68 | two cut-offs with no row of the component between them see the same latest time |
| EventFill.LookupFaithful | infrarisk/src/simulation.py:63-131 | once only faithful copies were appended, every lookup reads what it reads in the original table |
| EventFill.FaithfulCopy | infrarisk/src/simulation.py:80-90 | a row copied by a lookup in the growing table is faithful to the original table |
| EventFill.FaithfulMeansLatest | infrarisk/src/simulation.py:63-131 | every appended copy carries the perf level and state of the latest original row at or before its time |
| Optimizer.RemoveAt | infrarisk/src/optimizer.py:57-70 | dropping one element keeps the others: the multiset loses exactly that element |
| Optimizer.Prefixed | infrarisk/src/optimizer.py:57-70 | every permutation of the rest is extended by the chosen head |
| Optimizer.PermutationsSound | infrarisk/src/optimizer.py:57-70 | every generated permutation has length k and uses components of the list, none more often than listed |
| Optimizer.PermutationsComplete | infrarisk/src/optimizer.py:57-70 | every length-k arrangement of the list's components is generated |
| Optimizer.PermutationsDistinct | infrarisk/src/optimizer.py:57-70 | over a list without repeats every permutation is without repeats and uses only listed components |
| Optimizer.PermutationsNonEmpty | infrarisk/src/optimizer.py:57-70 | there is at least one permutation of length at most the list's |
| Optimizer.RepairPermutationsSpec | infrarisk/src/optimizer.py:57-70 | the candidates are exactly the arrangements of min(horizon, n) components still to repair, and there is at least one |
| Optimizer.Cumulative | infrarisk/src/optimizer.py:99 | each candidate is the repaired list followed by a permutation |
| Optimizer.Scores | infrarisk/src/optimizer.py:98-132 | each candidate's score is the metric of that cumulative order |
| Optimizer.BestIndex | infrarisk/src/optimizer.py:150-157 | the kept candidate is one of the candidates |
| Optimizer.BestIndexSpec | infrarisk/src/optimizer.py:150-157 | the kept candidate has the highest score and every later candidate scores strictly less: ties go to the later one |
| Optimizer.BestIndexUnique | infrarisk/src/optimizer.py:150-157 | the kept candidate is the only one with that property |
| Optimizer.FirstNew | infrarisk/src/optimizer.py:159-163 | the committed component is the first of the best order not yet repaired, and none exists exactly when every one of them is repaired |
| Optimizer.CommitsFirstOfSelection | infrarisk/src/optimizer.py:159-165 | without repeats the committed component is the head of the best permutation, still to repair |
| Optimizer.ZeroHorizonFindsNothing | infrarisk/src/optimizer.py:36-70 | a horizon of zero gives only the empty permutation, whose order has no new component |
| Optimizer.LogOf | infrarisk/src/optimizer.py:135-143 | the log gets one row per candidate, in order, with its score |
| Optimizer.BruteForceOptimizer.constructor | infrarisk/src/optimizer.py:36-55 | a missing horizon becomes 0; no best order, no score and an empty log |
| Optimizer.BruteForceOptimizer.EvaluateCandidates | infrarisk/src/optimizer.py:98-157 | every candidate is logged in order, and the kept order and score are the best candidate's, ties to the later one |
| Optimizer.BruteForceOptimizer.Pass | infrarisk/src/optimizer.py:81-170 | one horizon: the candidates are the permutations after the repaired list, the best is kept, and its first new component moves from to-repair to repaired; no such component is IndexError, one not to repair ValueError, both leaving the lists |
| Optimizer.BruteForceOptimizer.FindOptimalRecovery | infrarisk/src/optimizer.py:72-178 | passes until nothing is left: the components are conserved, the repaired list only grows, and with a horizon of at least one and no repeats it ends with nothing to repair |
| Optimizer.PassFails | infrarisk/src/optimizer.py:81-170 | a pass fails only when the horizon is zero or some component is listed twice |
| Optimizer.UnpackThree | infrarisk/src/optimizer.py:120-124 | unpacking succeeds exactly for three values; otherwise ValueError |
| Optimizer.ScoreAsWritten | infrarisk/src/optimizer.py:119-124 | as written the two values returned are unpacked into three: every scoring raises ValueError |
| ResilienceMetrics.ClipUpperBound | infrarisk/src/resilience_metrics.py:197 | a clipped ratio is never above 1 and never infinite, and a ratio at most 1 is left alone |
| ResilienceMetrics.Ratios | infrarisk/src/resilience_metrics.py:196-197 | each service ratio is served over base demand, clipped at 1 |
| ResilienceMetrics.Mins | infrarisk/src/resilience_metrics.py:200-202 | each consumer's served amount is the smaller of its demand and its base demand |
| ResilienceMetrics.EcsAtMostOne | infrarisk/src/resilience_metrics.py:199 | ECS is never above 1 |
| ResilienceMetrics.EcsInUnitRange | infrarisk/src/resilience_metrics.py:196-199 | with positive base demands and non-negative service ECS lies in [0, 1] |
| ResilienceMetrics.SumMinsBound | infrarisk/src/resilience_metrics.py:200-202 | the served total never exceeds the base total, and is non-negative when demands are |
| ResilienceMetrics.PcsBounds | infrarisk/src/resilience_metrics.py:200-203 | with a positive base total PCS is finite, at most 1, and non-negative when demands are |
| ResilienceMetrics.FullService | infrarisk/src/resilience_metrics.py:196-203 | when every consumer gets its base demand both ECS and PCS are 1 |
| ResilienceMetrics.BaseRowIndex | infrarisk/src/resilience_metrics.py:164-165 | the base-demand row is a minute of the day, 0 to 1439 |
| ResilienceMetrics.BaseRowIndexDaily | infrarisk/src/resilience_metrics.py:164-165 | the base-demand row repeats every day and is the minute within the first day |
| ResilienceMetrics.CorrectionBelowThreshold | infrarisk/src/resilience_metrics.py:173-186 | below the threshold pressure the demand correction lies in [0, 1] |
| ResilienceMetrics.Served | infrarisk/src/resilience_metrics.py:172-188 | under demand-driven analysis each demand is scaled by its pressure correction, otherwise kept |
| ResilienceMetrics.WaterCurve | infrarisk/src/resilience_metrics.py:151-203 | one point per recorded time, in minutes, with the water ECS and PCS against that minute's base demands |
| ResilienceMetrics.PowerCurve | infrarisk/src/resilience_metrics.py:205-236 | one point per recorded row, in minutes, with the power ECS and PCS against the base loads |
| ResilienceMetrics.Auc | infrarisk/src/resilience_metrics.py:243-255 | the area fails exactly when there are fewer than two points, the lengths differ or the times are not monotonic |
| ResilienceMetrics.AucBounds | infrarisk/src/resilience_metrics.py:243-255 | a service curve in [0, 1] over increasing times has a finite area between 0 and the time span |
| ResilienceMetrics.TrapezoidAdd | infrarisk/src/resilience_metrics.py:243-258 | the area of a sum of curves is the sum of their areas |
| ResilienceMetrics.Weighted | infrarisk/src/resilience_metrics.py:257-258 | the 0.5/0.5 weighting lies between the power and water areas, and equals them when they agree |
| ResilienceMetrics.WeightedResilienceMetric.constructor | infrarisk/src/resilience_metrics.py:13-22 | no recorded times, no power columns and empty tables |
| ResilienceMetrics.WeightedResilienceMetric.CalculatePowerLoad | infrarisk/src/resilience_metrics.py:106-126 | the time is recorded, the columns are set on the first call only, and one row of time, load and motor powers is appended |
| ResilienceMetrics.WeightedResilienceMetric.CalculateNodeDetails | infrarisk/src/resilience_metrics.py:44-84 | the solver's heads, demands and pressures are appended to their tables |
| ResilienceMetrics.WeightedResilienceMetric.CalculateWaterResmetrics | infrarisk/src/resilience_metrics.py:151-203 | the water curve is the model's curve of the stored tables; an error leaves it |
| ResilienceMetrics.WeightedResilienceMetric.CalculatePowerResmetric | infrarisk/src/resilience_metrics.py:205-236 | the power curve is the model's curve of the stored loads |
| ResilienceMetrics.WeightedResilienceMetric.SetWeightedAucMetrics | infrarisk/src/resilience_metrics.py:241-258 | succeeds exactly when both ECS areas can be taken, otherwise ValueError; the power areas are stored rounded to three decimals unless the power area raises, the water areas likewise unless a water area raises, and each weighted area is half the rounded power area plus half the rounded water area |
| ResilienceMetrics.WeightedResilienceMetric.GetWeightedAucMetrics | infrarisk/src/resilience_metrics.py:260-269 | exactly two values, the weighted ECS area then the weighted PCS area, each rounded again to three decimals |
| ResilienceMetrics.ReportedWeightedArea | infrarisk/src/resilience_metrics.py:243-269 | the reported weighted area of two finite areas is within 0.001 of their exact 0.5/0.5 weighting and is already a three-decimal value |
| ResilienceMetrics.Times | infrarisk/src/resilience_metrics.py:157-158 | the times of a curve, in order |
| Plots.Integrate | infrarisk/src/plots.py:1095-1111 | the trapezoid sum, or IndexError when y is shorter than x and there are two points |
| Plots.TrapezoidNonNegative | infrarisk/src/plots.py:1106-1109 | over non-decreasing x a non-negative curve has a non-negative area |
| Plots.TrapezoidConstant | infrarisk/src/plots.py:1106-1109 | a constant curve has area constant times the span |
| Plots.TrapezoidSplit | infrarisk/src/plots.py:1106-1109 | the area splits at any sample into the areas on either side |
| Plots.Shortfall | infrarisk/src/plots.py:505-519 | the unserved share is one minus the ratio at every sample |
| Plots.OutageHours | infrarisk/src/plots.py:500-526 | equivalent outage hours are the area of the shortfall over time in minutes, divided by 60, and fail as integrate does |
| Plots.OutageHoursBounds | infrarisk/src/plots.py:500-526 | ratios at most 1 over non-decreasing times give non-negative outage hours, and full service gives none |
| SimInterdependencies.InfraOfPrefix | infrarisk/src/network_sim_models/interdependencies.py:277-311 | a prefix names the infrastructure whose prefix it is, and every infrastructure's prefix is recognised |
| SimInterdependencies.GetComponDetailsSpec | infrarisk/src/network_sim_models/interdependencies.py:263-318 | a name without exactly one underscore is a ValueError; otherwise the details of its type from its infrastructure's table, or an unknown type |
| SimInterdependencies.NamingRoundTrip | infrarisk/src/network_sim_models/interdependencies.py:263-318 | a name built from an infrastructure prefix, a known type code and a number reads back as that type |
| SimInterdependencies.SplitTwoOf | infrarisk/src/network_sim_models/interdependencies.py:271 | splitting a name with one separator gives back its two halves |
| SimInterdependencies.SeparatedUnique | infrarisk/src/network_sim_models/interdependencies.py:271 | the two halves around a single separator are unique |
| SimInterdependencies.LettersOfTypedNumber | infrarisk/src/network_sim_models/interdependencies.py:273-276 | the letters of a type code followed by a number are the type code |
| SimInterdependencies.Classify | infrarisk/src/network_sim_models/interdependencies.py:52-71 | a (water, power) pair is classified exactly when some coupling has those display names |
| SimInterdependencies.CouplingOf | infrarisk/src/network_sim_models/interdependencies.py:36-71 | an accepted dependency row names the pair it was read from |
| SimInterdependencies.Couplings | infrarisk/src/network_sim_models/interdependencies.py:34-76 | a dependency file adds at most one row per line |
| SimInterdependencies.CouplingsStopped | infrarisk/src/network_sim_models/interdependencies.py:34-76 | once the reading stops with an exception, later lines change nothing |
| SimInterdependencies.CouplingsFromFile | infrarisk/src/network_sim_models/interdependencies.py:34-76 | every coupling added names a pair of the file |
| SimInterdependencies.AccessRowOf | infrarisk/src/network_sim_models/interdependencies.py:140-167 | an access row joins the node to its nearest road node |
| SimInterdependencies.NodesOfInterest | infrarisk/src/network_sim_models/interdependencies.py:140-167 | the nodes given access rows are exactly the graph's power and water nodes |
| SimInterdependencies.DependencyTable.constructor | infrarisk/src/network_sim_models/interdependencies.py:19-32 | both tables start empty |
| SimInterdependencies.DependencyTable.BuildPowerWaterDependencies | infrarisk/src/network_sim_models/interdependencies.py:34-76 | a missing file adds nothing; otherwise the table gains the file's couplings, as the specification function says, with its exception |
| SimInterdependencies.DependencyTable.AddTranspoAccess | infrarisk/src/network_sim_models/interdependencies.py:140-167 | one access row per power or water node in graph order, until a lookup fails |
| SimInterdependencies.AccessRowsFollowNodes | infrarisk/src/network_sim_models/interdependencies.py:140-167 | the access rows follow the nodes one for one, each to the node's nearest road node, all of them unless a lookup failed |
| SimInterdependencies.DependencyTable.UpdateDependencies | infrarisk/src/network_sim_models/interdependencies.py:169-253 | the control names and the exception are those of the row-by-row update: it fails exactly when some motor state cannot be read (ValueError); on success every pump on an out-of-service motor has its outage controls for the step; old names stay, the only names added are those outage controls, and rows that all leave their pumps alone change nothing |
| SimInterdependencies.UpdateRow | infrarisk/src/network_sim_models/interdependencies.py:180-253 | one coupling row: an unreadable motor is a ValueError and changes nothing, an out-of-service motor replaces its pump's outage controls, anything else changes nothing |
| SimInterdependencies.ReplacePumpOutage | infrarisk/src/network_sim_models/interdependencies.py:195-213 | the names become the old names without the pump's two outage controls for the step, followed by those two: stale controls are replaced and nothing else changes |
| SimInterdependencies.ReplacedSpec | infrarisk/src/network_sim_models/interdependencies.py:195-213 | after the replacement a name is present exactly when it was before or is one of the two outage controls, and a list without repeats stays without repeats |
| SimInterdependencies.ControlsAfterSnoc | infrarisk/src/network_sim_models/interdependencies.py:180-253 | a further row that the update reaches is handled by the one-row step |
| SimInterdependencies.ControlsAfterStopped | infrarisk/src/network_sim_models/interdependencies.py:180-253 | once a prefix of the rows raises, later rows change nothing |
| SimInterdependencies.ControlsAfterError | infrarisk/src/network_sim_models/interdependencies.py:180-253 | the update fails exactly when some motor state cannot be read, and then with ValueError |
| SimInterdependencies.ControlsAfterKeeps | infrarisk/src/network_sim_models/interdependencies.py:180-253 | every control name present before the update is present after it |
| SimInterdependencies.ControlsAfterHandled | infrarisk/src/network_sim_models/interdependencies.py:180-253 | on success every row was read, and every pump on an out-of-service motor has both outage controls for the step |
| SimInterdependencies.ControlsAfterAdds | infrarisk/src/network_sim_models/interdependencies.py:180-253 | the only names the update adds are the outage controls of pumps whose motor is out of service |
| SimInterdependencies.ControlsAfterKeep | infrarisk/src/network_sim_models/interdependencies.py:180-253 | rows whose motors are all in service (or generators) leave the names unchanged and raise nothing |
| SimInterdependencies.ControlsAfterUndefined | infrarisk/src/physical/interdependencies.py:189-220 | when the outage call is undefined and every motor is readable, the update fails exactly when some motor is out of service, with AttributeError |
| SimInterdependencies.OutageNamesDiffer | infrarisk/src/network_sim_models/interdependencies.py:195-218 | the two controls of one outage have different names |
| SimInterdependencies.PowerRepairTime | infrarisk/src/network_sim_models/interdependencies.py:421-424 | a power repair time is the power table's value for the component's type |
| SimInterdependencies.TranspoRepairTime | infrarisk/src/network_sim_models/interdependencies.py:427-430 | a road repair time is the transport table's value for the component's type |
| SimInterdependencies.WaterRepairTime | infrarisk/src/network_sim_models/interdependencies.py:433-440 | a pipe takes diameter·10 + 2 hours, every other water type its table value |
| PhysicalInterdependencies.LookupInErrors | infrarisk/src/physical/interdependencies.py:229-290 | the lookup fails exactly for a name without exactly one underscore (ValueError) or without a digit (IndexError of the number search) |
| PhysicalInterdependencies.LookupInNoDigit | infrarisk/src/physical/interdependencies.py:240 | a well-split name with no digit is an IndexError |
| PhysicalInterdependencies.LookupInFound | infrarisk/src/physical/interdependencies.py:229-290 | found details carry the infrastructure of the prefix, the letters of the identifier as type code, and that table's entry |
| PhysicalInterdependencies.LookupInUnknown | infrarisk/src/physical/interdependencies.py:229-290 | an unknown type is an unrecognised prefix or a type code missing from its table |
| PhysicalInterdependencies.GetComponDetailsSpec | infrarisk/src/physical/interdependencies.py:229-290 | on the package's tables: the same error cases, and found details taken from the right table |
| PhysicalInterdependencies.NamingRoundTrip | infrarisk/src/physical/interdependencies.py:229-290 | a name built from an infrastructure prefix, a known type code and a number reads back as that type |
| PhysicalInterdependencies.NameDigits | infrarisk/src/physical/interdependencies.py:240 | the number found in such a name is its number part |
| PhysicalInterdependencies.NoInfraIsTargetType | infrarisk/src/physical/interdependencies.py:305-306 | no infrastructure is named "target_type", so that early return is never taken |
| PhysicalInterdependencies.GetNearestNodeSpec | infrarisk/src/physical/interdependencies.py:292-328 | the search fails exactly when the lookup does; a power or water node gets the spatial search's answer, anything else is its own nearest node at distance 0 |
| PhysicalInterdependencies.GetComponRepairTime | infrarisk/src/physical/interdependencies.py:455-472 | a repair time exists exactly for a found component, and is its table's value |
| PhysicalInterdependencies.RepairTimeOfName | infrarisk/src/physical/interdependencies.py:455-472 | a name built from a known type code has that type's repair time |
| PhysicalInterdependencies.KeptEndpoints | infrarisk/src/physical/interdependencies.py:390-402 | only endpoints among the original nodes are kept, at most one per field |
| PhysicalInterdependencies.KeptEndpointsComplete | infrarisk/src/physical/interdependencies.py:390-402 | every field whose endpoint is an original node contributes it |
| PhysicalInterdependencies.FindConnectedWaterNode | infrarisk/src/physical/interdependencies.py:377-402 | succeeds exactly for a found water component of a known connection kind, giving its endpoints among the original nodes |
| PhysicalInterdependencies.KeepEndpoints | infrarisk/src/physical/interdependencies.py:390-402 | the loop keeps the endpoints as the specification function says |
| PhysicalInterdependencies.CouplingOf | infrarisk/src/physical/interdependencies.py:48-80 | an accepted dependency row names the pair it was read from |
| PhysicalInterdependencies.CouplingOfSpec | infrarisk/src/physical/interdependencies.py:55-80 | a motor pump, a load-modelled motor pump and a generator reservoir give their coupling rows, any other pair none |
| PhysicalInterdependencies.ReadCouplings | infrarisk/src/physical/interdependencies.py:48-80 | the loop over the file gives the specification's couplings and error |
| PhysicalInterdependencies.CollectAccessRows | infrarisk/src/physical/interdependencies.py:159-174 | the loop over the nodes gives the specification's access rows and error |
| PhysicalInterdependencies.Couplings | infrarisk/src/physical/interdependencies.py:40-84 | a dependency file adds at most one row per line |
| PhysicalInterdependencies.CouplingsStopped | infrarisk/src/physical/interdependencies.py:40-84 | once reading stops with an exception, later lines change nothing |
| PhysicalInterdependencies.CouplingsFromFile | infrarisk/src/physical/interdependencies.py:40-84 | every coupling added names a pair of the file |
| PhysicalInterdependencies.CouplingsReadAll | infrarisk/src/physical/interdependencies.py:40-84 | a reading that does not stop has read every line |
| PhysicalInterdependencies.AccessRowOf | infrarisk/src/physical/interdependencies.py:159-174 | an access row starts at the node |
| PhysicalInterdependencies.NodesOfInterest | infrarisk/src/physical/interdependencies.py:153-157 | the nodes given access rows are exactly the graph's power and water nodes |
| PhysicalInterdependencies.AccessRowsFollowNodes | infrarisk/src/physical/interdependencies.py:148-175 | the access rows follow the nodes one for one, all of them unless a lookup failed |
| PhysicalInterdependencies.AccessRowUsesSearch | infrarisk/src/physical/interdependencies.py:159-174 | a power or water node's access row points at the spatial search's nearest road node |
| PhysicalInterdependencies.DependencyTable.constructor | infrarisk/src/physical/interdependencies.py:25-38 | both tables start empty |
| PhysicalInterdependencies.DependencyTable.BuildPowerWaterDependencies | infrarisk/src/physical/interdependencies.py:40-84 | a missing file adds nothing; otherwise the table gains the file's couplings with its exception |
| PhysicalInterdependencies.DependencyTable.AddTranspoAccess | infrarisk/src/physical/interdependencies.py:148-175 | one access row per power or water node in graph order, until a lookup fails |
| PhysicalInterdependencies.DependencyTable.UpdateDependencies | infrarisk/src/physical/interdependencies.py:177-220 | with the pump outage added: the names and exception are those of the row-by-row update; it fails exactly when a motor pump's result cannot be read (ValueError); on success every motor pump drawing no power has its outage controls for the step; old names stay, only those controls are added, and rows that all draw power change nothing |
| PhysicalInterdependencies.DependencyTable.UpdateDependenciesAsWritten | infrarisk/src/physical/interdependencies.py:177-220 | as written: the names and exception are those of the row-by-row update in which the first motor pump drawing no power loses its stale outage controls and then raises AttributeError |
| PhysicalInterdependencies.PumpOutageUndefined | infrarisk/src/physical/interdependencies.py:189-220 | with every motor readable, the update as written raises AttributeError exactly when some motor pump draws no power, while the update that adds the outage succeeds |
| ComponentTables.PhysicalWaterTableKeys | infrarisk/src/physical/water/water_network_model.py:12-124 | the physical water table knows exactly the pump, reservoir, tank, pipe and junction codes |
| ComponentTables.PhysicalPipesAreExactlyPipeCodes | infrarisk/src/physical/water/water_network_model.py:33-74 | an entry is of the pipes kind exactly when its code is a pipe code |
| ComponentTables.PhysicalPipesAreTwoEnded | infrarisk/src/physical/water/water_network_model.py:33-74 | every pipe connects two nodes and reports link results |
| ComponentTables.PhysicalNameConnectedAreNodes | infrarisk/src/physical/water/water_network_model.py:12-124 | entries connected by their own name are neither pipes nor pumps |
| ComponentTables.PhysicalOnlyValveJunctionLacksResults | infrarisk/src/physical/water/water_network_model.py:89-94 | the valve junction is the only entry without a results key |
| ComponentTables.PhysicalJunctionEntries | infrarisk/src/physical/water/water_network_model.py:75-115 | every junction code is of the junctions kind and takes five hours to repair |
| ComponentTables.PhysicalWaterNodeRepairTimes | infrarisk/src/physical/water/water_network_model.py:19-32 | pumps take 12 hours, reservoirs and tanks 24 |
| ComponentTables.PhysicalPipeRepairTimes | infrarisk/src/physical/water/water_network_model.py:33-53 | plain pipes and mains take 12 hours, service connections 2 |
| ComponentTables.PhysicalValvePipeRepairTimes | infrarisk/src/physical/water/water_network_model.py:54-74 | hydrant connections take 4 hours, valve pipes and tank valve pipes 2 |
| ComponentTables.WaterControlTableKeys | infrarisk/src/physical/water/water_network_model.py:127-171 | the control table knows exactly the actuator, sensor and controller codes |
| ComponentTables.WaterControlTableFacts | infrarisk/src/physical/water/water_network_model.py:127-171 | every control component takes five hours to repair |
| ComponentTables.PhysicalPowerTableKeys | infrarisk/src/physical/power/power_system_model.py:8-184 | the physical power table knows exactly the bus codes and the load, generator, switch, line, transformer and dangling-line codes |
| ComponentTables.PhysicalLineEntry | infrarisk/src/physical/power/power_system_model.py:143-150 | a line connects two buses and takes five hours to repair |
| ComponentTables.PhysicalTransformerEntry | infrarisk/src/physical/power/power_system_model.py:159-166 | a transformer connects two buses and takes ten hours |
| ComponentTables.PhysicalLineSwitchEntry | infrarisk/src/physical/power/power_system_model.py:151-158 | a line switch is reached through its single bus field |
| ComponentTables.PhysicalSwitchEntry | infrarisk/src/physical/power/power_system_model.py:119-126 | a switch has no results table and no capacity fields |
| ComponentTables.PhysicalMotorEntry | infrarisk/src/physical/power/power_system_model.py:87-94 | a motor takes 24 hours to repair |
| ComponentTables.PhysicalGeneratorEntry | infrarisk/src/physical/power/power_system_model.py:111-118 | a generator takes 24 hours to repair |
| ComponentTables.SimPowerTableKeys | infrarisk/src/network_sim_models/power/power_system_model.py:6-141 | the simulation power table knows exactly its 21 codes, the motor-as-load among them |
| ComponentTables.SimPowerTableFacts | infrarisk/src/network_sim_models/power/power_system_model.py:6-141 | lines connect two buses in three hours; the line switch alone has a single connection field; no entry has results or capacity keys |
| ComponentTables.TranspoTableKeys | infrarisk/src/network_sim_models/transportation/transpo_compons.py:139-155 | the transport table knows junctions and links only |
| ComponentTables.TranspoTableFacts | infrarisk/src/network_sim_models/transportation/transpo_compons.py:139-155 | junctions are nodes named by themselves, links connect head and tail, and both take 24 hours |
| ComponentTables.OldSrcWaterTableKeys | dreaminsg_integrated_model/src/network_sim_models/water/water_network_model.py:6-92 | the older water table knows exactly its 13 codes |
| ComponentTables.OldSrcWaterTableConnections | dreaminsg_integrated_model/src/network_sim_models/water/water_network_model.py:6-92 | links connect through their start node and nodes through their own name |
| ComponentTables.OldSrcWaterTableRepairTimes | dreaminsg_integrated_model/src/network_sim_models/water/water_network_model.py:6-92 | the repair time of every entry, junctions all five hours |
| ComponentTables.OldestWaterTableKeys | dreaminsg_integrated_model/network_sim_models/water/water_network_model.py:9-48 | the oldest water table knows only pumps, reservoirs, pipes, junctions and tanks |
| ComponentTables.OldestWaterTableFacts | dreaminsg_integrated_model/network_sim_models/water/water_network_model.py:9-48 | the repair times and connection fields of those five entries |
| ComponentTables.LineRepairDiffers | infrarisk/src/physical/power/power_system_model.py:143-150 | the two power tables give a line different repair times |
| SimIntegratedNetwork.ComponentsOf | infrarisk/src/network_sim_models/integrated_network.py:469-484 | the disrupted components are the scenario's component column, one per row, in row order |
| SimIntegratedNetwork.OfInfra | infrarisk/src/network_sim_models/integrated_network.py:502-516 | the components a classification assigns to one infrastructure are components of the scenario |
| SimIntegratedNetwork.PartitionOk | infrarisk/src/network_sim_models/integrated_network.py:502-516 | building the per-infrastructure dictionary succeeds exactly when every disrupted component has a known infrastructure |
| SimIntegratedNetwork.PartitionIsFilter | infrarisk/src/network_sim_models/integrated_network.py:502-516 | each infrastructure's list holds exactly the components of that infrastructure, in scenario order |
| SimIntegratedNetwork.PartitionCovers | infrarisk/src/network_sim_models/integrated_network.py:502-516 | the three lists together hold every disrupted component, each as often as it is listed |
| SimIntegratedNetwork.PartitionLoop | infrarisk/src/network_sim_models/integrated_network.py:502-516 | the loop over the components yields the partition, or the error of the first component it cannot place |
| SimIntegratedNetwork.IntegratedNetwork.constructor | infrarisk/src/network_sim_models/integrated_network.py:42-79 | a new network has no scenario read, no disrupted components, and free-flow times equal to the base free-flow times |
| SimIntegratedNetwork.IntegratedNetwork.Clone | infrarisk/src/network_sim_models/integrated_network.py:42-79 | a deep copy is a fresh network with the same state |
| SimIntegratedNetwork.IntegratedNetwork.SetDisruptedComponents | infrarisk/src/network_sim_models/integrated_network.py:469-484 | a missing file on a network that never read a scenario is an AttributeError and changes nothing; otherwise the scenario read (or the stored one when the file is missing) sets the component list and is partitioned; a failed partition leaves the dictionary as it was |
| SimIntegratedNetwork.IntegratedNetwork.SetDisruptedInfraDict | infrarisk/src/network_sim_models/integrated_network.py:502-516 | the dictionary becomes the partition of the disrupted components, and is left unchanged when the partition raises |
| SimIntegratedNetwork.IntegratedNetwork.SetInitCrewLocs | infrarisk/src/network_sim_models/integrated_network.py:526-541 | each crew's initial and current location become the given office |
| SimIntegratedNetwork.IntegratedNetwork.ResetCrewLocs | infrarisk/src/network_sim_models/integrated_network.py:543-547 | every crew returns to its initial location |
| SimIntegratedNetwork.IntegratedNetwork.SetPowerCrewLoc | infrarisk/src/network_sim_models/integrated_network.py:549-555 | the power crew is at the given location |
| SimIntegratedNetwork.IntegratedNetwork.SetWaterCrewLoc | infrarisk/src/network_sim_models/integrated_network.py:557-563 | the water crew is at the given location |
| SimIntegratedNetwork.IntegratedNetwork.SetTranspoCrewLoc | infrarisk/src/network_sim_models/integrated_network.py:565-571 | the transportation crew is at the given location |
| SimIntegratedNetwork.IntegratedNetwork.GetPowerCrewLoc | infrarisk/src/network_sim_models/integrated_network.py:573-579 | returns the power crew's location |
| SimIntegratedNetwork.IntegratedNetwork.GetWaterCrewLoc | infrarisk/src/network_sim_models/integrated_network.py:581-587 | returns the water crew's location |
| SimIntegratedNetwork.IntegratedNetwork.GetTranspoCrewLoc | infrarisk/src/network_sim_models/integrated_network.py:589-595 | returns the transportation crew's location |
| SimIntegratedNetwork.IntegratedNetwork.SetMapExtends | infrarisk/src/network_sim_models/integrated_network.py:175-186 | succeeds exactly when the graph has nodes, and then stores the corners of the smallest box holding every node |
| SimIntegratedNetwork.BoundingBox | infrarisk/src/network_sim_models/integrated_network.py:175-186 | the corners bound every coordinate and each corner coordinate is attained by some node |
| PhysicalIntegratedNetwork.TimesOf | infrarisk/src/physical/integrated_network.py:562-577 | the time stamps of the scenario are its time column, row by row |
| PhysicalIntegratedNetwork.SingleTimeStamp | infrarisk/src/physical/integrated_network.py:562-577 | the single-value extraction of the unique time stamps succeeds exactly when every row has the same time stamp, and then yields it |
| PhysicalIntegratedNetwork.IndexedByZeroRejects | infrarisk/src/physical/integrated_network.py:595-609 | as written, the per-infrastructure dictionary can be built only for an empty scenario |
| PhysicalIntegratedNetwork.IndexedByZeroOnPipe | infrarisk/src/physical/integrated_network.py:595-609 | as written, a scenario of one water pipe raises KeyError |
| PhysicalIntegratedNetwork.ByInfraOnPipe | infrarisk/src/physical/integrated_network.py:595-609 | read by the details' infrastructure entry, the same pipe is filed under water alone |
| PhysicalIntegratedNetwork.PhysicalPipe | infrarisk/src/physical/integrated_network.py:595-609 | a water pipe name is found in the tables; indexing its details by 0 raises KeyError, while their infrastructure entry is water |
| PhysicalIntegratedNetwork.DeployComplete | infrarisk/src/physical/integrated_network.py:619-686 | when no exception escapes, every crew location gets a crew, and a non-empty deployment needs a disruption time and enough crew sizes |
| PhysicalIntegratedNetwork.DeployAll | infrarisk/src/physical/integrated_network.py:619-686 | power, water and transport crews are deployed in that order; the first exception that escapes a block stops the later blocks and is the result |
| PhysicalIntegratedNetwork.Deploy | infrarisk/src/physical/integrated_network.py:619-686 | crew i+1 is a new crew at the i-th location with the i-th size, available and starting at the disruption time; a missing size raises IndexError and a missing disruption time AttributeError after the first crew |
| PhysicalIntegratedNetwork.NodeLinkTypes | infrarisk/src/physical/integrated_network.py:793-805 | no type code is both a node type and a link type of one infrastructure |
| PhysicalIntegratedNetwork.NodeLinkTypesAgree | infrarisk/src/physical/integrated_network.py:793-805 | the water node types are the ones the connected-node search accepts; the link types differ from its list only by the motor pump code |
| PhysicalIntegratedNetwork.IntegratedNetwork.constructor | infrarisk/src/physical/integrated_network.py:21-60 | a new network has no scenario, no disruption time, no disrupted components and no crews |
| PhysicalIntegratedNetwork.IntegratedNetwork.SetDisruptedComponents | infrarisk/src/physical/integrated_network.py:562-577 | reads the scenario (keeping the stored one when the file is missing), requires a single time stamp and stores it, then partitions the components; a failure leaves the dictionary unchanged |
| PhysicalIntegratedNetwork.IntegratedNetwork.ApplyScenario | infrarisk/src/physical/integrated_network.py:562-577 | the components are the scenario's; more or fewer than one distinct time stamp raises ValueError; otherwise the time is stored and the partition follows |
| PhysicalIntegratedNetwork.IntegratedNetwork.ByInfraErrors | infrarisk/src/physical/integrated_network.py:595-609 | the intended partition can only raise the lookup's errors or the TypeError of an unknown name |
| PhysicalIntegratedNetwork.IntegratedNetwork.ByInfraErrorKinds | infrarisk/src/physical/integrated_network.py:595-609 | classifying one name can only raise TypeError, ValueError or IndexError |
| PhysicalIntegratedNetwork.IntegratedNetwork.SetDisruptedInfraDict | infrarisk/src/physical/integrated_network.py:595-609 | the corrected dictionary is the partition of the disrupted components by infrastructure, stored only when every component is placed |
| PhysicalIntegratedNetwork.IntegratedNetwork.SetDisruptedInfraDictAsWritten | infrarisk/src/physical/integrated_network.py:595-609 | as written, the dictionary is built exactly when there are no disrupted components, and is then empty |
| PhysicalIntegratedNetwork.IntegratedNetwork.StorePartition | infrarisk/src/physical/integrated_network.py:595-609 | the dictionary becomes the partition under the given classification, or stays as it was when the partition raises |
| PhysicalIntegratedNetwork.IntegratedNetwork.DeployCrews | infrarisk/src/physical/integrated_network.py:619-686 | the three crew dictionaries are replaced by the crews deployed from the offices and sizes, in infrastructure order, stopping at the first exception |
| PhysicalIntegratedNetwork.IntegratedNetwork.GetIdleCrew | infrarisk/src/physical/integrated_network.py:688-717 | returns the crew with the earliest next trip start, the first in key order on ties; unknown types give None, an empty dictionary IndexError, a crew without a trip start TypeError |
| PhysicalIntegratedNetwork.IntegratedNetwork.ResetCrewLocs | infrarisk/src/physical/integrated_network.py:719-723 | every crew's current location becomes its initial location; locations and trip starts stay as they were |
| PhysicalIntegratedNetwork.IntegratedNetwork.SetPowerCrewLoc | infrarisk/src/physical/integrated_network.py:725-731 | the power crew is at the given location |
| PhysicalIntegratedNetwork.IntegratedNetwork.SetWaterCrewLoc | infrarisk/src/physical/integrated_network.py:733-739 | the water crew is at the given location |
| PhysicalIntegratedNetwork.IntegratedNetwork.SetTranspoCrewLoc | infrarisk/src/physical/integrated_network.py:741-747 | the transportation crew is at the given location |
| PhysicalIntegratedNetwork.IntegratedNetwork.GetPowerCrewLoc | infrarisk/src/physical/integrated_network.py:749-755 | returns the power crew's location |
| PhysicalIntegratedNetwork.IntegratedNetwork.GetWaterCrewLoc | infrarisk/src/physical/integrated_network.py:757-763 | returns the water crew's location |
| PhysicalIntegratedNetwork.IntegratedNetwork.GetTranspoCrewLoc | infrarisk/src/physical/integrated_network.py:765-771 | returns the transportation crew's location |
| PhysicalIntegratedNetwork.IntegratedNetwork.SetMapExtends | infrarisk/src/physical/integrated_network.py:229-240 | the corners are the floors of the bounding box; every node lies at or above the lower corner and below the upper corner plus one; an empty graph raises ValueError |
| PhysicalIntegratedNetwork.FirstRejected | infrarisk/src/physical/integrated_network.py:595-609 | a failed partition fails with the exception of some component the classification rejects |
| PhysicalIntegratedNetwork.IdleAfterDeploy | infrarisk/src/physical/integrated_network.py:619-717 | after deploying power crews at a common disruption time, the idle crew is the one under key 1 |
| RepairCrews.RepairCrew.constructor | infrarisk/src/repair_crews.py:7-25 | a new crew stands at its initial location, is available, has repaired nothing and has no trip start |
| RepairCrews.RepairCrew.ResetLocs | infrarisk/src/repair_crews.py:27-29 | the current-location attribute becomes the initial location |
| RepairCrews.RepairCrew.SetNextTripStart | infrarisk/src/repair_crews.py:31-37 | the next trip start is the time given |
| RepairCrews.RepairCrew.GetNextTripStart | infrarisk/src/repair_crews.py:39-45 | returns the next trip start |
| RepairCrews.RepairCrew.SetCrewLoc | infrarisk/src/repair_crews.py:47-53 | the crew's location is the one given |
| RepairCrews.RepairCrew.GetCrewLoc | infrarisk/src/repair_crews.py:55-61 | returns the crew's location |
| RepairCrews.TripStartRoundTrip | infrarisk/src/repair_crews.py:31-45 | reading the trip start back returns the time set, and the locations are untouched |
| RepairCrews.CrewLocRoundTrip | infrarisk/src/repair_crews.py:47-61 | reading the location back returns the one set, and the trip start is untouched |
| RepairCrews.ResetKeepsCrewLoc | infrarisk/src/repair_crews.py:27-61 | a reset does not change what the location getter returns |
| TranspoNetwork.Leaving | infrarisk/src/network_sim_models/transportation/network.py:782-803 | the forward star of node i holds exactly the links whose tail is i |
| TranspoNetwork.Entering | infrarisk/src/network_sim_models/transportation/network.py:782-803 | the reverse star of node i holds exactly the links whose head is i, and no more of them than there are links |
| TranspoNetwork.LeavingIncreasing | infrarisk/src/network_sim_models/transportation/network.py:782-803 | a forward star lists its links in increasing link order, the order in which finalize appends them |
| TranspoNetwork.NewHeads | infrarisk/src/network_sim_models/transportation/network.py:366-374 | the heads added to the scan list are new to it, each is the head of a scanned forward-star link, and afterwards every such head is on the list |
| TranspoNetwork.NewHeadsWithin | infrarisk/src/network_sim_models/transportation/network.py:366-374 | every head added to the scan list is a node of the network |
| TranspoNetwork.ScanNode | infrarisk/src/network_sim_models/transportation/network.py:355-365 | scanning a node relaxes each reverse-star link whose tail is the origin or not below the first through node, lowering the label and back link only on a strict improvement, and reports whether a label changed |
| TranspoNetwork.BackLinksKept | infrarisk/src/network_sim_models/transportation/network.py:355-365 | a scan keeps every back link pointing at a link into its node whose tail label plus cost equals the node's label |
| TranspoNetwork.ScanStep | infrarisk/src/network_sim_models/transportation/network.py:353-374 | one pass of the scan loop keeps the labels and back links consistent and leaves only node ids on the scan list |
| TranspoNetwork.InitiallyPending | infrarisk/src/network_sim_models/transportation/network.py:345-352 | with every label infinite except the origin at 0, each node whose label can still drop is the head of an origin link on the first scan list |
| TranspoNetwork.Rescanned | infrarisk/src/network_sim_models/transportation/network.py:353-374 | after a scan every node whose label can still drop is on the new scan list, so an empty list means no admissible link lowers any label |
| TranspoNetwork.LabelCorrecting | infrarisk/src/network_sim_models/transportation/network.py:323-377 | the label-correcting search returns one back link and one label per node, the origin label at most 0, back links consistent with labels, and for non-negative costs no admissible link can lower any label |
| TranspoNetwork.BackRouteCost | infrarisk/src/network_sim_models/transportation/network.py:323-377 | following back links from a node gives a route whose cost is at most the difference of the labels |
| TranspoNetwork.SettledRouteCost | infrarisk/src/network_sim_models/transportation/network.py:323-377 | when no admissible link lowers a label, every admissible route costs at least the difference of the labels |
| TranspoNetwork.BackRouteShortest | infrarisk/src/network_sim_models/transportation/network.py:323-377 | once labels are settled, the back-link route to a destination is no more costly than any other admissible route from the origin |
| TranspoNetwork.TopologicalScan | infrarisk/src/network_sim_models/transportation/network.py:308-319 | relaxing the reverse star of the node at topological position t settles every node up to position t |
| TranspoNetwork.AcyclicShortestPath | infrarisk/src/network_sim_models/transportation/network.py:272-321 | the acyclic search fails exactly when the node count exceeds the node list, keeps back links consistent with labels, and with a topological order settles every node after the origin |
| TranspoNetwork.AddPathUses | infrarisk/src/network_sim_models/transportation/network.py:401-406 | loading a path adds the OD demand to each link once per use on the path and leaves other links alone |
| TranspoNetwork.LoadedVolume | infrarisk/src/network_sim_models/transportation/network.py:396-406 | after a sequence of loads each link carries its start flow plus the demands of the OD pairs whose paths use it |
| TranspoNetwork.WalkBack | infrarisk/src/network_sim_models/transportation/network.py:402-406 | walking back links from the destination either reaches the origin along a route of back links and adds the demand to it, or raises KeyError at a node without a back link |
| TranspoNetwork.IndexOf | infrarisk/src/network_sim_models/transportation/network.py:399-400 | a node name is found exactly when it is in the node list, at a position holding that name |
| TranspoNetwork.LoadPair | infrarisk/src/network_sim_models/transportation/network.py:400-406 | one OD pair's demand is loaded on the back-link route from its origin's shortest-path tree |
| TranspoNetwork.LoadOrigin | infrarisk/src/network_sim_models/transportation/network.py:399-406 | every OD pair of one origin is loaded in table order on routes of that origin's tree |
| TranspoNetwork.Appended | infrarisk/src/network_sim_models/transportation/network.py:399-406 | appending one routed load keeps the flows equal to the loads applied so far |
| TranspoNetwork.PairsFromCount | infrarisk/src/network_sim_models/transportation/network.py:401 | the OD pairs taken for an origin are exactly those whose origin it is, each once |
| TranspoNetwork.ScheduleCount | infrarisk/src/network_sim_models/transportation/network.py:399-401 | over all origins each OD pair is loaded once per listing of its origin node |
| TranspoNetwork.AllOrNothing | infrarisk/src/network_sim_models/transportation/network.py:379-408 | all-or-nothing starts every link at 0 and returns the sum over OD pairs, in origin order, of each demand placed on its shortest route, or the KeyError of an unreachable destination |
| TranspoNetwork.LeastEnteringNode | infrarisk/src/network_sim_models/transportation/network.py:410-421 | the node returned has the fewest entering links, ties go to the earliest node, and none is returned exactly when every node has more than numLinks entering links |
| TranspoNetwork.RemoveFirst | infrarisk/src/network_sim_models/transportation/network.py:466 | removing a link from a reverse star takes away one occurrence of it and nothing else |
| TranspoNetwork.DetachLink | infrarisk/src/network_sim_models/transportation/network.py:465-466 | removing one forward-star link of the numbered node from its head's reverse star keeps the reverse stars equal to the links still awaiting numbering |
| TranspoNetwork.Detach | infrarisk/src/network_sim_models/transportation/network.py:465-466 | after the whole forward star is removed, each reverse star holds exactly the links whose tails are still unnumbered |
| TranspoNetwork.CycleFound | infrarisk/src/network_sim_models/transportation/network.py:457-460 | if the node with fewest entering links still has one, the network has a cycle |
| TranspoNetwork.NumberNext | infrarisk/src/network_sim_models/transportation/network.py:461-463 | numbering a node all of whose predecessors are numbered extends a valid partial topological order |
| TranspoNetwork.NumberingComplete | infrarisk/src/network_sim_models/transportation/network.py:455-472 | once every node is numbered, the orders 1..numNodes form a topological order |
| TranspoNetwork.OrderedIsAcyclic | infrarisk/src/network_sim_models/transportation/network.py:441-472 | a network that has a topological order has no cycle |
| TranspoNetwork.RebuildReverseStars | infrarisk/src/network_sim_models/transportation/network.py:468-472 | the rebuilt reverse stars are again exactly the links entering each node |
| TranspoNetwork.NumberStep | infrarisk/src/network_sim_models/transportation/network.py:456-466 | one loop pass either finds a cycle and changes nothing or numbers one more node and keeps the partial order valid |
| TranspoNetwork.TopologicalOrdering | infrarisk/src/network_sim_models/transportation/network.py:441-472 | the ordering numbers the nodes 1..numNodes as a topological order and restores the reverse stars, or raises BadNetworkOperationException only on a cyclic network; with no links node 0 is numbered repeatedly |
| TranspoReader.Put | infrarisk/src/network_sim_models/transportation/network.py:594 | storing into an insertion-ordered dictionary sets the key's value, appends a new key last and keeps an old key's place |
| TranspoReader.Classify | infrarisk/src/network_sim_models/transportation/network.py:575-584 | a line is skipped exactly when it is blank or starts with the comment mark after stripping; any other line yields at least one field |
| TranspoReader.KindAt | infrarisk/src/network_sim_models/transportation/network.py:574-584 | the classified lines correspond one to one with the file lines |
| TranspoReader.Floats | infrarisk/src/network_sim_models/transportation/network.py:598-605 | converting the numeric fields succeeds exactly when every field parses, and then gives the parsed values in order; otherwise ValueError |
| TranspoReader.LinkOfFields | infrarisk/src/network_sim_models/transportation/network.py:585-607 | a line with fewer than 11 fields or an 11th field other than ";" raises BadFileFormatException; otherwise the link takes tail, head, capacity, free-flow time, toll and type from fields 0, 1, 2, 4, 8 and 9, or raises ValueError on a bad number |
| TranspoReader.ZoneFlag | infrarisk/src/network_sim_models/transportation/network.py:610-621 | a new node's zone flag needs a digit in its name (IndexError otherwise) and a zone count (TypeError when it is None) |
| TranspoReader.NumberedNodeZone | infrarisk/src/network_sim_models/transportation/network.py:610-621 | a node named by its number n is a zone exactly when n is at most the zone count |
| TranspoReader.AddNode | infrarisk/src/network_sim_models/transportation/network.py:610-621 | a node is created only when its name is new, with links and existing nodes unchanged |
| TranspoReader.AddLinkLine | infrarisk/src/network_sim_models/transportation/network.py:584-623 | a well-formed link line stores link T_Lk, new if absent, and creates any missing end nodes, keeping the dictionaries ordered |
| TranspoReader.ReadLinkLine | infrarisk/src/network_sim_models/transportation/network.py:574-623 | one loop pass either raises what the whole read raises, or advances to the next line with the read of the rest unchanged |
| TranspoReader.ReadLinksAt | infrarisk/src/network_sim_models/transportation/network.py:574-623 | a skipped line leaves the read unchanged and a data line adds one link before the rest is read |
| TranspoReader.ReadLinkLines | infrarisk/src/network_sim_models/transportation/network.py:573-623 | the link loop computes the reading of all lines with link numbers starting at 1 |
| TranspoReader.LinksNamedInOrder | infrarisk/src/network_sim_models/transportation/network.py:573-623 | a successful read names the links T_L1, T_L2, ... in file order, one per data line |
| TranspoReader.ReadLinksClosed | infrarisk/src/network_sim_models/transportation/network.py:573-623 | reading links keeps every link's ends among the nodes |
| TranspoReader.ReadLinksFormatted | infrarisk/src/network_sim_models/transportation/network.py:585-587 | a successful read means every data line had 11 fields ending in ";" |
| TranspoReader.Record | infrarisk/src/network_sim_models/transportation/network.py:688-692 | recording an OD entry keys it by origin and destination and adds its demand to the total |
| TranspoReader.AddEntries | infrarisk/src/network_sim_models/transportation/network.py:678-692 | the entry loop raises only ValueError, BadFileFormatException or UnboundLocalError, and keeps OD pairs keyed by their ends |
| TranspoReader.AddEntryFields | infrarisk/src/network_sim_models/transportation/network.py:678-692 | the loop over the entry triples of a line computes the entries of that line |
| TranspoReader.ReadDemands | infrarisk/src/network_sim_models/transportation/network.py:658-692 | reading demand lines keeps OD pairs keyed by their ends |
| TranspoReader.ReadDemandLines | infrarisk/src/network_sim_models/transportation/network.py:658-692 | the demand loop computes the reading of all lines, with no origin before the first Origin line |
| TranspoReader.EntryNeedsOrigin | infrarisk/src/network_sim_models/transportation/network.py:669-691 | an entry line before any Origin line raises UnboundLocalError |
| TranspoReader.TotalCountsEveryEntry | infrarisk/src/network_sim_models/transportation/network.py:678-692 | the total demand grows by exactly the sum of the entries read |
| TranspoReader.CheckLinksPasses | infrarisk/src/network_sim_models/transportation/network.py:703-723 | the link check passes exactly when every link's ends are nodes and every link but the last has non-negative parameters, and then reports whether the last one has too |
| TranspoReader.ValidateLinks | infrarisk/src/network_sim_models/transportation/network.py:703-723 | the link loop of validate computes the link check |
| TranspoReader.CheckODsPasses | infrarisk/src/network_sim_models/transportation/network.py:725-747 | the OD check passes exactly when there are no OD pairs, or the links were valid and every pair joins two zone nodes with non-negative demand |
| TranspoReader.ValidateODs | infrarisk/src/network_sim_models/transportation/network.py:725-747 | the OD loop of validate computes the OD check |
| TranspoReader.NegativeLastLinkRaises | infrarisk/src/network_sim_models/transportation/network.py:715-735 | a negative parameter on the last link is only reported, but it leaves valid false, so the first OD pair then raises BadFileFormatException |
| TranspoReader.ReconcileAsWritten | infrarisk/src/network_sim_models/transportation/network.py:749-774 | as written, a disagreeing zone count resets the link count and leaves the zone count alone |
| TranspoReader.ZoneCountKept | infrarisk/src/network_sim_models/transportation/network.py:762-774 | metadata announcing three zones for a network with two keeps the count at three |
| TranspoReader.Reconcile | infrarisk/src/network_sim_models/transportation/network.py:749-774 | each count given in the metadata is replaced by the count actually read, and an absent one stays absent |
| TranspoReader.StarMembership | infrarisk/src/network_sim_models/transportation/network.py:787-793 | a link is in a node's forward (reverse) star exactly when that node is its tail (head) |
| TranspoReader.BuildStars | infrarisk/src/network_sim_models/transportation/network.py:787-793 | the stars are built in link order and succeed exactly when every link end is a node, else KeyError |
| TranspoReader.EndsKnown | infrarisk/src/network_sim_models/transportation/network.py:787-793 | the network is closed exactly when every listed link has both ends among the nodes |
| TranspoReader.InitialCostAtZeroFlow | infrarisk/src/network_sim_models/transportation/network.py:794-798 | the cost set by finalize is the link cost function at zero flow |
| TranspoReader.FinalizeNetwork | infrarisk/src/network_sim_models/transportation/network.py:782-803 | finalize succeeds exactly when the network is closed, else KeyError, and then sets stars, free-flow costs with toll and distance terms, zero flows and zero least costs |
| TranspoReader.AdjacentMeansLink | infrarisk/src/network_sim_models/transportation/network.py:432-439 | two nodes are adjacent exactly when some link goes from the first to the second |
| TranspoReader.AdjacencyMatrix | infrarisk/src/network_sim_models/transportation/network.py:423-439 | the matrix has a 0/1 entry for every pair of nodes, 1 exactly for the pairs joined by a link, or KeyError for a link whose tail is not a node |
| TranspoReader.TransportNetwork.constructor | infrarisk/src/network_sim_models/transportation/network.py:50-62 | a new network has no nodes, links or OD pairs and zero total demand; its metadata counts start unset, the state readNetworkFile puts them in before reading metadata |
| TranspoReader.TransportNetwork.ReadNetworkLines | infrarisk/src/network_sim_models/transportation/network.py:573-623 | reading the link lines stores the links and nodes read, or raises and keeps the old network |
| TranspoReader.TransportNetwork.ReadDemandFileLines | infrarisk/src/network_sim_models/transportation/network.py:658-692 | reading the demand lines stores the OD pairs and total read, or raises and keeps the old demands |
| TranspoReader.TransportNetwork.Validate | infrarisk/src/network_sim_models/transportation/network.py:698-780 | validate raises the first failing link or OD check, and otherwise reconciles the metadata counts with what was read |
| TranspoReader.TransportNetwork.Finalize | infrarisk/src/network_sim_models/transportation/network.py:782-803 | finalize sets the stars, costs, flows and least costs of a closed network, or raises KeyError |
| TranspoReader.TransportNetwork.FormAdjacencyMatrix | infrarisk/src/network_sim_models/transportation/network.py:423-439 | the adjacency attribute gets one row and column per node with 1 exactly where a link joins them, or KeyError |
| TranspoCompons.BprCost | infrarisk/src/network_sim_models/transportation/transpo_compons.py:47-66 | the link cost raises exactly on zero capacity; with no positive volume-to-capacity ratio it is the base cost, otherwise the BPR travel time plus toll and distance terms |
| TranspoCompons.BprAboveBase | dreaminsg_integrated_model/network_sim_models/transportation/link.py:30-41 | with non-negative free-flow time and alpha, congestion never makes a link cheaper than its base cost |
| TranspoCompons.BprMonotone | infrarisk/src/network_sim_models/transportation/transpo_compons.py:47-66 | on a link of positive capacity the cost grows with the flow |
| TranspoCompons.Beckmann | infrarisk/src/network_sim_models/transportation/transpo_compons.py:68-82 | the Beckmann term raises on zero capacity, is zero when the ratio is not positive, and raises when beta is -1 and the ratio positive |
| TranspoCompons.BeckmannBelowFlowTimesCost | dreaminsg_integrated_model/network_sim_models/transportation/link.py:30-54 | the integral under the cost curve never exceeds flow times cost |
| TranspoCompons.SortKeyOrder | infrarisk/src/network_sim_models/transportation/transpo_compons.py:43-45 | the forward-star key orders links by tail and then by head |
| TranspoCompons.SmallerTailFirst | dreaminsg_integrated_model/network_sim_models/transportation/link.py:28 | a link with a smaller tail sorts first whatever the heads |
| TranspoCompons.Link.constructor | infrarisk/src/network_sim_models/transportation/transpo_compons.py:10-45 | a new link keeps its attributes, has the forward-star key, and has no flow or cost yet |
| TranspoCompons.Link.CalculateCost | infrarisk/src/network_sim_models/transportation/transpo_compons.py:47-66 | the link's cost at its flow, or AttributeError before a flow is set |
| TranspoCompons.Link.BeckmannComponent | infrarisk/src/network_sim_models/transportation/transpo_compons.py:68-82 | the Beckmann term at the link's flow, or AttributeError before a flow is set |
| TranspoCompons.Link.UpdateCost | infrarisk/src/network_sim_models/transportation/transpo_compons.py:84-88 | the stored cost becomes the computed cost; a computation that raises stores nothing |
| TranspoCompons.PathCost | infrarisk/src/network_sim_models/transportation/transpo_compons.py:122-130 | a path's cost is defined exactly when every link exists and has a stored cost, and is their sum |
| TranspoCompons.PathCostAppend | dreaminsg_integrated_model/network_sim_models/transportation/path.py:17-25 | the cost of two joined paths is the sum of their costs |
| TranspoCompons.PathCostNonNegative | dreaminsg_integrated_model/network_sim_models/transportation/path.py:17-25 | a path over links of non-negative cost has non-negative cost |
| TranspoCompons.Path.constructor | infrarisk/src/network_sim_models/transportation/transpo_compons.py:116-120 | a path keeps its links, flow and cost |
| TranspoCompons.Path.CalculateCost | infrarisk/src/network_sim_models/transportation/transpo_compons.py:122-130 | the loop over the path's links returns the path's cost, or the first error |
| TranspoCompons.Path.UpdateCost | infrarisk/src/network_sim_models/transportation/transpo_compons.py:132-136 | the stored cost becomes the path's cost; a computation that raises stores nothing |
| TranspoCompons.PathCostStops | infrarisk/src/network_sim_models/transportation/transpo_compons.py:122-130 | once the sum has raised, later links change nothing |
| TranspoCompons.NewPath | infrarisk/src/network_sim_models/transportation/transpo_compons.py:116-120 | a path is made exactly when its cost can be computed, and then carries that cost and the given flow |
| TranspoUtils.Uncommented | infrarisk/src/physical/transportation/utils.py:31-33 | removing a comment keeps the prefix before the first "~", so the result holds no "~", and a line without one is unchanged |
| TranspoUtils.ParseLine | infrarisk/src/physical/transportation/utils.py:30-46 | a header line is blank exactly when it is empty or begins with a comment (strip does not change the line); otherwise it is the end tag or a tag other than the end tag with its value |
| TranspoUtils.Parsed | infrarisk/src/physical/transportation/utils.py:28-46 | the header lines are parsed one by one, in order |
| TranspoUtils.CutLine | infrarisk/src/physical/transportation/utils.py:31-42 | cutting a line yields exactly the blank, end-tag or tag-and-value reading of the line |
| TranspoUtils.ScanAt | infrarisk/src/physical/transportation/utils.py:28-46 | a blank line is skipped, the end tag stops the scan recording its 1-based line number, and a tag stores its stripped value |
| TranspoUtils.ReadMetadata | infrarisk/src/physical/transportation/utils.py:18-49 | the loop over the lines computes the metadata dictionary of the header |
| TranspoUtils.EndTagStops | infrarisk/src/physical/transportation/utils.py:43-45 | the scan stops at the first end tag and records its line number; later lines have no effect |
| TranspoUtils.EndLineAt | infrarisk/src/physical/transportation/utils.py:43-45 | when the first end tag is on line j+1, the metadata maps the end tag to j+1 |
| TranspoUtils.NoEndTagNoKey | infrarisk/src/physical/transportation/utils.py:48-49 | a header without an end tag scanned from a dictionary without it yields no end-tag entry |
| TranspoUtils.NoEndLine | infrarisk/src/physical/transportation/utils.py:48-49 | without an end-tag line the metadata has no end-tag entry |
| TranspoUtils.ScanShift | infrarisk/src/physical/transportation/utils.py:27-29 | counting lines from a later start shifts only the recorded end-tag line number |
| TranspoUtils.EmptyLineCounted | infrarisk/src/physical/transportation/utils.py:34-35 | an empty line before the header adds one to the end-tag line number and changes nothing else |
| TranspoUtils.CommentIgnored | infrarisk/src/physical/transportation/utils.py:31-33 | the text of a comment never affects how a line is read |
| TranspoUtils.CommentCut | infrarisk/src/physical/transportation/utils.py:31-33 | a line is cut at its comment mark |
| TranspoUtils.TaggedLine | infrarisk/src/physical/transportation/utils.py:37-46 | a line "<tag>value" reads as that tag with that value |
| TranspoUtils.FirstTagRecorded | infrarisk/src/physical/transportation/utils.py:41-46 | a tag that no later line names keeps the stripped value of its line |
| TranspoUtils.KeyKept | infrarisk/src/physical/transportation/utils.py:41-46 | a key that no later line names keeps its value |
| TranspoUtils.EndLineParsed | infrarisk/src/physical/transportation/utils.py:43-45 | the line "<END OF METADATA>" is read as the end tag |
| TranspoUtils.UntaggedLine | infrarisk/src/physical/transportation/utils.py:37-42 | a line without angle brackets is misread: with no "<" and no ">" the line "abc" gets the tag "ab" (the slice [0:-1]) and the whole line as value |
| TranspoUtils.MalformedFileParsed | infrarisk/src/physical/transportation/utils.py:37-46 | a header of an untagged line and the end tag is read as a malformed tag and the end tag |
| TranspoUtils.MalformedLineStored | infrarisk/src/physical/transportation/utils.py:39-46 | as written, a malformed line said to be ignored is still stored under its misread tag |
| TranspoUtils.TaggedThenEnd | infrarisk/src/physical/transportation/utils.py:39-46 | a malformed tag is dropped exactly when malformed lines are ignored; a well-formed one is always stored |
| TranspoUtils.IgnoredKeysWellTagged | infrarisk/src/physical/transportation/utils.py:39-40 | when malformed lines are ignored, every stored key except the end tag comes from a well-formed tag line |
| TranspoUtils.MalformedLineIgnored | infrarisk/src/physical/transportation/utils.py:39-40 | ignoring malformed lines, as the message promises, leaves only the end tag for that header |
| TranspoUtils.LinkIds | infrarisk/src/physical/transportation/utils.py:62-71 | a path of n nodes gives n-1 link ids, the i-th joining node i to node i+1 |
| TranspoUtils.Path2LinkTuple | infrarisk/src/physical/transportation/utils.py:52-71 | the conversion drops the brackets, splits at commas and pairs consecutive nodes |
| TranspoUtils.PathLinks | infrarisk/src/physical/transportation/utils.py:52-71 | for a bracketed comma-separated node list the links join each node to the next, one fewer than the nodes |
| WaterNetwork.LoadOptions | infrarisk/src/physical/water/water_network_model.py:199-211 | the duration and the report and hydraulic time steps are the initial step, the demand model is the one asked for, and the pressure bounds are 30 and 0 |
| WaterNetwork.LoadOptionsOld | dreaminsg_integrated_model/src/network_sim_models/water/water_network_model.py:101-127 | the older loaders set the three time steps to the initial step and always ask for pressure-dependent demand |
| WaterNetwork.AllowWithinAbsolute | infrarisk/src/physical/water/water_network_model.py:373-402 | the allowable band is the absolute band narrowed by the tolerance at both ends, so lies inside it, and equals it for a zero tolerance |
| WaterNetwork.CyberTolerance | infrarisk/src/physical/water/water_network_model.py:224-234 | the 15% tolerance is non-negative and at most half the level range |
| WaterNetwork.CyberBandInside | infrarisk/src/physical/water/water_network_model.py:224-234 | without rounding, the cyber layer's allowable band is non-empty and strictly inside the absolute band |
| WaterNetwork.DischargeNames | infrarisk/src/physical/water/water_network_model.py:338-370 | tank W_T{n} gets the discharge pipe W_PDP{n} |
| WaterNetwork.NoDischargeIndex | infrarisk/src/physical/water/water_network_model.py:350-351 | a tank id without W_T has no number, and splitting it raises IndexError |
| WaterNetwork.DischargeNamesDistinct | infrarisk/src/physical/water/water_network_model.py:338-370 | a discharge junction never shares a name with a discharge pipe, and different tank numbers give different pipes |
| WaterNetwork.WaterNetworkModel.constructor | infrarisk/src/physical/water/water_network_model.py:185-222 | a loaded network has the given nodes and links and an empty tank level dictionary |
| WaterNetwork.WaterNetworkModel.SetTankLevels | infrarisk/src/physical/water/water_network_model.py:373-402 | stores the tank's absolute band, allowable band, tolerance and initial level; a missing tank or entry raises KeyError, a non-tank node AttributeError; nodes and links are untouched |
| WaterNetwork.WaterNetworkModel.AddDischargePipe | infrarisk/src/physical/water/water_network_model.py:338-370 | adds exactly the junction W_JDP{i} at the given elevation and the pipe W_PDP{i} from the tank to it; a missing tank, a name without W_T or a name in use raises and changes nothing |
| WaterNetwork.EquippedKept | infrarisk/src/physical/water/water_network_model.py:224-234 | adding nodes and links and storing other tanks' levels keeps a tank equipped |
| WaterNetwork.EquippedPrefix | infrarisk/src/physical/water/water_network_model.py:224-234 | equipping one more tank keeps the earlier tanks equipped |
| WaterNetwork.EquipTank | infrarisk/src/physical/water/water_network_model.py:224-234 | one round of the loop leaves the tank with its 15% band and its discharge pipe, and only adds to the network |
| WaterNetwork.EquipTanks | infrarisk/src/physical/water/water_network_model.py:221-234 | every tank gets a level entry, and on success every tank has its band and its discharge pipe |
| WaterControls.Without | infrarisk/src/cyber/actuator.py:59-62 | removing a name keeps exactly the other names, and never lengthens the list |
| WaterControls.WithoutDistinct | infrarisk/src/cyber/actuator.py:59-62 | removing a name from a list without repeats leaves a list without repeats |
| WaterControls.WithoutAbsent | infrarisk/src/cyber/actuator.py:59-62 | removing a name that is not there changes nothing |
| WaterControls.Registry.constructor | infrarisk/src/cyber/actuator.py:44-66 | a new control registry is empty |
| WaterControls.Registry.Remove | infrarisk/src/cyber/actuator.py:59-62 | removing a control succeeds exactly when its name is registered, and leaves that name absent and the others in place |
| WaterControls.Registry.Add | infrarisk/src/cyber/actuator.py:63 | adding a control succeeds exactly when its name is unused, and appends it |
| WaterControls.Registry.Discard | infrarisk/src/network_sim_models/interdependencies.py:195-208 | the guarded removal the dependency code uses never fails and leaves the name absent |
| WaterControls.Registry.AddOutage | infrarisk/src/network_sim_models/interdependencies.py:209-213 | a pump outage appends its power-off and power-on controls, and succeeds exactly when both names are free and differ |
| PowerSystem.LoadPowerNetwork | infrarisk/src/network_sim_models/power/power_system_model.py:144-168 | the loaded network records the simulation type it was loaded with |
| PowerSystem.RunPowerSimulation | infrarisk/src/network_sim_models/power/power_system_model.py:171-181 | the single-phase flow runs exactly for 1ph and the three-phase flow exactly for 3ph |
| PowerSystem.LoadThenRun | infrarisk/src/network_sim_models/power/power_system_model.py:144-181 | the default type runs the single-phase flow, and nothing runs exactly for a type loading does not announce |
| Cyber.PLController.constructor | infrarisk/src/cyber/controller.py:4-18 | a new controller has the given name, type and status, and no sensors or actuators |
| Cyber.PLController.TurnOff | infrarisk/src/cyber/controller.py:20-22 | the status becomes 0 and the registries are untouched |
| Cyber.PLController.TurnOn | infrarisk/src/cyber/controller.py:24-26 | the status becomes 1 and the registries are untouched |
| Cyber.PLController.AddSensor | infrarisk/src/cyber/controller.py:28-37 | the sensor is appended to the list of its type; a type without a list raises KeyError and changes nothing, and since the constructor creates no list, every call on a freshly constructed controller is a KeyError |
| Cyber.PLController.AddActuatorAsWritten | infrarisk/src/cyber/controller.py:39-47 | as written, adding an actuator always raises AttributeError |
| Cyber.PLController.AddActuator | infrarisk/src/cyber/controller.py:39-47 | the intended version appends the actuator to the list of its type, or raises KeyError for a type without a list; as with sensors, every call on a freshly constructed controller is a KeyError |
| Cyber.IdAsWritten | infrarisk/src/cyber/actuator.py:24-39 | as written, reading the component id always fails: KeyError for a found component, TypeError for an unknown one |
| Cyber.ComponentIdOfName | infrarisk/src/cyber/actuator.py:24-39 | for a conventionally named water component the intended reading yields its number |
| Cyber.SwitchedSpec | infrarisk/src/cyber/actuator.py:44-66 | after a switch the chosen control is present, its opposite absent, all other controls kept, and the names stay distinct |
| Cyber.ActuateSpec | infrarisk/src/cyber/actuator.py:44-163 | an actuator leaves the controls alone unless it is on; then it fails only on a missing link, and otherwise leaves exactly the chosen control of its pair |
| Cyber.Switch | infrarisk/src/cyber/actuator.py:44-66 | the control registry becomes the switched name list and stays valid |
| Cyber.ControlNamesDiffer | infrarisk/src/cyber/actuator.py:44-163 | the open and the close control names of one pump or tank differ |
| Cyber.WaterPumpActuator.constructor | infrarisk/src/cyber/actuator.py:24-39 | a new pump actuator keeps its pump, name, controller, type and status; its id is the `id` entry of the pump's details, the corrected reading of :39 |
| Cyber.WaterPumpActuator.TurnOnPump | infrarisk/src/cyber/actuator.py:44-66 | when on, the pump's controls become exactly its open control; a missing pump raises KeyError; when off nothing changes |
| Cyber.WaterPumpActuator.TurnOffPump | infrarisk/src/cyber/actuator.py:68-90 | when on, the pump's controls become exactly its close control; a missing pump raises KeyError; when off nothing changes |
| Cyber.DischargePipeActuator.constructor | infrarisk/src/cyber/actuator.py:95-110 | a new discharge actuator keeps its tank, name, controller, type and status; its id is the `id` entry of the tank's details, the corrected reading of :110 |
| Cyber.DischargePipeActuator.TurnOnDischarge | infrarisk/src/cyber/actuator.py:115-138 | when on, the tank's discharge pipe must exist and the tank's controls become exactly its open discharge control |
| Cyber.DischargePipeActuator.TurnOffDischarge | infrarisk/src/cyber/actuator.py:140-163 | when on, the tank's discharge pipe must exist and the tank's controls become exactly its close discharge control |
| Cyber.TriggerFor | infrarisk/src/cyber/actuator.py:192-220 | the discharge is turned off at or below the minimum level, on at or above the maximum, and left alone strictly between |
| Cyber.ValveActuator.constructor | infrarisk/src/cyber/actuator.py:166-169 | a new valve actuator keeps its name, id, type and status |
| Cyber.ValveActuator.TriggerDischargePipeActuator | infrarisk/src/cyber/actuator.py:192-220 | when on, the level decides whether the discharge actuator turns off, turns on or is left alone; when off, nothing changes |
| Cyber.DischargeActuatorPipe | infrarisk/src/cyber/actuator.py:115-138 | the discharge actuator of tank W_T{n} acts on pipe W_PDP{n} |
| Lists.UniqueSpec | infrarisk/src/simulation.py:37-38 | the unique values are exactly the values of the column, without repeats, and no more of them than rows |
| Lists.UniqueHead | infrarisk/src/simulation.py:37-38 | the first unique value is the column's first value |
| Text.SplitTwo | infrarisk/src/network_sim_models/interdependencies.py:271 | unpacking a split into two names succeeds exactly when the separator occurs once, rebuilds the name, and otherwise raises ValueError |
| Text.SplitJoin | infrarisk/src/network_sim_models/interdependencies.py:271 | splitting the join of separator-free pieces gives the pieces back |
| Text.SplitCount | infrarisk/src/network_sim_models/interdependencies.py:271 | a split gives one piece more than there are separators |
| Text.FirstDigitRun | infrarisk/src/physical/interdependencies.py:239 | the first run of digits exists exactly when the name has a digit, is non-empty and all digits; otherwise indexing the empty match list raises IndexError |
| Text.ParseNatToString | infrarisk/src/physical/interdependencies.py:239 | reading back the decimal digits of a number gives the number |
| Text.NatToStringInjective | infrarisk/src/physical/interdependencies.py:239 | different numbers have different decimal forms |
| OldRecovery.JobNeverTranspo | dreaminsg_integrated_model/src/network_recovery.py:106-116 | no repair job of this package is a road repair, so the transport branch is never taken |
| OldRecovery.RepairStepRows | dreaminsg_integrated_model/src/network_recovery.py:106-236 | every repair writes three rows, all about the repaired component |
| OldRecovery.ThreeRowsPerRepair | dreaminsg_integrated_model/src/network_recovery.py:106-236 | a scheduled order gives each component three rows per time it appears in the order, and nothing else |
| OldRecovery.PowerClock | dreaminsg_integrated_model/src/network_recovery.py:116-141 | a power repair starts 60·travel seconds after the power crew's clock, from the power crew's location, moves that crew and sets its clock to the repair's end |
| OldRecovery.WaterTimedByPowerCrew | dreaminsg_integrated_model/src/network_recovery.py:142-169 | a water repair is timed from the power crew's clock and location; it moves the water crew and sets the water clock, leaving the power crew alone |
| OldRecovery.WaterNeedsPowerClock | dreaminsg_integrated_model/src/network_recovery.py:116-169 | without a power clock neither a power nor a water repair can be scheduled: AttributeError |
| OldRecovery.RepairRowsShape | dreaminsg_integrated_model/src/network_recovery.py:106-236 | the rows of a repair: Repairing at its start and two steps before its end at the performance the disruption left, then Service Restored at full performance |
| OldRecovery.WaterWaitsForPower | dreaminsg_integrated_model/src/network_recovery.py:116-169 | with non-negative travel times a water repair right after a power repair starts no earlier than the power repair's end |
| OldRecovery.OldNetworkRecovery.constructor | dreaminsg_integrated_model/src/network_recovery.py:14-24 | the scheduler keeps the given network and works on a copy with the same scenario and crews, with the given step and no table yet |
| OldRecovery.OldNetworkRecovery.SetInitialCrewStart | dreaminsg_integrated_model/src/network_recovery.py:26-64 | each crew clock becomes the time of the first disruption of its infrastructure among the ordered components, and is left alone when there is none |
| OldRecovery.OldNetworkRecovery.ScheduleRecovery | dreaminsg_integrated_model/src/network_recovery.py:66-246 | an empty order changes nothing; a missing scenario, partition or disrupted list is an AttributeError; otherwise it succeeds exactly when the schedule does, leaving the table and crews as that schedule says |
| OldRecovery.OldNetworkRecovery.Rebuild | dreaminsg_integrated_model/src/network_recovery.py:72-241 | the rebuilt table and crews are the schedule's, failing exactly when it does or when the disrupted list is missing |
| OldRecovery.OldNetworkRecovery.RepairFromPrepared | dreaminsg_integrated_model/src/network_recovery.py:106-241 | from the prepared table the repairs succeed exactly when the schedule does, ending as it says |
| OldRecovery.OldNetworkRecovery.AddFunctionalRows | dreaminsg_integrated_model/src/network_recovery.py:84-93 | a Functional row at time 0 is appended per disrupted component |
| OldRecovery.OldNetworkRecovery.AddDisruptionRows | dreaminsg_integrated_model/src/network_recovery.py:95-104 | a Service Disrupted row is appended per disruption, at its time and the performance it leaves |
| OldRecovery.OldNetworkRecovery.RepairAll | dreaminsg_integrated_model/src/network_recovery.py:106-240 | the repairs in order succeed exactly when the plan does; the table then holds the old rows and the plan's rows, sorted by time |
| OldRecovery.OldNetworkRecovery.ScheduleSorted | dreaminsg_integrated_model/src/network_recovery.py:106-240 | one repair then a sort: the table holds the same rows plus the repair's, sorted by time |
| OldRecovery.OldNetworkRecovery.ScheduleOne | dreaminsg_integrated_model/src/network_recovery.py:108-236 | one loop pass succeeds exactly when the repair step does, with its rows appended and the crews it leaves |
| OldRecovery.OldNetworkRecovery.Dispatch | dreaminsg_integrated_model/src/network_recovery.py:116-169 | a power or water repair succeeds exactly when the model's repair does, with its crews and rows |
| OldRecovery.OldNetworkRecovery.Record | dreaminsg_integrated_model/src/network_recovery.py:176-236 | the three rows of a repair are appended exactly when the component has a disruption |
| OldRecovery.OldNetworkRecovery.ResetNetworks | dreaminsg_integrated_model/src/network_recovery.py:365-367 | the working network becomes a fresh copy of the given one |
| OldDirectEffects.PumpOutageRaises | dreaminsg_integrated_model/src/network_recovery.py:294-299 | as written a disrupted pump reaches an attribute the recovery object lacks, AttributeError, where the corrected rule gives the pump's outage until the next time |
| OldDirectEffects.AsWrittenElsewhereAgrees | dreaminsg_integrated_model/src/network_recovery.py:270-363 | every row other than a disrupted pump is handled alike as written and corrected |
| OldDirectEffects.WaterRowActionsExplained | dreaminsg_integrated_model/src/network_recovery.py:293-363 | every water command answers its row: outages and tank closures span the row's time to the next time, a leak's size grows with the performance lost, a pipe closes while Repairing and opens once Restored |
| OldDirectEffects.OldRowActionsExplained | dreaminsg_integrated_model/src/network_recovery.py:270-363 | every command of a row answers it; a power element is in service exactly when its performance is back at 100 |
| OldDirectEffects.OnlyPlainPipesLeak | dreaminsg_integrated_model/src/network_recovery.py:293-363 | a water type other than Pipe, Pump or Tank gives no command |
| OldDirectEffects.OldDirectActionsError | dreaminsg_integrated_model/src/network_recovery.py:270-363 | the update raises exactly when some row raises, with the first such row's exception |
| OldDirectEffects.OldDirectActionsSound | dreaminsg_integrated_model/src/network_recovery.py:270-363 | every command of the update answers one of the rows |
| OldDirectEffects.UpdateDirectlyAffected | dreaminsg_integrated_model/src/network_recovery.py:260-363 | without a schedule the table is missing, AttributeError; otherwise the commands of the rows at that time, in table order, stopping at the first row that raises |
| OldDirectEffects.OldRowsToActions | dreaminsg_integrated_model/src/network_recovery.py:270-363 | the loop over one time's rows gives the model's commands and error |
| OldSimulation.OldFillAtTime | dreaminsg_integrated_model/src/simulation.py:174-209 | phase one at one time: every disrupted component without a row there gets a faithful copy (and, as written, every non-disrupted component at that time a second one); the only failure is a disrupted component with no earlier row, a ValueError |
| OldSimulation.PhaseOneCandidates | dreaminsg_integrated_model/src/simulation.py:174-185 | the candidates at a time are disrupted or already there, and a skipped disrupted component is already there |
| OldSimulation.FailureIsDisrupted | dreaminsg_integrated_model/src/simulation.py:186-190 | a component that cannot be copied at a time has no row at or before it, so it is a disrupted one |
| OldSimulation.OldFillTimes | dreaminsg_integrated_model/src/simulation.py:174-209 | phase one over the original time stamps adds only faithful copies at those times, of disrupted or present components |
| OldSimulation.OldFillGrids | dreaminsg_integrated_model/src/simulation.py:211-235 | phase two gives each original component a faithful copy at every grid time it has no row at |
| OldSimulation.ShiftedSorted | dreaminsg_integrated_model/src/simulation.py:237-241 | sorting then shifting leaves the table sorted |
| OldSimulation.ExpandRows | dreaminsg_integrated_model/src/simulation.py:156-241 | a bad grid is the grid's error and leaves the table; otherwise the original rows plus faithful copies from both phases, sorted by time and shifted |
| OldSimulation.ExpandedAfterBoth | dreaminsg_integrated_model/src/simulation.py:174-235 | the two phases together give an expanded table |
| OldSimulation.ExpandEventTable | dreaminsg_integrated_model/src/simulation.py:156-241 | without a table AttributeError; on success the table is the expanded rows sorted by time and moved later by the object's step; an error keeps the rows appended so far |
| OldSimulation.SortedTimes | dreaminsg_integrated_model/src/simulation.py:269-271 | the unique time stamps, sorted and without repeats, exactly the table's times |
| OldSimulation.WindowsAdvance | dreaminsg_integrated_model/src/simulation.py:269-278 | sorted distinct time stamps increase strictly, so every window is non-empty |
| OldSimulation.SimulateInterdependentEffects | dreaminsg_integrated_model/src/simulation.py:244-360 | one step per sorted time stamp but the last, over the window to the next one; the trackers hold the delivered power and water over their base demands; duration and report time step advance by the whole span |
| OldSimulation.StepLoop | dreaminsg_integrated_model/src/simulation.py:278-360 | the loop gives the traced steps and samples and advances both clocks by the gaps' sum |
| OldSimulation.SortedWindows | dreaminsg_integrated_model/src/simulation.py:274-357 | over sorted distinct time stamps the windows tile the clock from d to d plus the whole span |
| OldestSimulation.ExpandEventTable | dreaminsg_integrated_model/simulation.py:142-222 | the same two phases as the later driver, the rows sorted by time and left at their own time stamps; a bad grid is its error |
| OldestSimulation.SimulateInterdependentEffects | dreaminsg_integrated_model/simulation.py:224-328 | one step per unique time stamp in table order, each passing the next time stamp (the last one its own); a single time stamp leaves the next one unbound, UnboundLocalError; the duration advances by the span and the report time step is the last gap |
| OldOptimizer.Max | dreaminsg_integrated_model/src/optimizer.py:124-129 | `max(time_tracker)` is one of the times and no time exceeds it |
| OldOptimizer.NormalizedAuc | dreaminsg_integrated_model/src/optimizer.py:124-129 | the area's ValueErrors (fewer than two points, unordered times) pass through; a non-finite curve gives NaN |
| OldOptimizer.NormalizedAucInUnitRange | dreaminsg_integrated_model/src/optimizer.py:124-129 | a service curve in [0, 1] over increasing times from 0 has a normalized area in [0, 1] |
| OldOptimizer.WeightedFloat | dreaminsg_integrated_model/src/optimizer.py:130 | finite areas are weighted 0.5/0.5; NaN comes exactly from a NaN area or opposite infinities |
| OldOptimizer.ScoreOf | dreaminsg_integrated_model/src/optimizer.py:124-130 | scoring fails, with ValueError, exactly when the area of the water curve cannot be taken; the row carries the candidate order |
| OldOptimizer.ScoreInUnitRange | dreaminsg_integrated_model/src/optimizer.py:124-130 | samples from time 0 on with both service ratios in [0, 1] give a finite score in [0, 1] |
| OldOptimizer.EvalRowsSpec | dreaminsg_integrated_model/src/optimizer.py:87-154 | the log rows are the scores of a prefix of the candidates, and the evaluation stops exactly at the first candidate that raises, with its exception |
| OldOptimizer.OldBestIndexFinite | dreaminsg_integrated_model/src/optimizer.py:150-152 | with finite scores the kept candidate is the later search's: the highest score, the last among equals |
| OldOptimizer.NaNFirstKept | dreaminsg_integrated_model/src/optimizer.py:150-152 | a NaN first score is never replaced, since no score compares at least equal to it |
| OldOptimizer.ScoreCandidates | dreaminsg_integrated_model/src/optimizer.py:87-154 | the evaluation loop yields the rows and exception of the specification and keeps the row of the best index |
| OldOptimizer.OldBruteForceOptimizer.constructor | dreaminsg_integrated_model/src/optimizer.py:26-42 | a horizon of None becomes 0; no best order, no best score, an empty log |
| OldOptimizer.OldBruteForceOptimizer.EvaluateCandidates | dreaminsg_integrated_model/src/optimizer.py:87-154 | the log grows by the rows of the cumulative candidates; the best order and score are those of the best index |
| OldOptimizer.OldBruteForceOptimizer.Pass | dreaminsg_integrated_model/src/optimizer.py:70-172 | a raising candidate ends the pass with its exception; otherwise the best cumulative order is kept, and its first new component moves from the to-repair list to the repaired list, or the pass fails with the lists unchanged |
| OldOptimizer.OldBruteForceOptimizer.FindOptimalRecovery | dreaminsg_integrated_model/src/optimizer.py:61-182 | the union of both lists is kept and the repaired list only grows; success empties the to-repair list, and a horizon of at least one with no repeated component and no raising candidate always succeeds |
| OldOptimizer.OldPassFails | dreaminsg_integrated_model/src/optimizer.py:156-169 | a pass fails only when a candidate raises, the horizon is zero or a component is listed twice |
| DisruptGenerator.CrewRepairShape | dreaminsg_integrated_model/src/disrupt_generator.py:80-185 | a repair starts 60·travel seconds after the crew is free, writes the four rows at the performance the disruption left, and leaves the crew at the component's site, free when the repair ends |
| DisruptGenerator.FourRowsPerRepair | dreaminsg_integrated_model/src/disrupt_generator.py:138-181 | a scheduled order gives each component four rows per time it appears in the order, and no other rows |
| DisruptGenerator.RepairsInSequence | dreaminsg_integrated_model/src/disrupt_generator.py:134-185 | with non-negative travel times every repair starts no earlier than the previous one's restore, and the crew ends at the last site, free when the last repair ends |
| DisruptGenerator.TimesOfSpec | dreaminsg_integrated_model/src/disrupt_generator.py:200-202 | the times `.item()` chooses from are exactly the disruption times of that component |
| DisruptGenerator.FirstClock | dreaminsg_integrated_model/src/disrupt_generator.py:198-202 | a clock found is the disruption time of the order's first component |
| DisruptGenerator.FirstClockErrors | dreaminsg_integrated_model/src/disrupt_generator.py:198-202 | an empty order is an IndexError, a first component without exactly one disruption a ValueError, and nothing else fails |
| DisruptGenerator.DisruptionAndRecovery.constructor | dreaminsg_integrated_model/src/disrupt_generator.py:16-63 | a non-empty scenario gives a Functional row at time 0 per disrupted component followed by a Service Disrupted row per disruption, and sets the crew; an empty one sets neither |
| DisruptGenerator.DisruptionAndRecovery.OptimizeRecoveryStrategy | dreaminsg_integrated_model/src/disrupt_generator.py:190-203 | the order is the given permutation and the clock is the first component's single disruption time; an error leaves the clock |
| DisruptGenerator.DisruptionAndRecovery.ScheduleRecovery | dreaminsg_integrated_model/src/disrupt_generator.py:65-188 | an empty order changes nothing; scheduling succeeds exactly when the crew plan does, and the table is then sorted by time and holds the old rows and the plan's rows, with the crew where the plan leaves it |
| DisruptGenerator.DisruptionAndRecovery.RepairSorted | dreaminsg_integrated_model/src/disrupt_generator.py:80-185 | one pass appends one repair and sorts the table, failing exactly when that repair does |
| DisruptGenerator.DisruptionAndRecovery.RepairOne | dreaminsg_integrated_model/src/disrupt_generator.py:80-185 | the repair's four rows are appended and the crew moves, exactly when the repair can be scheduled |
| DisruptGenerator.DisruptionAndRecovery.UpdateDirectlyAffected | dreaminsg_integrated_model/src/disrupt_generator.py:205-300 | without a table AttributeError; otherwise the commands of the rows at the time stamp, by the older scheduler's corrected rules |
| DisruptGenerator.NewDisruptionAndRecovery | dreaminsg_integrated_model/src/disrupt_generator.py:26-34 | a missing scenario file leaves the object without its events: AttributeError; otherwise the constructor's object |
| OldInterdependencies.Head2 | dreaminsg_integrated_model/src/network_sim_models/interdependencies.py:198 | the type is read from at most the first two characters of the identifier |
| OldInterdependencies.TwoCharCode | dreaminsg_integrated_model/src/network_sim_models/interdependencies.py:197-200 | the type code is the letters among the first two characters |
| OldInterdependencies.OldInfraOfPrefix | dreaminsg_integrated_model/src/network_sim_models/interdependencies.py:201-229 | only the power and water prefixes are recognised |
| OldInterdependencies.ComponDetailsSpec | dreaminsg_integrated_model/src/network_sim_models/interdependencies.py:188-232 | a name without exactly one underscore is a ValueError; otherwise the details of its two-character type from its table, or an unknown type |
| OldInterdependencies.ShortCodeRoundTrip | dreaminsg_integrated_model/src/network_sim_models/interdependencies.py:188-232 | a name built from a known type code of at most two letters and a number reads back as that type |
| OldInterdependencies.TwoCharOfTypedNumber | dreaminsg_integrated_model/src/network_sim_models/interdependencies.py:197-200 | a type code of at most two letters followed by a number reads back as the code |
| OldInterdependencies.LongCodeMisread | dreaminsg_integrated_model/src/network_sim_models/interdependencies.py:197-228 | as written a water type code longer than two letters is never found; the corrected reading finds it |
| OldInterdependencies.LongWaterCodes | dreaminsg_integrated_model/src/network_sim_models/interdependencies.py:197-228 | the first two letters of every long water code are not themselves a water code |
| OldInterdependencies.NeverTranspo | dreaminsg_integrated_model/src/network_sim_models/interdependencies.py:188-232 | no component is ever a road component, as written or corrected |
| OldInterdependencies.OldClassify | dreaminsg_integrated_model/src/network_sim_models/interdependencies.py:44-63 | a (water, power) pair is classified exactly as a motor pump or a generator reservoir |
| OldInterdependencies.PairCoupling | dreaminsg_integrated_model/src/network_sim_models/interdependencies.py:36-63 | an accepted row names the pair it was read from |
| OldInterdependencies.FileCouplingsStopped | dreaminsg_integrated_model/src/network_sim_models/interdependencies.py:33-68 | once reading stops with an exception, later lines change nothing |
| OldInterdependencies.FileCouplingsAccepted | dreaminsg_integrated_model/src/network_sim_models/interdependencies.py:33-68 | every coupling added names a pair of the file and is never a load-modelled motor |
| OldInterdependencies.NodeAccess | dreaminsg_integrated_model/src/network_sim_models/interdependencies.py:114-145 | an access row joins the node to its nearest road node at that distance |
| OldInterdependencies.NodeAccessRowsFollowNodes | dreaminsg_integrated_model/src/network_sim_models/interdependencies.py:114-145 | the access rows follow the nodes one for one, all of them unless a lookup failed |
| OldInterdependencies.DependencyActionsSpec | dreaminsg_integrated_model/src/network_sim_models/interdependencies.py:147-180 | the update fails exactly when some motor state cannot be read; otherwise an out-of-service motor's pump gets an outage over the step and an in-service one's pump is opened |
| OldInterdependencies.OldDependencyTable.constructor | dreaminsg_integrated_model/src/network_sim_models/interdependencies.py:18-31 | both tables start empty |
| OldInterdependencies.OldDependencyTable.BuildPowerWaterDependencies | dreaminsg_integrated_model/src/network_sim_models/interdependencies.py:33-68 | a missing file adds nothing; otherwise the table gains the file's couplings with its exception |
| OldInterdependencies.OldDependencyTable.AddTranspoAccess | dreaminsg_integrated_model/src/network_sim_models/interdependencies.py:70-76 | one access row per power or water node in graph order, until a lookup fails |
| OldInterdependencies.OldDependencyTable.UpdateDependencies | dreaminsg_integrated_model/src/network_sim_models/interdependencies.py:147-180 | the commands of the update are those of the specification function |
| OldIntegratedNetwork.Read | dreaminsg_integrated_model/src/network_sim_models/integrated_network.py:364-386 | reading an attribute succeeds exactly when it has been assigned, and otherwise raises AttributeError |
| OldIntegratedNetwork.InitAsWrittenMisplaces | dreaminsg_integrated_model/src/network_sim_models/integrated_network.py:317-332 | as written, the water crew's office and location become the transport office, the transport crew's location is never set, and the power crew is placed correctly |
| OldIntegratedNetwork.InitPlacesEveryCrew | dreaminsg_integrated_model/src/network_sim_models/integrated_network.py:317-332 | as intended, every crew stands at its own office and every location can be read |
| OldIntegratedNetwork.ResetReturnsHome | dreaminsg_integrated_model/src/network_sim_models/integrated_network.py:334-338 | the intended reset sends every crew to its office, keeps the offices, and is idempotent |
| OldIntegratedNetwork.ResetUndoesMoves | dreaminsg_integrated_model/src/network_sim_models/integrated_network.py:334-386 | any sequence of location changes followed by a reset leaves the same state as the reset alone |
| OldIntegratedNetwork.ResetAsWrittenKeepsTranspo | dreaminsg_integrated_model/src/network_sim_models/integrated_network.py:334-338 | as written, the reset leaves the transport crew at its last location, and agrees with the intended reset exactly when that crew is already at its office |
| OldIntegratedNetwork.MovedKeepsOffices | dreaminsg_integrated_model/src/network_sim_models/integrated_network.py:340-362 | moving one crew does not change what a reset leads to |
| OldIntegratedNetwork.MovedRoundTrip | dreaminsg_integrated_model/src/network_sim_models/integrated_network.py:340-386 | a location setter followed by its getter returns the location set; the other crews and all offices are untouched |
| OldIntegratedNetwork.NoTranspoDisrupted | dreaminsg_integrated_model/src/network_sim_models/integrated_network.py:388-405 | the partition of this package never puts a component in the transport list |
| OldIntegratedNetwork.NoTranspoOf | dreaminsg_integrated_model/src/network_sim_models/integrated_network.py:388-405 | no component is classified as transport by this package's lookup |
| OldIntegratedNetwork.OldIntegratedNetwork.constructor | dreaminsg_integrated_model/src/network_sim_models/integrated_network.py:39-42 | a new network has no attribute assigned: no scenario, no components, no dictionary, no crew location |
| OldIntegratedNetwork.OldIntegratedNetwork.Clone | dreaminsg_integrated_model/src/network_sim_models/integrated_network.py:39-42 | a deep copy is a fresh network with the same state |
| OldIntegratedNetwork.OldIntegratedNetwork.SetDisruptedComponents | dreaminsg_integrated_model/src/network_sim_models/integrated_network.py:292-307 | reads the scenario (the earlier one when the file is missing; AttributeError when there is none), sets the components and partitions them; a failed partition leaves the dictionary unchanged |
| OldIntegratedNetwork.OldIntegratedNetwork.GetDisruptedComponents | dreaminsg_integrated_model/src/network_sim_models/integrated_network.py:309-315 | returns the disrupted components, or AttributeError before any were set |
| OldIntegratedNetwork.OldIntegratedNetwork.SetDisruptedInfraDict | dreaminsg_integrated_model/src/network_sim_models/integrated_network.py:388-405 | the dictionary becomes the partition of the components by infrastructure; an unknown component stops it and nothing is stored |
| OldIntegratedNetwork.OldIntegratedNetwork.GetDisruptedInfraDict | dreaminsg_integrated_model/src/network_sim_models/integrated_network.py:407-413 | returns the dictionary, or AttributeError before it was set |
| OldIntegratedNetwork.OldIntegratedNetwork.SetInitCrewLocsAsWritten | dreaminsg_integrated_model/src/network_sim_models/integrated_network.py:317-332 | the crew attributes after the code as written: the transport office lands in the water attributes |
| OldIntegratedNetwork.OldIntegratedNetwork.SetInitCrewLocs | dreaminsg_integrated_model/src/network_sim_models/integrated_network.py:317-332 | the intended initialisation: each office becomes its crew's initial and current location |
| OldIntegratedNetwork.OldIntegratedNetwork.ResetCrewLocsAsWritten | dreaminsg_integrated_model/src/network_sim_models/integrated_network.py:334-338 | the crew attributes after the reset as written: power and water only |
| OldIntegratedNetwork.OldIntegratedNetwork.ResetCrewLocs | dreaminsg_integrated_model/src/network_sim_models/integrated_network.py:334-338 | the intended reset: every crew back to its office |
| OldIntegratedNetwork.OldIntegratedNetwork.SetCrewLoc | dreaminsg_integrated_model/src/network_sim_models/integrated_network.py:340-362 | exactly the chosen crew's location changes to the one given |
| OldIntegratedNetwork.OldIntegratedNetwork.GetCrewLoc | dreaminsg_integrated_model/src/network_sim_models/integrated_network.py:364-386 | returns the chosen crew's location, or AttributeError when it was never set |
| WideScenario.Min100 | dreaminsg_integrated_model/data/disruptive_scenarios/disrupt_generator.py:41 | `min(100, x)` is never above 100, is either x or 100, and is 100 exactly when x ≥ 100 |
| WideScenario.MinTime | dreaminsg_integrated_model/data/disruptive_scenarios/disrupt_generator.py:16 | the crew's first clock is the time of some disruption and no later than any disruption |
| WideScenario.Matching | dreaminsg_integrated_model/data/disruptive_scenarios/disrupt_generator.py:30 | the disruptions of one component are exactly those of the scenario naming it, as many as `.item()` sees |
| WideScenario.SingleMatch | dreaminsg_integrated_model/data/disruptive_scenarios/disrupt_generator.py:30 | when `.item()` has exactly one value, any two disruptions of that component are the same one |
| WideScenario.Columns | dreaminsg_integrated_model/data/disruptive_scenarios/disrupt_generator.py:27-34 | every built column has one level per grid row; the only error is ValueError |
| WideScenario.ColumnsSucceed | dreaminsg_integrated_model/data/disruptive_scenarios/disrupt_generator.py:27-34 | the table is built exactly when every disrupted component is disrupted once in the whole scenario |
| WideScenario.ColumnsSpec | dreaminsg_integrated_model/data/disruptive_scenarios/disrupt_generator.py:27-34 | a built table has one column per disrupted component, 100 before the failure index and 100 − fail_perc from it on |
| WideScenario.BuildColumns | dreaminsg_integrated_model/data/disruptive_scenarios/disrupt_generator.py:27-34 | the constructor's loop yields the columns, or the ValueError, of the column specification |
| WideScenario.GridPoints | dreaminsg_integrated_model/data/disruptive_scenarios/disrupt_generator.py:24-25 | `np.arange(0, sim_time, sim_step)` with a positive step is 0, step, 2·step, …, strictly increasing, all below sim_time, and stops only at sim_time |
| WideScenario.FullBeforeFailure | dreaminsg_integrated_model/data/disruptive_scenarios/disrupt_generator.py:28-34 | a column is at 100 at a row exactly when the row is before the failure or the failure took nothing away |
| WideScenario.FirstAt | dreaminsg_integrated_model/data/disruptive_scenarios/disrupt_generator.py:37 | the first grid row whose time is the recovery start, or none when no row has it |
| WideScenario.Ramp | dreaminsg_integrated_model/data/disruptive_scenarios/disrupt_generator.py:40-41 | rows before the start keep their level; every later row gets `min(100, start + rate·(t − s))` |
| WideScenario.RampBounded | dreaminsg_integrated_model/data/disruptive_scenarios/disrupt_generator.py:41 | a ramp never takes a level above 100 and leaves the rows before it unchanged |
| WideScenario.RampMonotone | dreaminsg_integrated_model/data/disruptive_scenarios/disrupt_generator.py:41 | with a non-negative rate the ramp never decreases over increasing times |
| WideScenario.FirstFull | dreaminsg_integrated_model/data/disruptive_scenarios/disrupt_generator.py:43 | the first row from the start at level 100, with no earlier such row, or none |
| WideScenario.RampStaysFull | dreaminsg_integrated_model/data/disruptive_scenarios/disrupt_generator.py:43-47 | once the ramp reaches 100 it stays at 100, so the crew is sent at the only point where the level becomes full |
| WideScenario.RampColumn | dreaminsg_integrated_model/data/disruptive_scenarios/disrupt_generator.py:40-48 | the recovery loop writes the ramp over the column; at the first full row the crew moves to the component at that row's time, otherwise clock and location stay |
| WideScenario.ServiceUpdatesSpec | dreaminsg_integrated_model/data/disruptive_scenarios/disrupt_generator.py:55-65 | only power components are switched, each in service exactly when its level at the row is at least 100; with no exception every power component is switched |
| WideScenario.WideDisruption.constructor | dreaminsg_integrated_model/data/disruptive_scenarios/disrupt_generator.py:10-34 | the object holds the scenario, its component list, the grid and the columns, with the crew at its start and clock |
| WideScenario.WideDisruption.New | dreaminsg_integrated_model/data/disruptive_scenarios/disrupt_generator.py:10-34 | an empty scenario is a ValueError, a zero step a ZeroDivisionError, a component disrupted twice a ValueError; otherwise the built object holds the grid and the column specification's table |
| WideScenario.WideDisruption.ScheduleRecovery | dreaminsg_integrated_model/data/disruptive_scenarios/disrupt_generator.py:36-48 | a start that is not a grid time is an IndexError and an unknown component a KeyError, with nothing changed; otherwise the column becomes the ramp, the crew's clock and location follow the first full row, and the flag ends lowered |
| WideScenario.WideDisruption.OptimizeRecoveryStrategy | dreaminsg_integrated_model/data/disruptive_scenarios/disrupt_generator.py:50-53 | the repair order is a permutation of the disrupted components |
| WideScenario.WideDisruption.UpdateDirectlyAffected | dreaminsg_integrated_model/data/disruptive_scenarios/disrupt_generator.py:55-65 | the `in_service` updates are those of the service-update specification over the disrupted components at the row |
| DiscreteScenario.FirstRowAt | dreaminsg_integrated_model/data/disruptive_scenarios/disrupt_generator_discrete.py:46-48 | the first row at the recovery start, with no earlier row at that time, or none |
| DiscreteScenario.RowActionsExplained | dreaminsg_integrated_model/data/disruptive_scenarios/disrupt_generator_discrete.py:146-202 | every command for a row answers that row: a power element is in service exactly at 100, outages, leaks and closures happen only below 100 and over the row's window, reopening only at 100 |
| DiscreteScenario.PumpAndPipeCommands | dreaminsg_integrated_model/data/disruptive_scenarios/disrupt_generator_discrete.py:156-171 | a pump or a pipe gets exactly one command, and it is the reopening exactly when the level is 100 |
| DiscreteScenario.DiscreteActionsSound | dreaminsg_integrated_model/data/disruptive_scenarios/disrupt_generator_discrete.py:135-202 | every command of the update answers one of the rows, and the update runs to the end exactly when no row raises |
| DiscreteScenario.DiscreteDisruption.constructor | dreaminsg_integrated_model/data/disruptive_scenarios/disrupt_generator_discrete.py:11-43 | a non-empty scenario gives the table of one level-100 row at time 0 per component followed by one row at 100 − fail_perc per disruption, with the time step and the crew set; an empty one sets neither |
| DiscreteScenario.DiscreteDisruption.New | dreaminsg_integrated_model/data/disruptive_scenarios/disrupt_generator_discrete.py:11-19 | a missing scenario file leaves the object without its events: AttributeError; otherwise the object of the constructor |
| DiscreteScenario.DiscreteDisruption.ScheduleRecovery | dreaminsg_integrated_model/data/disruptive_scenarios/disrupt_generator_discrete.py:45-49 | without a table AttributeError; with no row at the start IndexError; otherwise the missing component column raises KeyError |
| DiscreteScenario.DiscreteDisruption.OptimizeRecoveryStrategy | dreaminsg_integrated_model/data/disruptive_scenarios/disrupt_generator_discrete.py:66-72 | the order is the given permutation and the crew's clock is the single disruption time of its first component; the errors of `.item()` and `[0]` leave the clock |
| DiscreteScenario.DiscreteDisruption.ExpandEventTable | dreaminsg_integrated_model/data/disruptive_scenarios/disrupt_generator_discrete.py:74-130 | without a table AttributeError; a bad grid leaves the table; on success the table is sorted by time and is a permutation of the forward-filled expansion; on an error it extends the old table |
| DiscreteScenario.DiscreteDisruption.UpdateDirectlyAffectedAsWritten | dreaminsg_integrated_model/data/disruptive_scenarios/disrupt_generator_discrete.py:135-144 | any non-empty current table raises AttributeError at the lookup of its first row |
| DiscreteScenario.DiscreteDisruption.UpdateDirectlyAffected | dreaminsg_integrated_model/data/disruptive_scenarios/disrupt_generator_discrete.py:132-202 | the commands and the exception are those of the row-by-row update specification |
| OldestInterdependencies.TypeCode | dreaminsg_integrated_model/network_sim_models/interdependencies.py:156-159 | the type code is at most two characters, all letters |
| OldestInterdependencies.WaterField | dreaminsg_integrated_model/network_sim_models/interdependencies.py:160 | `water_dict[t][k]` succeeds exactly for a known type and one of its four field names, with the entry's display name or connection field; otherwise KeyError |
| OldestInterdependencies.OldestConnectFields | dreaminsg_integrated_model/network_sim_models/interdependencies.py:228-232 | the connection field of pumps and pipes is `start_node_name`, of every other water type `name` |
| OldestInterdependencies.WaterTypeAsWritten | dreaminsg_integrated_model/network_sim_models/interdependencies.py:147-160 | `get_water_type` as written raises KeyError for every name |
| OldestInterdependencies.WaterType | dreaminsg_integrated_model/network_sim_models/interdependencies.py:147-160 | corrected, the lookup succeeds exactly for a type in the water table, with the type and its display name; otherwise KeyError |
| OldestInterdependencies.WaterTypeOfTypedName | dreaminsg_integrated_model/network_sim_models/interdependencies.py:147-160 | a name made of a water type and a number reads back as that type and its display name |
| OldestInterdependencies.PowerField | dreaminsg_integrated_model/network_sim_models/interdependencies.py:176 | `power_dict[t][i]`: KeyError for an unknown type, IndexError for a short entry, otherwise the entry's element |
| OldestInterdependencies.PowerType | dreaminsg_integrated_model/network_sim_models/interdependencies.py:163-176 | `get_power_type` succeeds exactly for a known type whose entry has two elements, with the type, collection and display name |
| OldestInterdependencies.PowerTypeOfTypedName | dreaminsg_integrated_model/network_sim_models/interdependencies.py:163-176 | a name made of a power type and a number reads back as that type |
| OldestInterdependencies.NearNodeField | dreaminsg_integrated_model/network_sim_models/interdependencies.py:178-183 | the near-node field is the third element of the power entry when it has one |
| OldestInterdependencies.InfraType | dreaminsg_integrated_model/network_sim_models/interdependencies.py:185-195 | power exactly when the type is in the power table, water when it is only in the water table, nothing when in neither |
| OldestInterdependencies.FindConnectedWaterNodeAsWritten | dreaminsg_integrated_model/network_sim_models/interdependencies.py:226-233 | as written every lookup raises KeyError |
| OldestInterdependencies.FindConnectedWaterNode | dreaminsg_integrated_model/network_sim_models/interdependencies.py:226-233 | corrected: KeyError for an unknown type; pumps and pipes read `start_node_name` from the link, reservoirs, junctions and tanks read `name` from the node |
| OldestInterdependencies.ConnectedWaterNodeBound | dreaminsg_integrated_model/network_sim_models/interdependencies.py:229-233 | corrected, the connected node is never left unbound |
| OldestInterdependencies.PyIndex | dreaminsg_integrated_model/network_sim_models/interdependencies.py:223 | `iloc[i]` succeeds exactly for `-n <= i < n`, with an element of the list, else IndexError |
| OldestInterdependencies.FindConnectedPowerNode | dreaminsg_integrated_model/network_sim_models/interdependencies.py:217-224 | the bus is found exactly when the type has a three-element entry and the bus index is valid, and it is then a bus name; an unknown type is a KeyError |
| OldestInterdependencies.CouplingRowOf | dreaminsg_integrated_model/network_sim_models/interdependencies.py:40-48 | a coupling row exists exactly when both lookups succeed; it records both names, the water display name and the power display name; a failed water lookup is a KeyError |
| OldestInterdependencies.PumpMotorRow | dreaminsg_integrated_model/network_sim_models/interdependencies.py:40-48 | a pump coupled to a motor gives a Pump/Motor row, the one the dependency update acts on |
| OldestInterdependencies.AccessEntryOf | dreaminsg_integrated_model/network_sim_models/interdependencies.py:80-90 | an access row exists exactly when the type lookup of its category succeeds, and records the node, its category and its nearest road node and distance |
| OldestInterdependencies.AccessEntriesFollowNodes | dreaminsg_integrated_model/network_sim_models/interdependencies.py:77-90 | one row per node in node order, each with a category and the node's nearest road node; rows stop short exactly at a failed lookup |
| OldestInterdependencies.MotorMatches | dreaminsg_integrated_model/network_sim_models/interdependencies.py:95-96 | the positions found are exactly those of the motors with that name |
| OldestInterdependencies.PumpPowersSpec | dreaminsg_integrated_model/network_sim_models/interdependencies.py:92-98 | every assignment goes to a pump on a motor: p_mw·1000 when the motor is in service, 0 otherwise; with no exception every such pump is assigned |
| OldestInterdependencies.OldestDependencyTable.constructor | dreaminsg_integrated_model/network_sim_models/interdependencies.py:16-25 | both tables start empty |
| OldestInterdependencies.OldestDependencyTable.AddPumpMotorCoupling | dreaminsg_integrated_model/network_sim_models/interdependencies.py:28-48 | the coupling row is appended, or the lookup's exception is returned with the table unchanged |
| OldestInterdependencies.OldestDependencyTable.AddGenReservCoupling | dreaminsg_integrated_model/network_sim_models/interdependencies.py:50-68 | the coupling row is appended, or the lookup's exception is returned with the table unchanged |
| OldestInterdependencies.OldestDependencyTable.AddTranspoAccess | dreaminsg_integrated_model/network_sim_models/interdependencies.py:71-90 | the access table grows by the rows of the power and water nodes, up to the first failed lookup |
| OldestInterdependencies.OldestDependencyTable.UpdateDependencies | dreaminsg_integrated_model/network_sim_models/interdependencies.py:92-98 | the pump powers assigned and the exception are those of the pump-power specification over the coupling rows |

## Left out

- The hydraulic, power-flow and traffic-assignment solvers (wntr, pandapower, the traffic model's `update_traffic_model`) are outside the model. Questions to them are function parameters, and commands to them are recorded as values.
- File and console I/O is left out: reading scenario, dependency and TNTP files (the models take their parsed lines or rows), `print` messages and warnings, and writing results to CSV.
- Randomness (`random.shuffle` of the repair order) is left out. The shuffled order is a parameter.
- Floating point is not modelled. Metrics use `real`. The `Float` value keeps only the infinities and NaN that pandas division by zero produces. `round` and `round(x, 3)` round the exact real value, halves to the even neighbour. Python rounds the binary float, which can lie just off a half and then round the other way.
- The power system model files of the older package are not part of this model. Their tables are parameters, read the way the calling code reads them.
- The simulation-model water table, `infrarisk/src/network_sim_models/water/water_network_model.py`, is not part of this model. It is a parameter of the simulation-model lookups.
- The physical-model transport table is not part of this model and is a parameter.
- Solver wrappers are left out because they only call the hydraulic solver: `pipe_leak_node_generator`, `split_pipe`, `link_open_event` and `link_close_event`.
- `find_connected_power_node`, `find_connected_transpo_node` and `find_connected_nodes` of the newer package are a site parameter. They are graph searches in the solvers' graphs.
- `get_nearest_node` is modelled for its branch logic only. Its KD-tree search is the parameter `nearest`.
- The driver glue of both older `simulation.py` files is left out: `load_networks`, `build_power_water_dependencies`, `build_transportation_access` and `schedule_component_repair`. It only wires solver objects together.
- Left out of `resilience_metrics.py`: `calculate_water_lost`, `calculate_pump_flow`, `calculate_pump_energy` and `calculate_transpo_resmetric`. They read solver result tables with no decision logic of the engine.
- The junction columns of the water results are selected by name in the source. The model takes aligned vectors of served and base demand.
- Graph construction is left out because it builds plotting and solver graphs: `generate_integrated_graph`, `generate_betweenness_centrality` and every `load_*` method of the integrated networks.
- The tank level sensors (`sensor.py`), `PLController.get_sensor_reading` and `ValveActuator.get_sensor_reading` are left out, because they read solver results. The valve trigger takes the level as a parameter.
- `set_pump_initial_status` and `set_discharge_initial_status` are left out: their bodies are `pass`.
- Text.IsAlpha, Text.IsDigit and Text.IsSpace are ASCII-only. Non-ASCII whitespace, letters and digits count as other characters, for example '\u00A0', '\u0085', 'é' and '١'. Python's `str.isspace`, `str.isalpha` and `\d` accept them, so `Text.Tokens`, `Text.Strip`, `Text.Letters` and `Text.FirstDigitRun` differ from Python on such text.
- ResilienceMetrics.WeightedResilienceMetric.GetWeightedAucMetrics: before `SetWeightedAucMetrics` has succeeded it returns `None` values, where the source raises AttributeError because the constructor never sets the weighted areas.
- Cyber.WaterPumpActuator.constructor and Cyber.DischargePipeActuator.constructor require that the component's id can be read. The corrected reading raises when it cannot, and a constructor of the model cannot return an error.
- Adding a tank's close/open control under a name already in use is not modelled. The controls are a registry of names, and the actuators replace a name they remove first.
- Left out of `network.py`: `relativeGap`, `averageExcessCost`, `shiftFlows`, `FrankWolfeStepSize`, `userEquilibrium`, `beckmannFunction`, `createTopologicalList`, `loadPaths`, `__str__`, `readFromFiles` and `calculateShortestTravelTime`. They are the equilibrium solver and its reporting; the engine reaches them through the travel-time parameter.
- The metadata block of `readNetworkFile` and `readDemandFile` (network.py:547-571 and 636-657) is left out: the `int(...)`/`float(...)` conversions, the zone-count comparison between the two files and the toll and distance factors. `TranspoUtils.ReadMetadata` models the header reader, and the line loops start after the header with the zone count given.
- The `Node` and `OD` classes of `transpo_compons.py` have no methods. Nodes are the zone map and the star maps of the reader; OD pairs are `TranspoReader.ODRecord` and `TranspoNetwork.OD` values.
- `firstThroughNode` is compared with node names as strings in the source. The model takes the resulting admissibility of each tail node as the parameter `through`.
- TranspoNetwork.LabelCorrecting: a fuel bound limits the number of scan steps and gives `OutOfFuel` when exceeded. The source loop has no bound, and its termination is not proved.
- TranspoNetwork.WalkBack: the walk along back links carries the same fuel bound. A back-link cycle would make the source loop forever.
- TranspoNetwork.AllOrNothing: may return `OutOfFuel` from the two bounded loops above, which the source cannot.
- pandas `sort_values` is not stable by default. The model sorts with a stable insertion sort and promises only what the pandas sort promises: the result is ordered by time and is a permutation of the input.
- `event_table_wide` is never assigned in `infrarisk/src/network_recovery.py`, so `get_sim_times` on it is the `AttributeError` branch (`None`).
- The discrete scenario table has no `component_state` column. Its rows carry the state the newer scheduler would give, and nothing reads it.
- The older optimizer is written against the later simulation object, whose to-repair and repaired lists it reads. The model follows that interface (`Simulation.NetworkSimulation`).
- DiscreteScenario.DiscreteDisruption.ScheduleRecovery: requires that the component is not a column of the long table (time stamp, component, performance level). Such a component name is not a component of any scenario. The ramp the method never reaches is modelled for the wide generator (`WideScenario.RampLevel`).
- OldOptimizer.NormalizedAuc: a curve holding an infinity or a NaN is given the area NaN. The infinities of floating-point areas are not distinguished.
- DisruptGenerator.DisruptionAndRecovery.constructor: the simulation step and the recovery flag are stored even for a scenario with no disruption. The source leaves them unset then, and no later call reads them for an empty scenario.
- SimIntegratedNetwork.IntegratedNetwork.constructor: the crew locations, the disrupted components and their dictionary start as empty values, although `__init__` leaves them unset. So `get_power_crew_loc`, `get_water_crew_loc` and `get_transpo_crew_loc` before `set_init_crew_locs` give `""` in the model where the source raises AttributeError. Only the scenario's unset state is modelled (`scenarioRead`).
- PhysicalIntegratedNetwork.IntegratedNetwork.constructor: the crews, the crew locations, the disrupted components and their dictionary start as empty values, although `__init__` leaves them unset. So the crew-location getters before `set_init_crew_locs` give `""`, and `get_idle_crew` before `deploy_crews` finds no crew, where the source raises AttributeError.
- OldRecovery.OldNetworkRecovery.ScheduleRecovery: the job of each component comes from the corrected lookup (`CorrectedComponDetails`, Findings). So a water component whose type code is longer than two letters, such as `W_PMA1`, is scheduled, where the source raises TypeError at `dreaminsg_integrated_model/src/network_recovery.py:108-113` when it unpacks `None`.
- OldDirectEffects.UpdateDirectlyAffected: rows are looked up with the corrected lookup. So a row for a water component with a type code longer than two letters gets its commands, where the source raises TypeError at `dreaminsg_integrated_model/src/network_recovery.py:280`.
- OldIntegratedNetwork.OldIntegratedNetwork.SetDisruptedComponents: partitions with the corrected lookup. So `W_PMA1` is filed under water, where the source raises TypeError at `dreaminsg_integrated_model/src/network_sim_models/integrated_network.py:397`.
- OldIntegratedNetwork.OldIntegratedNetwork.SetDisruptedInfraDict: the same corrected partition. A component counts as unknown only when the corrected lookup cannot place it, so long water type codes are placed where the source raises TypeError.
- DisruptGenerator.DisruptionAndRecovery.ScheduleRecovery: the job comes from `OldRecovery.JobOf`, on the corrected lookup. So `W_PMA1` is repaired, where the source raises TypeError at `dreaminsg_integrated_model/src/disrupt_generator.py:87`.
- DisruptGenerator.DisruptionAndRecovery.UpdateDirectlyAffected: rows are looked up with the corrected lookup. So a long-code water row gets its commands, where the source raises TypeError at `dreaminsg_integrated_model/src/disrupt_generator.py:229`.
- The older `DisruptionAndRecovery` constructor catches a missing scenario file and then fails on the unset table. The model takes the events as read.

## Findings

| source | as written | input that shows it | evidently intended | confidence | as-written member | corrected member |
|---|---|---|---|---|---|---|
| infrarisk/src/physical/integrated_network.py:599-608 | `compon_details[0]` indexes the dictionary that `get_compon_details` returns by the key 0 | disrupted components `["W_P1"]` raise KeyError | partition by the `infra` entry | high; not executed | PhysicalIntegratedNetwork.IndexedByZeroOnPipe | PhysicalIntegratedNetwork.IntegratedNetwork.SetDisruptedInfraDict |
| dreaminsg_integrated_model/network_sim_models/interdependencies.py:157-160 | `water_dict[water_type][0]` indexes a dictionary keyed by field names by 0 | every name, e.g. `"P1"`, raises KeyError | the type's display-name entry | high; not executed | OldestInterdependencies.WaterTypeAsWritten | OldestInterdependencies.WaterType |
| dreaminsg_integrated_model/network_sim_models/interdependencies.py:226-233 | reaches the failing `get_water_type` before its branches | every origin node raises KeyError | the pump/pipe start node or the node's own name | high; not executed | OldestInterdependencies.FindConnectedWaterNodeAsWritten | OldestInterdependencies.FindConnectedWaterNode |
| dreaminsg_integrated_model/src/network_sim_models/integrated_network.py:327-332 | the transport office is assigned to the water crew, and the transport crew is never placed | `set_init_crew_locs("p", "w", "t")` leaves the water crew at `"t"` and no transport location | each crew at its own office | high; not executed | OldIntegratedNetwork.InitAsWrittenMisplaces | OldIntegratedNetwork.OldIntegratedNetwork.SetInitCrewLocs |
| dreaminsg_integrated_model/src/network_sim_models/integrated_network.py:334-338 | the water crew is reset twice and the transport crew not at all | a transport crew moved from its office stays where it is | every crew back at its office | high; not executed | OldIntegratedNetwork.ResetAsWrittenKeepsTranspo | OldIntegratedNetwork.OldIntegratedNetwork.ResetCrewLocs |
| infrarisk/src/optimizer.py:119-124 | three values are unpacked from a getter that returns two | any candidate order raises ValueError | score each order by the weighted AUC | high; not executed | Optimizer.ScoreAsWritten | Optimizer.BruteForceOptimizer.FindOptimalRecovery |
| infrarisk/src/physical/transportation/utils.py:39-46 | a malformed line is reported as ignored, but it is still stored | header `["abc", "<END OF METADATA>"]` stores the key `"ab"` | skip the malformed line | medium; not executed | TranspoUtils.MalformedLineStored | TranspoUtils.MalformedLineIgnored |
| infrarisk/src/physical/interdependencies.py:215-220 | calls `network_recovery.pump_outage_event`, which `infrarisk/src/network_recovery.py` does not define | a `Pump`/`Motor` coupling whose motor result has `p_mw == 0` raises AttributeError, after its stale outage controls are removed | add the pump outage, as the simulation-model variant does with `pump.add_outage` | high; not executed | PhysicalInterdependencies.DependencyTable.UpdateDependenciesAsWritten | PhysicalInterdependencies.DependencyTable.UpdateDependencies |
| infrarisk/src/cyber/actuator.py:39 | `get_compon_details(pump_id)[4]` indexes the returned dictionary by 4 | any pump id raises KeyError (TypeError for an unknown one) | the component's `id` entry | high; not executed | Cyber.IdAsWritten | Cyber.ComponentIdOfName |
| infrarisk/src/cyber/controller.py:39-47 | appends to `self.actuators`, while the constructor sets only `self._actuators` | any `add_actuator` call raises AttributeError | register in `_actuators` | high; not executed | Cyber.PLController.AddActuatorAsWritten | Cyber.PLController.AddActuator |
| infrarisk/src/network_sim_models/transportation/network.py:762-774 | a disagreeing zone count resets `numLinks` | metadata of 3 zones for a network with 2 zone nodes keeps `numZones` at 3 | reset `numZones` | high; not executed | TranspoReader.ZoneCountKept | TranspoReader.Reconcile |
| dreaminsg_integrated_model/src/network_sim_models/interdependencies.py:197-200 | the type code is read from the first two characters of the id only | `W_PSC1` (and every water code longer than two letters) is not found | read the letters of the whole id | high; not executed | OldInterdependencies.LongCodeMisread | OldInterdependencies.CorrectedComponDetails |
| dreaminsg_integrated_model/src/network_recovery.py:294-299 | the pump branch calls `self.networkwn`, which the scheduler does not have | any disrupted pump row raises AttributeError | add the pump outage to the water network | high; not executed | OldDirectEffects.PumpOutageRaises | OldDirectEffects.OldRowActions |
| dreaminsg_integrated_model/data/disruptive_scenarios/disrupt_generator_discrete.py:135-144 | calls `get_compon_details` on a module that does not define it | any non-empty current table raises AttributeError | classify each row and issue its commands | high; not executed | DiscreteScenario.DiscreteDisruption.UpdateDirectlyAffectedAsWritten | DiscreteScenario.DiscreteDisruption.UpdateDirectlyAffected |
