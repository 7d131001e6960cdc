# ChargeOpt verification models

Dafny models of the algorithms and protocols in ChargeOpt whose correctness rests on loop invariants or on
every interleaving of steps, with proofs of what they keep. `dafny verify dfyconfig.toml` checks all of it.

Conventions used throughout:

- Floats are exact reals. `round` is modelled only where a result bounds it (`Rounding`), ties to even as in Python.
- A loop of the source is a Dafny loop, proved equal to a function of its inputs; what the code promises is then
  proved about that function for all inputs.
- A database transaction is one atomic step on maps and sequences. `now()` is a clock that only moves forward.
  The hash, the client order id derived from an idempotency key, `argsort`, and the exponent 1.7 of the thermal
  model are parameters.
- A property that is false of the code is given with a concrete input that breaks it and, where stated so, with the
  exact condition under which it holds.

| files | models |
|---|---|
| `Rainflow` | rainflow counting of a state-of-charge series, section 5.4.4 of ASTM E1049-85 |
| `EvFlexibility`, `EvFleetReport` | cumulative energy envelopes of charging sessions and of a fleet, the latest schedule, and what the report means for the vehicles |
| `LineOutage` | islanding by a line outage, and the paths of what is left to the root |
| `LinearSolver`, `PivotBounds`, `RidgeRegression` | Gauss-Jordan elimination with floored pivots, when none is floored, ridge regression on top of it |
| `CausalFit` | the ridge fits of the uplift estimate: standardised covariates, one fit per arm |
| `TwinSimulation` | the battery side of the station simulator |
| `BoundedProjection`, `PortfolioAdmm`, `AdmmFixedPoints` | projection on a box with a fixed sum, one pass of consensus ADMM, when an allocation is the cheapest |
| `CheapestAllocation`, `AdmmConvergence`, `PortfolioCoordination` | the cheapest allocation exists, the passes are drawn to it, and the loop of the source |
| `TopologyGraph`, `EnergyTopology` | reachability, cycle detection, and the containment checks of a site model |
| `ChargingPower` | greedy power sharing under site and phase limits |
| `CostSplit` | splitting a bill in whole cents |
| `OrderLedger`, `TradingDb`, `TradeFills`, `OutboxProtocol`, `OutboxLeases`, `OutboxDelivery`, `TradingRuns`, `TradingStore` | market orders, their event log, outbox workers and their leases, what they deliver, trade fills and delivery schedules |
| `BidAllocation` | from the capacity forecast to a bid, its spread over stations, and what of it arrives in the schedules |
| `Settlement` | approval, dispute, export, payment and reversal of a settlement batch |
| `DispatchMpc`, `DispatchEnergy`, `DispatchOptimality` | the beam search that plans dispatch without an exact solver, what its plan does to the battery, and when it is the cheapest |
| `RealMath`, `Rounding`, `TextOrder`, `Wrappers` | shared arithmetic, rounding, string order, option and result types |

Where the code and a reader's expectation part ways:

- Elimination replaces a pivot below 1e-10 by 1e-10, and then the answer can be wrong (`FlooredPivotFails`). It solves
  the system, and the ridge weights are the minimum, exactly when the answer is zero at every such pivot
  (`SolutionSolvesIff`, `RidgeIsUniqueMinimum`). No pivot is replaced in a coercive system (`CoerciveIsSolved`), so
  none in the repository's own fits of up to a million covariate values (`ArmFitIsUniqueMinimum`).
- Zero residuals do not make the coordinated allocation the cheapest, because one hundred halvings rarely hit the
  exact multiplier (`ZeroResidualsNotCheapest`; the iterate there is a fixed point of the pass, and is not shown to
  be reached from the zero dual the loop starts with). An allocation is the cheapest exactly when no transfer between
  two resources pays (`CheapestIff`), and what a converged run returns is dearer by at most an explicit slack
  (`ConvergedIsNearOptimal`). A run that does not converge had a limit on iterations below a bound computed from the
  portfolio, the tolerance and that limit (`UnsettledIsShort`): up to the projection's slack, every pass brings the
  run nearer the cheapest allocation (`EnergyFalls`).
- A charging session is reported feasible although up to 1e-9 kWh cannot be delivered (`ReportedFeasibleIff`).
- A simulation that starts outside 10 % to 95 % state of charge can report power above the derated limit in its first
  step (`EmptyStartBreaksLimit`, `PowerWithinLimitIff`); later steps cannot (`LimitHoldsAfterFirstStep`).
- Power sharing is maximal before the discharge veto: a vetoed session still uses up headroom (`VetoWastesPower`).
  After it, the report is maximal exactly when the veto takes back no more than vetoed sessions add to the power the
  site could use (`ReportIsMaximalIff`, `ReportIsMaximalOfAllIff`, `NoVetoNoLoss`).
- The cost split always reports `reconciled`, also when the sum misses the total (`ReconciledCanMiss`); it is exact
  exactly for totals in whole cents (`SplitAddsUp`). The last recipient can get a negative amount
  (`LastCanBeNegative`), exactly when the others' rounded shares exceed such a total (`LastNonNegativeIff`).
- After a line outage every proposal that is not islanded keeps its path, except that an evaluation on no lines at all
  is refused (`NoLineLeftFails`, `OutageKeepsProjection`). Losing the line of one phase also sheds the other phases of
  the same bus (`LostPhaseShedsOthers`). In a phase the islanded buses are those whose path used the lost line exactly
  when the root is not islanded and no other line of the phase leads from a bus with a root path that is not islanded
  to one that is (`IslandingIsExactIff`), which is so when the phases together are radial (`RadialIsSealed`).
- The order of a bid is rounded as well as its targets, so schedules match the fill to half a watt per station and
  half a watt more (`DispatchTracksFill`, `RoundingIsAttained`). Commands are rounded once more each.
- The dispatch plan need not be the cheapest when the ramp limit binds, because a state of charge keeps only one of
  the powers that led to it (`RampBreaksOptimality`). It is the cheapest of all plans whose steps the ramp limit cannot
  hold back, unless the beam is pruned (`PlanIsCheapest`, `PlanIsCheapestOfAll`, `NarrowRangeIsUnpruned`).
- A batch that was exported, disputed and approved again cannot be exported to the same destination in the same format
  a second time: the export row is unique by content (`ExportRefusedIff`, `SecondExportRefused`).

## Model

| member | source | states |
|---|---|---|
| Rainflow.ComputeRainflowCycles | chargeopt/grid_ems.py:714-746 | the three loops compute the cycle list all results below are about |
| Rainflow.CloseRanges | chargeopt/grid_ems.py:730-743 | the inner loop runs the stack down to where the last range is smaller than the one before |
| Rainflow.CountCycles | chargeopt/grid_ems.py:726-745 | the stack machine with its half and full cycles, and the residue |
| Rainflow.TurningPreserves | chargeopt/grid_ems.py:715-720 | dropping consecutive repeats loses no variation and leaves none behind |
| Rainflow.ReversalsPreserve | chargeopt/grid_ems.py:721-725 | dropping all but the reversals loses no variation; what is left alternates |
| Rainflow.FeedKeeps | chargeopt/grid_ems.py:728-743 | after every inner loop the stack alternates with strictly decreasing ranges, ends in the last point, and cycles plus stack account for all variation and all points so far |
| Rainflow.FeedSpans | chargeopt/grid_ems.py:728-743 | the stack spans every point seen so far |
| Rainflow.FunnelHull | chargeopt/grid_ems.py:730-734 | a stack with decreasing ranges lies within its first range |
| Rainflow.FilterIsIdle | chargeopt/grid_ems.py:746 | the final depth filter never removes a cycle |
| Rainflow.RainflowConserves | chargeopt/grid_ems.py:714-746 | for every series twice the sum of depth times count is the total variation |
| Rainflow.RainflowCounts | chargeopt/grid_ems.py:714-746 | for every non-constant series twice the sum of counts is the number of extrema minus one |
| Rainflow.RainflowCyclesAreRanges | chargeopt/grid_ems.py:735-746 | every cycle is a non-empty range between two values of the series, counted half or once |
| Rainflow.RainflowLargestCycle | chargeopt/grid_ems.py:744-745 | some cycle spans the whole series |
| Rainflow.RainflowHull | chargeopt/grid_ems.py:714-746 | no depth exceeds maximum minus minimum; a non-constant series has a cycle of exactly that depth; a constant one has none |
| Rainflow.ThroughputIsTwiceEquivalentCycles | chargeopt/grid_ems.py:153-179 | reported throughput is twice equivalent full cycles times capacity, before rounding |
| EvFleetReport.Normalize | chargeopt/grid_ems.py:666-690 | accepted sessions satisfy every condition the envelope relies on |
| EvFlexibility.EnvelopeSound | chargeopt/grid_ems.py:70-76 | every schedule that meets its deadline stays within the bounds at every boundary |
| EvFlexibility.EnvelopeAttained | chargeopt/grid_ems.py:70-76 | every energy between the bounds at a boundary is reached by a schedule that meets its deadline |
| EvFlexibility.ServableIff | chargeopt/grid_ems.py:55-58 | a schedule that meets the deadline exists exactly when the remaining energy is deliverable |
| EvFlexibility.ReportedFeasibleIff | chargeopt/grid_ems.py:58 | the feasible flag is right exactly outside the 1e-9 slack above the deliverable energy |
| EvFlexibility.ReportedFeasibleCounterexample | chargeopt/grid_ems.py:58 | a session reported feasible that no schedule serves |
| EvFlexibility.LatestSchedule | chargeopt/grid_ems.py:81-86 | the backward fill computes the latest schedule |
| EvFlexibility.LatestDelivers | chargeopt/grid_ems.py:81-86 | at every boundary the latest schedule has delivered what the fill had left there, within power and window |
| EvFlexibility.LatestIsLowerBound | chargeopt/grid_ems.py:81-86 | for a servable session the latest schedule meets the deadline and runs along the lower bound at every boundary |
| EvFlexibility.FleetSound | chargeopt/grid_ems.py:77-78 | at every boundary the fleet's total energy is within the aggregate bounds |
| EvFlexibility.FleetAttained | chargeopt/grid_ems.py:77-78 | every total between the aggregate bounds is reached by schedules that all meet their deadlines |
| EvFlexibility.BaselineWithinPower | chargeopt/grid_ems.py:105-108 | the baseline is at most the connected power, so both reserves are non-negative |
| EvFlexibility.AddBounds | chargeopt/grid_ems.py:70-78 | one session's bounds are added to the aggregate arrays |
| EvFlexibility.AddPower | chargeopt/grid_ems.py:79-87 | one session's power and latest schedule are added to the fleet arrays |
| EvFlexibility.AddSession | chargeopt/grid_ems.py:70-87 | all four accumulators go from the sums over k sessions to those over k + 1 |
| EvFlexibility.NoteViolation | chargeopt/grid_ems.py:58-67 | an infeasible session clears the flag and is listed with its shortfall |
| EvFlexibility.ViolationsAreReal | chargeopt/grid_ems.py:58-67 | no violation is listed exactly when all sessions are feasible, and every listed shortfall exceeds the slack |
| EvFlexibility.Accumulate | chargeopt/grid_ems.py:42-97 | the report holds the sums over all sessions, everyone's feasibility, the violations, and each session's own bounds and latest schedule |
| EvFleetReport.AggregateEvFlexibility | chargeopt/grid_ems.py:29-97 | which inputs are refused and with which error, that of the first bad session included; otherwise every bound, flag, schedule and violation of the report is exact for the vehicles as they were sent |
| EvFleetReport.ServesIffMeets | chargeopt/grid_ems.py:681-690 | for an accepted session, powers take the battery from the delivered to the required energy within charger and stay exactly if they meet the normalised session |
| EvFleetReport.ServableIffDeliverable | chargeopt/grid_ems.py:55-58 | a vehicle can be served exactly if full power over its stay delivers what it still needs |
| EvFleetReport.ByFullPowerHolds | chargeopt/grid_ems.py:70-86 | served or not, the bounds and the latest schedule are what full power can and cannot deliver before and after each boundary |
| EvFleetReport.SessionIsExact | chargeopt/grid_ems.py:46-97 | one vehicle's bounds hold for every way to serve it and each value between them is reached; its latest schedule serves it along the lower bound; its flag is right but for the 1e-9 slack |
| EvFleetReport.FleetBoundsHold | chargeopt/grid_ems.py:70-78 | the same for the fleet's bounds and every way to serve all vehicles |
| EvFleetReport.ReportIsExact | chargeopt/grid_ems.py:42-115 | so for the whole report: connected power, baseline, feasibility and the shortfall of exactly those that cannot be served |
| LineOutage.Islanded | chargeopt/grid_ems.py:774-781 | the fixpoint ends with exactly the buses the lost line's far end feeds |
| LineOutage.IslandedIffPathUsesLine | chargeopt/grid_ems.py:774-781 | on a radial network a bus is islanded exactly when its root path uses the lost line |
| LineOutage.IslandingIsExactIff | chargeopt/grid_ems.py:774-789 | on any network, for the lines of a phase: exactly the buses whose root path used the lost line are islanded, if and only if the root is not islanded and no other line leads from a rooted bus that is not islanded to an islanded one |
| LineOutage.RadialIsSealed | chargeopt/grid_ems.py:774-789 | that condition holds in every phase of a network whose phases together are radial |
| LineOutage.SurvivorKeepsPath | chargeopt/grid_ems.py:785-789 | a bus that is not islanded keeps its whole root path in the lines that remain |
| LineOutage.DemandSplits | chargeopt/grid_ems.py:782-784 | unserved plus evaluated demand is the proposed demand |
| LineOutage.AssessOutage | chargeopt/grid_ems.py:768-789 | one known line is required; islanded set, remaining lines, evaluated proposals, and as unserved demand what the proposals at islanded buses ask for |
| LineOutage.OutageSplitsNetwork | chargeopt/grid_ems.py:768-789 | per phase: a bus is islanded or keeps its root path in the phase's lines that remain; it is islanded exactly when the path used the lost line if and only if the island is sealed in that phase, as it is when the phases together are radial |
| LineOutage.ProjectPaths | chargeopt/advanced_ems.py:541-584 | succeeds exactly for a root, some lines and some proposals that pass every check on phases, self loops, limits, impedances, power factors and ids, and a radial phase network with a root path for each proposal, and returns those paths |
| LineOutage.ProposalRefused | chargeopt/advanced_ems.py:543-551 | which proposals are refused |
| LineOutage.LineRefused | chargeopt/advanced_ems.py:552-560 | which lines are refused |
| LineOutage.OutageKeepsProjection | chargeopt/grid_ems.py:782-792 | after an outage of a network that could be projected, what is evaluated can be projected along the same paths exactly when some line remains |
| LineOutage.AssessContingency | chargeopt/grid_ems.py:768-793 | the outage branch with the path stage behind it: fails exactly when proposals but no lines are left, else every proposal gets its old path |
| LineOutage.NoLineLeftFails | chargeopt/advanced_ems.py:541-542 | a one-line network whose outage leaves a proposal at the root and nothing to evaluate it on |
| LineOutage.LostPhaseShedsOthers | chargeopt/grid_ems.py:774-789 | losing the line of one phase islands the bus for another phase whose path does not use it, and the condition above fails there |
| LineOutage.BuildFeeders | chargeopt/advanced_ems.py:567-571 | the feeder map exists exactly when no two lines end at one bus, repeated lines included, and none at the root |
| LineOutage.WalkToRoot | chargeopt/advanced_ems.py:574-584 | the walk terminates, returns the bus's root path if it has one, and fails only if it has none |
| LineOutage.UpwardUnique | chargeopt/advanced_ems.py:568-571 | a radial network has at most one root path per bus |
| LineOutage.UpwardSimple | chargeopt/advanced_ems.py:577-580 | a root path never visits a bus twice, so the visited check never fires on one |
| LinearSolver.SolveLinear | chargeopt/digital_twin.py:1238-1256 | the elimination loops compute the solution all results below are about |
| LinearSolver.FindPivot | chargeopt/digital_twin.py:1242 | the pivot search returns the first largest candidate |
| LinearSolver.PivotRowIsLargest | chargeopt/digital_twin.py:1242 | no candidate row beats the chosen one in absolute value |
| LinearSolver.ClearColumn | chargeopt/digital_twin.py:1248-1255 | every row but the pivot row has its column entry eliminated |
| LinearSolver.StageHolds | chargeopt/digital_twin.py:1241-1255 | one pivot step keeps the solutions, except those not zero at a floored pivot |
| LinearSolver.EliminatedHolds | chargeopt/digital_twin.py:1241-1255 | the same for all pivot steps together |
| LinearSolver.SolutionSolvesIff | chargeopt/digital_twin.py:1238-1256 | the result solves the system exactly when it is zero at every floored pivot |
| LinearSolver.SolutionUnique | chargeopt/digital_twin.py:1238-1256 | without a floored pivot the result is the one and only solution |
| PivotBounds.FlooredPivotFails | chargeopt/digital_twin.py:1244-1247 | a system with a floored pivot that the result does not solve |
| PivotBounds.PivotIsLarge | chargeopt/digital_twin.py:1242-1244 | in a coercive system every chosen pivot is at least lambda over the root of the size |
| PivotBounds.NoneFloored | chargeopt/digital_twin.py:1241-1246 | so no pivot is floored if lambda is at least the floor times the root of the size |
| PivotBounds.CoerciveIsSolved | chargeopt/digital_twin.py:1238-1256 | such a system is solved by the result and by nothing else |
| RidgeRegression.AccumulateRow | chargeopt/digital_twin.py:1229-1232 | one sample's products are added to one row of matrix and vector, nothing else changes |
| RidgeRegression.AccumulateSample | chargeopt/digital_twin.py:1228-1232 | after r samples the accumulators hold the Gram matrix and moments of r samples |
| RidgeRegression.FitRidge | chargeopt/digital_twin.py:1223-1235 | the fit is the solver's answer to the penalised normal equations |
| RidgeRegression.SolvedMeansStationary | chargeopt/digital_twin.py:1228-1235 | solving that system means the gradient of squared error plus penalty is zero |
| RidgeRegression.ObjectiveExpands | chargeopt/digital_twin.py:1223-1235 | the objective after any move, to second order exactly |
| RidgeRegression.RidgeIsUniqueMinimum | chargeopt/digital_twin.py:1223-1256 | the fit is the unique global minimum of squared error plus the penalty on all weights but the intercept exactly when it is zero at every floored pivot |
| CausalFit.Standardize | chargeopt/digital_twin.py:1201-1205 | the loops compute the standardised table, constant columns scaled by one |
| CausalFit.ColumnWithin | chargeopt/digital_twin.py:1203-1205 | the squares of a standardised column sum to the number of rows, or to zero for a constant one |
| CausalFit.ColumnCentred | chargeopt/digital_twin.py:1201-1205 | a standardised column adds up to zero and differs as the raw one does in units of its scale |
| CausalFit.SelectArm | chargeopt/digital_twin.py:897-900 | the observations of one arm, in order |
| CausalFit.ArmPicks | chargeopt/digital_twin.py:897-900 | each member of an arm is found at its rank, and the arm has no more entries than members |
| CausalFit.FitIsCoercive | chargeopt/digital_twin.py:1224-1234 | the normal equations of any fit are coercive with a constant given by row count, energy of the features and penalty |
| CausalFit.FitIsUniqueMinimum | chargeopt/digital_twin.py:1223-1256 | a fit whose constant clears the floor floors no pivot and is the unique minimum |
| CausalFit.ArmFitIsUniqueMinimum | chargeopt/digital_twin.py:886-902 | every arm of a study of up to a million covariate values is fitted without flooring, so to the unique minimum |
| CausalFit.FitArms | chargeopt/digital_twin.py:872-902 | no fit exactly for fewer than 40 observations, fewer than 10 in an arm, or no covariates; otherwise the weights of both arms, each that minimum |
| TwinSimulation.SimulateStation | chargeopt/digital_twin.py:457-518 | refused inputs; otherwise flows and final battery that reconcile with the inputs: usable capacity times change of charge is the energy gained, throughput and wear follow the flows, charge and efficiency are in range, and from the second step on power is within the rating |
| TwinSimulation.RunSchedule | chargeopt/digital_twin.py:484-518 | the loop yields the state and flow of every step |
| TwinSimulation.SimulateStep | chargeopt/digital_twin.py:492-518 | one loop body: limit, clamp, efficiency, state of charge, clip and re-solve, temperature, throughput, health |
| TwinSimulation.LimitDerates | chargeopt/digital_twin.py:492 | full power up to 45 degrees, none from 70 on, in proportion between |
| TwinSimulation.EfficiencyMeans | chargeopt/digital_twin.py:494-495 | 96.5 % less 3.5 points at rated power and a tenth of a point for every degree outside 10 to 40, between 82 % and 97 % |
| TwinSimulation.RequestIsCarriedOut | chargeopt/digital_twin.py:492-504 | a request within the limit that keeps the charge in 0.10 to 0.95 is carried out as it is, any other within the limit ends on the edge |
| TwinSimulation.TemperatureRelaxes | chargeopt/digital_twin.py:505-506 | the temperature moves towards its target without passing it, and reaches it within an hour and a half |
| TwinSimulation.WearFollowsThroughput | chargeopt/digital_twin.py:516-518 | over every schedule throughput is the energy moved, and health falls by 0.00004 for each capacity moved, down to one half |
| TwinSimulation.SimulationReconciles | chargeopt/digital_twin.py:473-518 | the reconciliation of a whole simulation with its inputs and flows |
| TwinSimulation.StepAccounts | chargeopt/digital_twin.py:496-504 | clipped or not, capacity times the change in state of charge is efficiency-adjusted power times dt, and the new state is in 0.10 to 0.95 |
| TwinSimulation.EnergyAccounts | chargeopt/digital_twin.py:484-518 | over every schedule and start the same for the sums, and stored gain never exceeds net energy put in |
| TwinSimulation.StoredIsLess | chargeopt/digital_twin.py:495-499 | conversion never gains energy in either direction |
| TwinSimulation.PowerWithinLimitIff | chargeopt/digital_twin.py:492-503 | reported power is within the derated limit exactly when the allowed range can be reached at that limit |
| TwinSimulation.InRangeKeepsLimit | chargeopt/digital_twin.py:492-503 | from an in-range state the limit holds |
| TwinSimulation.LimitHoldsAfterFirstStep | chargeopt/digital_twin.py:484-504 | from the second step on the limit always holds |
| TwinSimulation.EmptyStartBreaksLimit | chargeopt/digital_twin.py:500-503 | a start whose first step exceeds the limit |
| BoundedProjection.Bisect | chargeopt/advanced_ems.py:759-768 | the loop computes the clipped point at the midpoint after 100 halvings |
| BoundedProjection.Correct | chargeopt/advanced_ems.py:769-776 | the greedy correction in the given order, stopping below 1e-9 |
| BoundedProjection.ProjectBoundedSum | chargeopt/advanced_ems.py:758-777 | the two loops compute the projection all results below are about |
| BoundedProjection.BisectionBrackets | chargeopt/advanced_ems.py:759-767 | the bracket encloses the target after every halving and its width halves |
| BoundedProjection.BisectionGap | chargeopt/advanced_ems.py:759-769 | after k halvings the miss times 2 to the k+1 is at most n times the starting width |
| BoundedProjection.CorrectionKeeps | chargeopt/advanced_ems.py:770-776 | the correction stays in the box, moves every entry the same way, and ends within 1e-9 of the target |
| BoundedProjection.ProjectionFeasible | chargeopt/advanced_ems.py:758-777 | the result is in the box and within 1e-9 of the target |
| BoundedProjection.ShiftedVariational | chargeopt/advanced_ems.py:763-768 | the variational inequality of a shifted and clipped point |
| BoundedProjection.ExactMultiplier | chargeopt/advanced_ems.py:759-768 | some multiplier hits every attainable target exactly |
| BoundedProjection.ExactMultiplierIsNearest | chargeopt/advanced_ems.py:763-768 | a clipped point that hits the target is the nearest point of the box with that sum, and the only one |
| BoundedProjection.ProjectionError | chargeopt/advanced_ems.py:768-777 | the result is within twice the correction of the exact projection |
| BoundedProjection.ProjectionAccuracy | chargeopt/advanced_ems.py:758-777 | the exact projection exists, and the result is within n times the starting width over 2 to the 100 of it |
| BoundedProjection.ProjectionExact | chargeopt/advanced_ems.py:769-777 | with nothing to correct, and only then, the bisection's point is returned as it is and is the exact projection |
| PortfolioCoordination.CoordinatePortfolio | chargeopt/advanced_ems.py:685-736 | each error exactly for its inputs, out of bounds meaning some maximum below its minimum or a target beyond the sums of either; otherwise the first iterate whose residuals are within tolerance, in bounds, on target and at most the stated slack dearer, by the resources' own costs, than any powers in bounds on target, or none within a limit that was too small by the stated bound |
| PortfolioCoordination.ConvergedIsNearlyCheapest | chargeopt/advanced_ems.py:694-736 | the cost bound of a settled iterate, on the resources as they are posted |
| PortfolioCoordination.IterateToTolerance | chargeopt/advanced_ems.py:713-728 | the loop stops at the first such iterate |
| PortfolioCoordination.Begin | chargeopt/advanced_ems.py:710-712 | the starting point |
| PortfolioCoordination.Advance | chargeopt/advanced_ems.py:718-721 | one iteration: local minimisation, projection, dual update |
| PortfolioAdmm.LocalOptimal | chargeopt/advanced_ems.py:718 | the clipped local step minimises one resource's cost plus coupling over its bounds |
| PortfolioAdmm.LocalStepBound | chargeopt/advanced_ems.py:718 | the same summed over all resources, against any in-bounds allocation |
| PortfolioAdmm.ProjectionInequality | chargeopt/advanced_ems.py:720 | the projection's variational inequality, with its error bounded by the bisection's shortfall |
| PortfolioAdmm.IteratesStayFeasible | chargeopt/advanced_ems.py:710-721 | every consensus iterate is in bounds and within 1e-9 of the target |
| PortfolioAdmm.StepCertificate | chargeopt/advanced_ems.py:718-723 | at every iteration, a bound on the cost above any feasible allocation in terms of both residuals and the projection error |
| PortfolioAdmm.FixedPointIsOptimal | chargeopt/advanced_ems.py:718-726 | with both residuals zero the iterate costs at most the bisection's slack more than any feasible allocation, and is the unique cheapest if the bisection left nothing to correct |
| PortfolioAdmm.ShortfallWithinGap | chargeopt/advanced_ems.py:759-769 | what is left to correct is at most the number of resources times the starting width over 2 to the 101 |
| PortfolioAdmm.SettledIsNearOptimal | chargeopt/advanced_ems.py:718-726 | residuals within tolerance bound the cost of the consensus allocation by tolerance times box width, dual and marginal costs plus the bisection's slack |
| PortfolioAdmm.ConvergedIsNearOptimal | chargeopt/advanced_ems.py:716-736 | the same for the allocation a converged run returns, against every feasible one |
| AdmmFixedPoints.CheapestIff | chargeopt/advanced_ems.py:729-736 | a feasible allocation is the unique cheapest exactly when no transfer between two resources pays |
| AdmmFixedPoints.ZeroResidualsNotCheapest | chargeopt/advanced_ems.py:718-726 | a problem and a fixed point of the pass with both residuals zero and the target met whose allocation is not the cheapest |
| CheapestAllocation.SupportedAllocationExists | chargeopt/advanced_ems.py:692-709 | every portfolio that passes the checks has a feasible allocation supported by a price no larger than its costs and bounds allow |
| CheapestAllocation.CheapestExists | chargeopt/advanced_ems.py:692-709 | so it has exactly one cheapest allocation |
| AdmmConvergence.EnergyFalls | chargeopt/advanced_ems.py:718-721 | a pass lowers the squared distance of consensus and dual from the cheapest allocation and its price by the squared move of the local step, up to the projection's slack |
| AdmmConvergence.ProjectionsMove | chargeopt/advanced_ems.py:758-777 | the computed projection moves no further than its argument, up to a factor of two and what the bisections left |
| AdmmConvergence.ConsensusMoves | chargeopt/advanced_ems.py:718-723 | from the second pass on, the dual residual is bounded by the move of the local step |
| AdmmConvergence.UnsettledMoves | chargeopt/advanced_ems.py:722-726 | a pass that does not settle moves the local step by a fixed amount given by tolerance and rho |
| AdmmConvergence.UnsettledIsShort | chargeopt/advanced_ems.py:714-728 | a run that does not settle within its limit had a limit below a bound computed from portfolio, tolerance and limit |
| AdmmConvergence.TwelveSettles | chargeopt/advanced_ems.py:714-728 | the bound at work: two resources of 10 kW settle within a million passes for a tolerance of 0.1 |
| TopologyGraph.ReachableFrom | chargeopt/energy_platform.py:873-882 | returns exactly the nodes reachable by one or more edges |
| TopologyGraph.CycleFinder.Visit | chargeopt/energy_platform.py:858-868 | true only if the graph has a cycle; false leaves the node and all below it finished |
| TopologyGraph.CycleFinder.Enter | chargeopt/energy_platform.py:863 | a node joins the visiting set |
| TopologyGraph.CycleFinder.Leave | chargeopt/energy_platform.py:866-867 | a node whose successors are all finished becomes finished |
| TopologyGraph.HasCycle | chargeopt/energy_platform.py:854-870 | true exactly when a directed cycle exists |
| TopologyGraph.RankedIsAcyclic | chargeopt/energy_platform.py:866-870 | if every node is finished the graph has no cycle |
| TopologyGraph.ClosedHoldsPath | chargeopt/energy_platform.py:876-881 | a set closed under edges holds everything reachable from it |
| EnergyTopology.CheckAssets | chargeopt/energy_platform.py:122-132 | keys and roots, and exactly the complaints that are due: no assets, an empty key, a repeated key, not one root |
| EnergyTopology.SingleRootIff | chargeopt/energy_platform.py:130-132 | there is a single root exactly when one asset and no other is a portfolio, park or site |
| EnergyTopology.CheckRelationships | chargeopt/energy_platform.py:145-161 | the containment graph and parent counts, and a complaint exactly for each unknown end and each self-relationship |
| EnergyTopology.Validate | chargeopt/energy_platform.py:115-172 | every complaint that is due and no other about keys, root and containment, shared parents, cycles and the exact set of orphans included; empty exactly when keys and shape are in order |
| EnergyTopology.CountTargets | chargeopt/energy_platform.py:159-165 | contains-edges are as many as their targets exactly when no target repeats |
| EnergyTopology.CheckedShapeIsTree | chargeopt/energy_platform.py:164-172 | an error-free shape has a unique containment path from the root to each asset and assets minus one contains-edges |
| EnergyTopology.TreeIsCheckedShape | chargeopt/energy_platform.py:164-172 | every such tree passes the checks |
| EnergyTopology.ShapeCheckedIffRootedTree | chargeopt/energy_platform.py:115-172 | the shape checks pass exactly for rooted trees |
| ChargingPower.ArrangedOrdered | chargeopt/energy_platform.py:369 | the processing order is a permutation, by score and then id, descending |
| ChargingPower.AllocateNext | chargeopt/energy_platform.py:370-397 | one loop body: grant, draw down headroom, veto, report row |
| ChargingPower.ArrangedByUrgency | chargeopt/energy_platform.py:363-369 | sessions are processed by a thousand for each point of priority plus the power needed throughout, then by id |
| ChargingPower.GrantServes | chargeopt/energy_platform.py:373-380 | a grant within the maximum; unless headroom runs out it reaches target and minimum or is the maximum; no smaller power from the minimum on reaches the target |
| ChargingPower.RowIsMeaningful | chargeopt/energy_platform.py:376-397 | a row is at risk exactly, up to 1e-9, if minimum or target is missed below the maximum; its shortfall is what the minimum misses; a vetoed session gets nothing |
| ChargingPower.HeadroomMeansServed | chargeopt/energy_platform.py:369-406 | while site and phase have headroom at the end, every session was granted its target and minimum, or its maximum |
| ChargingPower.AllocateChargingPower | chargeopt/energy_platform.py:351-404 | refused inputs; otherwise the rows of the greedy grant in processing order, each with the meaning above, and the site headroom left |
| ChargingPower.GrantAccounts | chargeopt/energy_platform.py:376-378 | site headroom is the limit minus what was granted and is never overdrawn |
| ChargingPower.PhaseAccounts | chargeopt/energy_platform.py:375-380 | the same for every limited phase |
| ChargingPower.GrantTotal | chargeopt/energy_platform.py:359-380 | the total granted is min(site limit, sum over limited phases of min(limit, requests) plus requests elsewhere) |
| ChargingPower.GrantIsMaximal | chargeopt/energy_platform.py:359-380 | the grant is feasible and no feasible assignment gives out more |
| ChargingPower.GrantIsLexicographicallyGreatest | chargeopt/energy_platform.py:369-380 | a feasible assignment that agrees up to a session gives that session no more |
| ChargingPower.ReportedIsFeasible | chargeopt/energy_platform.py:381-386 | all limits still hold after the veto |
| ChargingPower.VetoWastesPower | chargeopt/energy_platform.py:376-386 | a vetoed session can leave another with nothing although power is free |
| ChargingPower.NoVetoNoLoss | chargeopt/energy_platform.py:381-386 | if no vetoed session asks for power the report is the maximal grant itself |
| ChargingPower.ReportIsMaximalIff | chargeopt/energy_platform.py:376-386 | among assignments giving vetoed sessions nothing the report is maximal exactly when usable power with and without vetoed sessions differs by what the veto takes |
| ChargingPower.ReportIsMaximalOfAllIff | chargeopt/energy_platform.py:376-386 | among all assignments it is maximal exactly when the veto takes nothing |
| CostSplit.AllocateEnergyCost | chargeopt/energy_platform.py:725-753 | both errors exactly for their inputs; otherwise shares in cents, the last taking the rest, always reported reconciled |
| CostSplit.SplitIsByMeter | chargeopt/energy_platform.py:730-745 | everybody pays what the meter shows of all positive readings within half a cent, the last within half a cent for each recipient, a negative reading counting as nothing |
| CostSplit.SplitAddsUp | chargeopt/energy_platform.py:736-752 | reported amounts miss the total by at most half a cent, and by nothing exactly for totals in whole cents |
| CostSplit.SplitErrors | chargeopt/energy_platform.py:737 | every recipient but the last is within half a cent of the exact share, the last within (n-1)/2 cents for whole-cent totals |
| CostSplit.SplitKeepsOrder | chargeopt/energy_platform.py:737 | among all but the last, a larger weight never gets less |
| CostSplit.LastCanBeNegative | chargeopt/energy_platform.py:737 | six cents over eight equal meters leave the last one minus one cent |
| CostSplit.LastNonNegativeIff | chargeopt/energy_platform.py:737 | the last amount is not negative exactly when the others' rounded shares exceed the total by at most half a cent, for whole-cent totals by nothing |
| CostSplit.LargeShareIsSafe | chargeopt/energy_platform.py:737 | an exact last share of half a cent per other recipient rules a negative amount out |
| CostSplit.ReconciledCanMiss | chargeopt/energy_platform.py:752 | half a cent for one recipient is reconciled although nothing is assigned |
| OrderLedger.NewOrderSourced | chargeopt/vpp_repository.py:279-282 | a new order's log is chained and replays from draft to its status |
| OrderLedger.TransitionSourced | chargeopt/vpp_repository.py:303-338 | a successful transition keeps that for the new status |
| OrderLedger.MarkReconciledSourced | chargeopt/vpp_repository.py:478-506 | reconciliation events leave replay and status unchanged |
| OrderLedger.AppendKeepsChain | chargeopt/vpp_repository.py:178-229 | sequence numbers stay gapless and every event carries the hash before it |
| OrderLedger.LastHashFixesLog | chargeopt/vpp_repository.py:192-209 | with a collision-free hash the last hash determines the whole log |
| OrderLedger.TruncationShows | chargeopt/vpp_repository.py:192-209 | a truncated log ends in another hash |
| OrderLedger.LeavingIsFinal | chargeopt/vpp_trading.py:26-39 | no transition leads back before submission; terminal statuses have none |
| TradeFills.RecordFillBalances | chargeopt/vpp_repository.py:528-648 | a fill keeps filled = sum of trades <= quantity, average price times filled = sum of price times quantity, and schedules = target times filled over quantity per station and in total |
| TradeFills.FillTakesAll | chargeopt/vpp_repository.py:545-592 | a new fill takes what is offered as far as the order has room, and the order counts as filled exactly when no more than 0.001 kW is missing |
| TradeFills.ScheduledAdds | chargeopt/vpp_repository.py:594-647 | the schedules of one trade add each station's target times the scale, once |
| TradeFills.RepeatedTradeChangesNothing | chargeopt/vpp_repository.py:555-560 | repeating a market trade id changes no table |
| TradeFills.SchedulesMatchFill | chargeopt/vpp_repository.py:594-647 | all schedules together equal the filled quantity exactly when the targets add up to the order quantity or nothing is filled |
| TradeFills.DispatchNearTarget | chargeopt/vpp_repository.py:599-647 | the rounded commands to one station ask for its target times filled over quantity within 0.0005 kW per fill |
| TradeFills.DispatchNearSchedules | chargeopt/vpp_repository.py:599-647 | all commands of an order ask for the sum of its schedules within 0.0005 kW per station and fill |
| TradeFills.CreateKeepsBalance | chargeopt/vpp_repository.py:232-300 | creating an order keeps all totals |
| TradeFills.RelabelKeepsBalance | chargeopt/vpp_repository.py:324-335 | status changes and notes keep all totals |
| OutboxProtocol.TargetLeaves | chargeopt/vpp_operations.py:33-41 | whatever the venue answers, the target is a legal next status beyond submission |
| OutboxProtocol.FinishStep | chargeopt/vpp_repository.py:376-415 | finishing a message keeps the protocol invariant; only a worker past its submission publishes |
| OutboxProtocol.StepKeeps | chargeopt/vpp_operations.py:60-131 | every step of every worker, crash, lease expiry, reconciliation or fill keeps the invariant; orders and messages only advance |
| OutboxProtocol.RunKeeps | chargeopt/vpp_operations.py:60-131 | so every run does |
| OutboxProtocol.PublishedMeansSubmitted | chargeopt/vpp_operations.py:72-101 | in every run a published message never changes again and its order has left draft, ready and submitting for good |
| OutboxProtocol.DeadLetterIsFinal | chargeopt/vpp_repository.py:354-402 | a dead-lettered message never changes again and has used all attempts |
| OutboxProtocol.TerminalIsFinal | chargeopt/vpp_trading.py:26-39 | a terminal order status is kept in every run |
| OutboxProtocol.CallsAreBounded | chargeopt/vpp_operations.py:60-131 | in every run calls <= attempts <= maximum attempts, and all calls carry the order's one client id |
| OutboxLeases.LeaseStep | chargeopt/vpp_repository.py:344-432 | a step that ends while a lease runs leaves the message alone unless a job of its holder ends it |
| OutboxLeases.LeaseHolds | chargeopt/vpp_repository.py:344-432 | so in every run until the lease ends |
| OutboxLeases.ClaimLeases | chargeopt/vpp_repository.py:363-369 | a claim leases the message to the worker for so many seconds with one more attempt |
| OutboxLeases.LeaseIsExclusive | chargeopt/vpp_repository.py:344-432 | in every run, for as long as a claim leases a message, it stays as the worker claimed it until a job of that worker ends it |
| OutboxLeases.ClaimsDoNotOverlap | chargeopt/vpp_repository.py:351-358 | before a message is claimed again, its lease has run out or a job of its holder has ended it |
| OutboxLeases.ExpiredIsReclaimed | chargeopt/vpp_repository.py:355-358 | a message whose lease has run out can be claimed by anyone while attempts are left |
| OutboxLeases.WaitHolds | chargeopt/vpp_repository.py:354 | an unlocked waiting message is untouched in every run until it is available |
| OutboxLeases.FailureRests | chargeopt/vpp_repository.py:397-415 | a failed delivery with attempts left is untouched for thirty seconds in every run |
| OutboxLeases.DueIsClaimed | chargeopt/vpp_repository.py:354-358 | a waiting message whose time has come can be claimed |
| OutboxLeases.NewIsDue | chargeopt/vpp_repository.py:280-300 | the message of a new approved order is available at once, with eight attempts |
| OutboxLeases.UsedUpIsNotClaimed | chargeopt/vpp_repository.py:358 | a message with no attempts left is not |
| OutboxDelivery.ReadyIsDelivered | chargeopt/vpp_operations.py:60-101 | an undisturbed worker takes a ready order through one call with its client id to the status the answer calls for, and publishes the message |
| OutboxDelivery.SubmittingIsDelivered | chargeopt/vpp_operations.py:77-101 | an order left in submitting is sent again under the same client id, with the same outcome |
| OutboxDelivery.SettledIsPublished | chargeopt/vpp_operations.py:73-76 | for an order the venue already knows the message is published without a call |
| OutboxDelivery.UnsuitableFails | chargeopt/vpp_operations.py:70-78 | any other status or topic fails the attempt without a call and leaves the order alone |
| OutboxDelivery.LastFailureFailsOrder | chargeopt/vpp_operations.py:102-119 | after the last attempt at a submission the message is dead and the order failed |
| OutboxDelivery.OtherFailureKeepsOrder | chargeopt/vpp_operations.py:102-122 | any other failure puts the message back and leaves the order alone |
| OutboxDelivery.TroubleIsLocal | chargeopt/vpp_operations.py:69-107 | exceptions strike the guarded lines only, crashes end a job anywhere, and neither touches tables or calls |
| OutboxDelivery.RunKeysUnique | chargeopt/vpp_repository.py:232-310 | in every run no two orders share an idempotency key or a client id |
| OutboxDelivery.CreateOncePerKey | chargeopt/vpp_repository.py:232-310 | a repeated key changes nothing; a new one places the order as decided, with a message only if approved |
| TradingRuns.FillSourced | chargeopt/vpp_repository.py:581-658 | a fill's event continues the log legally to the new status |
| TradingRuns.LedgerStep | chargeopt/vpp_repository.py:178-660 | every step keeps all logs chained and replaying, and all totals balanced |
| TradingRuns.RunLedger | chargeopt/vpp_repository.py:178-660 | so every run does |
| TradingRuns.JustifiedKeepsEvidence | chargeopt/vpp_operations.py:60-131 | steps that move orders past submission only after a call keep the evidence of that call |
| TradingRuns.RunEvident | chargeopt/vpp_operations.py:60-180 | in every run every venue status is backed by a call |
| TradingRuns.PublishedWasCalled | chargeopt/vpp_operations.py:72-101 | in every run a published message's order was sent to the venue at least once |
| TradingStore.Store.constructor | chargeopt/vpp_repository.py:232-300 | empty tables satisfy the ledger invariant |
| TradingStore.Store.AppendOrderEvent | chargeopt/vpp_repository.py:178-229 | the event is appended to the one order's log |
| TradingStore.Store.CreateMarketOrder | chargeopt/vpp_repository.py:232-300 | order, first event and outbox message, or nothing; keeps the ledger |
| TradingStore.Store.TransitionMarketOrder | chargeopt/vpp_repository.py:303-342 | the new tables or the error, keeps the ledger |
| TradingStore.Store.MarkOrderReconciled | chargeopt/vpp_repository.py:478-506 | the note is recorded, keeps the ledger |
| TradingStore.Store.ClaimOutboxMessages | chargeopt/vpp_repository.py:345-373 | chosen due messages are leased with one more attempt, all others unchanged |
| TradingStore.Store.FinishOutboxMessage | chargeopt/vpp_repository.py:376-415 | published, retried or dead-lettered by the lease holder only |
| TradingStore.Store.ScheduleDelivery | chargeopt/vpp_repository.py:594-648 | one schedule per trade and station |
| TradingStore.Store.ApplyFill | chargeopt/vpp_repository.py:561-658 | trade, totals, status, event and schedules of a new fill |
| TradingStore.Store.RecordTradeFill | chargeopt/vpp_repository.py:528-660 | the checks in order, the duplicate flag, and the new tables; keeps the ledger |
| BidAllocation.StationCaps | chargeopt/vpp_trading.py:332-336 | known stations with capacity left after the reserve |
| BidAllocation.ByIdSorted | chargeopt/vpp_trading.py:339 | stations are taken in order of their ids |
| BidAllocation.Allocate | chargeopt/vpp_trading.py:337-353 | every station, the last one included, gets its cap times the same usage |
| BidAllocation.StationShare | chargeopt/vpp_trading.py:340-342 | one station's share, proportional or what is left, is its cap times the usage |
| BidAllocation.PlanBlock | chargeopt/vpp_trading.py:326-353 | no block below 50 kW; otherwise the rounded quantity, the proportional allocation, and baselines from the stations' latest grid power |
| BidAllocation.BuildForecast | chargeopt/vpp_trading.py:212-251 | station capacities rounded to three decimals and the portfolio row, their rounded sum |
| BidAllocation.QuantityIsDeliverable | chargeopt/vpp_trading.py:326-337 | whatever the margin, a bid is at most what its eligible stations can carry, since the portfolio is exactly the sum of the rows |
| BidAllocation.TargetsWithinCaps | chargeopt/vpp_trading.py:340-348 | every target is between zero and the station's cap, up to rounding |
| BidAllocation.PlanBid | chargeopt/vpp_automation.py:70-72 | forecast and block together: none below 50 kW, otherwise a planned block whose targets add up to the bid |
| BidAllocation.ShareIsTarget | chargeopt/vpp_trading.py:340-341 | the loop's share is within the station's cap |
| BidAllocation.LastTakesTarget | chargeopt/vpp_trading.py:340-342 | what remains for the last station is exactly its proportional share |
| BidAllocation.AllocationAddsUp | chargeopt/vpp_trading.py:337-353 | targets add up to the bid quantity, exactly before rounding and within 0.0005 kW per station after it |
| BidAllocation.DispatchTracksFill | chargeopt/vpp_repository.py:594-648 | after any fills of an order placed for a planned block its schedules add up to the filled quantity within 0.0005 kW per station and for the order, and its commands within as much more for each station and fill |
| BidAllocation.RoundingIsAttained | chargeopt/vpp_trading.py:348-368 | every block planned for three given stations has targets that miss its order by 0.0005 kW times four |
| Settlement.ForwardKeeps | chargeopt/vpp_repository.py:917-1130 | approval, export, payment and reversal keep the ledger invariant |
| Settlement.DisputeKeeps | chargeopt/vpp_repository.py:935-992 | raising and resolving a dispute keep it |
| Settlement.RunKeeps | chargeopt/vpp_repository.py:827-1130 | every run keeps it |
| Settlement.SettlementLedger | chargeopt/vpp_repository.py:827-1130 | in every run: disputed exactly when one dispute is open; approved, exported, paid or reversed only with an approver other than the creator; the log replays to the status; paid is net revenue, payment plus reversal nothing, and the one adjustment of a reversed batch takes the net revenue back; disputes are resolved and rejected as often as the log says; no export twice |
| Settlement.PaymentFollowsApproval | chargeopt/vpp_repository.py:827-833 | a payment directly follows an export that directly follows an approval by someone other than the creator |
| Settlement.ExportOnce | chargeopt/vpp_repository.py:995-1060 | in every run a format and destination exported once is refused from then on |
| Settlement.ExportRefusedIff | chargeopt/vpp_repository.py:995-1060 | in every run exporting an approved batch in a known format is refused exactly when an earlier action exported that format and destination |
| Settlement.SecondExportRefused | chargeopt/vpp_repository.py:1024-1041 | after a dispute and a second approval the same export is refused |
| Settlement.SettlementDesk.CreateBatch | chargeopt/vpp_repository.py:708-811 | a batch in review with its first event, one per market and period in the whole table; each refusal exactly for its reason |
| Settlement.SettlementDesk.ApproveBatch | chargeopt/vpp_repository.py:917-932 | the batch's new row and event, or the error and no change; keeps the invariant |
| Settlement.SettlementDesk.DisputeBatch | chargeopt/vpp_repository.py:935-958 | the same for raising a dispute |
| Settlement.SettlementDesk.ResolveBatchDispute | chargeopt/vpp_repository.py:961-992 | the same for resolving it |
| Settlement.SettlementDesk.ExportBatch | chargeopt/vpp_repository.py:995-1069 | the same for an export; an unknown format is refused first |
| Settlement.SettlementDesk.MarkBatchPaid | chargeopt/vpp_repository.py:1072-1092 | the same for payment |
| Settlement.SettlementDesk.ReverseBatch | chargeopt/vpp_repository.py:1095-1130 | the same for reversal, with the negated net revenue as adjustment |
| DispatchMpc.OfferCandidate | chargeopt/optimizer.py:226-255 | one action of one state: ramp and feasibility checks, cost, key, kept if new or cheaper |
| DispatchMpc.ExpandBeam | chargeopt/optimizer.py:220-255 | all actions of all states |
| DispatchMpc.SolveStation | chargeopt/optimizer.py:210-281 | the path and negated cost of the first cheapest final state; while the beam never empties, a plan over the whole horizon that meets every limit, with its cost as score |
| DispatchMpc.ExpansionKeepsCheapest | chargeopt/optimizer.py:223-255 | each key keeps a candidate of the beam that no candidate with that key undercuts |
| DispatchMpc.PruneKeepsCheapest | chargeopt/optimizer.py:305-307 | at most 32 states, and none dropped is cheaper than one kept |
| DispatchMpc.SortIsStable | chargeopt/optimizer.py:305-307 | states of equal cost stay in order, so pruning drops the later ones |
| DispatchMpc.StuckHoldsStill | chargeopt/optimizer.py:256-277 | when nothing is allowed the plan holds for an hour at the initial state of charge, at no cost |
| DispatchMpc.SearchOk | chargeopt/optimizer.py:219-279 | while the beam never empties every state's plan meets all limits and its cost is the sum of its step costs |
| DispatchMpc.PlanIsSound | chargeopt/optimizer.py:210-281 | so the returned plan does, over the whole horizon, and no final state is cheaper |
| DispatchMpc.DriftBound | chargeopt/optimizer.py:284-293 | state of charge integrated from the true start differs from the projected one by at most 0.005 k after k steps |
| DispatchEnergy.StepStores | chargeopt/optimizer.py:288-293 | a planned step stores nine tenths of what it charges and takes a ninth more than it delivers, reckoned from its power and the capacity, never gaining energy |
| DispatchEnergy.TrueSocStores | chargeopt/optimizer.py:288-293 | the same for the sums over a plan from the true start |
| DispatchEnergy.BatteryStaysWithinLimits | chargeopt/optimizer.py:224-303 | executed from its true start a plan keeps the battery within its limits, and above the reserve in the last four hours, up to 0.005 for each step |
| DispatchEnergy.StepKeepsLimits | chargeopt/optimizer.py:225-232 | every planned step keeps the ramp limit, the transformer share, the battery's range and the reserve |
| DispatchEnergy.FeasibleIff | chargeopt/optimizer.py:296-302 | and a step is refused for nothing else |
| DispatchEnergy.ChargedFor | chargeopt/optimizer.py:318-330 | what each objective charges a step for: energy, wear, load beyond 78 % of the transformer, missing reserve and people waiting |
| DispatchEnergy.DrawingCosts | chargeopt/optimizer.py:318-327 | at a price that is not negative, drawing more never makes a cost-first step cheaper |
| DispatchOptimality.PlanIsCheapest | chargeopt/optimizer.py:210-281 | if no expansion outgrows the beam, the plan costs no more than any plan on the rounded grid that meets every limit and whose steps the ramp limit cannot hold back |
| DispatchOptimality.PlanIsCheapestOfAll | chargeopt/optimizer.py:210-281 | with a ramp limit of at least 1.44 times the storage power it is the cheapest of all plans that meet every limit |
| DispatchOptimality.NarrowRangeIsUnpruned | chargeopt/optimizer.py:296-307 | no expansion outgrows the beam if the allowed states of charge span at most 0.3 |
| DispatchOptimality.RampBreaksOptimality | chargeopt/optimizer.py:226-255 | a case with a binding ramp limit whose returned plan is dearer than another that meets every limit |
| Rounding.RoundHalfEven | chargeopt/optimizer.py:284-285 | round is within half of its argument |
| Rounding.RoundedNear | chargeopt/energy_platform.py:737-745 | rounding to digits moves a value by at most half a unit of the last digit |
| Rounding.RoundedMonotone | chargeopt/energy_platform.py:737 | rounding keeps the order |

## Left out

- Floating point: every float is an exact real, so rounding errors of arithmetic, infinities and NaN are not modelled; `math.isfinite` checks are taken as passed.
- Reported figures rounded to a fixed number of digits, except where a result above bounds the rounding.
- Database column types: fills and prices are stored as numeric(14,3) and numeric(12,5), settlement amounts with two digits; the models keep exact values.
- SQL text, row-level security, tenancy (one tenant), audit rows, heartbeats, circuit breaker and counters returned by the workers. Uniqueness constraints and the default of 8 attempts are taken from the migrations.
- Limit and ordering of the claim query: any set of due messages may be claimed.
- Rows of `task_queue` and the dispatch commands in them: a worker elsewhere consumes them.
- Text, evidence and timestamps of reports.
- Identifiers made by uuid4 are parameters; a collision is modelled as the key violation it causes.
- Outbox liveness under interference: a worker that crashes on the last attempt leaves its message in publishing for good; what an undisturbed worker delivers is stated, and safety for every interleaving.
- Filled means full quantity: reconciliation may set filled without any trade, so this is stated only as the balance of trades.
- EnergyTopology.Validate: does not model the checks of asset types, carriers, ratings, points and constraints, which only add further errors of their own.
- The flow program behind the paths of a projection: a foreign solver.
- TwinSimulation.SimulateStep: does not model transformer temperature, queue, photovoltaic use and grid power, which do not feed back into the battery.
- BidAllocation.PlanBlock: does not model price, scarcity and shortfall risk of a block; the latest grid power of a station is a parameter.
- CausalFit.FitArms: does not model the propensity fit, overlap, influence, confidence interval and placebo, which use the weights but do not change them; the square root is a parameter.
- DispatchMpc.PlanIsSound: says nothing once the beam has emptied; the hold step taken then is modelled but ignores the grid limit, as in the code.
- ChargingPower.ArrangedOrdered: two sessions with equal score and equal id raise a type error in the source when it compares their dictionaries; the model keeps both in either order.
- Settlement amounts: how gross revenue, imbalance cost and penalties of a line are calculated, the hash chain of settlement events (proved for orders, same code shape), and the text of an export, which is taken to be fixed by batch and format.
- Degradation life formulas beyond throughput and equivalent cycles: straight-line arithmetic with exponentials.
- Mixed-integer and linear programs, forecasting, bootstrap and offline policy code: foreign solvers or statistics.
- HTTP routes, authentication, market adapters, web front end, scripts: plumbing.
