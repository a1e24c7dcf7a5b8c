# Tunnel QRA core in Dafny

This project models the computational core of a road-tunnel Quantitative Risk Analysis (QRA)
tool and proves properties of that model. The core has three parts.

- **The QRA calculator** (`Calculator`, class `QraCalculator`). For one tunnel it computes:
  - the total passenger-car units (PCU) of its traffic;
  - the accident frequency F per year;
  - the available and required safe egress times, ASET and RSET;
  - the fatalities per accident N, together with a simplified fractional effective dose (FED).

  It then places the point (F, N) against two log-log F-N criterion lines, which gives
  "Unacceptable", "ALARP", "Acceptable" or "Error". Finally it writes one result record per
  tunnel id into the result store, creating the record if it does not exist.
- **The agent-based evacuation simulator** (`Evacuation`, class `EvacuationSimulation`). Each
  occupant waits for its pre-movement time and then walks to its nearest exit, in steps of 0.5 s.
  An occupant within 1 m of an exit counts as evacuated at that time. Whoever is still inside
  after 600 s is censored at 600 s. Each run is summarized as evacuation times, a mean, a minimum
  and a maximum, and evacuated/total counts. Repeated runs start each time from newly drawn
  occupants.
- **Risk and statistics post-processing** (`Statistics`). This part computes:
  - descriptive statistics and numpy-style percentiles (linear interpolation on the sorted
    sample, at rank p/100·(n−1));
  - the ASET/RSET comparison, that is the probability of success and of risk, and the safety
    margins;
  - the cumulative-risk sweep over ASET values;
  - individual risk and expected fatalities;
  - the pooling of many simulation runs into one sample;
  - the name dispatch for distribution fitting.

Shared building blocks:
- `Numerics` provides:
  - extended reals for the infinite travel time;
  - the square root as a parameter whose defining property `IsSqrtFn` is required;
  - integer powers of ten for the F-N lines.
- `Samples` provides sum, mean, min, max, counts, an insertion sort and its properties.
- `Models` holds the record shapes and their column defaults.
- `Wrappers` holds `Option` and `Result`.

Imperative source stays imperative here:
- `calculate_total_pcu` is a method with a loop.
- `run_simulation` of the calculator is a method that updates the `results` map of the
  calculator object.
- The simulator is a class whose `agents` field is updated agent by agent. It has a bounded
  time loop, a summarising loop and a loop over repeated runs.
- `calculate_fntds_curve` and the two loops of `analyze_multiple_simulations` are methods with
  loops.

Every method is proved against a specification function, for example `MoveAgentSpec`,
`StepAll`, `RunLoop`, `CensorAll`, `SimulateRun`, `ConcatTimes` or `FitDistribution`. The lemmas
are stated about those functions.

## Model

| member | source | states |
|---|---|---|
| Calculator.CalculateTotalPcu | src/logic/calculator.py:23-36 | A missing tunnel gives 0; otherwise the loop's total is the sum over the vehicle classes of pcu·(volume_plus+volume_minus), so 0 for an empty list |
| Calculator.PcuSumNonNegative | src/logic/calculator.py:31-34 | When every pcu and volume is non-negative, the total PCU is non-negative |
| Calculator.PcuSumZeroIffNoTraffic | src/logic/calculator.py:31-34 | With non-negative volumes and positive PCU factors, the total is 0 exactly when every class has zero volume in both directions |
| Calculator.CalculateAccidentFrequency | src/logic/calculator.py:38-64 | F is 0 for a missing tunnel and 0 when the total daily traffic is 0 |
| Calculator.AccidentFrequencyLinearInLength | src/logic/calculator.py:58-62 | Scaling the tunnel length by k scales F by k |
| Calculator.AccidentFrequencyLinearInTraffic | src/logic/calculator.py:48-62 | For equal lengths, k times the daily traffic gives k times F |
| Calculator.AccidentFrequencyScenario | src/logic/calculator.py:48-62 | 10000 vehicles a day in a 410 m tunnel give F = 0.14965 per year (10000·365·0.41·1e-7) |
| Calculator.CalculateFatalities | src/logic/calculator.py:66-92 | N is at least 1; N is infinite exactly when RSET is infinite and the occupancy is positive (IEEE: max(1, 0·inf) is 1) |
| Calculator.FatalityRatioCases | src/logic/calculator.py:79-86 | The ratio is 0.01 for a positive margin and 0.10+|margin|/1000 otherwise, so a zero margin takes the penalty branch |
| Calculator.FatalityRatioAntitone | src/logic/calculator.py:79-86 | A larger safety margin never gives a larger fatality ratio |
| Calculator.FatalityRatioExceedsOne | src/logic/calculator.py:84-86 | The ratio exceeds 1 exactly when the margin is below −900 s |
| Calculator.CalculateFed | src/logic/calculator.py:94-114 | With non-negative concentrations and time and a positive visibility, the FED is non-negative |
| Calculator.FedLinearInTime | src/logic/calculator.py:106-112 | The FED is linear in the exposure time |
| Calculator.GrowthFactor | src/logic/calculator.py:125-128 | α is positive; a label other than the four known ones gets the Medium value 0.01172 |
| Calculator.TimeToPeak | src/logic/calculator.py:131 | t_peak is the non-negative solution of α·t² = 1000·hrr |
| Calculator.AsetBeforeClampBounds | src/logic/calculator.py:137-142 | The pre-clamp ASET is the least of t_temp, t_vis and 0.8·t_peak, and one of them |
| Calculator.ClampAsetCases | src/logic/calculator.py:145 | The clamp keeps values in [60, 1800] and otherwise yields the nearer bound |
| Calculator.CalculateAset | src/logic/calculator.py:116-145 | A missing analysis or tunnel gives 0; with both present ASET lies in [60, 1800] |
| Calculator.AsetDefaultScenario | src/logic/calculator.py:116-145 | With the default analysis (10 MW, Medium growth, limits 60 °C and 10 m), ASET = 0.8·t_peak, about 739 s |
| Calculator.CalculateRset | src/logic/calculator.py:147-178 | A missing record gives 0; otherwise RSET is infinite exactly when the walking speed is at most 0, and it is never −∞ |
| Calculator.RsetTravelCoversHalfTunnel | src/logic/calculator.py:160-176 | For a positive speed, after taking off 30 s and the reaction and hesitation times, what remains of RSET times the walking speed is half the tunnel length |
| Calculator.RsetDefaultScenario | src/logic/calculator.py:147-178 | Default records (410 m, 60 s reaction, 120 s hesitation, 1 m/s) give RSET = 415 s |
| Calculator.CompareRiskToCriteria | src/logic/calculator.py:180-206 | The status is "Error" exactly when F ≤ 0 or N ≤ 0; improvement is required exactly when the status is not "Acceptable"; "Not Evaluated" never results |
| Calculator.BoundaryLines | src/logic/calculator.py:192-196 | With A=−2, B=−1, C=−4, D=−1 the lines are F = 0.01/N and F = 0.0001/N, the first 100 times the second |
| Calculator.ClassifierRegions | src/logic/calculator.py:198-206 | For positive F and N: Unacceptable iff F is above the upper line, ALARP iff F is above the lower line and on or below the upper one, Acceptable iff F is on or below the lower line; a point on a line takes the milder status |
| Calculator.ClassifierMonotoneInF | src/logic/calculator.py:198-206 | For a fixed N > 0, a larger F never gives a milder status (Acceptable < ALARP < Unacceptable) |
| Calculator.ClassifierInfiniteN | src/logic/calculator.py:185-200 | An infinite N with F > 0 classifies as ("Unacceptable", true) |
| Calculator.BoundariesAtPowerOfTen | src/logic/calculator.py:189-196 | At N = 10^j the two lines are 10^(A+B·j) and 10^(C+D·j) |
| Calculator.ClassifierLogForm | src/logic/calculator.py:188-206 | For F = 10^i and N = 10^j, the status is decided by the source's log10 comparisons i > A+B·j and i > C+D·j |
| Numerics.Pow10Less | src/logic/calculator.py:188-190 | 10^i < 10^j iff i < j, so comparing powers of ten and comparing their exponents agree |
| Calculator.GenerateFnCurveData | src/logic/calculator.py:208-226 | The table has N values [1, 10, 100, 1000, 10000]; the k-th unacceptable and acceptable entries are 10^(A+B·k) and 10^(C+D·k) |
| Calculator.FnCurveNArePowersOfTen | src/logic/calculator.py:213-220 | The k-th N value is 10^k, and both line formulas evaluated there give the same entries as the table |
| Calculator.FnCurveShape | src/logic/calculator.py:215-220 | At N = 1 the boundaries are 10^A = 0.01 and 10^C = 0.0001; every unacceptable entry is 100 times the acceptable one |
| Calculator.QraOutcome | src/logic/calculator.py:238-283 | ASET lies in [60, 1800]; is_safe iff RSET is finite and ASET−RSET > 0; a non-positive speed gives infinite RSET, a −∞ margin and not safe; N ≥ 1; the status and flag are those of the classifier; "Error" iff F ≤ 0 |
| Calculator.DefaultProjectScenario | src/logic/calculator.py:228-283 | A fresh default project (seven vehicle types, zero volumes) is safe by its margin but gets F = 0, N = 1, status "Error" and the improvement flag |
| Calculator.QraCalculator.constructor | src/logic/calculator.py:12-21 | The calculator holds the given tunnel, analysis and result stores and a square root |
| Calculator.QraCalculator.RunSimulation | src/logic/calculator.py:228-283 | A missing tunnel or analysis returns "Configuration data missing." and leaves the store unchanged; otherwise it returns the full outcome, the store has exactly one more key at most (the id), the record for the id holds the computed F, N, status and flag, and every other record is unchanged |
| Evacuation.NewAgent | src/qra_system/evacuation_simulation.py:79-99 | A new agent has its id, its drawn position and pre-movement time, speed max(0.3, drawn speed), and is not evacuated at time 0 |
| Evacuation.InitialAgents | src/qra_system/evacuation_simulation.py:76-101 | One agent per draw, the i-th built from the i-th draw with id i |
| Evacuation.InitialAgentsWellFormed | src/qra_system/evacuation_simulation.py:76-101 | Initial agents satisfy the run invariant (speed ≥ 0.3), have ids 0..n−1 in order, and none is evacuated |
| Evacuation.NearestAmong | src/qra_system/evacuation_simulation.py:103-114 | The chosen exit is no farther than any exit scanned, and strictly nearer than every earlier one (ties go to the earliest) |
| Evacuation.NearestExitIndex | src/qra_system/evacuation_simulation.py:103-114 | The same over the whole exit list |
| Evacuation.NearestUnique | src/qra_system/evacuation_simulation.py:108-112 | The earliest nearest exit is unique |
| Evacuation.NearestAmongStep | src/qra_system/evacuation_simulation.py:108-112 | One more exit replaces the choice exactly when it is strictly nearer |
| Evacuation.MoveAgentNoChange | src/qra_system/evacuation_simulation.py:118-123 | An evacuated agent, or one whose pre-movement time has not yet passed, is unchanged |
| Evacuation.MoveAgentArrival | src/qra_system/evacuation_simulation.py:116-137 | A step keeps id, speed and pre-movement time; an agent that becomes evacuated does so at the current time, not before its pre-movement time, without moving; a moving agent within 1 m of its nearest exit becomes evacuated |
| Evacuation.MoveAgentAdvance | src/qra_system/evacuation_simulation.py:139-145 | A moving agent at least 1 m from its nearest exit advances min(speed·0.5, distance) towards it: its distance drops by exactly that and stays non-negative |
| Evacuation.StraightStep | src/qra_system/evacuation_simulation.py:144-145 | Moving m along the unit direction to an exit at distance d ≥ 1, with m ≤ d, leaves distance d − m |
| Evacuation.MoveAgentKeepsInv | src/qra_system/evacuation_simulation.py:116-145 | A step at a time in [0, 600) keeps the agent invariant and the agent's identity |
| Evacuation.StepAll | src/qra_system/evacuation_simulation.py:158-159 | One time step moves every agent, keeping their number |
| Evacuation.RunLoopStep | src/qra_system/evacuation_simulation.py:156-165 | One iteration of the time loop: if every agent is evacuated, stop; otherwise continue at the next time |
| Evacuation.RunLoopPreserves | src/qra_system/evacuation_simulation.py:156-165 | The time loop keeps the number of agents, the agent invariant and every agent's identity |
| Evacuation.RunLoopKeepsEvacuated | src/qra_system/evacuation_simulation.py:156-165 | An agent that has evacuated stays exactly as it was for the rest of the run |
| Evacuation.RunLoopLength | src/qra_system/evacuation_simulation.py:156-165 | The loop returns as many agents as it was given |
| Evacuation.CountEvacuated | src/qra_system/evacuation_simulation.py:183 | The evacuated count never exceeds the number of agents |
| Evacuation.EvacuatedTimes | src/qra_system/evacuation_simulation.py:168-169 | One recorded time per evacuated agent |
| Evacuation.CensoredTimes | src/qra_system/evacuation_simulation.py:172-175 | One entry of 600 s per agent not evacuated; together with the evacuated entries they number the agents |
| Evacuation.CensorAll | src/qra_system/evacuation_simulation.py:172-174 | Each agent not evacuated gets evacuation time 600 s; nothing else changes |
| Evacuation.CensorAllKeepsInv | src/qra_system/evacuation_simulation.py:172-174 | Censoring keeps the agent invariant |
| Evacuation.CensorAllCount | src/qra_system/evacuation_simulation.py:172-183 | Censoring does not change the evacuated count |
| Evacuation.EvacuationTimesLength | src/qra_system/evacuation_simulation.py:168-175 | There is one evacuation time per agent |
| Evacuation.EvacuatedTimesBounds | src/qra_system/evacuation_simulation.py:168-169 | Every recorded time of an evacuated agent lies in [0, 600) |
| Evacuation.SummaryProperties | src/qra_system/evacuation_simulation.py:167-186 | The summary has one time per agent and num_total is the number of agents; the evacuated times come first, each in [0, 600), then exactly num_total − num_evacuated entries of 600; 0 ≤ min ≤ mean ≤ max ≤ 600 |
| Evacuation.CreateSimpleBuilding | src/qra_system/evacuation_simulation.py:211-236 | 0 exits for n ≤ 0, n exits for n = 1 or 2, 3 for n ≥ 3; exit i has id i, capacity 2.0 and lies on the rectangle's boundary |
| Evacuation.EvacuationSimulation.constructor | src/qra_system/evacuation_simulation.py:46-74 | The simulator keeps its parameters and starts with the agents built from the draws |
| Evacuation.EvacuationSimulation.InitializeAgents | src/qra_system/evacuation_simulation.py:76-101 | The loop builds exactly the initial agents of the draws, numAgents of them |
| Evacuation.EvacuationSimulation.FindNearestExit | src/qra_system/evacuation_simulation.py:103-114 | The loop returns the earliest nearest exit, whose distance is at most every exit's |
| Evacuation.EvacuationSimulation.MoveAgent | src/qra_system/evacuation_simulation.py:116-145 | Agent i is replaced by its step and no other agent changes |
| Evacuation.EvacuationSimulation.MoveAllAgents | src/qra_system/evacuation_simulation.py:158-159 | The agents become their one-step successors |
| Evacuation.EvacuationSimulation.StepUntilEvacuated | src/qra_system/evacuation_simulation.py:154-165 | The bounded time loop terminates with the agents given by the loop specification |
| Evacuation.EvacuationSimulation.CollectEvacuationTimes | src/qra_system/evacuation_simulation.py:167-175 | Returns the evacuated times followed by the censored ones, and censors the agents in place |
| Evacuation.EvacuationSimulation.RunSimulation | src/qra_system/evacuation_simulation.py:147-188 | The final agents are the censored result of the time loop, and the returned summary is that of the run from the initial agents |
| Evacuation.EvacuationSimulation.RunsFrom | src/qra_system/evacuation_simulation.py:200-208 | One result per run |
| Evacuation.EvacuationSimulation.RunsFromAt | src/qra_system/evacuation_simulation.py:202-206 | The k-th result is the run from fresh agents built from the k-th draws |
| Evacuation.EvacuationSimulation.RunMultipleSimulations | src/qra_system/evacuation_simulation.py:190-208 | Returns exactly numSimulations results, each a run from newly initialised agents; afterwards the agents are the censored agents of the last run, or unchanged when no run is requested |
| Samples.Max | src/qra_system/statistical_analysis.py:38 | The maximum is an element of the sample and bounds every element from above |
| Samples.Min | src/qra_system/statistical_analysis.py:37 | The minimum is an element of the sample and bounds every element from below |
| Samples.MeanBetweenMinMax | src/qra_system/statistical_analysis.py:33-38 | min ≤ mean ≤ max |
| Samples.Sort | src/qra_system/statistical_analysis.py:39-42 | The sorted sample is ascending and a permutation of the sample |
| Samples.SortEnds | src/qra_system/statistical_analysis.py:37-42 | The sorted sample starts at the minimum and ends at the maximum |
| Samples.CountsPartition | src/qra_system/statistical_analysis.py:165-168 | Every sample is below, equal to or above a threshold, exactly one of the three |
| Samples.CountAboveAntitone | src/qra_system/statistical_analysis.py:201 | Raising the threshold never increases the number of samples above it |
| Samples.MeanSubFrom | src/qra_system/statistical_analysis.py:174 | The mean of the margins aset − t is aset minus the mean time |
| Samples.MinSubFrom | src/qra_system/statistical_analysis.py:175 | The least margin is aset minus the largest time |
| Statistics.Fraction | src/qra_system/statistical_analysis.py:165 | A share count/n lies in [0, 1] for count ≤ n, and is 0 exactly when count is 0 |
| Statistics.FractionMonotone | src/qra_system/statistical_analysis.py:165 | A larger count gives a share at least as large |
| Statistics.ExceedanceAntitone | src/qra_system/statistical_analysis.py:199-202 | The share of samples above aset does not increase as aset increases |
| Statistics.Rank | src/qra_system/statistical_analysis.py:39-42 | The interpolation rank lies in [0, n−1] |
| Statistics.RankIsProduct | src/qra_system/statistical_analysis.py:39-42 | The rank is p/100·(n−1), numpy's linear method |
| Statistics.RankMonotone | src/qra_system/statistical_analysis.py:39-42 | The rank is monotone in p |
| Statistics.RankOfMedian | src/qra_system/statistical_analysis.py:34 | The rank of the 50th percentile is (n−1)/2 |
| Statistics.InterpolateBetween | src/qra_system/statistical_analysis.py:39-42 | Interpolating a sorted sample stays between its first and last element |
| Statistics.InterpolateMonotone | src/qra_system/statistical_analysis.py:39-42 | Interpolation on a sorted sample is monotone in the rank |
| Statistics.PercentileBounds | src/qra_system/statistical_analysis.py:37-42 | min ≤ every percentile ≤ max |
| Statistics.PercentileMonotone | src/qra_system/statistical_analysis.py:39-43 | The percentile is monotone in p |
| Statistics.MedianIsPercentile50 | src/qra_system/statistical_analysis.py:34 | The median (middle element, or mean of the two middle ones) is the 50th percentile |
| Statistics.Variance | src/qra_system/statistical_analysis.py:36 | The population variance is non-negative |
| Statistics.SquaredDeviationsOfConstant | src/qra_system/statistical_analysis.py:36 | A constant sample has zero squared deviation from its value |
| Statistics.CalculateDescriptiveStatistics | src/qra_system/statistical_analysis.py:25-44 | min, max and mean are those of the sample; min ≤ q25 ≤ median ≤ q75 ≤ q95 ≤ q99 ≤ max; min ≤ mean ≤ max; iqr = q75 − q25 ≥ 0; variance ≥ 0 |
| Statistics.CalculatePercentiles | src/qra_system/statistical_analysis.py:84-97 | The keys are exactly the requested percentiles, and each value is the percentile of the sample at its key |
| Statistics.DefaultPercentilesInRange | src/qra_system/statistical_analysis.py:94-95 | The default percentiles all lie in [0, 100] |
| Statistics.DefaultPercentileKeys | src/qra_system/statistical_analysis.py:94-97 | Without a request the keys are 5, 10, 25, 50, 75, 90, 95 and 99 |
| Statistics.PercentilesOrdered | src/qra_system/statistical_analysis.py:97 | A smaller key never maps to a larger value |
| Statistics.Positives | src/qra_system/statistical_analysis.py:62 | The filter keeps exactly the positive samples: as many as there are, all positive, drawn from the sample |
| Statistics.PositivesOfPositive | src/qra_system/statistical_analysis.py:62 | A sample of positive times passes the filter unchanged |
| Statistics.FitDistribution | src/qra_system/statistical_analysis.py:46-71 | The dispatch succeeds exactly for "normal", "lognormal" and "weibull"; any other name fails with "Unknown distribution: " followed by the name |
| Statistics.FitDistributionData | src/qra_system/statistical_analysis.py:56-69 | Normal and Weibull are fitted to the whole sample, lognormal only to its positive part |
| Statistics.CalculateAsetRsetComparison | src/qra_system/statistical_analysis.py:148-179 | One margin aset − t per sample; min margin = aset − max RSET; mean margin = aset − mean RSET; success is the share of samples below aset; success + risk = 1, both in [0, 1] |
| Statistics.RiskIsShareNotBelow | src/qra_system/statistical_analysis.py:165-168 | The risk probability is the share of samples at or above aset |
| Statistics.CalculateIndividualRisk | src/qra_system/statistical_analysis.py:209-227 | The individual risk is the share of samples above aset and lies in [0, 1]; the expected fatalities are that share times the population; aset and population are passed through |
| Statistics.ExpectedFatalitiesBounded | src/qra_system/statistical_analysis.py:220-224 | For a non-negative population, the expected fatalities lie between 0 and the population |
| Statistics.IndividualRiskVersusComparison | src/qra_system/statistical_analysis.py:209-227 | The individual risk never exceeds the comparison's risk probability, and they are equal exactly when no sample equals aset |
| Statistics.Linspace | src/qra_system/statistical_analysis.py:193-197 | num evenly spaced values, starting at start and ending at stop when there are at least two |
| Statistics.LinspaceAscending | src/qra_system/statistical_analysis.py:193-197 | For start ≤ stop the values are ascending |
| Statistics.DefaultSweepAscending | src/qra_system/statistical_analysis.py:192-197 | For non-negative times, the default sweep is 100 ascending values from 0.5·min to 1.5·max |
| Statistics.CalculateFntdsCurve | src/qra_system/statistical_analysis.py:181-207 | One risk value per ASET value of the sweep, each the share of samples above it and in [0, 1]; for ascending ASET values the risks do not increase |
| Statistics.ConcatTimesLength | src/qra_system/statistical_analysis.py:241-245 | The pooled sample's length is the sum of the run lengths |
| Statistics.ConcatTimesAppend | src/qra_system/statistical_analysis.py:242-243 | Pooling two lists of runs gives the two pooled samples one after the other, in run order |
| Statistics.TotalLengthUniform | src/qra_system/statistical_analysis.py:241-245 | Runs of n times each pool into runs·n times |
| Statistics.PoolEvacuationTimes | src/qra_system/statistical_analysis.py:241-245 | The loop concatenates the runs' times in run order |
| Statistics.FitDistributions | src/qra_system/statistical_analysis.py:253-258 | The result has exactly the keys normal, lognormal and weibull, each mapped to its successful dispatch |
| Statistics.AnalyzeMultipleSimulations | src/qra_system/statistical_analysis.py:230-267 | The pooled times are the runs' times in order; total_evacuations is their number and the sum of run lengths; num_simulations is the number of runs; the statistics, default percentiles and three fits are computed on the pooled times |

## Left out

General modelling choices:
- The square root comes from the maths library in the source. Here it is a parameter that must
  satisfy `IsSqrtFn` (non-negative, and it squares back to its argument). No concrete square
  root is defined.
- log10 in `_compare_risk_to_criteria` is not modelled as a function. The test
  log10 F > A + B·log10 N is stated as F > 10^A·N^B, which is equivalent because 10^x is strictly
  increasing. `ClassifierLogForm` proves that the two forms agree on powers of ten.
  `generate_fn_curve_data` evaluates 10^(A+B·log10 N) at powers of ten, where this is exact.
- Floating point: the model uses exact reals, not IEEE doubles. Rounding is not modelled. The
  infinities that matter are modelled by `ExtReal`: infinite RSET, a −∞ margin and infinite N.
  For an infinite RSET with zero occupancy, Python's max(1.0, nan) gives 1.0, and the model
  follows that result.
- Randomness and seeding are not modelled. The uniform positions, the normal speeds and the
  lognormal pre-movement times are inputs (`Draw`): one draw per agent, and one list of draws
  per repeated run.
- Persistence (the SQLAlchemy session), the desktop UI, report generation, plotting,
  translation and the command-line entry point are not modelled.
  - The session's `get` and `query` become map lookups on the calculator's fields.
  - `commit` becomes the assignment to the `results` field.
- The HAR/EVAC analysis is looked up by the tunnel id as its own primary key, as the source
  does.
- Building obstacles are not modelled: the source stores them and never reads them.

Operations not modelled:
- `np.std` (the `std` entries of the descriptive statistics and of the run summary) is not
  modelled, because it needs a square root of the variance. The variance is modelled.
- `calculate_confidence_intervals` is not modelled: it is a Student-t interval and a bootstrap
  over random resamples.
- The scipy maximum-likelihood fits and the Kolmogorov–Smirnov test inside `fit_distribution`
  are foreign library numerics and are not modelled. Only the name dispatch and the data
  handed to each fit are modelled (`FitRequest`).
- Because no fit can fail in the model, the `try`/`except` of `analyze_multiple_simulations`
  has no error path to take. So every entry of `FitDistributions` is `Ok`.
- The default argument 'lognormal' of `fit_distribution` is not modelled: every call names its
  distribution.

Preconditions that follow the source's failure points:
- `CalculateFed` requires a non-zero visibility, because 1/visibility raises for zero.
- `CalculateAset` and `QraOutcome` require a non-negative heat release rate, because
  `math.sqrt` raises for a negative one.
- `QraCalculator.RunSimulation` requires a non-negative heat release rate only when both the
  tunnel and the analysis exist. Only then does the source reach `math.sqrt`; a missing record
  returns the error first.
- `CalculateFatalities` takes a tunnel record and not an optional one, because the source
  dereferences the looked-up tunnel without a check.
- `EvacuationSimulation.RunSimulation` requires at least one agent, because `np.max` of an
  empty list raises.
- `EvacuationSimulation.RunSimulation` also requires at least one exit, which is narrower than
  the source. The source reads `building.exits[0]` only once some agent's pre-movement time has
  passed before 600 s. A run in which no agent starts moving ends with every agent censored,
  even without exits; the model does not cover that run.
- `EvacuationSimulation.RunMultipleSimulations` needs agents and exits only when at least one
  run is requested; zero runs return no results for any building.
- The statistics require a non-empty sample.
  - For the descriptive statistics, the ASET/RSET comparison and the default sweep, this is
    where the source raises (`np.min` or `np.max` of an empty array).
  - `calculate_individual_risk`, and `calculate_fntds_curve` with explicit ASET values, do not
    raise on an empty sample: their shares are NaN. The model's reals have no NaN, so the
    model leaves that case out.
- Each percentile must lie in [0, 100], because numpy rejects any other value.
- Percentile keys are reals. A percentile given as an integer (5) and one given as a real
  (5.0) are the same key here, as they are for a Python dictionary.

Other omissions:
- `SimulationResult` does not carry the `'agents'` entry of the source's result dictionary.
  The final agents stay in the simulator's `agents` field instead.
  `EvacuationSimulation.RunSimulation` and `RunMultipleSimulations` state what that field holds
  afterwards: the censored agents of the (last) run.
- Default arguments are not modelled; every call passes its values explicitly. This covers:
  - `create_simple_building` (width 50, height 30, 2 exits);
  - the simulator's `mean_speed` 1.2, `std_speed` 0.3, `mean_pre_movement` 30 and
    `std_pre_movement` 10 (kept as fields; they only shape the random draws, which are inputs);
  - `random_seed`;
  - `calculate_percentiles(None)`, which is modelled as `None`.

Weaker statements:
- `Evacuation.StepAll`: its own contract states only the length. The per-agent relation
  `r[i] == MoveAgentSpec(...)` is carried by its comprehension body, and the lemmas use that
  body.
