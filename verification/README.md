# Deltrel: a verified model

Deltrel is a connection game with a browser application, an analysis service and a
self-play training pipeline. This project models the parts of it whose correctness is
not visible from any single function, in Dafny, and proves what they are for.

What is modelled, and where:

- **Promotion statistics** (`NullExpectation`, `Evidence`, `WeightedTest`,
  `PrefixTest`, `Soundness`, over `Exponentials`): a candidate network is promoted on evidence computed from a fractional
  knapsack over unknown stratum means, a closed form for unfinished severity cycles, and
  bisected one-sided bounds. The knapsack is optimal, the closed form is its special
  case and tight, the bounds do not cross (with weights adding up to at most one), and a
  bound that excludes the truth implies that the underlying mixture has crossed its
  threshold. Over all runs of any plan that may depend on the past, the runs in which a
  test ever rejects the truth weigh at most the error probability.
- **Rating fit** (`Matches`, `Components`, `LinearSystem`, `Inversion`, `Laplacian`,
  `Covariance`, `Likelihood`, `BradleyTerry`, `FitMeaning`, over `RealVectors` and `Paths`): match
  records become a graph, its anchored component a weighted Laplacian, and that is solved
  by elimination with pivoting. Connectivity to the anchor makes every system of a fit
  solvable and every variance of a rating difference positive. What is maximised is the
  records' own log-likelihood, each win at the winner's log-probability. It is
  bounded by a tangent from above and by a parabola from below. So every Newton
  direction, halved enough, strictly raises it; a scale is refused, and the search gives
  up, only at lopsided pairings; and a fit that reports convergence is close to the
  maximum, in proportion to the distance of the other ratings.
- **Board groups** (`GroupPresentation`): union-find with path halving over the board's
  compressed adjacency finds exactly the connected groups.
- **Pause gate** (`PauseGate`, `PauseProgress`), **request admission** (`Admission`,
  `AdmissionProgress`), **model lease** (`ModelLease`), **model registry**
  (`ModelRegistry`): concurrency protocols as state machines. Each block that the code runs
  under its lock, or between two awaits, is one step; the main results hold for every
  interleaving, and say both what may happen at most and what must be reached.
- **Game store** (`Game`, `GameLibrary`, `Store`, `Commands`): the game as a reducer over an action
  log, undo, redo and rewind with forked archives, failing storage, and the loader that
  repairs saved states.
- **Pair allocation** (`Allocation`, `Shares`, `Checks`): plans that only grow, by largest
  remainder nine to one for pie cells, and capped extra cycles.
- **Prediction cache** (`Predictions`), **bitboards** (`Bitboards`), **optimizer
  extension** (`OptimizerExtension`), **publication counters** (`Publication`).

Conventions. Identities, names, keys, hashes and file signatures are integers, since the
code only compares (and sometimes orders) them. Python floats are exact reals, and the
exponential and the logistic function are parameters with the properties that are used:
the logistic function's logarithm is concave with a second derivative of at least -1/4, and
its own is p(1-p); the exponential turns sums into products, lies below its chords and
satisfies Hoeffding's inequality for a score of 0 or 1.
Clocks, randomness, files, the network, callbacks and foreign calls appear as inputs of a
step, so a statement over all runs covers all their answers. Classes carry the fields of
the objects they model; their methods are proved against functions on the field values,
and the theorems are about runs of those functions.

Two statements that one might expect are false of the code, and are replaced by what does
hold, with an input for the failure:

- An early result can leave the archive. Redo takes it off the live game without a new
  identity and overwrites its record, although the comment beside undo says that results
  remain available (`Store.ResultStaysUnlessRedone`, `Store.ResultCanBeLost`). The
  program's screen already guards this: undo and redo are disabled while there is an early
  result (src/components/GameScreen.tsx:1279-1303). In every run that keeps to that, no
  result is lost (`Store.NoResultIsLost`).
- A last change of the policy-first counter alone is never published
  (`Publication.PromptTotals`, `Publication.PolicyFirstCanBeMissed`). The self-play loop
  does not send such a report: it raises that counter only together with the decisions it
  persists (training/deltreltrain/selfplay.py:1178-1185 and 1343-1347). For such reports
  all totals are complete (`Publication.TotalsAreComplete`).

## Model

| member | source | states |
|---|---|---|
| `NullExpectation.CertificateIsMaximum` | training/deltreltrain/balanced_evaluation.py:231-239 | A price that supports a point of the unit box proves that the point's earnings are the maximum over every feasible vector of stratum means |
| `NullExpectation.RatioOrder` | training/deltreltrain/balanced_evaluation.py:251-255 | The order by falling mass per weight is a permutation in which ratios never rise |
| `NullExpectation.GreedyCertificate` | training/deltreltrain/balanced_evaluation.py:249-258 | Filling strata in any order of falling ratio yields a feasible point together with a price that supports it |
| `NullExpectation.NullValueIsMaximum` | training/deltreltrain/balanced_evaluation.py:231-259 | The returned value is at least the expectation under every feasible vector of means, and some feasible vector attains it |
| `NullExpectation.TiesDoNotMatter` | training/deltreltrain/balanced_evaluation.py:251-255 | Any two orders that break ties between ratios differently return the same value |
| `NullExpectation.NullValueMonotone` | training/deltreltrain/balanced_evaluation.py:231-259 | A larger null mean never lowers the value |
| `NullExpectation.NullValueAtOne` | training/deltreltrain/balanced_evaluation.py:231-259 | At null mean 1 the value is at most the sum of all masses and, times what the weights exceed one by, at least that; so with weights adding up to at most one it is that sum |
| `NullExpectation.ComplementaryNulls` | training/deltreltrain/balanced_evaluation.py:291-295 | The values at m and at 1-m add up to at least the total mass, up to the same factor |
| `NullExpectation.MaximumWeightedNullExpectation` | training/deltreltrain/balanced_evaluation.py:240-259 | The loop returns the maximum of the linear program for the valid inputs, and an error for exactly the invalid ones, with the tolerance on the sum of weights that the code has |
| `NullExpectation.InputsAreChecked` | training/deltreltrain/balanced_evaluation.py:240-248 | Inputs are refused for mismatched or missing strata, a mean outside [0,1], a weight that is not positive, a negative mass or a total of weights that is not near one, and for nothing else |
| `NullExpectation.NearOneMeans` | training/deltreltrain/balanced_evaluation.py:246 | Near one means within one part in 1e9, of the total itself when that exceeds one |
| `Evidence.ExceedsMonotone` | training/deltreltrain/balanced_evaluation.py:296-305 | Evidence above its threshold stays above it when the centred score grows |
| `Evidence.ExceedsNeedsExcess` | training/deltreltrain/balanced_evaluation.py:296-305 | Evidence reaches 1/error only for a positive centred score |
| `Evidence.ExponentPeak` | training/deltreltrain/balanced_evaluation.py:296-299 | For information V and centre c every rate's exponent is at most 2c^2/V, and the rate 4c/V attains it |
| `Evidence.GridLosesLittle` | training/deltreltrain/balanced_evaluation.py:36 | Between the grid's ends some rate of it reaches eight ninths of that peak |
| `Evidence.PeakSuffices` | training/deltreltrain/balanced_evaluation.py:296-305 | Evidence is reached as soon as the exponential of eight ninths of the peak is 8/error |
| `Evidence.ShiftIsExact` | training/deltreltrain/balanced_evaluation.py:300-305 | Subtracting the largest exponent and multiplying its exponential back leaves the mixture unchanged, for every function that turns sums into products |
| `Evidence.Bound` | training/deltreltrain/balanced_evaluation.py:320-342 | The endpoint test and 52 bisection steps return a bound whose own side was tested and rejected, within 2^-52 of a mean that was tested and not rejected, or the endpoint |
| `Evidence.MovedBoundIsRejected` | training/deltreltrain/balanced_evaluation.py:335-342 | When the bound moved, the mean at the bound is itself rejected; the contract of the bisection adds every mean beyond it |
| `Evidence.BoundsDoNotCross` | training/deltreltrain/balanced_evaluation.py:343 | If no mean is rejected in both directions, the lower bound lies strictly below the upper one |
| `WeightedTest.Allocation.TestIsClosed` | training/deltreltrain/balanced_evaluation.py:291-295 | Rejection of a mean carries over to every mean further from the data, in both directions |
| `WeightedTest.Allocation.AllocationsAreChecked` | training/deltreltrain/balanced_evaluation.py:282-290 | An allocation is refused for its strata, for a score more than 1e-12 outside of what its masses allow, and for negative information, and for nothing else |
| `WeightedTest.Allocation.TestsAreDisjoint` | training/deltreltrain/balanced_evaluation.py:262-305 | No mean is rejected by the test for greater and by the test for less, unless the weights add up to more than one and the score that this can shift by is by itself evidence enough |
| `WeightedTest.Allocation.SeparatedByWeights` | training/deltreltrain/balanced_evaluation.py:262-305 | That exception needs weights adding up to more than one |
| `WeightedTest.Allocation.CenteredIsDominated` | training/deltreltrain/balanced_evaluation.py:273-278 | The centred score under the composite null is at most the score centred at any vector of stratum means inside that null |
| `WeightedTest.Allocation.CenteredIsAttained` | training/deltreltrain/balanced_evaluation.py:273-278 | And some vector of means inside the null is centred exactly there |
| `WeightedTest.Allocation.ExclusionNeedsTrueEvidence` | training/deltreltrain/balanced_evaluation.py:276-278 | Whenever a bound excludes the true means, the mixture centred at the true means has itself reached 1/error |
| `WeightedTest.WeightedStratumConfidenceSequence` | training/deltreltrain/balanced_evaluation.py:308-343 | The two bounds lie in [0,1], each is the bisected bound of its test, exactly the invalid inputs are refused under the code's tolerances, and outside that exception lower is below upper |
| `PrefixTest.PrefixExpectationIsDot` | training/deltreltrain/balanced_evaluation.py:148-152 | The expected score of a prefix of n pairs is the sum over strata of visits times mean, with q+1 visits for the first r strata and q for the rest |
| `PrefixTest.PrefixBoundIsMaximum` | training/deltreltrain/balanced_evaluation.py:148-153 | q*L*mu + min(r, L*mu) is the knapsack value for weights 1/L and those visit counts, so it bounds the expectation for every vector of means averaging at most mu |
| `PrefixTest.PrefixBoundIsTight` | training/deltreltrain/balanced_evaluation.py:174-176 | Some vector of means in the unit box with average at most mu attains the closed form |
| `PrefixTest.PrefixTestIsWeighted` | training/deltreltrain/balanced_evaluation.py:169-187 | The severity-prefix test equals the weighted test of the corresponding allocation, in both directions |
| `PrefixTest.CycleTestIsWeighted` | training/deltreltrain/balanced_evaluation.py:83-93 | The complete-cycle test equals the weighted test of a single stratum |
| `PrefixTest.PrefixExclusionNeedsTrueEvidence` | training/deltreltrain/balanced_evaluation.py:150-153 | A severity-prefix bound excludes the true severity means only if the mixture centred at them has reached 1/error |
| `PrefixTest.StratifiedPairConfidenceSequence` | training/deltreltrain/balanced_evaluation.py:190-228 | Bounds of the prefix test: ordered, bisected, endpoints without data, and exactly the invalid inputs refused |
| `PrefixTest.CycleConfidenceSequence` | training/deltreltrain/balanced_evaluation.py:96-136 | The same for complete cycles |
| `Soundness.HoeffdingForLaws` | training/deltreltrain/balanced_evaluation.py:63-72 | From the inequality for scores 0 and 1 follows Hoeffding's for every distribution on [0,1] |
| `Soundness.MixtureStep` | training/deltreltrain/balanced_evaluation.py:273-276 | Averaged over the next score, whatever its coefficient and distribution, the mixture centred at the true mean is at most what it was |
| `Soundness.Ville` | training/deltreltrain/balanced_evaluation.py:276-278 | So over any plan that may depend on the past, the runs in which an event that needs evidence ever happens weigh at most error times the mixture |
| `Soundness.TestIsSound` | training/deltreltrain/balanced_evaluation.py:262-305 | The runs of any such plan in which the weighted test ever rejects a mean that the true means comply with weigh at most error |
| `Soundness.ExcludedIsRejected` | training/deltreltrain/balanced_evaluation.py:308-343 | A returned bound that lies beyond a mean is such a rejection |
| `Soundness.AfterIsValid` | training/deltreltrain/balanced_evaluation.py:282-290 | Every allocation that a run reaches is accepted by the test |
| `Soundness.InTurnReaches` | training/deltreltrain/balanced_evaluation.py:148-176 | Taking the severities in turn reaches exactly the allocations of the prefix test |
| `Soundness.CycleTestRejects` | training/deltreltrain/balanced_evaluation.py:63-93 | The complete-cycle test is a rejection of the allocation whose masses are in proportion to the weights |
| `Soundness.CycleTestIsSound` | training/deltreltrain/balanced_evaluation.py:63-93 | The runs in which the complete-cycle test ever rejects a mean that the true means comply with weigh at most error |
| `Matches.ReduceMatches` | training/deltreltrain/autonomous_elo.py:154-168 | The totals hold, for each unordered pairing that met, the wins of each side over the other and the number of records, and the graph joins exactly the identities that met |
| `Matches.OrderAndDirectionDoNotMatter` | training/deltreltrain/autonomous_elo.py:154-168 | Permuting the records and reversing any of them with its counts leaves every pairing's totals unchanged |
| `Matches.GamesConserved` | training/deltreltrain/autonomous_elo.py:294-296 | Over any list of distinct pairings the totals contain each decisive game exactly once |
| `Components.Explore` | training/deltreltrain/autonomous_elo.py:316-325 | The explicit stack terminates and finds exactly the identities reachable from its start |
| `Components.ConnectedComponents` | training/deltreltrain/autonomous_elo.py:307-331 | The list partitions the identities into the maximal connected sets, the anchor's first, the rest by least identity |
| `LinearSystem.KernelVector` | training/deltreltrain/autonomous_elo.py:405-406 | A column without a pivot yields a nonzero vector that every row sends to zero |
| `LinearSystem.LargestPivot` | training/deltreltrain/autonomous_elo.py:401-404 | The chosen row has the entry of largest size, and is the first such row |
| `LinearSystem.ClearColumn` | training/deltreltrain/autonomous_elo.py:411-418 | Clearing a column keeps the set of solutions and of kernel vectors and completes one more column of the identity |
| `LinearSystem.Solve` | training/deltreltrain/autonomous_elo.py:388-419 | A returned vector solves the system and is its only solution; with an exact pivot test a vector is returned for every injective matrix |
| `Inversion.Exchange` | training/deltreltrain/autonomous_elo.py:422-435 | A matrix on one side of a product may be moved to the other as its transpose |
| `Inversion.InverseIsSymmetric` | training/deltreltrain/autonomous_elo.py:430-434 | The inverse of a symmetric matrix is symmetric |
| `Inversion.InverseSolves` | training/deltreltrain/autonomous_elo.py:422-435 | The inverse's product with any vector solves the system for that vector |
| `Inversion.Symmetrise` | training/deltreltrain/autonomous_elo.py:430-434 | The averaging loops replace each pair of mirrored entries by its mean and keep the diagonal |
| `Inversion.Inverse` | training/deltreltrain/autonomous_elo.py:422-435 | For a symmetric matrix the result is its inverse, and with an exact pivot test it exists for every injective matrix |
| `Laplacian.GradientAndInformation` | training/deltreltrain/autonomous_elo.py:342-366 | The accumulation loop computes the sum over pairings of score and of weighted incidence products |
| `Laplacian.BilinearForm` | training/deltreltrain/autonomous_elo.py:342-366 | The information matrix's product of two displacements is the sum of weight times both differences of ratings, with the anchor at zero |
| `Laplacian.QuadraticForm` | training/deltreltrain/autonomous_elo.py:342-366 | The information matrix's quadratic form is the sum of weight times squared difference of ratings, with the anchor at zero |
| `Laplacian.ZeroEnergyIsFlat` | training/deltreltrain/autonomous_elo.py:342-366 | With positive weights a displacement without energy is zero at everything connected to the anchor |
| `Laplacian.AnchoredInformationIsInjective` | training/deltreltrain/autonomous_elo.py:173-182 | On the anchor's component the information matrix sends only zero to zero, so elimination always completes |
| `Laplacian.GradientForm` | training/deltreltrain/autonomous_elo.py:342-366 | The gradient's product with a displacement is the sum over pairings of score times change of difference |
| `Laplacian.NewtonAscends` | training/deltreltrain/autonomous_elo.py:217 | Along a solution of the Newton system the slope of the log-likelihood, each score times its change of difference, is the solution's energy |
| `Laplacian.SlopeIsPositive` | training/deltreltrain/autonomous_elo.py:217 | That slope is positive unless the gradient vanishes |
| `Likelihood.PairTangent` | training/deltreltrain/autonomous_elo.py:369-385 | A pairing's log-likelihood lies below its tangent, whose slope is the score that the gradient accumulates |
| `Likelihood.TangentBound` | training/deltreltrain/autonomous_elo.py:369-385 | The log-likelihood of any other ratings lies below the tangent that the gradient spans |
| `Likelihood.InformationIsRate` | training/deltreltrain/autonomous_elo.py:342-366 | Between any two ratings the slopes differ by the information's product of the displacement, up to a term that is cubic in the gaps |
| `Likelihood.PairParabola` | training/deltreltrain/autonomous_elo.py:369-385 | It lies above a parabola with that slope, which drops by an eighth of the games times the squared change of difference |
| `Likelihood.ParabolaBound` | training/deltreltrain/autonomous_elo.py:369-385 | The log-likelihood of any other ratings lies above the parabola with the gradient's slope and the sum of those drops |
| `Likelihood.NewtonGain` | training/deltreltrain/autonomous_elo.py:217-225 | A multiple s of the Newton step gains at least s times its energy less an eighth of s squared times its spread, the games times squared gaps |
| `Likelihood.ContestedGain` | training/deltreltrain/autonomous_elo.py:217-230 | It loses nothing when every pairing's two probabilities have a product of at least s/8 |
| `Likelihood.SmallStepIsNearlyOptimal` | training/deltreltrain/autonomous_elo.py:234-236 | Where a multiple of the Newton step is small no other ratings have a much higher log-likelihood, in proportion to their distance and to how far the step was scaled down |
| `Likelihood.Evaluate` | training/deltreltrain/autonomous_elo.py:369-385 | The loop with its two branches and shared normalizer computes the sum of the pairings' log-likelihoods |
| `Likelihood.ProbabilityIsLogistic` | training/deltreltrain/autonomous_elo.py:334-339 | Both branches of the probability are 1/(1+exp(-d)), strictly between 0 and 1, and the two sides add up to one |
| `Likelihood.NormalizedIsLogProbability` | training/deltreltrain/autonomous_elo.py:369-385 | With log(1+exp(-t)) as its normalizer the log-probability is the logarithm of that probability, on both branches |
| `Covariance.ContrastVarianceIsEnergy` | training/deltreltrain/autonomous_elo.py:86-110 | The variance computed for a difference of ratings is the energy of the displacement that the contrast causes |
| `Covariance.ContrastVarianceIsPositive` | training/deltreltrain/autonomous_elo.py:86-110 | It is positive for two different identities, so the guard against negative variances never acts |
| `BradleyTerry.Pose` | training/deltreltrain/autonomous_elo.py:125-202 | Setting up succeeds exactly for a positive correction and an anchor that some record mentions, and yields the connected groups of all mentioned identities, the anchor's first, its pairings raw and corrected, and a gapless numbering |
| `BradleyTerry.PairingsConnect` | training/deltreltrain/autonomous_elo.py:173-182 | Whatever the records connect to the anchor, the fit's own pairings connect to it |
| `BradleyTerry.AdjustedIsBalanced` | training/deltreltrain/autonomous_elo.py:195-202 | The continuity correction leaves both sides with wins and their difference unchanged, and touches one-sided pairings only |
| `BradleyTerry.InformationIsInjective` | training/deltreltrain/autonomous_elo.py:208-243 | Every matrix that a fit solves or inverts is injective, at all ratings |
| `BradleyTerry.LineSearch` | training/deltreltrain/autonomous_elo.py:218-230 | The first of the 41 scales at which the evaluated log-likelihood does not fall by more than the slack, or none |
| `BradleyTerry.Move` | training/deltreltrain/autonomous_elo.py:208-233 | One pass stops exactly where the gradient is small, and otherwise takes the solution of the Newton system at the first acceptable scale, or finds no acceptable scale |
| `BradleyTerry.StepMovesDifference` | training/deltreltrain/autonomous_elo.py:219-225 | A step moves the difference of any two ratings by the accepted scale times the solution's difference |
| `BradleyTerry.StepAscends` | training/deltreltrain/autonomous_elo.py:217-230 | The Newton direction is uphill: unless the gradient vanishes its slope is positive and, from some halving on, every multiple of it strictly raises the log-likelihood |
| `BradleyTerry.RefusedIsLopsided` | training/deltreltrain/autonomous_elo.py:220-230 | The scale 2^-j is refused only if some pairing's two probabilities have a product below 2^-(j+3) |
| `BradleyTerry.HalvedStepIsLopsided` | training/deltreltrain/autonomous_elo.py:220-230 | A step halved k times started from a pairing with a product below 2^-(k+2), and with all products at least 1/8 the full step is taken and the log-likelihood does not fall at all |
| `BradleyTerry.StuckIsLopsided` | training/deltreltrain/autonomous_elo.py:231-233 | The search gives up only at ratings where some pairing's product is below 2^-43 |
| `BradleyTerry.SmallGradientIsNearlyBest` | training/deltreltrain/autonomous_elo.py:213-216 | Ratings at which the stopping test on the gradient holds are within the bound times the distance of the best log-likelihood, and at a zero gradient they are the maximum |
| `BradleyTerry.SmallStepIsNearlyBest` | training/deltreltrain/autonomous_elo.py:234-236 | After a last step that passes the stopping test every other log-likelihood is bounded too, by the slack and a multiple of the distance that doubles with each halving of that step |
| `BradleyTerry.ConvergedIsNearlyBest` | training/deltreltrain/autonomous_elo.py:204-236 | A fit that reports convergence satisfies one of these two bounds against all other ratings with the same anchor |
| `BradleyTerry.RunKeepsLikelihood` | training/deltreltrain/autonomous_elo.py:218-230 | Over any number of steps the log-likelihood falls by at most one slack per step and the anchor stays at zero |
| `BradleyTerry.StopsExactly` | training/deltreltrain/autonomous_elo.py:213-216 | The gradient test stops exactly where no entry is further than 1e-11 from zero |
| `BradleyTerry.Climb` | training/deltreltrain/autonomous_elo.py:204-236 | The loop ends at rest, after its first small step, with no acceptable scale, or after 200 steps, with the convergence and the count of iterations that go with each; every step starts where the gradient is not small; with an exact pivot test no step ever fails |
| `BradleyTerry.VariancesArePositive` | training/deltreltrain/autonomous_elo.py:243-259 | Any two identities of a fitted component have a positive variance of their difference |
| `BradleyTerry.FitBradleyTerryElo` | training/deltreltrain/autonomous_elo.py:125-304 | With an exact pivot test the fit succeeds exactly for a positive correction and a mentioned anchor; its ratings come from the climb of the log-likelihood, its covariance is the inverse of the raw information, its components are the connected groups and its game count is that of the anchor's records |
| `FitMeaning.ObjectiveOfRecords` | training/deltreltrain/autonomous_elo.py:154-202 | At all ratings the objective is, over the component's records, the wins at the candidate's log-probability and the losses at the baseline's, plus the correction once for each side of each one-sided pairing; the raw pairings leave the correction out |
| `FitMeaning.ScoreEquation` | training/deltreltrain/autonomous_elo.py:342-366 | An identity's entry of the gradient is its wins over all opponents, with the corrections, less what its ratings expect of that many games |
| `FitMeaning.MoreWinsRateHigher` | training/deltreltrain/autonomous_elo.py:125-141 | In a fit of two identities with a zero gradient the one that won more is rated higher |
| `GroupPresentation.Find` | src/components/DeltrelBoard.tsx:60-67 | Path halving terminates, returns the tree's root, and leaves every tree's root as it was |
| `GroupPresentation.HalvedPointsTwice` | src/components/DeltrelBoard.tsx:60-67 | After path halving the node points to its former grandparent, and nothing below it has moved |
| `GroupPresentation.Halved` | src/components/DeltrelBoard.tsx:62-65 | Lifting one pointer to its grandparent keeps the forest and strictly climbs |
| `GroupPresentation.Union` | src/components/DeltrelBoard.tsx:69-79 | Joining along one channel keeps every stone connected to its root and records the channel |
| `GroupPresentation.JoinedIsGrouped` | src/components/DeltrelBoard.tsx:69-79 | After the scan two stones share a root exactly when a path of adjacent stones of their colour joins them |
| `GroupPresentation.SizeIsCardinality` | src/components/DeltrelBoard.tsx:81-88 | A root's count is the number of stones connected to it |
| `GroupPresentation.SizesCountStones` | src/components/DeltrelBoard.tsx:81-88 | The group sizes add up to the number of stones |
| `GroupPresentation.BuildGroups` | src/components/DeltrelBoard.tsx:55-88 | Group numbers and sizes of every board and every arrangement of stones, with -1 on empty nodes |
| `GroupPresentation.DrawnAre` | src/components/DeltrelBoard.tsx:94-100 | The scan draws exactly the channels between adjacent stones of one playing colour, lesser node first |
| `GroupPresentation.DrawnOnce` | src/components/DeltrelBoard.tsx:101-104 | Each drawn channel is in exactly one of the plain and synthetic lists of the two colours, as often as it was drawn |
| `GroupPresentation.ListsByMarks` | src/components/DeltrelBoard.tsx:101-111 | A drawn channel of a colour is synthetic if one of its ends is marked so, otherwise plain, and the plain ones between two ends marked alive are the network's |
| `GroupPresentation.GroupListIsInside` | src/components/DeltrelBoard.tsx:112 | A group's list holds exactly the drawn channels with both ends in the group |
| `GroupPresentation.ClassifyChannels` | src/components/DeltrelBoard.tsx:90-114 | The lists are the drawn channels picked by colour, synthetic mark, aliveness and group, in scan order |
| `GroupPresentation.BuildGroupPresentation` | src/components/DeltrelBoard.tsx:49-127 | Groups, sizes and lists together |
| `PauseGate.ActorPauseGate.PollOnce` | training/deltreltrain/actor_pause.py:188-274 | A poll moves the gate and reports as the state machine says |
| `PauseGate.ActorPauseGate.Checkpoint` | training/deltreltrain/actor_pause.py:158-177 | A pass of the wait loop moves the gate as the state machine says |
| `PauseGate.StepKeepsInv` | training/deltreltrain/actor_pause.py:158-326 | Every step keeps: parked cohorts are live and waiting, a lease is never held and released at once, parked cohorts imply a lease, a release or closing, and a synchronized gate has every live cohort parked |
| `PauseGate.ReadyIsSafe` | training/deltreltrain/actor_pause.py:232-274 | In every run, a poll that reports ready holds the reported lease, every live cohort is inside its wait, inference was idle, and synchronize ran after the last change of the parked set and after adoption |
| `PauseGate.NoCohortEscapes` | training/deltreltrain/actor_pause.py:158-177 | Until its own stop, a close, or a poll that sees stop or an acknowledgement that ends this lease, a cohort parked under the lease stays parked and the lease stays, whatever happens to the request file and to other cohorts |
| `PauseGate.EscapeHasCause` | training/deltreltrain/actor_pause.py:220-231 | For a cohort that did leave, one event of the run is of those kinds, and up to it the cohort was parked under the held lease |
| `PauseGate.AdoptionIsClean` | training/deltreltrain/actor_pause.py:202-219 | A lease is adopted only with nobody parked, nothing held or being released, from a live request and a matching waiting acknowledgement |
| `PauseGate.ResumedAfterUnparking` | training/deltreltrain/actor_pause.py:195-206 | A token is published as resumed only by a poll that finds nobody parked: the token being released or one never adopted |
| `PauseGate.LeasesDoNotTouch` | training/deltreltrain/actor_pause.py:195-219 | Between two different leases of a run lies a moment with nobody parked and nothing held |
| `PauseGate.ReleaseCompletes` | training/deltreltrain/actor_pause.py:158-177 | While a lease is being released nobody parks anew and everyone who wakes leaves |
| `PauseGate.PollAfterRelease` | training/deltreltrain/actor_pause.py:195-201 | The first poll after every parked cohort has woken publishes the token; an earlier one does not |
| `PauseGate.ClosedStaysClosed` | training/deltreltrain/actor_pause.py:320-326 | After closing no lease is adopted, no poll reports ready, and every wake-up leaves |
| `PauseProgress.AdoptsExactly` | training/deltreltrain/actor_pause.py:97-133 | A poll of an open gate adopts exactly the lease of a live request for this worker that a matching acknowledgement awaits, field by field |
| `PauseProgress.EndsExactly` | training/deltreltrain/actor_pause.py:220-231 | A poll that holds a lease starts its release exactly for a matching acknowledgement that says released, recovered or draining |
| `PauseProgress.ConfirmsExactly` | training/deltreltrain/actor_pause.py:134-157 | A cancellation of a lease that was never adopted is confirmed exactly when it is recent and matches |
| `PauseProgress.ReadyWhenParked` | training/deltreltrain/actor_pause.py:232-274 | With every live cohort parked, inference idle, no stop and no ending acknowledgement, a poll reports ready for the lease it holds |
| `PauseProgress.CohortsPark` | training/deltreltrain/actor_pause.py:158-187 | Under a lease each live cohort that comes to its checkpoint stays parked, and each that finishes is no longer live |
| `PauseProgress.PauseIsReached` | training/deltreltrain/actor_pause.py:158-274 | So once every live cohort has come by or finished, with one left, the next idle poll reports ready |
| `PauseProgress.ReleaseIsReached` | training/deltreltrain/actor_pause.py:195-231 | After the poll that reads the ending acknowledgement, once each parked cohort has woken, nobody waits and the next poll publishes the token |
| `PauseProgress.MissingAreNamed` | training/deltreltrain/actor_pause.py:232-274 | Until then a poll names the lease and the missing cohorts, and reports ready exactly when all are parked, inference is idle and there is no stop |
| `PauseProgress.SynchronizesExactly` | training/deltreltrain/actor_pause.py:232-239 | Synchronize runs in exactly the polls that find everyone parked and idle for the first time since somebody moved |
| `PauseProgress.OpenReports` | training/deltreltrain/actor_pause.py:188-219 | A gate starts open, and a poll without a lease reports nothing but the token resumed last |
| `PauseProgress.StopFrees` | training/deltreltrain/actor_pause.py:188-194 | A stop frees the cohort that sees it, and a poll that sees it closes the gate |
| `Game.LegalLogInv` | src/lib/deltrel/game.ts:144-216 | Every legal log keeps the stone count, the turn, the stones left in the turn and the swap's preconditions consistent with the number of actions |
| `Game.LegalGames` | src/lib/deltrel/game.ts:144-216 | No action of a legal log is repeated: each node is placed at most once, exactly the placed nodes are occupied, and a swap is only ever the second action; the game is over exactly when the board is full, and until then some action is legal |
| `Commands.PositionByLog` | src/lib/deltrel/game.ts:144-216 | The log alone says which nodes are empty, that the game is over exactly when every node is placed, and that a swap is open exactly after the first action of a pie game |
| `Game.SwapExchangesColours` | src/lib/deltrel/game.ts:198-214 | After the pie swap the position is the one before with colours exchanged, and the opener moves with a full turn |
| `Game.ReplayLog` | src/lib/deltrel/game.ts:218-223 | Replaying in a loop computes the reducer's fold and fails exactly on an illegal log |
| `GameLibrary.RetryKeepsView` | src/lib/game-library.ts:128-149 | Whatever writes fail, what the library offers is unchanged by a retry, and with all writes succeeding nothing stays pending |
| `GameLibrary.SaveUpdatesView` | src/lib/game-library.ts:151-163 | Saving a valid record replaces it in what the library offers, and an invalid one changes nothing |
| `GameLibrary.Library.RetrySaves` | src/lib/game-library.ts:128-149 | The retry loop over pending records, reporting success exactly when nothing is left pending |
| `GameLibrary.Library.Save` | src/lib/game-library.ts:151-163 | A save updates the list, and reports success only when storage holds all of it |
| `GameLibrary.Library.Refresh` | src/lib/game-library.ts:74-108 | A scan lists every readable entry overlaid by what is pending and counts the damaged ones; without storage the list stays and the error says so |
| `GameLibrary.ErrorCounts` | src/lib/game-library.ts:78-106 | The reading error counts exactly the entries that cannot be read, and there is none exactly when all can |
| `GameLibrary.Library.Delete` | src/lib/game-library.ts:165-183 | A deletion drops the record from storage, list and pending records, or changes none of them when storage keeps it |
| `Store.GameStore.Set` | src/lib/store.ts:535-569 | The wrapper forks on a conflict, archives the state left behind and then the new state |
| `Store.UpdateKeepsInv` | src/lib/store.ts:600-802 | Every command keeps a legal completed history, a result that the position proves, and an acknowledgement whose position is clinched |
| `Store.StepKeepsLines` | src/lib/store.ts:535-569 | Every step archives the new live state, keeps the redo line archived under another identity, and keeps every archived line |
| `Store.NoLineIsLost` | src/lib/store.ts:622-711 | In every run, however many writes fail, each log that was ever live is at the end a prefix of some offered record's log under the same rules |
| `Store.RewindIsUndos` | src/lib/store.ts:667-682 | Rewinding to a ply leaves the same live state and the same offered records as undoing one action at a time |
| `Store.RedoAfterUndo` | src/lib/store.ts:641-666 | Redo after undo restores the log, the redo stack, the acknowledgement and the rules |
| `Store.UndoAfterAct` | src/lib/store.ts:622-654 | Undo after a move takes back exactly that move and offers it for redo |
| `Store.EarlyResults` | src/lib/store.ts:755-802 | In any run from any valid state an early result at the end is one the position proves, and it was given by the loser's resignation of this very log or by claiming a clinch that this very log guarantees, and has stood since, unless the run began with it and never touched it |
| `Store.LoadedResults` | src/lib/store.ts:414-506 | The same holds in every run that starts from a loaded state, whatever was saved: an untouched result is the saved one, and proven |
| `Store.NoResultIsLost` | src/lib/store.ts:535-569 | In every run that never redoes over a result, an early result that was ever live is at the end held by some offered record |
| `Store.ResultStaysUnlessRedone` | src/lib/store.ts:655-666 | For one command, exactly: the live early result stays archived unless the command is an effective redo and no other record holds it |
| `Store.ResignThenRedo` | src/lib/store.ts:655-666 | In any clean world with moves to redo and nothing finished, resigning and then redoing leaves no record of the resignation |
| `Store.ResultCanBeLost` | src/lib/store.ts:622-666 | A run from the empty store that does so: start, place, undo, resign, redo |
| `Store.SanitizedIsValid` | src/lib/store.ts:414-506 | Loading any saved state yields one that satisfies the invariant |
| `Store.LoadedUnchangedIffValid` | src/lib/store.ts:414-506 | Loading leaves a state unchanged exactly when it satisfies the invariant |
| `Store.ReachableLoadsUnchanged` | src/lib/store.ts:414-506 | Every reachable state loads back as it was saved |
| `Store.WorkingStorageHoldsAll` | src/lib/game-library.ts:128-163 | With storage that keeps every write, nothing is pending after a step and storage holds all that is offered |
| `Commands.ClaimEndsGame` | src/lib/store.ts:764-789 | Claiming a win that the position guarantees ends the game with a clinch that counts the nodes without a stone, and archives it; any other claim changes nothing |
| `Commands.ResigningEndsGame` | src/lib/store.ts:789-802 | Resigning an unfinished game ends it with the other player's win, and archives it; otherwise nothing changes |
| `Commands.AcknowledgingNotes` | src/lib/store.ts:741-763 | Acknowledging a guaranteed win notes it at this log and goes on; otherwise nothing changes |
| `Commands.ActionsArePlayed` | src/lib/store.ts:622-640 | Exactly the legal actions of an unfinished game are played, and what could be redone is dropped |
| `Commands.UndoTakesBack` | src/lib/store.ts:641-654 | Undo takes back the last action and any result, under the new identity where there was nothing to redo or a result |
| `Commands.RedoPlaysAgain` | src/lib/store.ts:655-666 | Redo plays the action undone last, under the same identity |
| `Commands.NewGamesStart` | src/lib/store.ts:600-621 | Exactly the supported rules start a game, empty and under the new identity, with a handicap only on the largest board without a swap |
| `Commands.PlayersChange` | src/lib/store.ts:714-728 | A change of players is noted in the live state and in its record |
| `Commands.RecordsAreChecked` | src/lib/deltrel/game-record.ts:128-213 | The strict validation lets through exactly the records with supported rules, a legal log and a result that the log bears out |
| `Commands.SetupLeavesRecords` | src/lib/store.ts:697-709 | Going back to the setup leaves every record |
| `Commands.OtherTabIsKept` | src/lib/store.ts:548-569 | A step that finds another tab's continuation under the live identity leaves it as it is and keeps this tab's line under another |
| `Admission.Application.Reserve` | training/deltrelserve/app.py:563-582 | A request is refused while stopping or at the bound, and otherwise takes a place in the queue |
| `Admission.AdmissionTicket.Release` | training/deltrelserve/app.py:531-535 | A release gives back the slot and the request's place, once |
| `Admission.AdmissionTicket.Start` | training/deltrelserve/app.py:729-756 | Starting submits the job, or releases at once when stopping, late or refused |
| `Admission.StepKeepsInv` | training/deltrelserve/app.py:521-797 | Every step keeps the counters equal to the live, queued and slot-holding requests |
| `Admission.SlotsAreConserved` | training/deltrelserve/app.py:563-636 | At every moment of every run free and held slots make up the concurrency limit, live requests stay within their bound, and no more jobs run than slots exist |
| `Admission.AdmissionReleasesOnce` | training/deltrelserve/app.py:521-560 | From its admission on a request is served unreleased or finished with exactly one release |
| `Admission.SlotOutlivesClient` | training/deltrelserve/app.py:758-766 | A submitted request keeps its slot until its native worker returns, whatever client, deadline and response do |
| `Admission.NoJobAfterStop` | training/deltrelserve/app.py:182-190 | After the shutdown snapshot no job is submitted |
| `Admission.ShutDownIsQuiet` | training/deltrelserve/app.py:182-193 | The service is shut down only with no job running, every remaining job has been cancelled, and the drain waits for nothing else |
| `AdmissionProgress.ArrivalsAreAccepted` | training/deltrelserve/app.py:563-582 | An arrival is accepted exactly when the service runs and fewer requests are live than slots and queue places |
| `AdmissionProgress.RequestsAreServed` | training/deltrelserve/app.py:563-760 | A request for which there is room and that nothing disturbs runs a job that is not cancelled, and leaves the service as it was with one release |
| `AdmissionProgress.NewServiceServes` | training/deltrelserve/app.py:563-760 | A new service is open with every slot free, and serves its first request |
| `AdmissionProgress.VainRequestsLeave` | training/deltrelserve/app.py:583-636 | A request that waits in vain gives back its place, and the slot it may have got in the same moment |
| `AdmissionProgress.LateIsReleased` | training/deltrelserve/app.py:729-756 | An admission that is late, or finds the service stopping or refusing, gives its slot back at once; any other becomes a job |
| `AdmissionProgress.AbandoningCancels` | training/deltrelserve/app.py:775-790 | A client that goes away has its job cancelled, and nothing else changed |
| `AdmissionProgress.StopCancelsAll` | training/deltrelserve/app.py:182-187 | The stop marks the service as stopping and cancels exactly the jobs of its snapshot |
| `AdmissionProgress.DrainEnds` | training/deltrelserve/app.py:182-193 | Once each running worker has returned after the stop, the service can be shut down and then is |
| `ModelLease.AtomicModelManager.Enter` | training/deltrelserve/runtime.py:167-179 | The first block of a lease: fail when closed, load when idle, otherwise share the current model |
| `ModelLease.AtomicModelManager.FinishLoad` | training/deltrelserve/runtime.py:181-224 | The second block: swap in a loaded candidate, keep the current model otherwise, and lease it |
| `ModelLease.StepKeepsInv` | training/deltrelserve/runtime.py:161-259 | Every step keeps each loaded model in exactly one place: current, about to be closed by one thread, or closed once |
| `ModelLease.LeasesAreSafe` | training/deltrelserve/runtime.py:161-237 | In every run all leases hold the one current model, which nobody has closed or will close, no model is closed twice, and a load excludes leases |
| `ModelLease.FailedPublicationKeepsModel` | training/deltrelserve/runtime.py:202-222 | A refresh that yields no model keeps the current one and still leases it |
| `ModelLease.GoodPublicationIsServed` | training/deltrelserve/runtime.py:185-222 | A readable champion that loads is what the lease holds, unless its signature was unchanged |
| `ModelLease.RefreshRemembers` | training/deltrelserve/runtime.py:185-213 | A usable publication's pointer is remembered; any other is not, and is reported as failing until a model loads |
| `ModelLease.LoadedOnce` | training/deltrelserve/runtime.py:185-203 | While the pointer is unchanged the next refresh keeps the model, even if reading the publication would fail |
| `ModelLease.FailedIsRetried` | training/deltrelserve/runtime.py:185-213 | A publication that failed is tried again under the same pointer, and served once it loads |
| `ModelLease.FirstLeaseLoads` | training/deltrelserve/runtime.py:161-224 | A new manager is open, and its first lease loads what is published |
| `ModelLease.ClosedForGood` | training/deltrelserve/runtime.py:249-259 | Once a close has drained the manager no lease or load ever follows, and every model loaded before has been closed once or is being closed |
| `ModelRegistry.SharedModelRegistry.TryAcquire` | training/deltreltrain/actor.py:112-170 | One pass of acquire: pin, insert, evict and insert, fail to load, or wait |
| `ModelRegistry.SharedModelRegistry.Unpin` | training/deltreltrain/actor.py:172-178 | A release takes one pin, and is an error for an absent or unpinned model |
| `ModelRegistry.SharedModelRegistry.Close` | training/deltreltrain/actor.py:180-187 | Closing is refused while anything is pinned, and otherwise closes every model |
| `ModelRegistry.RegistryIsSafe` | training/deltreltrain/actor.py:101-187 | In every run the table is within its bound, each pin count is acquires minus releases, every held model is open, and the open models are those in the table |
| `ModelRegistry.EvictsOldestUnheld` | training/deltreltrain/actor.py:115-128 | Eviction takes the unheld model acquired longest ago; waiting happens exactly when the table is full of held models and lacks the key |
| `ModelRegistry.AcquireServes` | training/deltreltrain/actor.py:112-170 | An acquire hands out the model that is in the table, or loads and hands out a missing one where there is room or somebody to evict; otherwise, or when loading fails, nothing more is held |
| `ModelRegistry.CloseNeedsNoHolds` | training/deltreltrain/actor.py:180-187 | Closing succeeds exactly when nothing is held, and leaves every model closed |
| `Allocation.LeftoverFits` | training/deltreltrain/adaptive_promotion.py:191-200 | What the floors of the quotas leave over is between zero and the number of fractional quotas |
| `Allocation.TailCounts` | training/deltreltrain/adaptive_promotion.py:191-200 | The counts add up to the smaller of budget and total weight, each is the floor or ceiling of its quota and at most its weight, and larger remainders are raised first |
| `Shares.FullTailCounts` | training/deltreltrain/adaptive_promotion.py:191-200 | With the budget for it every pie cell gets nine pairs and every handicap cell one |
| `Shares.TailIsProportional` | training/deltreltrain/adaptive_promotion.py:191-200 | Below that every cell's count is its exact share rounded, the largest fractions upwards and ties by name |
| `Shares.PieComesFirst` | training/deltreltrain/adaptive_promotion.py:191-200 | At no budget does a pie cell get fewer pairs of the tail than a handicap cell |
| `Allocation.BestIsBest` | training/deltreltrain/adaptive_promotion.py:167-177 | The checked cell is eligible, no eligible cell is preferred to it, and there is one whenever some cell is eligible |
| `Checks.ChecksExactly` | training/deltreltrain/adaptive_promotion.py:95-180 | A cell is checked exactly when a whole cycle fits into the pairs left and into half of the budget and some handicap cell may be regressing or, outside a review, could decide the promotion at no worse a price than pie; regressions come first, then utility, then name |
| `Checks.PlansAreBounded` | training/deltreltrain/adaptive_promotion.py:203-257 | In every plan of a chain the checked cycles are at most half of the budget and every cell has its minimum and its first cycle |
| `Checks.StoredTargetsAreChecked` | training/deltreltrain/adaptive_promotion.py:73-84 | A stored plan is refused for wrong cells, a negative target or more pairs than the budget, and for nothing else |
| `Allocation.NextAllocation` | training/deltreltrain/adaptive_promotion.py:203-257 | The initial plan, an extension of a valid plan, an error for an invalid one; nothing exactly when the budget is spent or a review finds no cell to check |
| `Checks.PhaseSaysSo` | training/deltreltrain/adaptive_promotion.py:252-257 | The phase says whether a plan came from a review |
| `Shares.FullContinuation` | training/deltreltrain/adaptive_promotion.py:219-257 | An ordinary continuation with the budget for a full tail adds exactly nine pairs to each pie cell and one to each handicap cell, besides the checked cell's cycle |
| `Allocation.ExtensionIsGood` | training/deltreltrain/adaptive_promotion.py:219-257 | An extension lowers no target, raises the total, adds extra pairs in whole cycles of one handicap cell within their cap, and keeps the budget |
| `Allocation.ChainIsGood` | training/deltreltrain/adaptive_promotion.py:203-257 | Every plan produced from the initial one covers every cell, keeps budget and cap, and the k-th has at least k pairs more than the first |
| `Allocation.ChainIsMonotone` | training/deltreltrain/adaptive_promotion.py:203-257 | Along a chain of plans no target ever falls |
| `Allocation.ChainIsBounded` | training/deltreltrain/adaptive_promotion.py:203-257 | No chain of plans is longer than the budget allows |
| `Allocation.ContinuationsProgress` | training/deltreltrain/adaptive_promotion.py:203-257 | After k ordinary continuations the budget is spent or at least k tails of full weight have been added |
| `Allocation.ContinueToBudget` | training/deltreltrain/adaptive_promotion.py:203-257 | Repeated ordinary continuations end, whatever the summaries say, and they end exactly at the budget |
| `Shares.ContinuationsShare` | training/deltreltrain/adaptive_promotion.py:203-257 | After k such continuations every pie cell has exactly 9k pairs more, and every handicap cell k besides its checked cycles |
| `Shares.PieShare` | training/deltreltrain/adaptive_promotion.py:203-257 | Together k full tails are placed besides the checked cycles, and with as many pie as handicap cells nine tenths of them on pie cells |
| `Allocation.CellPairPrefix` | training/deltreltrain/adaptive_promotion.py:49-61 | The counting loop finds the length of the unbroken run of pair indices from zero |
| `Allocation.ContiguousPrefix` | training/deltreltrain/balanced_evaluation.py:523-527 | The scan of sorted indices finds that same length |
| `Allocation.CompletePlanIsAccepted` | training/deltreltrain/balanced_evaluation.py:844-860 | A plan of a chain that the planner's count finds complete always passes the validation of completed targets, which uses the summary's count |
| `Checks.ShortPlansAreIncomplete` | training/deltreltrain/adaptive_promotion.py:64-70 | A plan is incomplete exactly when some cell's unbroken pairs fall short of its target |
| `Checks.ClaimedTargetsAreChecked` | training/deltreltrain/balanced_evaluation.py:844-860 | The summary refuses targets for wrong cells, negative, unproven or partly covered ones and more than the budget, and for nothing else |
| `Predictions.ByRecencyIsDistinct` | src/workers/deltrel-ai.worker.ts:242-266 | The recency order of a history lists each used key once |
| `Predictions.TouchKeepsTail` | src/workers/deltrel-ai.worker.ts:251-266 | Moving a key to the end and cutting to capacity keeps the most recently used keys, whatever was cut earlier |
| `Predictions.PredictionCache.Get` | src/workers/deltrel-ai.worker.ts:251-257 | A hit returns the stored evaluation and makes the key the most recent use; a miss changes nothing |
| `Predictions.PredictionCache.Set` | src/workers/deltrel-ai.worker.ts:259-265 | The key becomes the most recent use with the given value, and the oldest key goes when there are too many |
| `Predictions.GotIsRecent` | src/workers/deltrel-ai.worker.ts:251-257 | A cache that holds the most recently used keys up to its capacity still does after a hit |
| `Predictions.StoredIsRecent` | src/workers/deltrel-ai.worker.ts:259-265 | And after a store, which keeps every other value that remains |
| `Predictions.MissingAreDistinct` | src/workers/deltrel-ai.worker.ts:891-899 | The rows to evaluate are the distinct keys the cache lacks |
| `Predictions.Lookup` | src/workers/deltrel-ai.worker.ts:891-899 | The first half of a batch takes each distinct key the cache holds once, in order, and lists the others once each |
| `Predictions.Publish` | src/workers/deltrel-ai.worker.ts:900-912 | The second half stores the network's answers in order, into whatever the cache has become |
| `Predictions.EvaluateBatch` | src/workers/deltrel-ai.worker.ts:885-917 | A batch on its own answers each row as evaluating it alone would, asks for each distinct missing key once, and leaves cached values alone when it fails |
| `Predictions.BatchesAreAnswered` | src/workers/deltrel-ai.worker.ts:885-917 | In every interleaving of batches at the wait for the network, the cache holds only correct predictions of the most recently used keys up to its capacity, every answered batch has each row's own evaluation, and exactly the batches that do not fit are rejected |
| `Predictions.OnlyBadBatchesAreRejected` | src/workers/deltrel-ai.worker.ts:885-889 | A batch is rejected exactly for more than 64 rows or for rows of two boards; any other is answered or waits |
| `Predictions.WaitingBatchesEnd` | src/workers/deltrel-ai.worker.ts:900-917 | A waiting batch is answered when the network returns; when it fails the cache stays as it is |
| `Bitboards.PackStones` | training/deltrelserve/runtime.py:955-960 | The words hold exactly the nodes with the player's stone, and no bit off the board |
| `Bitboards.PackNodes` | training/deltrelserve/runtime.py:963-969 | The words hold exactly the listed nodes; a node off the board is an error |
| `Bitboards.NodesFromBits` | src/workers/deltrel-ai.worker.ts:562-576 | The ascending nodes of a bitboard, failing exactly when some bit lies off the board |
| `Bitboards.StonesFromWasm` | src/workers/deltrel-ai.worker.ts:578-590 | Each node's stone, failing exactly on bits off the board or a node of both players |
| `Bitboards.StonesRoundTrip` | training/deltrelserve/runtime.py:955-960 | Packed stones are read back unchanged and without error |
| `Bitboards.NodesRoundTrip` | training/deltrelserve/runtime.py:963-969 | Packed nodes are read back as the same set, sorted |
| `OptimizerExtension.ExtendOptimizer` | training/deltreltrain/auxiliary_upgrade.py:190-250 | The extension succeeds exactly for unchanged configuration and routing, distinct ids, and complete coverage of saved moments and added names; it keeps the saved settings over the new ids |
| `OptimizerExtension.NothingIsRerouted` | training/deltreltrain/auxiliary_upgrade.py:203-236 | An accepted extension changes no configuration, no group's name, algorithm or weight decay, and no group's parameters besides the added ones, each of which some group gains |
| `OptimizerExtension.SameOptimizerIsCompatible` | training/deltreltrain/auxiliary_upgrade.py:190-250 | A saved optimizer with distinct names and ids whose moments all belong to parameters is a compatible extension of itself |
| `OptimizerExtension.MovedSize` | training/deltreltrain/auxiliary_upgrade.py:240-248 | No saved moment is dropped or merged with another |
| `OptimizerExtension.LearnedStateIsKept` | training/deltreltrain/auxiliary_upgrade.py:222-250 | Seen by parameter name each common parameter keeps its moment or lack of one, and added parameters have none |
| `Publication.PublicationProgress.Progress` | training/deltreltrain/actor_publication.py:75-122 | A report is refused when a counter would move backwards or disagree, and otherwise counted and perhaps published |
| `Publication.FullReportsAreCounted` | training/deltreltrain/actor_publication.py:84-121 | A full report is accepted exactly when its totals are consistent and none has fallen, and is then what is counted |
| `Publication.PartialReportsAreCompleted` | training/deltreltrain/actor_publication.py:84-121 | A report with fields left out is accepted like its completion, except that salvaged rows must be among the new samples |
| `Publication.RunKeepsInv` | training/deltreltrain/actor_publication.py:75-166 | Over any reports the published increments add up to the emitted marks, which never exceed the counters, and counters never fall |
| `Publication.TotalsAreComplete` | training/deltreltrain/actor_publication.py:75-169 | After finishing, all six published totals equal the final counters at every pace of publication, unless the policy-first counter moves late, after the last move of every compared counter; it never does when each report that moves it also moves the sample counter |
| `Publication.PromptTotals` | training/deltreltrain/actor_publication.py:75-169 | Without a rate limit the policy-first total is complete exactly when that counter does not move late, a condition on the reports alone |
| `Publication.PublishedTotals` | training/deltreltrain/actor_publication.py:124-169 | In terms of the marks: five totals are always complete, and the sixth exactly when it has not moved since the last record or a compared counter has |
| `Publication.PolicyFirstCanBeMissed` | training/deltreltrain/actor_publication.py:124-131 | Two reports that move the policy-first counter alone, and leave a sample unpublished |

## Left out

- Rounding: floating-point error and `fsum`. The pivot tolerance is a parameter whose value 0 gives the completeness results.
- Hoeffding's inequality for a score that is 0 or 1 is a hypothesis on the exponential, as are its laws; chances are finite weighted averages, so distributions with infinitely many values are not modelled.
- WeightedTest.WeightedStratumConfidenceSequence: proves lower below upper for weights that add up to at most one and, beyond that, under a condition on the evidence, because the tolerance on their sum is there for rounding only.
- BradleyTerry.FitBradleyTerryElo: does not model confidence intervals, the conversion to Elo, the sorting of estimates or the count of observations.
- BradleyTerry.Climb: does not prove that the iterations converge to the maximum, because the damped Newton method gives no such guarantee within 200 steps. The step that is taken is the first acceptable one, which may lose up to the slack.
- Components.ConnectedComponents: returns components as sets; the code's tuples are these sets in sorted order.
- LinearSystem.Solve: works on sequences of rows rather than lists mutated in place, so aliasing between rows is not modelled.
- PauseGate.ActorPauseGate.Checkpoint: is one pass of the wait loop; the blocking wait itself is a step of the runs.
- PauseGate: pause stages, stack capture and other diagnostics, and callbacks that raise.
- Store: timestamps, search seeds, AI pause and review flags, player-name text, other tabs changing storage during a run (a step that finds such a change is in `Commands.OtherTabIsKept`), and the hydration of an old save, which add fields without changing the history argument.
- Store.NoLineIsLost: assumes that a drawn identity is not yet used by a record (the code draws random UUIDs) and that no record is deleted by the user.
- GameLibrary.Library.Refresh: parsing of stored text and its size limit are folded into whether an entry can be read.
- GameLibrary.Library.Delete: a removal that storage performs but then fails to confirm is not modelled.
- Scoring and completion bounds: the guaranteed winner is an abstract function of the stones. That the two extremal fillings bound every completion needs the planar topology of the board and fails on general graphs, and that topology is not modelled.
- Admission.Application.Reserve: the semaphore's queue is any order of grants; its fairness is not modelled.
- Admission.AdmissionReleasesOnce: assumes that each returned streaming response is invoked, as the framework does.
- ModelLease: loading and inference themselves, batch waiting times, health reports, and a close call that raises.
- ModelRegistry.SharedModelRegistry.TryAcquire: is one pass between two waits; the cache limits derived for a loaded model are not modelled.
- Allocation.NextAllocation: the utility of a cell, which uses a square root and search costs, is a number in the summary.
- Predictions.EvaluateBatch: the network is a function of a row's key, so batch rows are independent by assumption; cloning of evaluations appears as value semantics, and tensors, precision and disposal are left out.
- OptimizerExtension.LearnedStateIsKept: assumes that the target optimizer numbers its parameters without repetition, as the library guarantees.
- Even spacing of historical opponents and the stacking of tensor rows: easy members.
- Tensor and exponential-moving-average extension in the same file: dictionary merges without further structure.
- Manifest cache, actor batch loop, metrics, balanced cell weights, user interface, HTTP schemas, authentication, configuration parsing, model training and export: plumbing, or easy members beside the ones above.
