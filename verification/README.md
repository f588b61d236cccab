# Search-based arithmetic solvers of flopsy, modelled in Dafny

flopsy plugs search-based solvers into Pex's arithmetic constraint solving.

## The solvers

Pex hands a solver a set of input variables, each carrying the path-condition constraints it appears in. The solver looks for an assignment that makes every constraint hold. It gives up when the host reports a timeout or a budget of fitness evaluations is spent.

This project models the three solver classes:

- **The shared base class** (`PexCustomArithmeticSolver`).
  - It computes the branch-distance fitness of a model.
  - The distance of a comparison is zero exactly when the comparison holds.
  - An incomparable operand gives the `Double.MaxValue` sentinel.
  - It also provides the term arithmetic the searches use: subtract two terms, convert a term to a double, add a double to a term.
- **The alternating variable method** (`PexAlternatingVariableHillClimbingArithmeticSolver`, "AVM").
  - It probes each variable down and then up by one step of its precision.
  - It follows an improving probe with pattern moves whose step doubles.
  - It raises the decimal precision of float and double variables when no probe improves.
  - A precision scan that reaches a decimal variable throws a `FormatException`: the decimal is formatted with the integer-only `D` specifier.
  - It restarts, alternating between a local restart (randomise the fraction digits) and a global one (random bits).
- **The evolution strategy** (`PexEvolutionStrategyArithmeticSolver`, "ES").
  - It keeps a population of individuals. Each has a model, one step size per variable, and a fitness.
  - It breeds offspring by one of four recombinations (discrete, global discrete, intermediate, global intermediate).
  - It mutates them by self-adapted Gaussian steps, with either one step size or one per variable.
  - It sorts offspring, or offspring plus parents, by fitness and keeps the fittest.

## How the model represents it

- **Values** are a tagged datatype per Pex layout.
  - `I1` is a byte. It reads as unsigned when converted to a double or subtracted, and is sign-extended when widened to `I4` for an addition.
  - `I2`, `I4` and `I8` are two's-complement integers with explicit wrap-around.
  - `R4` and `R8` are exact reals or a non-finite value.
  - Decimals are reals bounded by ±(2^96 − 1).
- **Constraints**: the constraint terms the solvers evaluate are modelled as binary `==` / `<` comparisons of variables and literals, possibly negated. Any other constraint scores the constant `K`.
- **Host calls become parameters** of a `Host` datatype:
  - random draws, Gaussian samples and `exp` factors, as functions of the generation, child and variable index;
  - the host's validity check and timeout poll;
  - decimal/double formatting.
- **Search states** are immutable records. The loops of `StartSearch` and `Evolve` are methods whose invariants carry the states' well-formedness and the evaluation count.

## Module layout

| file | module | contents |
|---|---|---|
| `values.dfy` | `Values` | layouts, values, wrap-around, truncation |
| `scalar.dfy` | `Scalar` | models (one value per variable), the builder's `TryAssign`, term arithmetic |
| `fitness.dfy` | `Fitness` | branch distances, fitness of a model, the zero-fitness theorem |
| `search.dfy` | `Search` | outcomes and the verdict the two `Terminate` methods share |
| `avm.dfy` | `Avm` | the alternating variable method |
| `population.dfy` | `Population` | ES individuals, the fitness order, sorting, survivor selection |
| `variation.dfy` | `Variation` | ES parent choice, recombination, mutation |
| `es.dfy` | `Es` | the ES generation loop |

## Model

| member | source | states |
|---|---|---|
| Scalar.TrySubtractTwoTerms | src/Implementation/PexCustomArithmeticSolver.cs:587-657 | a difference exists only for two operands of the same layout; byte and short differences wrap modulo 2^8 / 2^16; a decimal difference outside the decimal range gives none |
| Scalar.TryConvertTermToDouble | src/Implementation/PexCustomArithmeticSolver.cs:513-585 | every known numeric value converts, and exactly to its numeric value; only an unknown term fails |
| Scalar.TryAddDoubleToTerm | src/Implementation/PexCustomArithmeticSolver.cs:390-455 | I1/I2/I4 terms are widened (a byte sign-extended) and give an I4 sum of the value and the truncated delta while it fits 32 bits; finite R4/R8 give the R8 sum, non-finite ones a non-finite R8; I8 and other layouts fail; a decimal succeeds only for a literal, with the saturating sum |
| Scalar.SaturatingDecimalAdd | src/Implementation/PexCustomArithmeticSolver.cs:415-437 | an in-range decimal sum is exact; when the delta or the sum leaves the decimal range the result is the decimal maximum with the delta's sign |
| Scalar.HalfOfSum | src/Implementation/PexEvolutionStrategyArithmeticSolver.cs:260-265 | a halved sum exists exactly for two operands of one known layout and has that layout; for finite doubles and for decimals it is the exact mean |
| Scalar.HalfOfSumIntBetween | src/Implementation/PexEvolutionStrategyArithmeticSolver.cs:260-265 | halving the sum of two integers (truncating) lands between them |
| Fitness.EqualsDistance | src/Implementation/PexCustomArithmeticSolver.cs:659-687 | the distance of `a == b` is \|a − b\|, zero exactly when the difference is zero; negated it is the not-equals distance; no difference gives the sentinel |
| Fitness.NotEqualsDistance | src/Implementation/PexCustomArithmeticSolver.cs:688-713 | the distance of `a != b` is K when the operands are equal and 0 otherwise |
| Fitness.LessThanDistance | src/Implementation/PexCustomArithmeticSolver.cs:715-741 | the distance of `a < b` is 0 when it holds and a − b + K otherwise; negated it is the `>=` distance |
| Fitness.GreaterThanOrEqualsDistance | src/Implementation/PexCustomArithmeticSolver.cs:743-766 | the distance of `a >= b` is 0 when it holds and b − a + K otherwise |
| Fitness.EvaluateConstraint | src/Implementation/PexCustomArithmeticSolver.cs:469-488 | every distance is non-negative; a non-binary constraint scores K; `==` and `<` dispatch to their distances with the negation flag |
| Fitness.EvaluateArithmeticModel | src/Implementation/PexCustomArithmeticSolver.cs:102-142 | one evaluation is counted; each constraint is scored at most once across variables; the fitness is the total of the scored distances and is non-negative |
| Fitness.ScoreConstraintsOf | src/Implementation/PexCustomArithmeticSolver.cs:114-135 | the inner loop scores a variable's unvisited constraints in order until the sentinel, marking them visited |
| Fitness.VariableScanFacts | src/Implementation/PexCustomArithmeticSolver.cs:114-135 | a variable's scan has no duplicates, skips visited constraints, only the last scored one can be infeasible, and without one it covers all unvisited constraints |
| Fitness.ScoredReachesInfeasible | src/Implementation/PexCustomArithmeticSolver.cs:112-135 | the scan of all variables hits an infeasible constraint whenever one appears, and otherwise scores every appearing constraint |
| Fitness.ScoredOncePerEvaluation | src/Implementation/PexCustomArithmeticSolver.cs:108-117 | the visited set makes each constraint count at most once, and only constraints of the variables are scored |
| Fitness.FitnessInfeasibleIff | src/Implementation/PexCustomArithmeticSolver.cs:102-142 | the fitness is the sentinel exactly when some appearing constraint has no distance; otherwise it is non-negative and every constraint was scored |
| Fitness.FitnessZeroIff | src/Implementation/PexCustomArithmeticSolver.cs:102-142 | the fitness is zero exactly when every appearing constraint has distance zero |
| Fitness.DistanceZeroIffHolds | src/Implementation/PexCustomArithmeticSolver.cs:659-766 | for operands whose differences are exact, a constraint's distance is zero iff the comparison (with its negation) holds, with the distance formula in each case |
| Fitness.FitnessZeroIffAllHold | src/Implementation/PexCustomArithmeticSolver.cs:102-142 | for exact operands, a model has fitness zero iff it satisfies every constraint |
| Fitness.ExactIntegerOperands | src/Implementation/PexCustomArithmeticSolver.cs:587-657 | short, int and long differences are exact while they do not wrap |
| Fitness.ExactRealOperands | src/Implementation/PexCustomArithmeticSolver.cs:587-657 | finite float and double differences are exact, and so are in-range decimal differences |
| Fitness.ExactByteOperandsIff | src/Implementation/PexCustomArithmeticSolver.cs:587-657 | byte differences are exact only for equal bytes, because the subtraction wraps |
| Fitness.ByteLessThanNeverZero | src/Implementation/PexCustomArithmeticSolver.cs:715-741 | the byte `<` distance is the wrapped difference plus K, so it is never zero even when `a < b` holds |
| Search.Verdict | src/Implementation/PexAlternatingVariableHillClimbingArithmeticSolver.cs:555-600 | a found model wins over a timeout, which wins over the spent budget; no verdict means none of the three |
| Search.FirstValid | src/Implementation/PexEvolutionStrategyArithmeticSolver.cs:122-171 | the first parent whose model the host validates, or none when no parent is valid |
| Avm.ResetExplorationParameters | src/Implementation/PexAlternatingVariableHillClimbingArithmeticSolver.cs:541-551 | the probe restarts at variable 0 going down with no pattern moves; a full reset also clears the precision bookkeeping; the models and counts are untouched |
| Avm.EvaluateCurrentModel | src/Implementation/PexAlternatingVariableHillClimbingArithmeticSolver.cs:92-121 | the builder's fitness is computed and counted; it becomes the best model exactly when it is strictly fitter; the best fitness never worsens |
| Avm.Delta | src/Implementation/PexAlternatingVariableHillClimbingArithmeticSolver.cs:515-539 | the step has the probe's sign and the step length as magnitude |
| Avm.StepLengthScales | src/Implementation/PexAlternatingVariableHillClimbingArithmeticSolver.cs:515-539 | the step length times 10^precision is 2^patternMoves |
| Avm.MakeNumericMove | src/Implementation/PexAlternatingVariableHillClimbingArithmeticSolver.cs:515-539 | only the probed variable of the builder changes, to the best value plus the step (truncated for integers); other layouts are refused by the builder |
| Avm.ExploreNeighbourhood | src/Implementation/PexAlternatingVariableHillClimbingArithmeticSolver.cs:490-506 | a down probe is followed by an up probe of the same variable, then the next variable; it reports whether the probe improved on the best fitness |
| Avm.MakePatternMove | src/Implementation/PexAlternatingVariableHillClimbingArithmeticSolver.cs:508-513 | the last improving probe is repeated with one more pattern move; it reports whether it improved |
| Avm.CountDigits | src/Implementation/PexAlternatingVariableHillClimbingArithmeticSolver.cs:340-357 | counts the characters of a formatted number other than its decimal point, and the position of that point |
| Avm.CountDecimalDigits | src/Implementation/PexAlternatingVariableHillClimbingArithmeticSolver.cs:319-357 | a decimal throws (none) and nothing else does; a float or double counts the digits of its formatting and finds its decimal point; other values count no digits |
| Avm.DigitCap | src/Implementation/PexAlternatingVariableHillClimbingArithmeticSolver.cs:359-405 | only float, double and decimal have a precision cap: 7 for float, 15 for double and 28 for decimal |
| Avm.ExpandNeighbourhood | src/Implementation/PexAlternatingVariableHillClimbingArithmeticSolver.cs:359-405 | it throws exactly for a decimal; otherwise one more decimal place is allowed exactly when the formatted value has digits and a cap exists: without a decimal point, its digits and the precision are below the cap; with the point at position p, p + 1 and precision + p are below the cap; only floats and doubles are ever allowed |
| Avm.TryChangePrecision | src/Implementation/PexAlternatingVariableHillClimbingArithmeticSolver.cs:407-441 | only floating-point and decimal layouts change precision, one up or one down but never below zero |
| Avm.FirstStop | src/Implementation/PexAlternatingVariableHillClimbingArithmeticSolver.cs:443-474 | the first variable from the cursor whose precision can be raised or whose examination throws; none of the variables before it does either |
| Avm.TryExpandNeighbourhood | src/Implementation/PexAlternatingVariableHillClimbingArithmeticSolver.cs:443-474 | throws exactly when the scan stops at a variable that throws; raises the first raisable precision from the cursor; when none can be raised the precision bookkeeping is reset |
| Avm.ScanFaultsOnDecimal | src/Implementation/PexAlternatingVariableHillClimbingArithmeticSolver.cs:443-474 | the scan throws exactly when a decimal variable comes before every variable whose precision can be raised |
| Avm.DecimalBehindFault | src/Implementation/PexAlternatingVariableHillClimbingArithmeticSolver.cs:319-357 | a scan that throws has met a variable declared decimal |
| Avm.RequiresRestart | src/Implementation/PexAlternatingVariableHillClimbingArithmeticSolver.cs:476-488 | it throws exactly when every variable was probed and the scan throws; a restart is needed exactly when every variable was probed and no precision can be raised; a raised precision is followed by a partial reset, so exploration resumes at a valid variable |
| Avm.TryExpandKeepsPrecisionsBounded | src/Implementation/PexAlternatingVariableHillClimbingArithmeticSolver.cs:359-474 | raising a precision never takes a variable past its layout's digit cap, and only float and double precisions ever change |
| Avm.FractionOffer | src/Implementation/PexAlternatingVariableHillClimbingArithmeticSolver.cs:245-317 | a variable at precision 0, or whose value is not a float, double or decimal, gets random bits; a finite float, double or in-range decimal at a positive precision gets its value plus a jitter at that precision, in its own layout; an out-of-range decimal gets none; a non-finite value is offered back unchanged |
| Avm.RandomizeFraction | src/Implementation/PexAlternatingVariableHillClimbingArithmeticSolver.cs:245-317 | each variable takes its fraction offer when the builder accepts it, and keeps its value otherwise |
| Avm.RandomizeAll | src/Implementation/PexCustomArithmeticSolver.cs:247-307 | each variable of a known layout takes the random bits when they have its layout, and keeps its value otherwise |
| Avm.Restart | src/Implementation/PexAlternatingVariableHillClimbingArithmeticSolver.cs:154-190 | restarts alternate between local and global; a global restart zeroes every precision; the restarted model becomes the best, with its fitness counted |
| Avm.Terminate | src/Implementation/PexAlternatingVariableHillClimbingArithmeticSolver.cs:555-600 | each poll is counted, and the verdict reads the builder's validity, the timeout poll and the budget |
| Avm.InitialState | src/Implementation/PexAlternatingVariableHillClimbingArithmeticSolver.cs:220-243 | every variable starts at precision 0, with the initial model as builder and best |
| Avm.TryGetArithmeticModel | src/Implementation/PexAlternatingVariableHillClimbingArithmeticSolver.cs:128-218 | with no variables there is no model; a success is a valid, well-formed best model; a timeout follows a timed-out poll; no model means the budget is spent; precisions stay within caps; a `FormatException` happens only in a precision scan after every variable was probed, and only when some variable is decimal |
| Avm.SearchStep | src/Implementation/PexAlternatingVariableHillClimbingArithmeticSolver.cs:152-213 | one loop iteration throws exactly when every variable was probed and the scan throws, and then changes nothing; otherwise it spends at least one evaluation and keeps the state well-formed |
| Avm.RestartStep | src/Implementation/PexAlternatingVariableHillClimbingArithmeticSolver.cs:154-190 | a restart spends one evaluation and leaves a well-formed state |
| Avm.ExploreStep | src/Implementation/PexAlternatingVariableHillClimbingArithmeticSolver.cs:192-213 | one exploration plus its pattern moves spends at least one evaluation, keeps the search state well-formed, and never worsens the best fitness |
| Avm.PatternMoves | src/Implementation/PexAlternatingVariableHillClimbingArithmeticSolver.cs:196-204 | the pattern moves keep the search state well-formed and never worsen the best fitness |
| Avm.ExploreProbesDownThenUp | src/Implementation/PexAlternatingVariableHillClimbingArithmeticSolver.cs:490-506 | two explorations probe one variable first down, then up, and then move on to the next variable |
| Avm.PatternStepDoubles | src/Implementation/PexAlternatingVariableHillClimbingArithmeticSolver.cs:515-539 | each pattern move doubles the step |
| Avm.StepLengthDoubles | src/Implementation/PexAlternatingVariableHillClimbingArithmeticSolver.cs:515-539 | the step length doubles with each pattern move |
| Avm.SingleEqualityFitness | src/Implementation/PexCustomArithmeticSolver.cs:659-687 | for one constraint `x == t`, the fitness of x is \|x − t\| |
| Avm.FirstProbeDescendsToRoot | src/Implementation/PexAlternatingVariableHillClimbingArithmeticSolver.cs:490-539 | for `x == 0` from x ≥ 1, the first downward probe improves to x − 1 |
| Avm.LocalRestartJitter | src/Implementation/PexAlternatingVariableHillClimbingArithmeticSolver.cs:245-317 | a local restart moves a finite float, double or in-range decimal x at precision p into [x, x + 10^-p), in its own layout |
| Avm.JitteredOffer | src/Implementation/PexAlternatingVariableHillClimbingArithmeticSolver.cs:262-312 | the fraction offer to such a variable is accepted by the builder and lies in [x, x + 10^-p) |
| Avm.GlobalRestartDraws | src/Implementation/PexAlternatingVariableHillClimbingArithmeticSolver.cs:174-183 | a global restart zeroes the precision and takes the random bits when they fit the variable's layout, otherwise it keeps the builder's value |
| Population.SetStdDev | src/Implementation/PexEvolutionStrategyArithmeticSolver.cs:533-536 | a step size is stored as its magnitude; nothing else changes |
| Population.Initialized | src/Implementation/PexEvolutionStrategyArithmeticSolver.cs:561-567 | a new individual has unit step sizes and the sentinel fitness |
| Population.CompareTo | src/Implementation/PexEvolutionStrategyArithmeticSolver.cs:606-615 | the sign of the comparison is the fitness order |
| Population.CompareToIsTotalPreorder | src/Implementation/PexEvolutionStrategyArithmeticSolver.cs:606-615 | the comparison is antisymmetric, total and transitive, and ties are equal fitness |
| Population.SortByFitness | src/Implementation/PexEvolutionStrategyArithmeticSolver.cs:460 | the sorted population is a permutation ordered fittest first |
| Population.Select | src/Implementation/PexEvolutionStrategyArithmeticSolver.cs:449-466 | the first min(μ, pool) survivors come sorted from the pool; the remaining parents stay |
| Population.SelectKeepsFittest | src/Implementation/PexEvolutionStrategyArithmeticSolver.cs:449-466 | no member of the pool sorted after the survivors is fitter than any survivor |
| Population.SelectSplitsPool | src/Implementation/PexEvolutionStrategyArithmeticSolver.cs:449-466 | the pool is exactly the survivors plus the rest of its sorted order: selection loses or duplicates nothing |
| Population.SurvivorFromPool | src/Implementation/PexEvolutionStrategyArithmeticSolver.cs:449-466 | every new parent is an old parent or a child; with offspring-only selection the first λ are children |
| Population.PlusSelectionIsElitist | src/Implementation/PexEvolutionStrategyArithmeticSolver.cs:449-466 | with parents in the pool, the first survivor is at least as fit as every parent and every offspring |
| Variation.FirstDifferent | src/Implementation/PexEvolutionStrategyArithmeticSolver.cs:178-181 | the first later draw that picks a different parent, or none |
| Variation.GenerateTwoIndeces | src/Implementation/PexEvolutionStrategyArithmeticSolver.cs:173-182 | two distinct parent indices: the first draw, then the first draw that differs; none when every draw repeats the first |
| Variation.NoPairFromOneParent | src/Implementation/PexEvolutionStrategyArithmeticSolver.cs:173-182 | with a single parent no pair can be drawn |
| Variation.Discrete | src/Implementation/PexEvolutionStrategyArithmeticSolver.cs:206-228 | where the coin says so, the builder takes the second parent's value and step size; elsewhere the builder keeps its value and the child parent one's step size |
| Variation.DiscreteChildNeedNotInheritFirstParent | src/Implementation/PexEvolutionStrategyArithmeticSolver.cs:206-228 | a concrete case where the discrete child's model holds a value of neither parent |
| Variation.Pick | src/Implementation/PexEvolutionStrategyArithmeticSolver.cs:229-259 | each variable's value and step size come from one parent of its own pair, chosen by its coin |
| Variation.Mix | src/Implementation/PexEvolutionStrategyArithmeticSolver.cs:266-326 | each variable is the half-sum of its pair's values, with the mean step size |
| Variation.HalfSumsAssigned | src/Implementation/PexEvolutionStrategyArithmeticSolver.cs:266-326 | after intermediate recombination each variable of a known layout holds the halved sum of its pair's values, and the others keep the builder's value |
| Variation.MixBetweenParents | src/Implementation/PexEvolutionStrategyArithmeticSolver.cs:266-326 | an intermediate double lies between the two parents' values |
| Variation.Displace | src/Implementation/PexEvolutionStrategyArithmeticSolver.cs:343-390 | a mutation step moves doubles exactly and ints by the truncated step; other layouts do not move |
| Variation.DisplaceByZero | src/Implementation/PexEvolutionStrategyArithmeticSolver.cs:343-390 | zero steps leave the model unchanged |
| Variation.SingleMutation | src/Implementation/PexEvolutionStrategyArithmeticSolver.cs:343-364 | the one step size is scaled by \|exp\| and every variable moves by it times its own Gaussian |
| Variation.MultiMutation | src/Implementation/PexEvolutionStrategyArithmeticSolver.cs:365-390 | each step size is scaled by its own \|exp\| and its variable moves by it times a Gaussian |
| Variation.ZeroStepSizesStayPut | src/Implementation/PexEvolutionStrategyArithmeticSolver.cs:365-390 | an individual whose step sizes are all zero does not move under mutation |
| Es.StartValue | src/Implementation/PexCustomArithmeticSolver.cs:200-245 | every known layout gets the draw, converted to that layout; other layouts get none |
| Es.RandomSolution | src/Implementation/PexEvolutionStrategyArithmeticSolver.cs:93-99 | each numeric variable takes its draw; other layouts keep the shared builder's value |
| Es.InitialPopulation | src/Implementation/PexEvolutionStrategyArithmeticSolver.cs:101-111 | the population fails exactly when a negative draw must become a byte; otherwise μ well-formed individuals with unit step sizes and their draws |
| Es.Evaluate | src/Implementation/PexEvolutionStrategyArithmeticSolver.cs:472-478 | each individual keeps its model and step sizes and is given its model's fitness |
| Es.PairsFor | src/Implementation/PexEvolutionStrategyArithmeticSolver.cs:173-182 | the pairs for a child are the drawn index pairs, all within the parents |
| Es.Recombine | src/Implementation/PexEvolutionStrategyArithmeticSolver.cs:185-205 | the chosen recombination yields a well-formed child; it fails exactly when a needed index pair cannot be drawn |
| Es.RecombineDrawsFrom | src/Implementation/PexEvolutionStrategyArithmeticSolver.cs:206-326 | variable i uses the pair drawn for the child (discrete, intermediate) or for variable i (the global kinds); where its coin shows, a discrete variable takes the second parent's value, and otherwise the builder's earlier value (plain) or the first parent's (global); an intermediate variable of a known layout takes the halved sum of the pair's values, and its step size is the mean of theirs |
| Es.PairOf | src/Implementation/PexEvolutionStrategyArithmeticSolver.cs:173-182 | the pair drawn for a variable holds two distinct parent indices |
| Es.Mutate | src/Implementation/PexEvolutionStrategyArithmeticSolver.cs:330-342 | mutation keeps the child well-formed; without a mutation strategy nothing changes |
| Es.Child | src/Implementation/PexEvolutionStrategyArithmeticSolver.cs:412-446 | without recombination the c-th child is the mutated copy of parent c mod μ |
| Es.Breed | src/Implementation/PexEvolutionStrategyArithmeticSolver.cs:412-447 | λ well-formed offspring; breeding never fails without recombination |
| Es.Generation | src/Implementation/PexEvolutionStrategyArithmeticSolver.cs:410-466 | a generation keeps the population well-formed and rated and spends exactly λ evaluations; it fails only when breeding runs out of index draws, which cannot happen without recombination |
| Es.GenerationIsElitist | src/Implementation/PexEvolutionStrategyArithmeticSolver.cs:449-466 | with plus selection the first parent after a generation is at least as fit as every parent before it and every child scored in it |
| Es.Terminate | src/Implementation/PexEvolutionStrategyArithmeticSolver.cs:122-171 | the first valid parent succeeds, else a timed-out poll, else the spent budget |
| Es.Evolve | src/Implementation/PexEvolutionStrategyArithmeticSolver.cs:393-470 | it stops with a byte overflow exactly when an initial draw overflows; a verdict it returns holds for the final population |
| Es.Generations | src/Implementation/PexEvolutionStrategyArithmeticSolver.cs:408-467 | the loop keeps the population well-formed until a verdict holds |
| Es.TryGetArithmeticModel | src/Implementation/PexEvolutionStrategyArithmeticSolver.cs:480-491 | with no variables there is no model; a success is a valid parent's model; a timeout follows a timed-out poll; no model means the budget is spent |

## Left out

- Logging, disposal, `SafeDebugger` calls and solver construction are not modelled: they do not change the search.
- Floating-point rounding is not modelled: doubles and floats are exact reals or a single non-finite value.
- `exp`, `sqrt` and the Gaussian sampler are not modelled; their samples are parameters of the host.
- The Pex term manager, the model builder and the solving context are not part of this model. The builder is assumed to accept a value only when its layout equals the variable's layout. As a consequence, the widened I4/R8 sums the searches offer to I1, I2 and R4 variables leave them unchanged.
- Scalar.TryAddDoubleToTerm: line 448 adds the unwidened R4 term to an R8 constant. The model assumes the host evaluates that sum as an R8.
- Avm.CountDecimalDigits: formatting a decimal with the `D` specifier throws a `FormatException`, because `D` applies only to integral types. The model has it throw, so a search that scans a decimal variable ends with `Avm.FormatException`; decimals never gain precision.
- Avm.FractionOffer: when a decimal jitter overflows, the source throws. The model makes no assignment instead. In the search a decimal variable's precision stays 0 (Avm.TryExpandKeepsPrecisionsBounded), so the search never takes this path.
- Scalar.TrySubtractTwoTerms: a decimal subtraction that overflows throws in the source. The model gives no difference, which scores the sentinel.
- Scalar.TrySubtractTwoTerms: for an I4, I8 or R8 left operand the source does not check the right operand's layout and hands both to the term manager. The model assumes the term manager refuses operands of different layouts and gives no difference.
- Scalar.HalfOfSum: the contract states the layout and the double and decimal means only. For bytes the model wraps the sum modulo 2^8 before halving, so two large bytes halve to a small one. For shorts, ints and longs it wraps the sum to the layout's width and then halves truncating toward zero. Scalar.HalfOfSumIntBetween states the int case without overflow.
- Avm.ExploreStep: after pattern moves the code does a full reset of the exploration parameters, starting again from variable 0. The model follows the code, not a resume at the current variable.
- Population.SortByFitness: `List.Sort` is unstable. The model sorts by insertion, and the contracts state only sortedness and permutation, so any order of equally fit individuals is allowed.
- Es.Evolve: an offspring size of 0 makes the source loop until the host times out. The model requires at least one offspring.
- Es.Evolve: a population size of 0 faults in the offspring loop. The model reports it as `EmptyPopulation`.
- Es.PairsFor: the random parent-index draws of `GenerateTwoIndeces` are modelled as a finite sequence per child. When every draw repeats the first, the source would keep drawing; the model stops with `DrawsExhausted`.
- Variation.Discrete: the source copies parent one but writes parent two's values into the shared builder and snapshots it. The unpicked variables therefore hold the builder's earlier values, not parent one's. The model follows the code; Variation.DiscreteChildNeedNotInheritFirstParent exhibits it.
- Es.InitialPopulation: `Convert.ToByte` of a negative draw throws for an I1 variable. The model reports it as `ByteOverflow`.
- Es.Generation: states well-formedness and the evaluation count only. Which offspring survive is stated by Population.Select and Population.SelectKeepsFittest.
- Fitness.Add: once a distance is the sentinel, later distances added to it leave the sentinel. The source adds them to `Double.MaxValue` in floating point, and a very large distance could round the total to infinity; the model does not track that.
- `MakeDeepCopy` and `UpdateModel` are not separate members: individuals are immutable values, so a copy is the value itself.
- The Gaussian input randomisation and the bit-converter randomisation of the base class (`RandomizingInputVariablesWithGaussian`, `RandomizeInputVariablesBitConverter`) become host draws; their conversions are not modelled.
