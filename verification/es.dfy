/**
 The (mu +, lambda) evolution strategy: a population of `populationSize`
 parents, initialised from draws in [-100, 100), breeds `offspringSize`
 children per generation by recombination (when there are at least two
 parents and a recombination is chosen) or by copying the parents in turn,
 mutates them, scores them, and keeps the fittest as the next parents: from
 the children alone, or from children and parents together.

 The random draws are fields of `Host`, indexed by where in the run they are
 drawn: initial solution and variable; generation, child and variable.
 */
module Es {
  import opened Values
  import opened Scalar
  import opened Fitness
  import opened Search
  import opened Population
  import opened Variation

  datatype Recombination = NoRecombination | DiscreteRecombination | IntermediateRecombination
                         | GlobalDiscreteRecombination | GlobalIntermediateRecombination

  datatype Mutation = NoMutation | SingleStdDev | MultiStdDev

  /** A draw of `Next(-100, 100)`. */
  type Bounded = x: int | -100 <= x < 100

  /** The solving context, the strategy's parameters and its random draws.
      `pairs(g, c, i)` is the stream of index draws `GenerateTwoIndeces`
      reads for child `c` of generation `g` (variable `i` for the global
      recombinations, 0 otherwise); `coins`, `factors` and `gauss` are the
      coin flips, the step-size factors `exp(...)` and the Gaussian samples
      for the same child and variable. */
  datatype Host = Host(
    layouts: seq<Layout>,
    constraints: seq<seq<Constraint>>,
    initial: Model,
    valid: Model -> bool,
    timedOut: nat -> bool,
    budget: int,
    populationSize: nat,
    offspringSize: nat,
    recombination: Recombination,
    mutation: Mutation,
    offspringOnly: bool,
    start: (nat, nat) -> Bounded,
    pairs: (nat, nat, nat) -> seq<nat>,
    coins: (nat, nat, nat) -> bool,
    factors: (nat, nat, nat) -> real,
    gauss: (nat, nat, nat) -> real)

  predicate HostOk(h: Host)
  {
    |h.layouts| == |h.constraints| && Conforms(h.layouts, h.initial)
  }

  /** How a run ends. Besides a verdict, the source can stop with an
      exception: `Convert.ToByte` of a negative draw for an I1 variable, or
      an index into an empty parent population. `DrawsExhausted` marks a
      parent-index stream that never produced two distinct indices. */
  datatype Stop = Finished(outcome: Outcome) | ByteOverflow | EmptyPopulation | DrawsExhausted

  /** The solver's fields between generations. */
  datatype State = State(
    parents: seq<Candidate>,
    builder: Model,
    evaluations: nat,
    polls: nat,
    generation: nat)

  // ---------------------------------------------------------------------------
  // The initial population.

  /** The constant `RandomizeInputVariablesWithBounds` builds from a draw for
      a variable of layout `l`; other layouts get nothing. An I1 variable
      needs a non-negative draw. */
  function StartValue(l: Layout, x: Bounded): (r: Option<Value>)
    requires l == I1 ==> x >= 0
    ensures r.Some? <==> l != Other
    ensures r.Some? ==> LayoutOf(r.value) == l && Numeric(r.value) == Some(x as real)
  {
    match l
    case I1 => Some(Byte(x))
    case I2 => Some(Short(x))
    case I4 => Some(Int(x))
    case I8 => Some(Long(x))
    case R4 => Some(Single(Real(x as real)))
    case R8 => Some(Double(Real(x as real)))
    case Decimal => Some(Dec(x as real))
    case Other => None
  }

  /** Whether initial solution `k` draws a negative number for an I1
      variable, which makes `Convert.ToByte` throw. */
  predicate Overflows(h: Host, k: nat)
  {
    exists i :: 0 <= i < |h.layouts| && h.layouts[i] == I1 && h.start(k, i) < 0
  }

  /** `CreateRandomSolution` number `k`: every variable of a supported layout
      is assigned its draw in the shared builder, whose snapshot becomes the
      solution's model. */
  function RandomSolution(h: Host, builder: Model, k: nat): (r: Model)
    requires Conforms(h.layouts, builder) && !Overflows(h, k)
    ensures Conforms(h.layouts, r)
    ensures forall i :: 0 <= i < |h.layouts| && h.layouts[i] != Other ==>
      Numeric(r[i]) == Some(h.start(k, i) as real)
    ensures forall i :: 0 <= i < |h.layouts| && h.layouts[i] == Other ==> r[i] == builder[i]
  {
    var n := |h.layouts|;
    var offers := seq(n, i requires 0 <= i < n =>
      assert h.layouts[i] == I1 ==> h.start(k, i) >= 0;
      StartValue(h.layouts[i], h.start(k, i)));
    AssignEach(h.layouts, builder, offers)
  }

  /** The first `count` solutions of `CreateInitialPopulation`, and the
      builder after them; `None` when one of them overflows. */
  function InitialPopulation(h: Host, builder: Model, count: nat): (r: Option<(seq<Candidate>, Model)>)
    requires Conforms(h.layouts, builder)
    ensures r.None? <==> exists k :: 0 <= k < count && Overflows(h, k)
    ensures r.Some? ==> |r.value.0| == count && Conforms(h.layouts, r.value.1)
    ensures r.Some? ==> forall k :: 0 <= k < count ==>
      && Shaped(h.layouts, r.value.0[k])
      && r.value.0[k].fitness == Infeasible
      && (forall i :: 0 <= i < |h.layouts| ==> r.value.0[k].stdDevs[i] == 1.0)
      && (forall i :: 0 <= i < |h.layouts| && h.layouts[i] != Other ==>
            Numeric(r.value.0[k].model[i]) == Some(h.start(k, i) as real))
    decreases count
  {
    if count == 0 then Some(([], builder))
    else
      match InitialPopulation(h, builder, count - 1)
      case None => None
      case Some((pop, b)) =>
        if Overflows(h, count - 1) then None
        else
          var m := RandomSolution(h, b, count - 1);
          Some((pop + [Initialized(m, |h.layouts|)], m))
  }

  /** `EvaluateIntermediatePopulation`: every individual gets its model's
      fitness. */
  function Evaluate(h: Host, cs: seq<Candidate>): (r: seq<Candidate>)
    ensures |r| == |cs|
    ensures forall k :: 0 <= k < |cs| ==>
      r[k] == cs[k].(fitness := FitnessOf(h.constraints, cs[k].model))
  {
    seq(|cs|, k requires 0 <= k < |cs| => cs[k].(fitness := FitnessOf(h.constraints, cs[k].model)))
  }

  // ---------------------------------------------------------------------------
  // One generation.

  /** The fitness recorded for `c` is its model's. */
  predicate Rated(h: Host, c: Candidate)
  {
    c.fitness == FitnessOf(h.constraints, c.model)
  }

  /** The parent pairs, one per variable, that a global recombination of
      child `c` in generation `g` draws; `None` when a stream runs out. */
  function PairsFor(h: Host, mu: nat, g: nat, c: nat, count: nat): (r: Option<seq<(nat, nat)>>)
    requires 0 < mu
    ensures r.Some? ==> |r.value| == count && PairsWithin(r.value, mu)
    ensures r.Some? ==> forall i :: 0 <= i < count ==> Some(r.value[i]) == GenerateTwoIndeces(h.pairs(g, c, i), mu)
    ensures r.None? <==> exists i :: 0 <= i < count && GenerateTwoIndeces(h.pairs(g, c, i), mu).None?
    decreases count
  {
    if count == 0 then Some([])
    else
      match PairsFor(h, mu, g, c, count - 1)
      case None => None
      case Some(ps) =>
        match GenerateTwoIndeces(h.pairs(g, c, count - 1), mu)
        case None => None
        case Some(p) => Some(ps + [p])
  }

  function Coins(h: Host, g: nat, c: nat): (r: seq<bool>)
    ensures |r| == |h.layouts|
    ensures forall i :: 0 <= i < |h.layouts| ==> r[i] == h.coins(g, c, i)
  {
    seq(|h.layouts|, i requires 0 <= i < |h.layouts| => h.coins(g, c, i))
  }

  function Samples(h: Host, f: (nat, nat, nat) -> real, g: nat, c: nat): (r: seq<real>)
    ensures |r| == |h.layouts|
    ensures forall i :: 0 <= i < |h.layouts| ==> r[i] == f(g, c, i)
  {
    seq(|h.layouts|, i requires 0 <= i < |h.layouts| => f(g, c, i))
  }

  /** Whether a recombination draws one parent pair for the whole child
      rather than one per variable. */
  predicate OnePairPerChild(h: Host)
  {
    h.recombination == DiscreteRecombination || h.recombination == IntermediateRecombination
  }

  /** The parent pair variable `i` of child `c` draws. */
  function PairOf(h: Host, mu: nat, g: nat, c: nat, i: nat): (r: Option<(nat, nat)>)
    requires 0 < mu
    ensures r.Some? ==> r.value.0 < mu && r.value.1 < mu && r.value.0 != r.value.1
  {
    GenerateTwoIndeces(h.pairs(g, c, if OnePairPerChild(h) then 0 else i), mu)
  }

  /** Whether the index draws run out: for the pair of the whole child, or
      for the pair of some variable. */
  predicate RecombineDrawFails(h: Host, mu: nat, g: nat, c: nat)
    requires 0 < mu
  {
    if OnePairPerChild(h) then PairOf(h, mu, g, c, 0).None?
    else exists i :: 0 <= i < |h.layouts| && PairOf(h, mu, g, c, i).None?
  }

  /** `Recombine` for child `c` of generation `g`; `None` when the index
      draws run out. */
  function Recombine(h: Host, parents: seq<Candidate>, builder: Model, g: nat, c: nat): (r: Option<Bred>)
    requires 1 < |parents| && AllShaped(h.layouts, parents) && Conforms(h.layouts, builder)
    requires h.recombination != NoRecombination
    ensures r.Some? ==> Shaped(h.layouts, r.value.child) && Conforms(h.layouts, r.value.builder)
    ensures r.None? <==> RecombineDrawFails(h, |parents|, g, c)
  {
    if OnePairPerChild(h) then RecombineOnePair(h, parents, builder, g, c)
    else RecombinePerVariable(h, parents, builder, g, c)
  }

  /** Discrete and intermediate recombination: one pair for the child. */
  function RecombineOnePair(h: Host, parents: seq<Candidate>, builder: Model, g: nat, c: nat): (r: Option<Bred>)
    requires 1 < |parents| && AllShaped(h.layouts, parents) && Conforms(h.layouts, builder)
    requires OnePairPerChild(h)
    ensures r.Some? ==> Shaped(h.layouts, r.value.child) && Conforms(h.layouts, r.value.builder)
    ensures r.None? <==> PairOf(h, |parents|, g, c, 0).None?
  {
    match GenerateTwoIndeces(h.pairs(g, c, 0), |parents|)
    case None => None
    case Some(p) =>
      if h.recombination == DiscreteRecombination then
        Some(Discrete(h.layouts, parents[p.0], parents[p.1], builder, Coins(h, g, c)))
      else
        Some(Mix(h.layouts, parents, builder, seq(|h.layouts|, _ => p)))
  }

  /** The global recombinations: one pair per variable. */
  function RecombinePerVariable(h: Host, parents: seq<Candidate>, builder: Model, g: nat, c: nat): (r: Option<Bred>)
    requires 1 < |parents| && AllShaped(h.layouts, parents) && Conforms(h.layouts, builder)
    requires !OnePairPerChild(h)
    ensures r.Some? ==> Shaped(h.layouts, r.value.child) && Conforms(h.layouts, r.value.builder)
    ensures r.None? <==> exists i :: 0 <= i < |h.layouts| && PairOf(h, |parents|, g, c, i).None?
  {
    assert forall i :: 0 <= i < |h.layouts| ==>
      PairOf(h, |parents|, g, c, i) == GenerateTwoIndeces(h.pairs(g, c, i), |parents|);
    match PairsFor(h, |parents|, g, c, |h.layouts|)
    case None => None
    case Some(ps) =>
      if h.recombination == GlobalDiscreteRecombination then
        Some(Pick(h.layouts, parents, builder, ps, Coins(h, g, c)))
      else
        Some(Mix(h.layouts, parents, builder, ps))
  }

  /** Where variable `i` of a recombined child comes from. Discrete and
      intermediate recombination use the pair drawn first for the child,
      their global variants the pair drawn for variable `i`. A discrete
      variable takes the second parent's value when its coin shows one, and
      otherwise the first parent's in the global variant but the shared
      builder's earlier value in the plain one. An intermediate variable
      takes the halved sum of its parents' values and the mean of their step
      sizes. */
  lemma RecombineDrawsFrom(h: Host, parents: seq<Candidate>, builder: Model, g: nat, c: nat, i: nat)
    requires 1 < |parents| && AllShaped(h.layouts, parents) && Conforms(h.layouts, builder)
    requires h.recombination != NoRecombination && i < |h.layouts|
    requires !RecombineDrawFails(h, |parents|, g, c)
    ensures PairOf(h, |parents|, g, c, i).Some?
    ensures var p := PairOf(h, |parents|, g, c, i).value;
      var r := Recombine(h, parents, builder, g, c).value;
      var first := parents[p.0];
      var second := parents[p.1];
      && r.child.model == r.builder
      && (h.recombination == DiscreteRecombination ==>
            r.builder[i] == if h.coins(g, c, i) then second.model[i] else builder[i])
      && (h.recombination == GlobalDiscreteRecombination ==>
            r.builder[i] == if h.coins(g, c, i) then second.model[i] else first.model[i])
      && (h.recombination in {IntermediateRecombination, GlobalIntermediateRecombination} ==>
            && r.child.stdDevs[i] == (first.stdDevs[i] + second.stdDevs[i]) / 2.0
            && (h.layouts[i] == Other ==> r.builder[i] == builder[i])
            && (h.layouts[i] != Other ==> Some(r.builder[i]) == HalfOfSum(first.model[i], second.model[i])))
  {
    var r := Recombine(h, parents, builder, g, c).value;
    if OnePairPerChild(h) {
      OnePairDrawsFrom(h, parents, builder, g, c, i, PairOf(h, |parents|, g, c, 0).value, r);
    } else {
      var ps := PairsFor(h, |parents|, g, c, |h.layouts|).value;
      assert Some(ps[i]) == PairOf(h, |parents|, g, c, i);
      var p := PairOf(h, |parents|, g, c, i).value;
      if h.recombination == GlobalDiscreteRecombination {
        GlobalDiscreteDrawsFrom(h, parents, builder, g, c, i, p, r);
      } else {
        GlobalIntermediateDrawsFrom(h, parents, builder, g, c, i, p, r);
      }
    }
  }

  lemma OnePairDrawsFrom(h: Host, parents: seq<Candidate>, builder: Model, g: nat, c: nat, i: nat,
                         p: (nat, nat), r: Bred)
    requires 1 < |parents| && AllShaped(h.layouts, parents) && Conforms(h.layouts, builder)
    requires OnePairPerChild(h) && i < |h.layouts|
    requires PairOf(h, |parents|, g, c, 0) == Some(p) && RecombineOnePair(h, parents, builder, g, c) == Some(r)
    ensures PairOf(h, |parents|, g, c, i) == Some(p)
    ensures r.child.model == r.builder
    ensures h.recombination == DiscreteRecombination ==>
              r.builder[i] == if h.coins(g, c, i) then parents[p.1].model[i] else builder[i]
    ensures h.recombination == IntermediateRecombination ==>
              && r.child.stdDevs[i] == (parents[p.0].stdDevs[i] + parents[p.1].stdDevs[i]) / 2.0
              && (h.layouts[i] == Other ==> r.builder[i] == builder[i])
              && (h.layouts[i] != Other ==> Some(r.builder[i]) == HalfOfSum(parents[p.0].model[i], parents[p.1].model[i]))
  {
    if h.recombination == IntermediateRecombination {
      var ps := seq(|h.layouts|, _ => p);
      assert ps[i] == p;
      assert r == Mix(h.layouts, parents, builder, ps);
    }
  }

  lemma GlobalDiscreteDrawsFrom(h: Host, parents: seq<Candidate>, builder: Model, g: nat, c: nat, i: nat,
                                p: (nat, nat), r: Bred)
    requires 1 < |parents| && AllShaped(h.layouts, parents) && Conforms(h.layouts, builder)
    requires h.recombination == GlobalDiscreteRecombination && i < |h.layouts|
    requires PairOf(h, |parents|, g, c, i) == Some(p)
    requires RecombinePerVariable(h, parents, builder, g, c) == Some(r)
    ensures r.child.model == r.builder
    ensures r.builder[i] == if h.coins(g, c, i) then parents[p.1].model[i] else parents[p.0].model[i]
  {
    var ps := PairsFor(h, |parents|, g, c, |h.layouts|).value;
    assert ps[i] == p by {
      assert Some(ps[i]) == PairOf(h, |parents|, g, c, i);
    }
    assert r == Pick(h.layouts, parents, builder, ps, Coins(h, g, c));
  }

  lemma GlobalIntermediateDrawsFrom(h: Host, parents: seq<Candidate>, builder: Model, g: nat, c: nat, i: nat,
                                    p: (nat, nat), r: Bred)
    requires 1 < |parents| && AllShaped(h.layouts, parents) && Conforms(h.layouts, builder)
    requires h.recombination == GlobalIntermediateRecombination && i < |h.layouts|
    requires PairOf(h, |parents|, g, c, i) == Some(p)
    requires RecombinePerVariable(h, parents, builder, g, c) == Some(r)
    ensures r.child.model == r.builder
    ensures r.child.stdDevs[i] == (parents[p.0].stdDevs[i] + parents[p.1].stdDevs[i]) / 2.0
    ensures h.layouts[i] == Other ==> r.builder[i] == builder[i]
    ensures h.layouts[i] != Other ==> Some(r.builder[i]) == HalfOfSum(parents[p.0].model[i], parents[p.1].model[i])
  {
    var ps := PairsFor(h, |parents|, g, c, |h.layouts|).value;
    assert ps[i] == p by {
      assert Some(ps[i]) == PairOf(h, |parents|, g, c, i);
    }
    assert r == Mix(h.layouts, parents, builder, ps);
  }

  /** `Mutate` for child `c` of generation `g`: the mutation replaces the
      shared builder by one over the mutated child. */
  function Mutate(h: Host, child: Candidate, builder: Model, g: nat, c: nat): (r: Bred)
    requires Shaped(h.layouts, child) && Conforms(h.layouts, builder) && 0 < |h.layouts|
    ensures Shaped(h.layouts, r.child) && Conforms(h.layouts, r.builder)
    ensures h.mutation == NoMutation ==> r == Bred(child, builder)
  {
    match h.mutation
    case NoMutation => Bred(child, builder)
    case SingleStdDev =>
      SingleMutation(h.layouts, child, h.factors(g, c, 0), Samples(h, h.gauss, g, c))
    case MultiStdDev =>
      MultiMutation(h.layouts, child, Samples(h, h.factors, g, c), Samples(h, h.gauss, g, c))
  }

  /** Whether children are bred by recombination rather than copied. */
  predicate Recombining(h: Host, parents: seq<Candidate>)
  {
    1 < |parents| && h.recombination != NoRecombination
  }

  /** Child `c` of generation `g`: recombined and mutated, or a mutated copy
      of parent `c mod mu`. */
  function Child(h: Host, parents: seq<Candidate>, builder: Model, g: nat, c: nat): (r: Option<Bred>)
    requires 0 < |parents| && AllShaped(h.layouts, parents) && Conforms(h.layouts, builder) && 0 < |h.layouts|
    ensures r.Some? ==> Shaped(h.layouts, r.value.child) && Conforms(h.layouts, r.value.builder)
    ensures !Recombining(h, parents) ==> r == Some(Mutate(h, parents[c % |parents|], builder, g, c))
  {
    if Recombining(h, parents) then
      match Recombine(h, parents, builder, g, c)
      case None => None
      case Some(b) => Some(Mutate(h, b.child, b.builder, g, c))
    else
      Some(Mutate(h, parents[c % |parents|], builder, g, c))
  }

  /** The first `count` children of generation `g` and the builder after
      them; `None` when the index draws run out. */
  function Breed(h: Host, parents: seq<Candidate>, builder: Model, g: nat, count: nat): (r: Option<(seq<Candidate>, Model)>)
    requires 0 < |parents| && AllShaped(h.layouts, parents) && Conforms(h.layouts, builder) && 0 < |h.layouts|
    ensures r.Some? ==> |r.value.0| == count && AllShaped(h.layouts, r.value.0) && Conforms(h.layouts, r.value.1)
    ensures !Recombining(h, parents) ==> r.Some?
    decreases count
  {
    if count == 0 then Some(([], builder))
    else
      match Breed(h, parents, builder, g, count - 1)
      case None => None
      case Some((kids, b)) =>
        match Child(h, parents, b, g, count - 1)
        case None => None
        case Some(bred) => Some((kids + [bred.child], bred.builder))
  }

  /** What holds between generations: `mu` well-formed parents whose
      recorded fitness is their model's, a conforming builder, and
      the evaluations `Spent` so far. */
  predicate Ready(h: Host, s: State)
  {
    && 0 < |h.layouts| && 0 < h.populationSize
    && |s.parents| == h.populationSize
    && AllShaped(h.layouts, s.parents)
    && (forall k :: 0 <= k < |s.parents| ==> Rated(h, s.parents[k]))
    && Conforms(h.layouts, s.builder)
    && s.evaluations == Spent(h, s.generation)
  }

  /** One generation: breed, evaluate, select. `None` when the index draws
      run out. */
  function Generation(h: Host, s: State): (r: Option<State>)
    requires Ready(h, s)
    ensures r.Some? ==> Ready(h, r.value) && r.value.generation == s.generation + 1
    ensures r.Some? ==> r.value.evaluations == s.evaluations + h.offspringSize && r.value.polls == s.polls
    ensures !Recombining(h, s.parents) ==> r.Some?
    ensures r.None? <==> Breed(h, s.parents, s.builder, s.generation, h.offspringSize).None?
  {
    var bred := Breed(h, s.parents, s.builder, s.generation, h.offspringSize);
    if bred.None? then None
    else
      NextReady(h, s, bred.value.0, bred.value.1);
      Some(Next(h, s, bred.value.0, bred.value.1))
  }

  /** The state after the children `kids` are scored and survivors chosen. */
  function Next(h: Host, s: State, kids: seq<Candidate>, b: Model): State
  {
    State(Select(s.parents, Evaluate(h, kids), h.offspringOnly), b,
          s.evaluations + h.offspringSize, s.polls, s.generation + 1)
  }

  lemma NextReady(h: Host, s: State, kids: seq<Candidate>, b: Model)
    requires Ready(h, s) && |kids| == h.offspringSize
    requires AllShaped(h.layouts, kids) && Conforms(h.layouts, b)
    ensures Ready(h, Next(h, s, kids, b))
  {
    var scored := Evaluate(h, kids);
    EvaluateRates(h, kids);
    var next := Select(s.parents, scored, h.offspringOnly);
    forall k | 0 <= k < |next|
      ensures Shaped(h.layouts, next[k]) && Rated(h, next[k])
    {
      SurvivorKeepsShape(h, s.parents, scored, k);
    }
  }

  /** A survivor is a parent or a scored child, so it is well-formed and
      rated like them. */
  lemma SurvivorKeepsShape(h: Host, parents: seq<Candidate>, scored: seq<Candidate>, k: nat)
    requires AllShaped(h.layouts, parents) && AllShaped(h.layouts, scored)
    requires forall j :: 0 <= j < |parents| ==> Rated(h, parents[j])
    requires forall j :: 0 <= j < |scored| ==> Rated(h, scored[j])
    requires k < |parents|
    ensures Shaped(h.layouts, Select(parents, scored, h.offspringOnly)[k])
    ensures Rated(h, Select(parents, scored, h.offspringOnly)[k])
  {
    var x := Select(parents, scored, h.offspringOnly)[k];
    SurvivorFromPool(parents, scored, h.offspringOnly, k);
    var j :| 0 <= j < |parents + scored| && (parents + scored)[j] == x;
    if j < |parents| {
      assert x == parents[j];
    } else {
      assert x == scored[j - |parents|];
    }
  }

  /** The evaluations spent after `g` generations: the initial population,
      then one per child. */
  function Spent(h: Host, g: nat): (r: nat)
    ensures r == h.populationSize + g * h.offspringSize
  {
    if g == 0 then h.populationSize else Spent(h, g - 1) + h.offspringSize
  }

  /** Scoring keeps each individual's shape and records its model's fitness. */
  lemma EvaluateRates(h: Host, kids: seq<Candidate>)
    requires AllShaped(h.layouts, kids)
    ensures AllShaped(h.layouts, Evaluate(h, kids))
    ensures forall k :: 0 <= k < |kids| ==> Rated(h, Evaluate(h, kids)[k])
  {
    var scored := Evaluate(h, kids);
    forall k | 0 <= k < |scored|
      ensures Shaped(h.layouts, scored[k])
    {
      assert Shaped(h.layouts, kids[k]);
    }
  }

  /** With plus selection the best parent never gets worse: after a
      generation the first parent is at least as fit as every parent before
      it and every child scored in it. */
  lemma GenerationIsElitist(h: Host, s: State, kids: seq<Candidate>, b: Model, p: Candidate)
    requires Ready(h, s) && !h.offspringOnly
    requires p in s.parents || p in Evaluate(h, kids)
    ensures NotWorse(Next(h, s, kids, b).parents[0], p)
  {
    PlusSelectionIsElitist(s.parents, Evaluate(h, kids));
  }

  // ---------------------------------------------------------------------------
  // The run.

  /** `Terminate`: the first parent the host accepts wins, then the clock,
      then the fitness budget. */
  function Terminate(h: Host, s: State): (r: (State, Option<Outcome>))
    ensures r.0 == s.(polls := s.polls + 1)
    ensures r.1 == Verdict(FirstValid(Models(s.parents), h.valid), h.timedOut(s.polls), s.evaluations, h.budget)
  {
    (s.(polls := s.polls + 1),
     Verdict(FirstValid(Models(s.parents), h.valid), h.timedOut(s.polls), s.evaluations, h.budget))
  }

  function Models(cs: seq<Candidate>): (r: seq<Model>)
    ensures |r| == |cs| && forall k :: 0 <= k < |cs| ==> r[k] == cs[k].model
  {
    seq(|cs|, k requires 0 <= k < |cs| => cs[k].model)
  }

  /** The meaning of a verdict reached in state `s`. */
  predicate VerdictHolds(h: Host, s: State, o: Outcome)
  {
    && 0 < s.polls
    && (o.Success? ==> h.valid(o.model) && exists k :: 0 <= k < |s.parents| && s.parents[k].model == o.model)
    && (o.Timeout? ==> h.timedOut(s.polls - 1))
    && (o == NoModelFound ==> s.evaluations >= h.budget)
  }

  lemma PollFacts(h: Host, s: State)
    ensures var r := Terminate(h, s);
      && (r.1.None? ==> s.evaluations < h.budget)
      && (r.1.Some? ==> VerdictHolds(h, r.0, r.1.value))
  {
    var r := Terminate(h, s);
    if r.1.Some? && r.1.value.Success? {
      var k :| 0 <= k < |Models(s.parents)| && Models(s.parents)[k] == r.1.value.model;
      assert s.parents[k].model == r.1.value.model;
    }
  }

  /** `Evolve`: the initial population is created and scored, then
      generations follow until `Terminate` gives a verdict. */
  method Evolve(h: Host) returns (stop: Stop, s: State)
    requires HostOk(h) && 0 < |h.layouts| && 0 < h.offspringSize
    ensures stop == ByteOverflow <==> exists k :: 0 <= k < h.populationSize && Overflows(h, k)
    ensures stop == EmptyPopulation ==> h.populationSize == 0
    ensures stop == DrawsExhausted ==> 1 < h.populationSize && h.recombination != NoRecombination
    ensures stop.Finished? ==> VerdictHolds(h, s, stop.outcome)
    ensures stop.Finished? ==> AllShaped(h.layouts, s.parents)
    ensures stop.Finished? && 0 < h.populationSize ==> Ready(h, s)
  {
    s := State([], h.initial, 0, 0, 0);
    var init := InitialPopulation(h, h.initial, h.populationSize);
    if init.None? {
      return ByteOverflow, s;
    }
    s := Started(h, init.value.0, init.value.1);
    StartedShaped(h, init.value.0, init.value.1);
    PollFacts(h, s);
    var polled := Terminate(h, s);
    var verdict := polled.1;
    s := polled.0;
    if h.populationSize == 0 {
      if verdict.None? {
        return EmptyPopulation, s;
      }
      return Finished(verdict.value), s;
    }
    stop, s := Generations(h, s, verdict);
  }

  /** The state once the initial population is scored and copied as the
      parents. */
  function Started(h: Host, pop: seq<Candidate>, b: Model): State
  {
    State(Evaluate(h, pop), b, h.populationSize, 0, 0)
  }

  lemma StartedShaped(h: Host, pop: seq<Candidate>, b: Model)
    requires HostOk(h) && 0 < |h.layouts|
    requires |pop| == h.populationSize && AllShaped(h.layouts, pop) && Conforms(h.layouts, b)
    ensures AllShaped(h.layouts, Started(h, pop, b).parents)
    ensures 0 < h.populationSize ==> Ready(h, Started(h, pop, b))
  {
    EvaluateRates(h, pop);
  }

  /** The generations of `Evolve`, from a first poll of the host until
      `Terminate` gives a verdict. */
  method Generations(h: Host, s0: State, v0: Option<Outcome>) returns (stop: Stop, s: State)
    requires Ready(h, s0) && 0 < h.offspringSize
    requires v0.None? ==> s0.evaluations < h.budget
    requires v0.Some? ==> VerdictHolds(h, s0, v0.value)
    ensures Ready(h, s)
    ensures stop == DrawsExhausted ==> Recombining(h, s.parents)
    ensures stop != ByteOverflow && stop != EmptyPopulation
    ensures stop.Finished? ==> VerdictHolds(h, s, stop.outcome)
  {
    s := s0;
    var verdict := v0;
    while verdict.None?
      invariant Ready(h, s)
      invariant verdict.None? ==> s.evaluations < h.budget
      invariant verdict.Some? ==> VerdictHolds(h, s, verdict.value)
      decreases h.budget - s.evaluations
    {
      var next := Generation(h, s);
      if next.None? {
        return DrawsExhausted, s;
      }
      s := next.value;
      PollFacts(h, s);
      var polled := Terminate(h, s);
      s, verdict := polled.0, polled.1;
    }
    stop := Finished(verdict.value);
  }

  /** `TryGetArithmeticModel`: without variables there is nothing to evolve. */
  method TryGetArithmeticModel(h: Host) returns (stop: Stop, s: State)
    requires HostOk(h) && 0 < h.offspringSize
    ensures |h.layouts| == 0 ==> stop == Finished(NoModelFound)
    ensures stop.Finished? && stop.outcome.Success? ==>
      h.valid(stop.outcome.model) && Conforms(h.layouts, stop.outcome.model)
    ensures stop.Finished? && stop.outcome.Timeout? ==> 0 < s.polls && h.timedOut(s.polls - 1)
    ensures stop == Finished(NoModelFound) && 0 < |h.layouts| ==> s.evaluations >= h.budget
    ensures stop == ByteOverflow ==> exists k, i :: 0 <= k < h.populationSize && 0 <= i < |h.layouts|
                                       && h.layouts[i] == I1 && h.start(k, i) < 0
  {
    if |h.layouts| == 0 {
      return Finished(NoModelFound), State([], h.initial, 0, 0, 0);
    }
    stop, s := Evolve(h);
    if stop.Finished? && stop.outcome.Success? {
      var k :| 0 <= k < |s.parents| && s.parents[k].model == stop.outcome.model;
      assert Shaped(h.layouts, s.parents[k]);
    }
  }
}
