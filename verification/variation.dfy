/**
 The evolution strategy's variation operators: drawing two distinct parents,
 the four recombinations and the two self-adaptive mutations.

 Recombination and mutation work through the solver's one shared model
 builder: values are offered to it with `TryAssign`, and a child's model is a
 snapshot of the builder afterwards. Each operator therefore takes the
 builder as it stands and returns the child together with the builder it
 leaves behind (`Bred`). Random draws arrive as arguments: the coin flips,
 the parent-index draws, the Gaussian samples and the step-size factors
 `exp(...)` are computed by the caller's host.
 */
module Variation {
  import opened Values
  import opened Scalar
  import opened Fitness
  import opened Population

  /** A child and the shared builder after producing it. */
  datatype Bred = Bred(child: Candidate, builder: Model)

  // ---------------------------------------------------------------------------
  // Choosing two parents.

  /** The position of the first draw at or after `from` that, reduced to
      `[0, mu)`, differs from `first`. */
  function FirstDifferent(draws: seq<nat>, from: nat, mu: nat, first: nat): (r: Option<nat>)
    requires mu > 0
    ensures r.Some? ==> from <= r.value < |draws| && draws[r.value] % mu != first
    ensures r.Some? ==> forall k :: from <= k < r.value ==> draws[k] % mu == first
    ensures r.None? ==> forall k :: from <= k < |draws| ==> draws[k] % mu == first
    decreases |draws| - from
  {
    if from >= |draws| then None
    else if draws[from] % mu != first then Some(from)
    else FirstDifferent(draws, from + 1, mu, first)
  }

  /** `GenerateTwoIndeces`: the first index is the first draw of
      `Next(0, mu)`, and the second is drawn again until it differs. Each
      draw is a natural number reduced modulo `mu`. When the draws run out
      before a different index appears there is no pair. */
  function GenerateTwoIndeces(draws: seq<nat>, mu: nat): (r: Option<(nat, nat)>)
    requires mu > 0
    ensures r.Some? ==> r.value.0 < mu && r.value.1 < mu && r.value.0 != r.value.1
    ensures r.Some? ==> |draws| > 0 && r.value.0 == draws[0] % mu
    ensures r.Some? ==> exists j :: 1 <= j < |draws| && r.value.1 == draws[j] % mu
                          && forall k :: 1 <= k < j ==> draws[k] % mu == r.value.0
    ensures r.None? <==> |draws| == 0 || forall k :: 1 <= k < |draws| ==> draws[k] % mu == draws[0] % mu
  {
    if |draws| == 0 then None
    else match FirstDifferent(draws, 1, mu, draws[0] % mu)
      case None => None
      case Some(j) => Some((draws[0] % mu, draws[j] % mu))
  }

  /** In a population of one, no two distinct parents exist, so the redraw
      loop never ends; this is why recombination needs two parents. */
  lemma NoPairFromOneParent(draws: seq<nat>)
    ensures GenerateTwoIndeces(draws, 1).None?
  {
    forall k | 1 <= k < |draws|
      ensures draws[k] % 1 == draws[0] % 1
    {
    }
  }

  // ---------------------------------------------------------------------------
  // Recombination.

  /** Preconditions shared by the operators: parents and builder fit the
      variables. */
  predicate AllShaped(layouts: seq<Layout>, parents: seq<Candidate>)
  {
    forall k :: 0 <= k < |parents| ==> Shaped(layouts, parents[k])
  }

  /** Parent index pairs, one per variable, within the population. */
  predicate PairsWithin(pairs: seq<(nat, nat)>, mu: nat)
  {
    forall i :: 0 <= i < |pairs| ==> pairs[i].0 < mu && pairs[i].1 < mu
  }

  /** `DiscreteRecombination`: the child starts as a copy of the first parent
      (its step sizes and recorded fitness); wherever the coin shows one, the
      shared builder takes the second parent's value and the child the second
      parent's step size. The child's model is the builder's snapshot, so
      where the coin shows zero the child holds the builder's earlier value,
      which is not in general the first parent's. */
  function Discrete(layouts: seq<Layout>, p1: Candidate, p2: Candidate, builder: Model, coins: seq<bool>): (r: Bred)
    requires Shaped(layouts, p1) && Shaped(layouts, p2) && Conforms(layouts, builder)
    requires |coins| == |layouts|
    ensures r.child.model == r.builder && r.child.fitness == p1.fitness
    ensures Shaped(layouts, r.child) && Conforms(layouts, r.builder)
    ensures forall i :: 0 <= i < |layouts| ==>
      && r.builder[i] == (if coins[i] then p2.model[i] else builder[i])
      && r.child.stdDevs[i] == (if coins[i] then p2.stdDevs[i] else p1.stdDevs[i])
  {
    var n := |layouts|;
    var offers := seq(n, i requires 0 <= i < n => if coins[i] then Some(GetValue(p2.model, Var(i))) else None);
    var m := AssignEach(layouts, builder, offers);
    var sd := seq(n, i requires 0 <= i < n => if coins[i] then Abs(p2.stdDevs[i]) else p1.stdDevs[i]);
    Bred(Candidate(m, sd, p1.fitness), m)
  }

  /** Discrete recombination can produce a child that matches neither parent
      in a variable: with a coin showing zero, the child takes the value the
      shared builder still holds. */
  lemma DiscreteChildNeedNotInheritFirstParent()
    ensures var p1 := Candidate([Double(Real(1.0))], [1.0], Infeasible);
      var p2 := Candidate([Double(Real(2.0))], [1.0], Infeasible);
      var r := Discrete([R8], p1, p2, [Double(Real(3.0))], [false]);
      r.child.model[0] != p1.model[0] && r.child.model[0] != p2.model[0]
  {
    var p1 := Candidate([Double(Real(1.0))], [1.0], Infeasible);
    var p2 := Candidate([Double(Real(2.0))], [1.0], Infeasible);
    var r := Discrete([R8], p1, p2, [Double(Real(3.0))], [false]);
    assert r.builder[0] == Double(Real(3.0));
  }

  /** `GlobalDiscreteRecombination`: a new child (step sizes zero, fitness
      the sentinel) takes each variable's value and step size from one of
      that variable's own two parents, the first when the coin shows zero. */
  function Pick(layouts: seq<Layout>, parents: seq<Candidate>, builder: Model,
                pairs: seq<(nat, nat)>, coins: seq<bool>): (r: Bred)
    requires AllShaped(layouts, parents) && Conforms(layouts, builder)
    requires |pairs| == |coins| == |layouts| && PairsWithin(pairs, |parents|)
    ensures r.child.model == r.builder && r.child.fitness == Infeasible
    ensures Shaped(layouts, r.child) && Conforms(layouts, r.builder)
    ensures forall i :: 0 <= i < |layouts| ==>
      var from := parents[if coins[i] then pairs[i].1 else pairs[i].0];
      r.builder[i] == from.model[i] && r.child.stdDevs[i] == from.stdDevs[i]
  {
    var n := |layouts|;
    var offers := seq(n, i requires 0 <= i < n =>
      Some(GetValue(parents[if coins[i] then pairs[i].1 else pairs[i].0].model, Var(i))));
    var m := AssignEach(layouts, builder, offers);
    var sd := seq(n, i requires 0 <= i < n =>
      Abs(parents[if coins[i] then pairs[i].1 else pairs[i].0].stdDevs[i]));
    Bred(Candidate(m, sd, Infeasible), m)
  }

  /** `IntermediateRecombination` (one pair for every variable) and
      `GlobalIntermediateRecombination` (a pair per variable): a new child
      whose value is the halved sum of its two parents' values, in the
      variables' layout, and whose step size is the mean of theirs. */
  function Mix(layouts: seq<Layout>, parents: seq<Candidate>, builder: Model, pairs: seq<(nat, nat)>): (r: Bred)
    requires AllShaped(layouts, parents) && Conforms(layouts, builder)
    requires |pairs| == |layouts| && PairsWithin(pairs, |parents|)
    ensures r.child.model == r.builder && r.child.fitness == Infeasible
    ensures Shaped(layouts, r.child) && Conforms(layouts, r.builder)
    ensures forall i :: 0 <= i < |layouts| ==>
      var a := parents[pairs[i].0];
      var b := parents[pairs[i].1];
      && r.child.stdDevs[i] == (a.stdDevs[i] + b.stdDevs[i]) / 2.0
      && (layouts[i] == Other ==> r.builder[i] == builder[i])
      && (layouts[i] != Other ==> Some(r.builder[i]) == HalfOfSum(a.model[i], b.model[i]))
  {
    var m := AssignEach(layouts, builder, HalfSums(layouts, parents, pairs));
    HalfSumsAssigned(layouts, parents, builder, pairs, m);
    Bred(Candidate(m, MeanStdDevs(layouts, parents, pairs), Infeasible), m)
  }

  /** The builder after intermediate recombination holds the halved sums in
      every variable of a known layout. */
  lemma HalfSumsAssigned(layouts: seq<Layout>, parents: seq<Candidate>, builder: Model,
                         pairs: seq<(nat, nat)>, m: Model)
    requires AllShaped(layouts, parents) && Conforms(layouts, builder)
    requires |pairs| == |layouts| && PairsWithin(pairs, |parents|)
    requires m == AssignEach(layouts, builder, HalfSums(layouts, parents, pairs))
    ensures Conforms(layouts, m)
    ensures forall i :: 0 <= i < |layouts| ==>
      && (layouts[i] == Other ==> m[i] == builder[i])
      && (layouts[i] != Other ==> Some(m[i]) == HalfOfSum(parents[pairs[i].0].model[i], parents[pairs[i].1].model[i]))
  {
    forall i | 0 <= i < |layouts|
      ensures layouts[i] == Other ==> m[i] == builder[i]
      ensures layouts[i] != Other ==> Some(m[i]) == HalfOfSum(parents[pairs[i].0].model[i], parents[pairs[i].1].model[i])
    {
      var a := parents[pairs[i].0].model[i];
      var b := parents[pairs[i].1].model[i];
      assert Shaped(layouts, parents[pairs[i].0]) && Shaped(layouts, parents[pairs[i].1]);
      assert LayoutOf(a) == layouts[i] && LayoutOf(b) == layouts[i];
      var o := HalfSums(layouts, parents, pairs)[i];
      assert o == HalfOfSum(a, b);
      assert m[i] == if Accepts(layouts, i, o) then o.value else builder[i];
      HalfOfSumInLayout(a, b, layouts[i]);
    }
  }

  /** Two values of one layout have a halved sum in that layout, unless the
      layout is unknown. */
  lemma HalfOfSumInLayout(a: Value, b: Value, l: Layout)
    requires LayoutOf(a) == l && LayoutOf(b) == l
    ensures l == Other <==> HalfOfSum(a, b).None?
    ensures l != Other ==> LayoutOf(HalfOfSum(a, b).value) == l
  {
  }

  /** What intermediate recombination offers each variable. */
  function HalfSums(layouts: seq<Layout>, parents: seq<Candidate>, pairs: seq<(nat, nat)>): (r: seq<Option<Value>>)
    requires AllShaped(layouts, parents)
    requires |pairs| == |layouts| && PairsWithin(pairs, |parents|)
    ensures |r| == |layouts|
    ensures forall i :: 0 <= i < |layouts| ==>
      r[i] == HalfOfSum(parents[pairs[i].0].model[i], parents[pairs[i].1].model[i])
  {
    seq(|layouts|, i requires 0 <= i < |layouts| =>
      HalfOfSum(GetValue(parents[pairs[i].0].model, Var(i)), GetValue(parents[pairs[i].1].model, Var(i))))
  }

  /** The step sizes of an intermediate child: the mean of its parents'. */
  function MeanStdDevs(layouts: seq<Layout>, parents: seq<Candidate>, pairs: seq<(nat, nat)>): (r: seq<real>)
    requires AllShaped(layouts, parents)
    requires |pairs| == |layouts| && PairsWithin(pairs, |parents|)
    ensures |r| == |layouts|
    ensures forall i :: 0 <= i < |layouts| ==>
      r[i] == (parents[pairs[i].0].stdDevs[i] + parents[pairs[i].1].stdDevs[i]) / 2.0 && r[i] >= 0.0
  {
    seq(|layouts|, i requires 0 <= i < |layouts| =>
      assert Shaped(layouts, parents[pairs[i].0]) && Shaped(layouts, parents[pairs[i].1]);
      Abs(0.5 * (parents[pairs[i].0].stdDevs[i] + parents[pairs[i].1].stdDevs[i])))
  }

  /** Intermediate recombination of finite doubles gives their midpoint, so
      the child's value lies between its parents'. */
  lemma MixBetweenParents(layouts: seq<Layout>, parents: seq<Candidate>, builder: Model,
                          pairs: seq<(nat, nat)>, i: nat)
    requires AllShaped(layouts, parents) && Conforms(layouts, builder)
    requires |pairs| == |layouts| && PairsWithin(pairs, |parents|)
    requires i < |layouts| && layouts[i] == R8
    requires parents[pairs[i].0].model[i].f64.Real? && parents[pairs[i].1].model[i].f64.Real?
    ensures var x := parents[pairs[i].0].model[i].f64.r;
      var y := parents[pairs[i].1].model[i].f64.r;
      var z := Mix(layouts, parents, builder, pairs).builder[i];
      z.Double? && z.f64.Real? && (x <= y ==> x <= z.f64.r <= y) && (y <= x ==> y <= z.f64.r <= x)
  {
    var a := parents[pairs[i].0].model[i];
    var b := parents[pairs[i].1].model[i];
    assert LayoutOf(a) == R8 && LayoutOf(b) == R8;
    assert HalfOfSum(a, b) == Some(Double(Real((a.f64.r + b.f64.r) / 2.0)));
  }

  // ---------------------------------------------------------------------------
  // Mutation.

  /** Every variable offered its value moved by its step, through
      `TryAddDoubleToTerm` evaluated in the model being mutated. Only I4 and
      R8 variables can accept the sum. */
  function Displace(layouts: seq<Layout>, m: Model, steps: seq<real>): (r: Model)
    requires Conforms(layouts, m) && |steps| == |layouts|
    ensures Conforms(layouts, r)
    ensures forall i :: 0 <= i < |layouts| && layouts[i] !in {I4, R8} ==> r[i] == m[i]
    ensures forall i :: 0 <= i < |layouts| && m[i].Double? && m[i].f64.Real? ==>
      r[i] == Double(Real(m[i].f64.r + steps[i]))
    ensures forall i :: (0 <= i < |layouts| && m[i].Int?
                         && -0x8000_0000 <= Truncate(steps[i]) < 0x8000_0000
                         && -0x8000_0000 <= m[i].i + Truncate(steps[i]) < 0x8000_0000)
                        ==> r[i] == Int(m[i].i + Truncate(steps[i]))
  {
    var n := |layouts|;
    AssignEach(layouts, m, seq(n, i requires 0 <= i < n => TryAddDoubleToTerm(Var(i), steps[i], m)))
  }

  /** Steps of zero move nothing: the model is a fixed point. */
  lemma DisplaceByZero(layouts: seq<Layout>, m: Model)
    requires Conforms(layouts, m)
    ensures Displace(layouts, m, seq(|layouts|, _ => 0.0)) == m
  {
    var r := Displace(layouts, m, seq(|layouts|, _ => 0.0));
    forall i | 0 <= i < |layouts|
      ensures r[i] == m[i]
    {
      if m[i].Double? && !m[i].f64.Real? {
        var steps := seq(|layouts|, _ => 0.0);
        var offers := seq(|layouts|, k requires 0 <= k < |layouts| => TryAddDoubleToTerm(Var(k), steps[k], m));
        assert offers[i] == Some(Double(NonFinite));
      }
    }
  }

  /** `SingleStdDevMutation`: the first step size is scaled by `factor`
      (the host's `exp(learningRate * N(0, 1))`) and every variable moves by
      that step size times its own Gaussian sample. */
  function SingleMutation(layouts: seq<Layout>, c: Candidate, factor: real, gauss: seq<real>): (r: Bred)
    requires Shaped(layouts, c) && 0 < |layouts| && |gauss| == |layouts|
    ensures r.child.model == r.builder && r.child.fitness == c.fitness
    ensures Shaped(layouts, r.child)
    ensures r.child.stdDevs[0] == c.stdDevs[0] * Abs(factor)
    ensures forall i :: 1 <= i < |layouts| ==> r.child.stdDevs[i] == c.stdDevs[i]
    ensures r.builder == Displace(layouts, c.model, Times(seq(|layouts|, _ => c.stdDevs[0] * factor), gauss))
  {
    var sigma := c.stdDevs[0] * factor;
    var m := Displace(layouts, c.model, Times(seq(|layouts|, _ => sigma), gauss));
    Bred(SetStdDev(c, 0, sigma).(model := m), m)
  }

  /** The pointwise product: a step size times its Gaussian sample gives a
      variable's move, and a step size times its factor gives the new step
      size (before the magnitude is taken). */
  function Times(xs: seq<real>, ys: seq<real>): (r: seq<real>)
    requires |xs| == |ys|
    ensures |r| == |ys|
    ensures forall i :: 0 <= i < |ys| ==> r[i] == xs[i] * ys[i]
  {
    seq(|ys|, i requires 0 <= i < |ys| => xs[i] * ys[i])
  }

  function Magnitudes(xs: seq<real>): (r: seq<real>)
    ensures |r| == |xs|
    ensures forall i :: 0 <= i < |xs| ==> r[i] == Abs(xs[i])
  {
    seq(|xs|, i requires 0 <= i < |xs| => Abs(xs[i]))
  }

  /** `MultiStdDevMutation`: each step size is scaled by its own factor (the
      host's `exp(overallT + localLearningRate * N(0, 1))`) and each variable
      moves by its new step size times a Gaussian sample. */
  function MultiMutation(layouts: seq<Layout>, c: Candidate, factors: seq<real>, gauss: seq<real>): (r: Bred)
    requires Shaped(layouts, c) && |factors| == |gauss| == |layouts|
    ensures r.child.model == r.builder && r.child.fitness == c.fitness
    ensures Shaped(layouts, r.child)
    ensures forall i :: 0 <= i < |layouts| ==> r.child.stdDevs[i] == c.stdDevs[i] * Abs(factors[i])
    ensures r.builder == Displace(layouts, c.model, Times(Times(c.stdDevs, factors), gauss))
  {
    var scale := Times(c.stdDevs, factors);
    var m := Displace(layouts, c.model, Times(scale, gauss));
    ScaledMagnitudes(c.stdDevs, factors);
    Bred(Candidate(m, Magnitudes(scale), c.fitness), m)
  }

  /** Scaling a non-negative step size by a factor and taking the magnitude
      scales it by the factor's magnitude. */
  lemma ScaledMagnitudes(stdDevs: seq<real>, factors: seq<real>)
    requires |stdDevs| == |factors| && forall i :: 0 <= i < |stdDevs| ==> stdDevs[i] >= 0.0
    ensures forall i :: 0 <= i < |factors| ==>
      Magnitudes(Times(stdDevs, factors))[i] == stdDevs[i] * Abs(factors[i]) >= 0.0
  {
    forall i | 0 <= i < |factors|
      ensures Magnitudes(Times(stdDevs, factors))[i] == stdDevs[i] * Abs(factors[i]) >= 0.0
    {
      var a, b := stdDevs[i], factors[i];
      if b < 0.0 {
        assert a * b == -(a * -b);
        assert a * -b >= 0.0;
      } else {
        assert a * b >= 0.0;
      }
    }
  }

  /** A child whose step sizes have shrunk to zero no longer moves. */
  lemma ZeroStepSizesStayPut(layouts: seq<Layout>, c: Candidate, factors: seq<real>, gauss: seq<real>)
    requires Shaped(layouts, c) && |factors| == |gauss| == |layouts|
    requires forall i :: 0 <= i < |layouts| ==> c.stdDevs[i] == 0.0
    ensures MultiMutation(layouts, c, factors, gauss).child.model == c.model
  {
    var scale := Times(c.stdDevs, factors);
    var steps := Times(scale, gauss);
    forall i | 0 <= i < |layouts|
      ensures steps[i] == 0.0
    {
      assert scale[i] == 0.0 * factors[i] == 0.0;
    }
    assert steps == seq(|layouts|, _ => 0.0);
    DisplaceByZero(layouts, c.model);
  }
}
