/**
 The branch-distance fitness function (`EvaluateArithmeticModel` and the
 per-operator distances it dispatches to).

 A constraint arrives already decomposed by the host: its operator (`Ceq` or a
 less-than), its two operand terms, and whether it was logically negated. The
 distance of one constraint is a non-negative number, or the sentinel
 `Double.MaxValue`, modelled as `Infeasible`. The fitness of a model sums the
 distances of every distinct constraint reachable from the variables.
 */
module Fitness {
  import opened Values
  import opened Scalar

  /** The failure constant `K`: the score of a violated `!=`, the margin added
      to a violated `<` or `>=`, and the score of a constraint with no binary
      decomposition. */
  const K: real := 1.0

  /** A branch distance or a fitness: a finite double, or the sentinel. */
  datatype Score = Finite(value: real) | Infeasible

  /** `fitnessValue += distance`. `Double.MaxValue` plus a finite distance
      rounds back to `Double.MaxValue`, so the sentinel absorbs. */
  function Add(a: Score, b: Score): Score
  {
    if a.Infeasible? || b.Infeasible? then Infeasible else Finite(a.value + b.value)
  }

  /** The `<` test on doubles, with the sentinel above every finite score. */
  predicate Less(a: Score, b: Score)
  {
    match a
    case Infeasible => false
    case Finite(x) => b.Infeasible? || x < b.value
  }

  datatype Op = Ceq | Clt | CltUn

  datatype Shape = Binary(op: Op, left: Term, right: Term) | NotBinary

  /** A constraint of the path condition; `negated` is set when the host found
      it wrapped in a logical negation and `shape` is then its inner term. */
  datatype Constraint = Constraint(negated: bool, shape: Shape)

  /** The layout-computed difference `left - right`, converted to a double. */
  function Difference(left: Value, right: Value): (r: Option<Float>)
    ensures r.None? <==> TrySubtractTwoTerms(left, right).None?
  {
    match TrySubtractTwoTerms(left, right)
    case None => None
    case Some(d) => TryConvertTermToDouble(d)
  }

  function EqualsDistance(left: Value, right: Value, isNegated: bool): (r: Score)
    ensures isNegated ==> r == NotEqualsDistance(left, right)
    ensures !isNegated ==> (r.Infeasible? <==> !(Difference(left, right).Some? && Difference(left, right).value.Real?))
    ensures !isNegated && r.Finite? ==> r.value == Abs(Difference(left, right).value.r)
    ensures !isNegated && r.Finite? ==> (r.value == 0.0 <==> Difference(left, right).value.r == 0.0)
  {
    if isNegated then NotEqualsDistance(left, right)
    else
      match Difference(left, right)
      case None => Infeasible
      case Some(NonFinite) => Infeasible
      case Some(Real(d)) =>
        var distance := Abs(d);
        if distance <= 0.0 then Finite(0.0) else Finite(distance)
  }

  function NotEqualsDistance(left: Value, right: Value): (r: Score)
    ensures r.Infeasible? <==> !(Difference(left, right).Some? && Difference(left, right).value.Real?)
    ensures r.Finite? ==> (r == Finite(K) <==> Difference(left, right).value.r == 0.0)
    ensures r.Finite? ==> (r == Finite(0.0) <==> Difference(left, right).value.r != 0.0)
  {
    match Difference(left, right)
    case None => Infeasible
    case Some(NonFinite) => Infeasible
    case Some(Real(d)) =>
      if Abs(d) == 0.0 then Finite(K) else Finite(0.0)
  }

  function LessThanDistance(left: Value, right: Value, isNegated: bool): (r: Score)
    ensures isNegated ==> r == GreaterThanOrEqualsDistance(left, right)
    ensures !isNegated ==> (r.Infeasible? <==> !(Difference(left, right).Some? && Difference(left, right).value.Real?))
    ensures !isNegated && r.Finite? ==>
      var d := Difference(left, right).value.r;
      (d < 0.0 ==> r.value == 0.0) && (d >= 0.0 ==> r.value == d + K)
  {
    if isNegated then GreaterThanOrEqualsDistance(left, right)
    else
      match Difference(left, right)
      case None => Infeasible
      case Some(NonFinite) => Infeasible
      case Some(Real(d)) => if d < 0.0 then Finite(0.0) else Finite(d + K)
  }

  /** The negated less-than: the difference is taken the other way round. */
  function GreaterThanOrEqualsDistance(left: Value, right: Value): (r: Score)
    ensures r.Infeasible? <==> !(Difference(right, left).Some? && Difference(right, left).value.Real?)
    ensures r.Finite? ==>
      var d := Difference(right, left).value.r;
      (d <= 0.0 ==> r.value == 0.0) && (d > 0.0 ==> r.value == d + K)
  {
    match Difference(right, left)
    case None => Infeasible
    case Some(NonFinite) => Infeasible
    case Some(Real(d)) => if d <= 0.0 then Finite(0.0) else Finite(d + K)
  }

  /** `EvaluateConstraint`, with the operands read from the model. */
  function EvaluateConstraint(m: Model, c: Constraint): (r: Score)
    ensures r.Finite? ==> r.value >= 0.0
    ensures c.shape.NotBinary? ==> r == Finite(K)
    ensures c.shape.Binary? && c.shape.op == Ceq ==>
      r == EqualsDistance(GetValue(m, c.shape.left), GetValue(m, c.shape.right), c.negated)
    ensures c.shape.Binary? && c.shape.op != Ceq ==>
      r == LessThanDistance(GetValue(m, c.shape.left), GetValue(m, c.shape.right), c.negated)
  {
    match c.shape
    case NotBinary => Finite(K)
    case Binary(op, l, r) =>
      var left := GetValue(m, l);
      var right := GetValue(m, r);
      if op == Ceq then EqualsDistance(left, right, c.negated)
      else LessThanDistance(left, right, c.negated)
  }

  // ---------------------------------------------------------------------------
  // The order in which one evaluation scores constraints.

  function SetOf(s: seq<Constraint>): set<Constraint>
  {
    set x | x in s
  }

  predicate NoDup(s: seq<Constraint>)
  {
    forall i, j :: 0 <= i < j < |s| ==> s[i] != s[j]
  }

  /** Every constraint listed under some variable. */
  function Appearing(vars: seq<seq<Constraint>>): set<Constraint>
  {
    if |vars| == 0 then {} else SetOf(vars[0]) + Appearing(vars[1..])
  }

  predicate IsInfeasible(m: Model, c: Constraint)
  {
    EvaluateConstraint(m, c).Infeasible?
  }

  /** The constraints one variable's loop scores: a constraint already visited
      is skipped; an infeasible one is scored and ends this variable's loop. */
  function VariableScan(cs: seq<Constraint>, m: Model, visited: set<Constraint>): seq<Constraint>
    decreases |cs|
  {
    if |cs| == 0 then []
    else if cs[0] in visited then VariableScan(cs[1..], m, visited)
    else if IsInfeasible(m, cs[0]) then [cs[0]]
    else [cs[0]] + VariableScan(cs[1..], m, visited + {cs[0]})
  }

  /** The constraints the whole evaluation scores, variable by variable. */
  function Scored(vars: seq<seq<Constraint>>, m: Model, visited: set<Constraint>): seq<Constraint>
    decreases |vars|
  {
    if |vars| == 0 then []
    else
      var s := VariableScan(vars[0], m, visited);
      s + Scored(vars[1..], m, visited + SetOf(s))
  }

  /** The distances of a sequence of constraints under a model. */
  function Distances(s: seq<Constraint>, m: Model): (ds: seq<Score>)
    ensures |ds| == |s|
    ensures forall k :: 0 <= k < |s| ==> ds[k] == EvaluateConstraint(m, s[k])
  {
    seq(|s|, k requires 0 <= k < |s| => EvaluateConstraint(m, s[k]))
  }

  /** A running total, added left to right. */
  function Sum(ds: seq<Score>): Score
  {
    if |ds| == 0 then Finite(0.0) else Add(Sum(ds[..|ds| - 1]), ds[|ds| - 1])
  }

  /** The running total over a sequence of scored constraints. */
  function Total(s: seq<Constraint>, m: Model): Score
  {
    Sum(Distances(s, m))
  }

  /** The fitness of a model: the reference definition the evaluation loop is
      proved against. */
  function FitnessOf(vars: seq<seq<Constraint>>, m: Model): Score
  {
    Total(Scored(vars, m, {}), m)
  }

  /** `EvaluateArithmeticModel`: one pass over the variables' constraint lists
      with a visited set; an infeasible distance overwrites the running total
      and leaves only the current variable's loop (`ScoreConstraintsOf`). */
  method EvaluateArithmeticModel(vars: seq<seq<Constraint>>, m: Model, evaluations: nat)
    returns (fitness: Score, evaluations': nat, scored: seq<Constraint>)
    ensures evaluations' == evaluations + 1
    ensures scored == Scored(vars, m, {})
    ensures fitness == Total(scored, m)
    ensures NoDup(scored) && SetOf(scored) <= Appearing(vars)
    ensures NonNegative(fitness)
  {
    evaluations' := evaluations + 1;
    fitness := Finite(0.0);
    scored := [];
    var visited: set<Constraint> := {};
    var i := 0;
    while i < |vars|
      invariant 0 <= i <= |vars|
      invariant scored + Scored(vars[i..], m, visited) == Scored(vars, m, {})
      invariant fitness == Total(scored, m)
    {
      ghost var before := scored;
      ghost var start := visited;
      fitness, scored, visited := ScoreConstraintsOf(vars[i], m, fitness, scored, visited);
      ScoredStep(vars, i, m, start);
      AppendAssoc(before, VariableScan(vars[i], m, start), Scored(vars[i + 1..], m, visited));
      i := i + 1;
    }
    assert vars[i..] == [];
    FitnessFacts(vars, m);
  }

  /** The inner loop of `EvaluateArithmeticModel` over one variable's constraints. */
  method ScoreConstraintsOf(cs: seq<Constraint>, m: Model, fitness: Score, scored: seq<Constraint>,
                            visited: set<Constraint>)
    returns (fitness': Score, scored': seq<Constraint>, visited': set<Constraint>)
    requires fitness == Total(scored, m)
    ensures scored' == scored + VariableScan(cs, m, visited)
    ensures visited' == visited + SetOf(VariableScan(cs, m, visited))
    ensures fitness' == Total(scored', m)
  {
    fitness', scored', visited' := fitness, scored, visited;
    ghost var part: seq<Constraint> := [];
    var j := 0;
    while j < |cs|
      invariant 0 <= j <= |cs|
      invariant scored' == scored + part
      invariant part + VariableScan(cs[j..], m, visited') == VariableScan(cs, m, visited)
      invariant VisitedAfter(cs[j..], m, visited') == VisitedAfter(cs, m, visited)
      invariant fitness' == Total(scored', m)
    {
      var c := cs[j];
      ScanStep(cs, j, m, visited');
      if c in visited' {
        j := j + 1;
        continue;
      }
      visited' := visited' + {c};
      var distance := EvaluateConstraint(m, c);
      TotalSnoc(scored', c, m);
      scored' := scored' + [c];
      part := part + [c];
      if distance.Infeasible? {
        fitness' := distance;
        break;
      }
      fitness' := Add(fitness', distance);
      j := j + 1;
    }
    if j == |cs| {
      assert cs[j..] == [];
    }
    VisitedAfterIsUnion(cs, m, visited);
  }

  /** `VariableScan` and `VisitedAfter` unfolded once at position `j`. */
  lemma ScanStep(cs: seq<Constraint>, j: nat, m: Model, visited: set<Constraint>)
    requires j < |cs|
    ensures VariableScan(cs[j..], m, visited) ==
      if cs[j] in visited then VariableScan(cs[j + 1..], m, visited)
      else if IsInfeasible(m, cs[j]) then [cs[j]]
      else [cs[j]] + VariableScan(cs[j + 1..], m, visited + {cs[j]})
    ensures VisitedAfter(cs[j..], m, visited) ==
      if cs[j] in visited then VisitedAfter(cs[j + 1..], m, visited)
      else if IsInfeasible(m, cs[j]) then visited + {cs[j]}
      else VisitedAfter(cs[j + 1..], m, visited + {cs[j]})
  {
    assert cs[j..][0] == cs[j] && cs[j..][1..] == cs[j + 1..];
  }

  /** The visited set after one variable's loop, step by step. */
  function VisitedAfter(cs: seq<Constraint>, m: Model, visited: set<Constraint>): set<Constraint>
    decreases |cs|
  {
    if |cs| == 0 then visited
    else if cs[0] in visited then VisitedAfter(cs[1..], m, visited)
    else if IsInfeasible(m, cs[0]) then visited + {cs[0]}
    else VisitedAfter(cs[1..], m, visited + {cs[0]})
  }

  lemma {:induction false} VisitedAfterIsUnion(cs: seq<Constraint>, m: Model, visited: set<Constraint>)
    ensures VisitedAfter(cs, m, visited) == visited + SetOf(VariableScan(cs, m, visited))
    decreases |cs|
  {
    if |cs| > 0 {
      if cs[0] in visited {
        VisitedAfterIsUnion(cs[1..], m, visited);
      } else if !IsInfeasible(m, cs[0]) {
        VisitedAfterIsUnion(cs[1..], m, visited + {cs[0]});
        SetOfAppend([cs[0]], VariableScan(cs[1..], m, visited + {cs[0]}));
      }
    }
  }

  /** `Scored` unfolded once at position `i`. */
  lemma ScoredStep(vars: seq<seq<Constraint>>, i: nat, m: Model, visited: set<Constraint>)
    requires i < |vars|
    ensures var part := VariableScan(vars[i], m, visited);
      Scored(vars[i..], m, visited) == part + Scored(vars[i + 1..], m, visited + SetOf(part))
  {
    assert vars[i..][0] == vars[i] && vars[i..][1..] == vars[i + 1..];
  }

  lemma FitnessFacts(vars: seq<seq<Constraint>>, m: Model)
    ensures NoDup(Scored(vars, m, {})) && SetOf(Scored(vars, m, {})) <= Appearing(vars)
    ensures NonNegative(Total(Scored(vars, m, {}), m))
  {
    ScoredFacts(vars, m, {});
    TotalFacts(Scored(vars, m, {}), m);
  }

  lemma AppendAssoc(a: seq<Constraint>, b: seq<Constraint>, c: seq<Constraint>)
    ensures (a + b) + c == a + (b + c)
  {
  }

  lemma SetOfAppend(s: seq<Constraint>, t: seq<Constraint>)
    ensures SetOf(s + t) == SetOf(s) + SetOf(t)
  {
  }

  lemma TotalSnoc(s: seq<Constraint>, c: Constraint, m: Model)
    ensures Total(s + [c], m) == Add(Total(s, m), EvaluateConstraint(m, c))
  {
    var ds := Distances(s + [c], m);
    assert ds[..|s|] == Distances(s, m);
  }

  // ---------------------------------------------------------------------------
  // Properties of the scoring order.

  /** A constraint scored in one variable's loop was not visited before, is
      scored once, and only the last one scored can be infeasible; when none is
      infeasible, every unvisited constraint of the list is scored. */
  lemma {:induction false} VariableScanFacts(cs: seq<Constraint>, m: Model, visited: set<Constraint>)
    ensures var s := VariableScan(cs, m, visited);
      && NoDup(s)
      && SetOf(s) !! visited
      && SetOf(s) <= SetOf(cs)
      && (forall k :: 0 <= k < |s| - 1 ==> !IsInfeasible(m, s[k]))
      && ((forall k :: 0 <= k < |s| ==> !IsInfeasible(m, s[k])) ==> SetOf(s) == SetOf(cs) - visited)
    decreases |cs|
  {
    if |cs| == 0 {
    } else if cs[0] in visited {
      VariableScanFacts(cs[1..], m, visited);
      assert SetOf(cs) == {cs[0]} + SetOf(cs[1..]);
    } else if IsInfeasible(m, cs[0]) {
      assert VariableScan(cs, m, visited)[0] == cs[0];
    } else {
      var rest := VariableScan(cs[1..], m, visited + {cs[0]});
      VariableScanFacts(cs[1..], m, visited + {cs[0]});
      assert SetOf(cs) == {cs[0]} + SetOf(cs[1..]);
      var s := [cs[0]] + rest;
      assert SetOf(s) == {cs[0]} + SetOf(rest);
      forall k | 0 <= k < |s| - 1
        ensures !IsInfeasible(m, s[k])
      {
        if k > 0 {
          assert s[k] == rest[k - 1];
        }
      }
      if forall k :: 0 <= k < |s| ==> !IsInfeasible(m, s[k]) {
        forall k | 0 <= k < |rest|
          ensures !IsInfeasible(m, rest[k])
        {
          assert rest[k] == s[k + 1];
        }
      }
    }
  }

  lemma {:induction false} ScoredFacts(vars: seq<seq<Constraint>>, m: Model, visited: set<Constraint>)
    ensures var s := Scored(vars, m, visited);
      && NoDup(s)
      && SetOf(s) !! visited
      && SetOf(s) <= Appearing(vars)
    decreases |vars|
  {
    if |vars| > 0 {
      var head := VariableScan(vars[0], m, visited);
      VariableScanFacts(vars[0], m, visited);
      ScoredFacts(vars[1..], m, visited + SetOf(head));
      var tail := Scored(vars[1..], m, visited + SetOf(head));
      SetOfAppend(head, tail);
      NoDupAppend(head, tail);
    }
  }

  lemma NoDupAppend(a: seq<Constraint>, b: seq<Constraint>)
    requires NoDup(a) && NoDup(b) && SetOf(a) !! SetOf(b)
    ensures NoDup(a + b)
  {
    var s := a + b;
    forall i, j | 0 <= i < j < |s|
      ensures s[i] != s[j]
    {
      if j >= |a| && i < |a| {
        assert s[i] in SetOf(a);
        assert s[j] == b[j - |a|];
        assert s[j] in SetOf(b);
      } else if i >= |a| {
        assert s[i] == b[i - |a|] && s[j] == b[j - |a|];
      }
    }
  }

  predicate AnyInfeasible(s: seq<Constraint>, m: Model)
  {
    exists k :: 0 <= k < |s| && IsInfeasible(m, s[k])
  }

  /** Some unvisited reachable constraint is infeasible exactly when some
      scored constraint is. */
  lemma {:induction false} ScoredReachesInfeasible(vars: seq<seq<Constraint>>, m: Model, visited: set<Constraint>)
    ensures AnyInfeasible(Scored(vars, m, visited), m)
        <==> exists c :: c in Appearing(vars) - visited && IsInfeasible(m, c)
    ensures !AnyInfeasible(Scored(vars, m, visited), m)
        ==> SetOf(Scored(vars, m, visited)) == Appearing(vars) - visited
    decreases |vars|
  {
    if |vars| > 0 {
      var head := VariableScan(vars[0], m, visited);
      var v' := visited + SetOf(head);
      VariableScanFacts(vars[0], m, visited);
      ScoredReachesInfeasible(vars[1..], m, v');
      var tail := Scored(vars[1..], m, v');
      AnyInfeasibleAppend(head, tail, m);
      SetOfAppend(head, tail);
      if AnyInfeasible(head, m) {
        var k :| 0 <= k < |head| && IsInfeasible(m, head[k]);
        assert head[k] in SetOf(vars[0]) - visited;
      } else {
        assert SetOf(head) == SetOf(vars[0]) - visited;
        if exists c :: c in Appearing(vars) - visited && IsInfeasible(m, c) {
          var c :| c in Appearing(vars) - visited && IsInfeasible(m, c);
          assert forall x :: x in SetOf(head) ==> !IsInfeasible(m, x);
          assert c in Appearing(vars[1..]) - v';
        }
      }
    }
  }

  lemma AnyInfeasibleAppend(a: seq<Constraint>, b: seq<Constraint>, m: Model)
    ensures AnyInfeasible(a + b, m) <==> AnyInfeasible(a, m) || AnyInfeasible(b, m)
  {
    if AnyInfeasible(a + b, m) {
      var k :| 0 <= k < |a + b| && IsInfeasible(m, (a + b)[k]);
      if k >= |a| {
        assert (a + b)[k] == b[k - |a|];
      }
    }
    if AnyInfeasible(a, m) {
      var k :| 0 <= k < |a| && IsInfeasible(m, a[k]);
      assert (a + b)[k] == a[k];
    }
    if AnyInfeasible(b, m) {
      var k :| 0 <= k < |b| && IsInfeasible(m, b[k]);
      assert (a + b)[k + |a|] == b[k];
    }
  }

  predicate NonNegative(d: Score)
  {
    d.Finite? ==> d.value >= 0.0
  }

  lemma {:induction false} SumInfeasibleIff(ds: seq<Score>)
    ensures Sum(ds).Infeasible? <==> exists k :: 0 <= k < |ds| && ds[k].Infeasible?
  {
    if |ds| > 0 {
      var init := ds[..|ds| - 1];
      SumInfeasibleIff(init);
      assert forall k :: 0 <= k < |init| ==> init[k] == ds[k];
    }
  }

  lemma {:induction false} SumNonNegative(ds: seq<Score>)
    requires forall k :: 0 <= k < |ds| ==> NonNegative(ds[k])
    ensures NonNegative(Sum(ds))
  {
    if |ds| > 0 {
      SumNonNegative(ds[..|ds| - 1]);
    }
  }

  lemma {:induction false} SumZeroIff(ds: seq<Score>)
    requires forall k :: 0 <= k < |ds| ==> NonNegative(ds[k])
    ensures Sum(ds) == Finite(0.0) <==> forall k :: 0 <= k < |ds| ==> ds[k] == Finite(0.0)
  {
    if |ds| > 0 {
      var init := ds[..|ds| - 1];
      SumZeroIff(init);
      SumNonNegative(init);
    }
  }

  lemma TotalFacts(s: seq<Constraint>, m: Model)
    ensures Total(s, m).Infeasible? <==> AnyInfeasible(s, m)
    ensures NonNegative(Total(s, m))
    ensures Total(s, m) == Finite(0.0) <==> forall k :: 0 <= k < |s| ==> EvaluateConstraint(m, s[k]) == Finite(0.0)
  {
    var ds := Distances(s, m);
    SumInfeasibleIff(ds);
    SumNonNegative(ds);
    SumZeroIff(ds);
  }

  // ---------------------------------------------------------------------------
  // Properties of the fitness of a model.

  /** Each constraint is scored at most once per evaluation, even when it is
      listed under several variables, and only reachable constraints are. */
  lemma ScoredOncePerEvaluation(vars: seq<seq<Constraint>>, m: Model)
    ensures NoDup(Scored(vars, m, {}))
    ensures SetOf(Scored(vars, m, {})) <= Appearing(vars)
  {
    ScoredFacts(vars, m, {});
  }

  /** The fitness is the sentinel exactly when some reachable constraint is
      infeasible; otherwise it is a finite, non-negative sum over every
      reachable constraint. */
  lemma FitnessInfeasibleIff(vars: seq<seq<Constraint>>, m: Model)
    ensures FitnessOf(vars, m).Infeasible? <==> exists c :: c in Appearing(vars) && IsInfeasible(m, c)
    ensures FitnessOf(vars, m).Finite? ==> FitnessOf(vars, m).value >= 0.0
    ensures FitnessOf(vars, m).Finite? ==> SetOf(Scored(vars, m, {})) == Appearing(vars)
  {
    ScoredReachesInfeasible(vars, m, {});
    TotalFacts(Scored(vars, m, {}), m);
  }

  /** The fitness is zero exactly when every reachable constraint has distance zero. */
  lemma FitnessZeroIff(vars: seq<seq<Constraint>>, m: Model)
    ensures FitnessOf(vars, m) == Finite(0.0)
        <==> forall c :: c in Appearing(vars) ==> EvaluateConstraint(m, c) == Finite(0.0)
  {
    var s := Scored(vars, m, {});
    ScoredReachesInfeasible(vars, m, {});
    ScoredFacts(vars, m, {});
    TotalFacts(s, m);
    if forall c :: c in Appearing(vars) ==> EvaluateConstraint(m, c) == Finite(0.0) {
      forall k | 0 <= k < |s|
        ensures EvaluateConstraint(m, s[k]) == Finite(0.0)
      {
        assert s[k] in SetOf(s);
      }
    }
    if FitnessOf(vars, m) == Finite(0.0) {
      forall c | c in Appearing(vars)
        ensures EvaluateConstraint(m, c) == Finite(0.0)
      {
        assert c in SetOf(s);
        var k :| 0 <= k < |s| && s[k] == c;
      }
    }
  }

  // ---------------------------------------------------------------------------
  // What a distance of zero means.

  /** The layout arithmetic of both differences `l - r` and `r - l` is exact:
      no wrap-around, no overflow, no NaN or infinity. */
  predicate ExactOperands(l: Value, r: Value)
  {
    && Numeric(l).Some? && Numeric(r).Some?
    && Difference(l, r) == Some(Real(Numeric(l).value - Numeric(r).value))
    && Difference(r, l) == Some(Real(Numeric(r).value - Numeric(l).value))
  }

  /** The constraint is true of the model: its comparison on the operands'
      numbers, inverted when it is negated. A constraint without a binary
      decomposition is never counted as true. */
  predicate Holds(m: Model, c: Constraint)
  {
    match c.shape
    case NotBinary => false
    case Binary(op, lt, rt) =>
      var a := Numeric(GetValue(m, lt));
      var b := Numeric(GetValue(m, rt));
      a.Some? && b.Some?
      && (if op == Ceq then (a.value == b.value) != c.negated else (a.value < b.value) != c.negated)
  }

  /** Same-layout integers whose differences stay in range have exact
      differences. */
  lemma ExactIntegerOperands(l: Value, r: Value)
    ensures l.Short? && r.Short? && -0x8000 <= l.s - r.s < 0x8000 && -0x8000 <= r.s - l.s < 0x8000
            ==> ExactOperands(l, r)
    ensures (l.Int? && r.Int? && -0x8000_0000 <= l.i - r.i < 0x8000_0000
             && -0x8000_0000 <= r.i - l.i < 0x8000_0000) ==> ExactOperands(l, r)
    ensures (l.Long? && r.Long? && -0x8000_0000_0000_0000 <= l.l - r.l < 0x8000_0000_0000_0000
             && -0x8000_0000_0000_0000 <= r.l - l.l < 0x8000_0000_0000_0000) ==> ExactOperands(l, r)
  {
  }

  /** Finite floating-point numbers, and decimals whose difference stays in
      range, have exact differences. */
  lemma ExactRealOperands(l: Value, r: Value)
    ensures l.Double? && r.Double? && l.f64.Real? && r.f64.Real? ==> ExactOperands(l, r)
    ensures l.Single? && r.Single? && l.f32.Real? && r.f32.Real? ==> ExactOperands(l, r)
    ensures l.Dec? && r.Dec? && InDecimalRange(l.d - r.d) ==> ExactOperands(l, r)
  {
  }

  /** Unsigned bytes have exact differences only when they are equal: one of
      the two differences wraps otherwise. */
  lemma ExactByteOperandsIff(a: U8, b: U8)
    ensures ExactOperands(Byte(a), Byte(b)) <==> a == b
  {
    if a < b {
      assert WrapU8(a - b) == a - b + 0x100;
    } else if b < a {
      assert WrapU8(b - a) == b - a + 0x100;
    }
  }

  /** With exact operand arithmetic, a constraint scores zero exactly when it
      holds; otherwise `==` scores the distance between the operands, `!=`
      scores `K`, and `<` or its negation scores the overshoot plus `K`. */
  lemma DistanceZeroIffHolds(m: Model, c: Constraint)
    requires c.shape.Binary? ==> ExactOperands(GetValue(m, c.shape.left), GetValue(m, c.shape.right))
    ensures EvaluateConstraint(m, c) == Finite(0.0) <==> Holds(m, c)
    ensures c.shape.Binary? ==>
      var a := Numeric(GetValue(m, c.shape.left)).value;
      var b := Numeric(GetValue(m, c.shape.right)).value;
      && (c.shape.op == Ceq && !c.negated ==> EvaluateConstraint(m, c) == Finite(Abs(a - b)))
      && (c.shape.op == Ceq && c.negated && a == b ==> EvaluateConstraint(m, c) == Finite(K))
      && (c.shape.op != Ceq && !c.negated && a >= b ==> EvaluateConstraint(m, c) == Finite(a - b + K))
      && (c.shape.op != Ceq && c.negated && a < b ==> EvaluateConstraint(m, c) == Finite(b - a + K))
  {
  }

  /** `<` on I1 operands never scores zero: the byte difference wraps to a
      value in [0, 255], which the distance reads as "not below". */
  lemma ByteLessThanNeverZero(a: U8, b: U8)
    ensures LessThanDistance(Byte(a), Byte(b), false) == Finite(WrapU8(a - b) as real + K)
    ensures a < b ==> LessThanDistance(Byte(a), Byte(b), false) == Finite((a - b + 0x100) as real + K)
  {
    if a < b {
      assert WrapU8(a - b) == a - b + 0x100;
    }
  }

  /** When every reachable constraint has exact operand arithmetic, the
      fitness is zero exactly when every reachable constraint holds. */
  lemma FitnessZeroIffAllHold(vars: seq<seq<Constraint>>, m: Model)
    requires forall c :: c in Appearing(vars) && c.shape.Binary?
               ==> ExactOperands(GetValue(m, c.shape.left), GetValue(m, c.shape.right))
    ensures FitnessOf(vars, m) == Finite(0.0) <==> forall c :: c in Appearing(vars) ==> Holds(m, c)
  {
    FitnessZeroIff(vars, m);
    forall c | c in Appearing(vars)
      ensures EvaluateConstraint(m, c) == Finite(0.0) <==> Holds(m, c)
    {
      DistanceZeroIffHolds(m, c);
    }
  }
}
