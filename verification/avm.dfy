/**
 The alternating variable method (AVM): a hill climber that probes one
 variable at a time, first downwards then upwards, accelerates along an
 improving direction with pattern moves of doubling size, refines the step of
 floating-point variables one decimal place at a time, and restarts,
 alternately near the best model and from random bits, when no variable can be
 improved any further. Refining the step of a decimal variable throws: its
 value is formatted with a specifier that only integers accept.

 Every piece of the solver's mutable state is a field of `State`; each private
 member of the solver is a function from one state to the next, and the
 search loop is the method `TryGetArithmeticModel`. Randomness, the clock, the host's
 validity test and the formatting of numbers are fields of `Host`.
 */
module Avm {
  import opened Values
  import opened Scalar
  import opened Fitness
  import opened Search

  /** A search direction: down (-1) or up (+1). */
  type Dir = d: int | d == -1 || d == 1 witness -1

  /** What the solving context provides. Variable `i` has the declared layout
      `layouts[i]` and appears in the constraints `constraints[i]`. The clock
      is read by poll number, and random draws are indexed by restart and
      variable. */
  datatype Host = Host(
    layouts: seq<Layout>,
    constraints: seq<seq<Constraint>>,
    valid: Model -> bool,
    timedOut: nat -> bool,
    budget: int,
    unit: (nat, nat) -> real,
    bits: (nat, nat) -> Value,
    repr: Value -> string)

  predicate HostOk(h: Host)
  {
    |h.layouts| == |h.constraints|
  }

  /** The solver's fields. `precisions[i]` is the number of decimal places of
      variable `i`'s step; `precisionIndex` is the variable whose precision was
      raised last. */
  datatype State = State(
    precisions: seq<nat>,
    direction: Dir,
    lastDirection: Dir,
    index: nat,
    lastIndex: nat,
    patternMoves: nat,
    increasedPrecision: bool,
    precisionChangeSuccess: bool,
    precisionIndex: nat,
    best: Model,
    bestFitness: Score,
    builder: Model,
    currentFitness: Score,
    evaluations: nat,
    polls: nat,
    randomizeLocal: bool,
    restarts: nat)

  /** How the search ends: with the verdict of a poll, or with the
      `FormatException` that examining a decimal variable's precision throws. */
  datatype Stop = Finished(outcome: Outcome) | FormatException

  /** `ResetExplorationParameters(full)`: back to the first variable, downwards,
      with unit steps; a full reset also forgets the precision search. */
  function ResetExplorationParameters(s: State, full: bool): (r: State)
    ensures r.patternMoves == 0 && r.direction == -1 && r.lastDirection == -1
    ensures r.index == 0 && r.lastIndex == 0
    ensures full ==> !r.increasedPrecision && !r.precisionChangeSuccess && r.precisionIndex == 0
    ensures !full ==> r.increasedPrecision == s.increasedPrecision
                      && r.precisionChangeSuccess == s.precisionChangeSuccess
                      && r.precisionIndex == s.precisionIndex
    ensures r.precisions == s.precisions && r.best == s.best && r.builder == s.builder
    ensures r.bestFitness == s.bestFitness && r.evaluations == s.evaluations && r.polls == s.polls
  {
    var r := s.(patternMoves := 0, direction := -1, lastDirection := -1, index := 0, lastIndex := 0);
    if full then r.(increasedPrecision := false, precisionChangeSuccess := false, precisionIndex := 0)
    else r
  }

  /** `EvaluateCurrentModel`: scores the builder's model and keeps it as the
      best one when it is strictly fitter. */
  function EvaluateCurrentModel(h: Host, s: State): (r: (State, bool))
    ensures r.0.evaluations == s.evaluations + 1
    ensures r.0.currentFitness == FitnessOf(h.constraints, s.builder)
    ensures r.1 <==> Less(FitnessOf(h.constraints, s.builder), s.bestFitness)
    ensures r.1 ==> r.0.best == s.builder && r.0.bestFitness == r.0.currentFitness
    ensures !r.1 ==> r.0.best == s.best && r.0.bestFitness == s.bestFitness
    ensures !Less(s.bestFitness, r.0.bestFitness)
    ensures r.0 == s.(currentFitness := r.0.currentFitness, evaluations := r.0.evaluations,
                      best := r.0.best, bestFitness := r.0.bestFitness)
  {
    var current := FitnessOf(h.constraints, s.builder);
    var s' := s.(currentFitness := current, evaluations := s.evaluations + 1);
    if Less(current, s.bestFitness) then (s'.(best := s.builder, bestFitness := current), true)
    else (s', false)
  }

  /** The length of a step: `10^-precision * 2^patternMoves`. */
  function StepLength(precision: nat, patternMoves: nat): (r: real)
    ensures r > 0.0
  {
    Pow2(patternMoves) as real / Pow10(precision) as real
  }

  /** The step length scaled by `10^precision` is `2^patternMoves`. */
  lemma StepLengthScales(precision: nat, patternMoves: nat)
    ensures StepLength(precision, patternMoves) * Pow10(precision) as real == Pow2(patternMoves) as real
  {
    var d := Pow10(precision) as real;
    var m := Pow2(patternMoves) as real;
    assert m / d * d == m;
  }

  /** The step of a numeric move: `dir * 10^-precision * 2^patternMoves`. */
  function Delta(dir: Dir, precision: nat, patternMoves: nat): (r: real)
    ensures dir == 1 ==> r > 0.0
    ensures dir == -1 ==> r < 0.0
    ensures Abs(r) == StepLength(precision, patternMoves)
  {
    if dir == 1 then StepLength(precision, patternMoves) else -StepLength(precision, patternMoves)
  }

  /** `MakeNumericMove`: offers variable `i` its best value moved by the step;
      the sum has layout I4 or R8, so the builder keeps it only for variables
      of those layouts. */
  function MakeNumericMove(h: Host, s: State, dir: Dir, i: nat): (r: State)
    requires i < |s.precisions|
    ensures |r.builder| == |s.builder|
    ensures forall j :: 0 <= j < |r.builder| && j != i ==> r.builder[j] == s.builder[j]
    ensures r == s.(builder := r.builder)
    ensures i < |h.layouts| && h.layouts[i] !in {I4, R8} ==> r.builder == s.builder
    ensures var v := GetValue(s.best, Var(i));
      i < |h.layouts| && i < |s.builder| && h.layouts[i] == R8 && v.Double? && v.f64.Real?
      ==> r.builder[i] == Double(Real(v.f64.r + Delta(dir, s.precisions[i], s.patternMoves)))
    ensures var v := GetValue(s.best, Var(i));
      var t := Truncate(Delta(dir, s.precisions[i], s.patternMoves));
      i < |h.layouts| && i < |s.builder| && h.layouts[i] == I4 && v.Int?
      && -0x8000_0000 <= t < 0x8000_0000 && -0x8000_0000 <= v.i + t < 0x8000_0000
      ==> r.builder[i] == Int(v.i + t)
  {
    var delta := Delta(dir, s.precisions[i], s.patternMoves);
    match TryAddDoubleToTerm(Var(i), delta, s.best)
    case None => s
    case Some(v) => s.(builder := TryAssign(h.layouts, s.builder, i, v))
  }

  /** `ExploreNeighbourhood`: one exploratory move of the current variable in
      the current direction. Down is followed by up on the same variable; up
      is followed by down on the next variable. */
  function ExploreNeighbourhood(h: Host, s: State): (r: (State, bool))
    requires s.index < |s.precisions|
    ensures r.0.lastDirection == s.direction && r.0.lastIndex == s.index
    ensures s.direction == -1 ==> r.0.direction == 1 && r.0.index == s.index
    ensures s.direction == 1 ==> r.0.direction == -1 && r.0.index == s.index + 1
    ensures r.0.evaluations == s.evaluations + 1 && r.0.precisions == s.precisions
    ensures r.0.builder == MakeNumericMove(h, s, s.direction, s.index).builder
    ensures r.1 <==> Less(r.0.currentFitness, s.bestFitness)
    ensures !Less(s.bestFitness, r.0.bestFitness)
  {
    var moved := MakeNumericMove(h, s.(lastDirection := s.direction, lastIndex := s.index),
                                 s.direction, s.index);
    var next := if s.direction < 0 then moved.(direction := 1)
                else moved.(direction := -1, index := s.index + 1);
    EvaluateCurrentModel(h, next)
  }

  /** `MakePatternMove`: repeats the last exploratory move with a step twice
      as long as the previous pattern move's. */
  function MakePatternMove(h: Host, s: State): (r: (State, bool))
    requires s.lastIndex < |s.precisions|
    ensures r.0.patternMoves == s.patternMoves + 1
    ensures r.0.evaluations == s.evaluations + 1 && r.0.precisions == s.precisions
    ensures r.0.builder == MakeNumericMove(h, s.(patternMoves := s.patternMoves + 1),
                                           s.lastDirection, s.lastIndex).builder
    ensures r.1 <==> Less(r.0.currentFitness, s.bestFitness)
    ensures !Less(s.bestFitness, r.0.bestFitness)
  {
    var s' := s.(patternMoves := s.patternMoves + 1);
    EvaluateCurrentModel(h, MakeNumericMove(h, s', s.lastDirection, s.lastIndex))
  }

  // ---------------------------------------------------------------------------
  // Precision of floating-point and decimal steps.

  /** `String.IndexOf`: the position of the first `c` in `s`, or -1. */
  function IndexOf(s: string, c: char): (r: int)
    ensures -1 <= r < |s|
    ensures r == -1 <==> c !in s
    ensures r >= 0 ==> s[r] == c && c !in s[..r]
  {
    if |s| == 0 then -1
    else if s[0] == c then 0
    else
      var k := IndexOf(s[1..], c);
      if k == -1 then -1
      else
        assert s[..k + 1] == [s[0]] + s[1..][..k];
        k + 1
  }

  /** `CountDecimalDigits` of a formatted number: the number of characters
      other than its (first) decimal point, and the position of that point. */
  function CountDigits(text: string): (r: (nat, int))
    ensures r.1 == IndexOf(text, '.')
    ensures '.' in text ==> r.0 + 1 == |text|
    ensures '.' !in text ==> r.0 == |text|
  {
    var point := IndexOf(text, '.');
    if point != -1 then (|text| - 1, point) else (|text|, point)
  }

  /** `CountDecimalDigits`: R4 and R8 constants are formatted by the host and
      their digits counted. A decimal is formatted with the `D` specifier,
      which only integral types accept, so it throws a `FormatException`
      (`None`). Any other value counts no digits. */
  function CountDecimalDigits(h: Host, v: Value): (r: Option<(nat, int)>)
    ensures r.None? <==> v.Dec?
    ensures !(v.Single? || v.Double? || v.Dec?) ==> r == Some((0, -1))
    ensures r.Some? && (v.Single? || v.Double?) ==>
      && r.value.1 == IndexOf(h.repr(v), '.')
      && r.value.0 == |h.repr(v)| - (if r.value.1 == -1 then 0 else 1)
  {
    if v.Dec? then None
    else if v.Single? || v.Double? then Some(CountDigits(h.repr(v)))
    else Some((0, -1))
  }

  /** The number of significant decimal digits each layout can carry: 7 for
      R4, 15 for R8, 28 for decimal. */
  function DigitCap(l: Layout): (r: Option<nat>)
    ensures r.Some? <==> l in {R4, R8, Decimal}
    ensures l == R4 ==> r == Some(7)
    ensures l == R8 ==> r == Some(15)
    ensures l == Decimal ==> r == Some(28)
  {
    match l
    case R4 => Some(7)
    case R8 => Some(15)
    case Decimal => Some(28)
    case _ => None
  }

  /** `ExpandNeighbourhood`: whether one more decimal place still fits the
      layout's significant digits, counting the integer digits when the value
      is formatted with a decimal point; `None` when counting the digits
      throws. */
  function ExpandNeighbourhood(h: Host, v: Value, precision: nat): (r: Option<bool>)
    ensures r.None? <==> v.Dec?
    ensures r == Some(true) ==> LayoutOf(v) in {R4, R8}
    ensures r == Some(true) ==> precision < DigitCap(LayoutOf(v)).value
    ensures r.Some? ==>
      var digits := CountDecimalDigits(h, v).value.0;
      var point := CountDecimalDigits(h, v).value.1;
      var cap := DigitCap(LayoutOf(v));
      r.value <==> digits > 0 && cap.Some?
                   && (point == -1 ==> digits < cap.value && precision < cap.value)
                   && (point != -1 ==> point + 1 < cap.value && precision + point < cap.value)
  {
    match CountDecimalDigits(h, v)
    case None => None
    case Some(counted) =>
      var (digits, point) := counted;
      if digits == 0 then Some(false)
      else match DigitCap(LayoutOf(v))
        case None => Some(false)
        case Some(cap) =>
          Some(if point == -1 then digits < cap && precision < cap
               else point + 1 < cap && precision + point < cap)
  }

  /** `TryChangePrecision`: one decimal place more, or one less but not below
      zero; only R4, R8 and decimal variables have a precision. */
  function TryChangePrecision(increase: bool, precision: nat, l: Layout): (r: Option<nat>)
    ensures r.Some? <==> l in {R4, R8, Decimal}
    ensures r.Some? && increase ==> r.value == precision + 1
    ensures r.Some? && !increase ==> r.value == if precision > 0 then precision - 1 else 0
  {
    if l in {R4, R8, Decimal} then
      Some(if increase then precision + 1 else if precision > 0 then precision - 1 else 0)
    else None
  }

  /** Whether variable `i`'s precision can be raised. */
  predicate Expandable(h: Host, s: State, i: nat)
    requires i < |s.precisions| && i < |h.layouts|
  {
    ExpandNeighbourhood(h, GetValue(s.best, Var(i)), s.precisions[i]) == Some(true)
    && TryChangePrecision(true, s.precisions[i], h.layouts[i]).Some?
  }

  /** Whether examining variable `i` throws. */
  predicate FaultsAt(h: Host, s: State, i: nat)
    requires i < |s.precisions|
  {
    ExpandNeighbourhood(h, GetValue(s.best, Var(i)), s.precisions[i]).None?
  }

  /** Where the precision scan from `from` on stops: at the first variable
      whose precision can be raised or whose examination throws. */
  function FirstStop(h: Host, s: State, from: nat): (r: Option<nat>)
    requires |s.precisions| == |h.layouts|
    ensures r.Some? ==> from <= r.value < |s.precisions|
    ensures r.Some? ==> Expandable(h, s, r.value) || FaultsAt(h, s, r.value)
    ensures r.Some? ==> forall j :: from <= j < r.value ==> !Expandable(h, s, j) && !FaultsAt(h, s, j)
    ensures r.None? ==> forall j :: from <= j < |s.precisions| ==> !Expandable(h, s, j) && !FaultsAt(h, s, j)
    decreases |s.precisions| - from
  {
    if from >= |s.precisions| then None
    else if Expandable(h, s, from) || FaultsAt(h, s, from) then Some(from)
    else FirstStop(h, s, from + 1)
  }

  /** Where the search for a refinable variable resumes: past the variable
      whose last precision increase brought no improvement. */
  function PrecisionCursor(s: State): nat
  {
    if s.increasedPrecision && !s.precisionChangeSuccess then s.precisionIndex + 1 else s.precisionIndex
  }

  /** `TryExpandNeighbourhood`: raises the precision of the first variable
      from the cursor on that admits it; when none does, the cursor goes back
      to the first variable. `None`: a variable met on the way throws. */
  function TryExpandNeighbourhood(h: Host, s: State): (r: Option<(State, bool)>)
    requires |s.precisions| == |h.layouts|
    ensures r.None? <==> ScanFaults(h, s, PrecisionCursor(s))
    ensures var k := FirstStop(h, s, PrecisionCursor(s));
      r.Some? && r.value.1 <==> k.Some? && Expandable(h, s, k.value)
    ensures r.Some? && r.value.1 ==> var k := FirstStop(h, s, PrecisionCursor(s)).value;
      r.value.0 == s.(precisions := s.precisions[k := s.precisions[k] + 1], precisionIndex := k,
                      increasedPrecision := true, precisionChangeSuccess := false)
    ensures r.Some? && !r.value.1 ==> r.value.0 == s.(precisionIndex := 0, increasedPrecision := false,
                                                      precisionChangeSuccess := false)
  {
    var s' := s.(increasedPrecision := false, precisionChangeSuccess := false);
    match FirstStop(h, s, PrecisionCursor(s))
    case None => Some((s'.(precisionIndex := 0), false))
    case Some(k) =>
      if FaultsAt(h, s, k) then None
      else
        Some((s'.(precisions := s.precisions[k := s.precisions[k] + 1], precisionIndex := k,
                  increasedPrecision := true), true))
  }

  /** The scan throws exactly when it reaches a variable holding a decimal
      before any variable whose precision can be raised. */
  lemma ScanFaultsOnDecimal(h: Host, s: State, from: nat)
    requires |s.precisions| == |h.layouts|
    ensures ScanFaults(h, s, from) <==> DecimalBeforeExpandable(h, s, from)
  {
    var k := FirstStop(h, s, from);
    if ScanFaults(h, s, from) {
      var j := k.value;
      assert GetValue(s.best, Var(j)).Dec?;
      assert forall i :: from <= i < j ==> !Expandable(h, s, i);
    }
    if DecimalBeforeExpandable(h, s, from) {
      var j :| from <= j < |s.precisions| && GetValue(s.best, Var(j)).Dec?
               && forall i :: from <= i < j ==> !Expandable(h, s, i);
      assert FaultsAt(h, s, j);
      assert k.Some? && k.value <= j;
      assert !Expandable(h, s, k.value);
    }
  }

  /** Whether the scan from `from` on stops at a variable that throws. */
  predicate ScanFaults(h: Host, s: State, from: nat)
    requires |s.precisions| == |h.layouts|
  {
    var k := FirstStop(h, s, from);
    k.Some? && FaultsAt(h, s, k.value)
  }

  /** Some variable from `from` on holds a decimal, and no variable between
      `from` and it admits a higher precision. */
  predicate DecimalBeforeExpandable(h: Host, s: State, from: nat)
    requires |s.precisions| == |h.layouts|
  {
    exists j :: from <= j < |s.precisions| && GetValue(s.best, Var(j)).Dec?
                && forall i :: from <= i < j ==> !Expandable(h, s, i)
  }

  /** `RequiresRestart`: once every variable has been explored, the
      neighbourhood is refined if some precision can be raised, and a restart
      is needed otherwise. */
  function RequiresRestart(h: Host, s: State): (r: Option<(State, bool)>)
    requires |s.precisions| == |h.layouts|
    ensures r.None? <==> s.index >= |s.precisions| && TryExpandNeighbourhood(h, s).None?
    ensures r.Some? ==> |r.value.0.precisions| == |s.precisions|
    ensures r.Some? ==> r.value.0.best == s.best && r.value.0.builder == s.builder
                        && r.value.0.bestFitness == s.bestFitness
    ensures r.Some? ==> r.value.0.evaluations == s.evaluations && r.value.0.polls == s.polls
    ensures r.Some? ==> r.value.0.lastIndex == s.lastIndex || r.value.0.lastIndex == 0
    ensures r.Some? ==> r.value.0.restarts == s.restarts && r.value.0.randomizeLocal == s.randomizeLocal
    ensures s.index < |s.precisions| ==> r == Some((s, false))
    ensures r.Some? && r.value.1 <==>
              s.index >= |s.precisions| && TryExpandNeighbourhood(h, s).Some? && !TryExpandNeighbourhood(h, s).value.1
    ensures r.Some? && !r.value.1 && 0 < |s.precisions| ==> r.value.0.index < |s.precisions|
    ensures s.index >= |s.precisions| && TryExpandNeighbourhood(h, s).Some? && TryExpandNeighbourhood(h, s).value.1
            ==> r == Some((ResetExplorationParameters(TryExpandNeighbourhood(h, s).value.0, false), false))
    ensures r.Some? && r.value.1 ==> r.value.0 == TryExpandNeighbourhood(h, s).value.0
  {
    if s.index >= |s.precisions| then
      match TryExpandNeighbourhood(h, s)
      case None => None
      case Some((s', expanded)) =>
        if expanded then Some((ResetExplorationParameters(s', false), false)) else Some((s', true))
    else Some((s, false))
  }

  /** The most decimal places a variable of layout `l` can be given. */
  function MaxPrecision(l: Layout): nat
  {
    match DigitCap(l)
    case Some(cap) => cap
    case None => 0
  }

  /** No precision exceeds what its variable's layout can carry; variables
      that are neither R4, R8 nor decimal keep precision zero. */
  predicate PrecisionsBounded(h: Host, s: State)
  {
    |s.precisions| == |h.layouts|
    && forall i :: 0 <= i < |s.precisions| ==> s.precisions[i] <= MaxPrecision(h.layouts[i])
  }

  lemma TryExpandKeepsPrecisionsBounded(h: Host, s: State)
    requires PrecisionsBounded(h, s) && Conforms(h.layouts, s.best)
    ensures TryExpandNeighbourhood(h, s).Some? ==> PrecisionsBounded(h, TryExpandNeighbourhood(h, s).value.0)
    ensures TryExpandNeighbourhood(h, s).Some? ==>
      forall j :: 0 <= j < |h.layouts| && h.layouts[j] !in {R4, R8} ==>
        TryExpandNeighbourhood(h, s).value.0.precisions[j] == s.precisions[j]
  {
    var k := FirstStop(h, s, PrecisionCursor(s));
    if k.Some? && !FaultsAt(h, s, k.value) {
      var i := k.value;
      var v := GetValue(s.best, Var(i));
      assert ExpandNeighbourhood(h, v, s.precisions[i]) == Some(true);
      assert LayoutOf(v) == h.layouts[i];
    }
  }

  // ---------------------------------------------------------------------------
  // Restarts.

  /** The value `RandomizeInputVariableBitConverter` offers variable `i`: one
      drawn from random bits, of the variable's layout; variables of other
      layouts are left alone. */
  function RandomBits(h: Host, k: nat, i: nat): (r: Option<Value>)
    ensures r.Some? ==> r.value == h.bits(k, i)
  {
    if i < |h.layouts| && h.layouts[i] != Other then Some(h.bits(k, i)) else None
  }

  /** The jitter of a localized restart: a non-negative draw below one
      scaled to the variable's precision. */
  function Jitter(h: Host, k: nat, i: nat, precision: nat): real
  {
    h.unit(k, i) / Pow10(precision) as real
  }

  /** What `RandomizeFraction` offers variable `i`: a variable with no
      decimal places, or whose best value is neither R4, R8 nor decimal, gets
      random bits; the others get their best value plus the jitter, in their
      own layout. A decimal sum outside the decimal range is not offered. */
  function FractionOffer(h: Host, s: State, i: nat): (r: Option<Value>)
    requires i < |s.precisions|
    ensures s.precisions[i] == 0 ==> r == RandomBits(h, s.restarts, i)
    ensures var v := GetValue(s.best, Var(i));
      s.precisions[i] > 0 && LayoutOf(v) !in {R4, R8, Decimal} ==> r == RandomBits(h, s.restarts, i)
    ensures var v := GetValue(s.best, Var(i)); var j := Jitter(h, s.restarts, i, s.precisions[i]);
      s.precisions[i] > 0 && v.Single? && v.f32.Real? ==> r == Some(Single(Real(v.f32.r + j)))
    ensures var v := GetValue(s.best, Var(i)); var j := Jitter(h, s.restarts, i, s.precisions[i]);
      s.precisions[i] > 0 && v.Double? && v.f64.Real? ==> r == Some(Double(Real(v.f64.r + j)))
    ensures var v := GetValue(s.best, Var(i)); var j := Jitter(h, s.restarts, i, s.precisions[i]);
      s.precisions[i] > 0 && v.Dec? ==>
        (r.Some? <==> InDecimalRange(v.d + j)) && (r.Some? ==> r.value == Dec(v.d + j))
    ensures var v := GetValue(s.best, Var(i));
      s.precisions[i] > 0 && ((v.Single? && v.f32.NonFinite?) || (v.Double? && v.f64.NonFinite?))
      ==> r == Some(v)
  {
    var p := s.precisions[i];
    if p == 0 then RandomBits(h, s.restarts, i)
    else
      var j := Jitter(h, s.restarts, i, p);
      match GetValue(s.best, Var(i))
      case Single(f) => Some(Single(FloatAdd(f, j)))
      case Double(f) => Some(Double(FloatAdd(f, j)))
      case Dec(d) => if InDecimalRange(d + j) then Some(Dec(d + j)) else None
      case _ => RandomBits(h, s.restarts, i)
  }

  /** `RandomizeFraction`: a localized restart around the best model; each
      variable takes its offer when the builder accepts it. */
  function RandomizeFraction(h: Host, s: State): (r: Model)
    requires |s.precisions| == |s.builder|
    ensures |r| == |s.builder|
    ensures forall i :: 0 <= i < |r| ==>
      r[i] == if Accepts(h.layouts, i, FractionOffer(h, s, i)) then FractionOffer(h, s, i).value else s.builder[i]
  {
    AssignEach(h.layouts, s.builder, seq(|s.precisions|, i requires 0 <= i < |s.precisions| => FractionOffer(h, s, i)))
  }

  /** The global restart: every precision drops to zero and every variable
      gets random bits (`RandomizeInputVariablesBitConverter`). */
  function RandomizeAll(h: Host, s: State): (r: Model)
    requires |h.layouts| <= |s.builder|
    ensures |r| == |s.builder|
    ensures forall i :: 0 <= i < |r| ==>
      r[i] == if i < |h.layouts| && h.layouts[i] != Other && LayoutOf(h.bits(s.restarts, i)) == h.layouts[i]
              then h.bits(s.restarts, i) else s.builder[i]
  {
    AssignEach(h.layouts, s.builder, seq(|h.layouts|, i requires 0 <= i < |h.layouts| => RandomBits(h, s.restarts, i)))
  }

  /** One restart: local and global restarts alternate; the exploration starts
      afresh and the randomized model becomes the best one, fitter or not. */
  function Restart(h: Host, s: State): (r: State)
    requires |s.precisions| == |s.builder| == |h.layouts|
    ensures r.restarts == s.restarts + 1 && r.randomizeLocal == !s.randomizeLocal
    ensures r.evaluations == s.evaluations + 1 && r.polls == s.polls
    ensures r.best == r.builder && r.bestFitness == FitnessOf(h.constraints, r.best)
    ensures |r.builder| == |s.builder| && |r.precisions| == |s.precisions|
    ensures s.randomizeLocal ==> r.precisions == s.precisions && r.builder == RandomizeFraction(h, s)
    ensures !s.randomizeLocal ==> (forall i :: 0 <= i < |r.precisions| ==> r.precisions[i] == 0)
                                  && r.builder == RandomizeAll(h, s)
    ensures r.index == 0 && r.direction == -1 && r.patternMoves == 0
    ensures Conforms(h.layouts, s.builder) ==> Conforms(h.layouts, r.builder)
  {
    var s1 := if s.randomizeLocal then s.(builder := RandomizeFraction(h, s), randomizeLocal := false)
              else s.(precisions := seq(|s.precisions|, _ => 0), builder := RandomizeAll(h, s),
                      randomizeLocal := true);
    var s2 := ResetExplorationParameters(s1.(restarts := s.restarts + 1), true);
    var (s3, _) := EvaluateCurrentModel(h, s2.(bestFitness := Finite(0.0)));
    s3.(best := s3.builder, bestFitness := s3.currentFitness)
  }

  // ---------------------------------------------------------------------------
  // The search.

  /** `Terminate`: polls the host with the builder's model. */
  function Terminate(h: Host, s: State): (r: (State, Option<Outcome>))
    ensures r.0 == s.(polls := s.polls + 1)
    ensures r.1 == Verdict(if h.valid(s.builder) then Some(s.builder) else None,
                           h.timedOut(s.polls), s.evaluations, h.budget)
  {
    (s.(polls := s.polls + 1),
     Verdict(if h.valid(s.builder) then Some(s.builder) else None, h.timedOut(s.polls), s.evaluations, h.budget))
  }

  /** What holds at the top of every search iteration. */
  predicate Ready(h: Host, s: State)
  {
    && |s.precisions| == |h.layouts| == |s.best| == |s.builder|
    && 0 < |s.precisions|
    && s.builder == s.best
    && Conforms(h.layouts, s.best)
    && s.index <= |s.precisions| && s.lastIndex < |s.precisions|
    && PrecisionsBounded(h, s)
  }

  /** The state `TryGetArithmeticModel` starts from. */
  function InitialState(initial: Model, n: nat): (r: State)
    ensures |r.precisions| == n && r.best == initial && r.builder == initial
    ensures r.evaluations == 0 && r.polls == 0 && r.randomizeLocal
    ensures forall i :: 0 <= i < n ==> r.precisions[i] == 0
  {
    State(seq(n, _ => 0), -1, -1, 0, 0, 0, false, false, 0, initial, Infeasible,
          initial, Finite(0.0), 0, 0, true, 0)
  }

  /** `TryGetArithmeticModel` / `StartSearch`. Without variables there is
      nothing to search. Otherwise the initial model is scored, and the
      search alternates exploratory moves, pattern moves, precision increases
      and restarts until a valid model is found, the clock runs out or the
      fitness budget is spent; the host is polled after every evaluation.
      The search throws instead once a precision scan reaches a decimal
      variable; `s` is then the state the scan started from. */
  method TryGetArithmeticModel(h: Host, initial: Model) returns (stop: Stop, s: State)
    requires HostOk(h)
    requires Conforms(h.layouts, initial)
    ensures |h.layouts| == 0 ==> stop == Finished(NoModelFound) && s.evaluations == 0
    ensures stop.Finished? && stop.outcome.Success? ==>
              h.valid(stop.outcome.model) && stop.outcome.model == s.best
              && Conforms(h.layouts, stop.outcome.model)
    ensures stop == Finished(Timeout) ==> 0 < s.polls && h.timedOut(s.polls - 1)
    ensures stop == Finished(NoModelFound) && 0 < |h.layouts| ==> s.evaluations >= h.budget
    ensures PrecisionsBounded(h, s)
    ensures stop == FormatException ==>
              && s.index >= |s.precisions| && TryExpandNeighbourhood(h, s).None?
              && exists j :: 0 <= j < |h.layouts| && h.layouts[j] == Decimal
    ensures s.evaluations <= if h.budget > 1 then h.budget else 1
  {
    var n := |h.layouts|;
    s := InitialState(initial, n);
    s := ResetExplorationParameters(s, true);
    if n == 0 {
      return Finished(NoModelFound), s;
    }
    s := EvaluateCurrentModel(h, s.(bestFitness := Finite(0.0))).0;
    s := s.(bestFitness := s.currentFitness);
    PollFacts(h, s);
    var polled := Terminate(h, s);
    var verdict := polled.1;
    s := polled.0;
    while verdict.None?
      invariant Ready(h, s)
      invariant verdict.None? ==> s.evaluations < h.budget
      invariant verdict.Some? ==> VerdictHolds(h, s, verdict.value)
      invariant s.evaluations <= if h.budget > 1 then h.budget else 1
      decreases h.budget - s.evaluations
    {
      var faulted;
      s, verdict, faulted := SearchStep(h, s);
      if faulted {
        return FormatException, s;
      }
    }
    stop := Finished(verdict.value);
  }

  /** One iteration of the search loop: the precision scan when every
      variable has been probed, then a restart or an exploration step.
      `faulted`: the scan threw, and the state is the one it started from. */
  method SearchStep(h: Host, s: State) returns (s': State, verdict: Option<Outcome>, faulted: bool)
    requires Ready(h, s) && s.evaluations < h.budget
    ensures faulted <==> s.index >= |s.precisions| && TryExpandNeighbourhood(h, s).None?
    ensures faulted ==> s' == s && verdict.None?
                        && exists j :: 0 <= j < |h.layouts| && h.layouts[j] == Decimal
    ensures !faulted ==> Ready(h, s') && s.evaluations < s'.evaluations <= h.budget
    ensures !faulted && verdict.None? ==> s'.evaluations < h.budget
    ensures !faulted && verdict.Some? ==> VerdictHolds(h, s', verdict.value)
  {
    TryExpandKeepsPrecisionsBounded(h, s);
    var checked := RequiresRestart(h, s);
    if checked.None? {
      DecimalBehindFault(h, s);
      return s, None, true;
    }
    faulted := false;
    if checked.value.1 {
      s', verdict := RestartStep(h, checked.value.0);
    } else {
      s', verdict := ExploreStep(h, checked.value.0);
    }
  }

  /** A restart followed by a poll of the host. */
  method RestartStep(h: Host, s: State) returns (s': State, verdict: Option<Outcome>)
    requires |s.precisions| == |h.layouts| == |s.best| == |s.builder| && 0 < |s.precisions|
    requires s.builder == s.best && Conforms(h.layouts, s.best) && PrecisionsBounded(h, s)
    ensures s'.evaluations == s.evaluations + 1 && Ready(h, s')
    ensures verdict.None? ==> s'.evaluations < h.budget
    ensures verdict.Some? ==> VerdictHolds(h, s', verdict.value)
  {
    ReadyAfterRestart(h, s);
    s' := Restart(h, s);
    PollFacts(h, s');
    var polled := Terminate(h, s');
    s', verdict := polled.0, polled.1;
  }

  /** One exploratory move and, while it keeps improving, the pattern moves
      that follow it, each followed by a poll of the host; the builder then
      goes back to the best model. */
  method ExploreStep(h: Host, s: State) returns (s': State, verdict: Option<Outcome>)
    requires Ready(h, s) && s.index < |s.precisions|
    requires s.evaluations < h.budget
    ensures s.evaluations < s'.evaluations <= h.budget
    ensures verdict.None? ==> Ready(h, s') && s'.evaluations < h.budget
    ensures verdict.Some? ==> VerdictHolds(h, s', verdict.value) && Ready(h, s')
    ensures !Less(s.bestFitness, s'.bestFitness)
  {
    SearchingAfterExplore(h, s);
    var explored := ExploreNeighbourhood(h, s);
    s', verdict := PatternMoves(h, explored.0, explored.1);
    if verdict.Some? {
      return;
    }
    if explored.1 {
      s' := ResetExplorationParameters(s', true);
    }
    s' := s'.(builder := s'.best);
    PollFacts(h, s');
    var polled := Terminate(h, s');
    s', verdict := polled.0, polled.1;
  }

  /** The pattern moves that follow an improving exploratory move, each
      preceded by a poll of the host, until one fails to improve. */
  method PatternMoves(h: Host, s: State, improving: bool) returns (s': State, verdict: Option<Outcome>)
    requires Searching(h, s) && (improving ==> s.builder == s.best)
    requires s.evaluations <= h.budget
    ensures Searching(h, s') && s.evaluations <= s'.evaluations <= h.budget
    ensures !Less(s.bestFitness, s'.bestFitness)
    ensures verdict.Some? ==> VerdictHolds(h, s', verdict.value) && Ready(h, s')
  {
    s' := s;
    var improved := improving;
    verdict := None;
    while improved
      invariant Searching(h, s')
      invariant improved ==> s'.builder == s'.best
      invariant s.evaluations <= s'.evaluations <= h.budget
      invariant verdict.None?
      invariant !Less(s.bestFitness, s'.bestFitness)
      decreases h.budget - s'.evaluations
    {
      PollFacts(h, s');
      var polled := Terminate(h, s');
      s', verdict := polled.0, polled.1;
      if verdict.Some? {
        return;
      }
      if s'.increasedPrecision {
        s' := s'.(precisionChangeSuccess := true);
      }
      SearchingAfterPattern(h, s');
      var moved := MakePatternMove(h, s');
      s', improved := moved.0, moved.1;
    }
  }

  /** A scan that throws has met a variable declared decimal. */
  lemma DecimalBehindFault(h: Host, s: State)
    requires |s.precisions| == |h.layouts| && Conforms(h.layouts, s.best)
    requires TryExpandNeighbourhood(h, s).None?
    ensures exists j :: 0 <= j < |h.layouts| && h.layouts[j] == Decimal
  {
    var k := FirstStop(h, s, PrecisionCursor(s)).value;
    assert GetValue(s.best, Var(k)).Dec?;
    assert LayoutOf(s.best[k]) == h.layouts[k];
  }

  // ---------------------------------------------------------------------------
  // Properties of the moves and restarts.

  /** Two exploratory moves probe one variable downwards and then upwards,
      and leave the search at the next variable, going down. */
  lemma ExploreProbesDownThenUp(h: Host, s: State)
    requires s.direction == -1 && s.index < |s.precisions|
    ensures var r1 := ExploreNeighbourhood(h, s).0;
      var r2 := ExploreNeighbourhood(h, r1).0;
      && r1.lastDirection == -1 && r1.lastIndex == s.index
      && r2.lastDirection == 1 && r2.lastIndex == s.index
      && r2.direction == -1 && r2.index == s.index + 1
      && r2.precisions == s.precisions
  {
  }

  /** Each pattern move doubles the step of the one before. */
  lemma PatternStepDoubles(dir: Dir, precision: nat, patternMoves: nat)
    ensures Delta(dir, precision, patternMoves + 1) == 2.0 * Delta(dir, precision, patternMoves)
  {
    StepLengthDoubles(precision, patternMoves);
  }

  /** The step length doubles with each pattern move. */
  lemma StepLengthDoubles(precision: nat, patternMoves: nat)
    ensures StepLength(precision, patternMoves + 1) == 2.0 * StepLength(precision, patternMoves)
  {
    var m := Pow2(patternMoves) as real;
    assert Pow2(patternMoves + 1) as real == 2.0 * m;
    StepLengthScales(precision, patternMoves);
    StepLengthScales(precision, patternMoves + 1);
    DoubledQuotient(StepLength(precision, patternMoves), StepLength(precision, patternMoves + 1),
      Pow10(precision) as real, m);
  }

  /** If `q * d == m` and `q' * d == 2m` with `d` positive, then `q' == 2q`. */
  lemma DoubledQuotient(q: real, q': real, d: real, m: real)
    requires d > 0.0 && q * d == m && q' * d == 2.0 * m
    ensures q' == 2.0 * q
  {
    assert (q' - 2.0 * q) * d == 0.0;
  }

  /** The fitness of a one-variable model under the single constraint
      `x == t` is the distance `|x - t|`. */
  lemma SingleEqualityFitness(x: real, t: real)
    ensures var c := Constraint(false, Binary(Ceq, Var(0), Lit(Double(Real(t)))));
      FitnessOf([[c]], [Double(Real(x))]) == Finite(Abs(x - t))
  {
    var c := Constraint(false, Binary(Ceq, Var(0), Lit(Double(Real(t)))));
    var m := [Double(Real(x))];
    assert EvaluateConstraint(m, c) == Finite(Abs(x - t));
    assert VariableScan([c], m, {}) == [c] by {
      assert VariableScan([c][1..], m, {c}) == [];
    }
    assert Scored([[c]], m, {}) == [c] by {
      assert Scored([[c]][1..], m, SetOf([c])) == [];
    }
    var ds := Distances([c], m);
    assert ds == [Finite(Abs(x - t))];
    assert ds[..0] == [];
    assert Sum(ds) == Add(Sum([]), Finite(Abs(x - t)));
    assert Total([c], m) == Finite(Abs(x - t));
  }

  /** A double variable at `x >= 1` under the constraint `x == 0`, from unit
      steps: the first exploratory move probes `x - 1`, which is fitter, so it
      becomes the best model. */
  lemma FirstProbeDescendsToRoot(h: Host, s: State, x: real)
    requires h.layouts == [R8]
    requires h.constraints == [[Constraint(false, Binary(Ceq, Var(0), Lit(Double(Real(0.0)))))]]
    requires s.precisions == [0] && s.patternMoves == 0 && s.direction == -1 && s.index == 0
    requires s.best == [Double(Real(x))] && s.builder == s.best && s.bestFitness == Finite(x)
    requires x >= 1.0
    ensures var r := ExploreNeighbourhood(h, s);
      r.1 && r.0.best == [Double(Real(x - 1.0))] && r.0.bestFitness == Finite(x - 1.0)
  {
    var moved := MakeNumericMove(h, s.(lastDirection := -1, lastIndex := 0), -1, 0);
    assert Delta(-1, 0, 0) == -1.0;
    assert moved.builder == [Double(Real(x - 1.0))];
    SingleEqualityFitness(x - 1.0, 0.0);
  }

  /** A localized restart moves a finite float, double or decimal variable
      that has decimal places up by less than one unit of its last decimal
      place, and keeps its layout, provided the host's draw lies in [0, 1)
      and a decimal sum stays in range. */
  lemma LocalRestartJitter(h: Host, s: State, i: nat)
    requires |s.precisions| == |s.builder| == |h.layouts| && s.randomizeLocal
    requires i < |s.precisions| && i < |s.best| && s.precisions[i] > 0
    requires LayoutOf(s.best[i]) == h.layouts[i] && Numeric(s.best[i]).Some?
    requires h.layouts[i] in {R4, R8, Decimal}
    requires 0.0 <= h.unit(s.restarts, i) < 1.0
    requires s.best[i].Dec? ==> InDecimalRange(s.best[i].d + Jitter(h, s.restarts, i, s.precisions[i]))
    ensures var y := Restart(h, s).best[i]; var x := Numeric(s.best[i]).value;
      && LayoutOf(y) == h.layouts[i] && Numeric(y).Some?
      && x <= Numeric(y).value < x + 1.0 / Pow10(s.precisions[i]) as real
  {
    RandomizeFractionAt(h, s, i);
    JitteredOffer(h, s, i);
  }

  /** The offer of a localized restart to such a variable: its own layout,
      and a value less than one unit of the last decimal place above it. */
  lemma JitteredOffer(h: Host, s: State, i: nat)
    requires i < |s.precisions| && i < |s.best| && s.precisions[i] > 0
    requires i < |h.layouts| && LayoutOf(s.best[i]) == h.layouts[i] && Numeric(s.best[i]).Some?
    requires h.layouts[i] in {R4, R8, Decimal}
    requires 0.0 <= h.unit(s.restarts, i) < 1.0
    requires s.best[i].Dec? ==> InDecimalRange(s.best[i].d + Jitter(h, s.restarts, i, s.precisions[i]))
    ensures var offer := FractionOffer(h, s, i); var x := Numeric(s.best[i]).value;
      && Accepts(h.layouts, i, offer) && Numeric(offer.value).Some?
      && x <= Numeric(offer.value).value < x + 1.0 / Pow10(s.precisions[i]) as real
  {
    var p := s.precisions[i];
    var x := Numeric(s.best[i]).value;
    var j := Jitter(h, s.restarts, i, p);
    JitterBelowUnit(h.unit(s.restarts, i), p);
    var v := s.best[i];
    assert GetValue(s.best, Var(i)) == v;
    var offer := FractionOffer(h, s, i);
    if v.Single? {
      assert offer == Some(Single(Real(x + j)));
    } else if v.Double? {
      assert offer == Some(Double(Real(x + j)));
    } else {
      assert offer == Some(Dec(x + j));
    }
  }

  /** A draw in [0, 1) scaled to `precision` decimal places stays below one
      unit of the last place. */
  lemma JitterBelowUnit(u: real, precision: nat)
    requires 0.0 <= u < 1.0
    ensures 0.0 <= u / Pow10(precision) as real < 1.0 / Pow10(precision) as real
  {
    var d := Pow10(precision) as real;
    assert u / d * d == u;
    assert 1.0 / d * d == 1.0;
  }

  /** What a localized restart leaves in variable `i`. */
  lemma RandomizeFractionAt(h: Host, s: State, i: nat)
    requires |s.precisions| == |s.builder| == |h.layouts| && s.randomizeLocal
    requires i < |s.precisions|
    ensures Restart(h, s).best[i] ==
      if Accepts(h.layouts, i, FractionOffer(h, s, i)) then FractionOffer(h, s, i).value else s.builder[i]
  {
    var offers := seq(|s.precisions|, k requires 0 <= k < |s.precisions| => FractionOffer(h, s, k));
    assert offers[i] == FractionOffer(h, s, i);
    assert Restart(h, s).best == RandomizeFraction(h, s);
  }

  /** A global restart clears variable `i`'s precision and gives it the
      host's random draw when the draw has the variable's layout; otherwise
      the variable keeps its value. */
  lemma GlobalRestartDraws(h: Host, s: State, i: nat)
    requires |s.precisions| == |s.builder| == |h.layouts| && !s.randomizeLocal
    requires i < |h.layouts|
    ensures Restart(h, s).precisions[i] == 0
    ensures h.layouts[i] != Other && LayoutOf(h.bits(s.restarts, i)) == h.layouts[i]
            ==> Restart(h, s).best[i] == h.bits(s.restarts, i)
    ensures !(h.layouts[i] != Other && LayoutOf(h.bits(s.restarts, i)) == h.layouts[i])
            ==> Restart(h, s).best[i] == s.builder[i]
  {
    var offers := seq(|h.layouts|, k requires 0 <= k < |h.layouts| => RandomBits(h, s.restarts, k));
    assert offers[i] == RandomBits(h, s.restarts, i);
    assert Restart(h, s).best == RandomizeAll(h, s);
  }

  lemma PollFacts(h: Host, s: State)
    ensures var r := Terminate(h, s);
      && r.0 == s.(polls := s.polls + 1)
      && (r.1.None? ==> s.evaluations < h.budget)
      && (r.1.Some? ==> VerdictHolds(h, r.0, r.1.value))
  {
  }

  lemma ReadyAfterRestart(h: Host, s: State)
    requires |s.precisions| == |h.layouts| == |s.best| == |s.builder| && 0 < |s.precisions|
    requires s.builder == s.best && Conforms(h.layouts, s.best) && PrecisionsBounded(h, s)
    ensures Ready(h, Restart(h, s))
  {
  }

  lemma SearchingAfterExplore(h: Host, s: State)
    requires Ready(h, s) && s.index < |s.precisions|
    ensures var r := ExploreNeighbourhood(h, s);
      Searching(h, r.0) && (r.1 ==> r.0.builder == r.0.best)
  {
  }

  lemma SearchingAfterPattern(h: Host, s: State)
    requires Searching(h, s) && s.builder == s.best
    ensures var r := MakePatternMove(h, s);
      Searching(h, r.0) && (r.1 ==> r.0.builder == r.0.best)
  {
  }

  /** What holds between the moves of one exploration step. */
  predicate Searching(h: Host, s: State)
  {
    && |s.precisions| == |h.layouts| == |s.best| == |s.builder|
    && 0 < |s.precisions|
    && Conforms(h.layouts, s.best) && Conforms(h.layouts, s.builder)
    && s.index <= |s.precisions| && s.lastIndex < |s.precisions|
    && PrecisionsBounded(h, s)
  }

  /** The meaning of a verdict in the state it was reached in. */
  predicate VerdictHolds(h: Host, s: State, o: Outcome)
  {
    && 0 < s.polls
    && (o.Success? ==> h.valid(o.model) && o.model == s.builder)
    && (o.Timeout? ==> h.timedOut(s.polls - 1))
    && (o == NoModelFound ==> s.evaluations >= h.budget)
  }
}
