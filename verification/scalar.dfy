/**
 Models, terms, model builders and the layout-aware arithmetic helpers the
 fitness function and both search strategies share (`TrySubtractTwoTerms`,
 `TryConvertTermToDouble`, `TryAddDoubleToTerm`, and the halving used by
 intermediate recombination).

 A model assigns one value to every variable, by position. A term is either a
 reference to a variable or a literal; the host evaluates it under a model.
 */
module Scalar {
  import opened Values

  type Model = seq<Value>

  datatype Term = Var(index: nat) | Lit(value: Value)

  /** The host's `model.GetValue(term)`. A variable outside the model has no
      numeric layout. */
  function GetValue(m: Model, t: Term): Value
  {
    match t
    case Var(i) => if i < |m| then m[i] else Unknown
    case Lit(v) => v
  }

  /** Every variable holds a value of its declared layout. */
  predicate Conforms(layouts: seq<Layout>, m: Model)
  {
    |m| == |layouts| && forall i :: 0 <= i < |m| ==> LayoutOf(m[i]) == layouts[i]
  }

  /** The builder's `TryAssign(variable, value)`: the host accepts a value only
      for a variable of the same layout; otherwise the builder is unchanged. */
  function TryAssign(layouts: seq<Layout>, builder: Model, i: nat, v: Value): (r: Model)
    ensures |r| == |builder|
    ensures forall j :: 0 <= j < |r| && j != i ==> r[j] == builder[j]
    ensures i < |builder| && i < |layouts| && LayoutOf(v) == layouts[i] ==> r[i] == v
    ensures !(i < |builder| && i < |layouts| && LayoutOf(v) == layouts[i]) ==> r == builder
    ensures Conforms(layouts, builder) ==> Conforms(layouts, r)
  {
    if i < |builder| && i < |layouts| && LayoutOf(v) == layouts[i] then builder[i := v] else builder
  }

  /** The exact number a finite value stands for (the I1 byte read unsigned). */
  function Numeric(v: Value): Option<real>
  {
    match v
    case Byte(b) => Some(b as real)
    case Short(s) => Some(s as real)
    case Int(i) => Some(i as real)
    case Long(l) => Some(l as real)
    case Single(f) => if f.Real? then Some(f.r) else None
    case Double(f) => if f.Real? then Some(f.r) else None
    case Dec(d) => Some(d)
    case Unknown => None
  }

  /** `TrySubtractTwoTerms(left, right)` on the two operands' values. The
      layout of `left` selects the arithmetic: an 8-bit difference wraps as an
      unsigned byte, a 16-bit one as a signed short, 32- and 64-bit ones wrap as
      CLI integer subtraction does, floating point keeps NaN and infinities
      non-finite. A right operand of another layout gives no difference. */
  function TrySubtractTwoTerms(left: Value, right: Value): (r: Option<Value>)
    ensures r.Some? ==> LayoutOf(r.value) == LayoutOf(left) == LayoutOf(right)
    ensures r.None? <==>
              LayoutOf(left) != LayoutOf(right) || left.Unknown?
              || (left.Dec? && right.Dec? && !InDecimalRange(left.d - right.d))
    ensures left.Byte? && right.Byte? ==> r == Some(Byte(WrapU8(left.b - right.b)))
    ensures left.Short? && right.Short? ==> r == Some(Short(WrapI16(left.s - right.s)))
  {
    match left
    case Byte(a) => if right.Byte? then Some(Byte(WrapU8(a - right.b))) else None
    case Short(a) => if right.Short? then Some(Short(WrapI16(a - right.s))) else None
    case Single(a) => if right.Single? then Some(Single(FloatSub(a, right.f32))) else None
    case Int(a) => if right.Int? then Some(Int(WrapI32(a - right.i))) else None
    case Long(a) => if right.Long? then Some(Long(WrapI64(a - right.l))) else None
    case Double(a) => if right.Double? then Some(Double(FloatSub(a, right.f64))) else None
    case Dec(a) =>
      if right.Dec? && InDecimalRange(a - right.d) then Some(Dec(a - right.d)) else None
    case Unknown => None
  }

  /** `TryConvertTermToDouble`: every layout but the unknown one converts; the
      byte is read unsigned; NaN and infinities stay non-finite. */
  function TryConvertTermToDouble(v: Value): (r: Option<Float>)
    ensures r.None? <==> v.Unknown?
    ensures r.Some? && r.value.Real? <==> Numeric(v).Some?
    ensures r.Some? && r.value.Real? ==> r.value.r == Numeric(v).value
  {
    match v
    case Byte(b) => Some(Real(b as real))
    case Short(s) => Some(Real(s as real))
    case Int(i) => Some(Real(i as real))
    case Long(l) => Some(Real(l as real))
    case Single(f) => Some(f)
    case Double(f) => Some(f)
    case Dec(d) => Some(Real(d))
    case Unknown => None
  }

  /** Decimal addition of a double: the conversion of `delta` or the sum itself
      may overflow, and the source then saturates by the sign of `delta`. */
  function SaturatingDecimalAdd(d: DecimalReal, delta: real): (r: DecimalReal)
    ensures InDecimalRange(delta) && InDecimalRange(d + delta) ==> r == d + delta
    ensures delta >= 0.0 ==> r >= d
    ensures delta < 0.0 ==> r <= d
    ensures !(InDecimalRange(delta) && InDecimalRange(d + delta)) ==>
              r == if delta < 0.0 then -DecimalMax else DecimalMax
  {
    if !InDecimalRange(delta) || !InDecimalRange(d + delta) then
      (if delta < 0.0 then -DecimalMax else DecimalMax)
    else d + delta
  }

  /** The value, under the model `m`, of the sum that `TryAddDoubleToTerm(t, delta)`
      builds. I1 and I2 are widened to I4 (the byte sign-extended, as the CLI
      widens an int8) and `delta` is cast to `int`; R4 is
      widened to R8; I4 and R8 add in their own layout; a decimal literal adds
      with saturation, while a decimal variable is not a constant and fails;
      I8 and unknown layouts fail. */
  function TryAddDoubleToTerm(t: Term, delta: real, m: Model): (r: Option<Value>)
    ensures LayoutOf(GetValue(m, t)) in {I1, I2, I4} ==> r.Some? && LayoutOf(r.value) == I4
    ensures LayoutOf(GetValue(m, t)) in {R4, R8} ==> r.Some? && LayoutOf(r.value) == R8
    ensures LayoutOf(GetValue(m, t)) in {I8, Other} ==> r.None?
    ensures LayoutOf(GetValue(m, t)) == Decimal ==> (r.Some? <==> t.Lit?)
    ensures var v := GetValue(m, t);
      v.Int? && -0x8000_0000 <= v.i + Truncate(delta) < 0x8000_0000
      && -0x8000_0000 <= Truncate(delta) < 0x8000_0000
      ==> r == Some(Int(v.i + Truncate(delta)))
    ensures var v := GetValue(m, t);
      v.Double? && v.f64.Real? ==> r == Some(Double(Real(v.f64.r + delta)))
    ensures var v := GetValue(m, t);
      v.Single? && v.f32.Real? ==> r == Some(Double(Real(v.f32.r + delta)))
    ensures var v := GetValue(m, t);
      (v.Single? && v.f32.NonFinite?) || (v.Double? && v.f64.NonFinite?) ==> r == Some(Double(NonFinite))
    ensures var v := GetValue(m, t);
      v.Short? && -0x7FFF_8000 <= Truncate(delta) < 0x7FFF_8000 ==> r == Some(Int(v.s + Truncate(delta)))
    ensures var v := GetValue(m, t);
      v.Byte? && -0x7FFF_FF80 <= Truncate(delta) < 0x7FFF_FF80
      ==> r == Some(Int(SignExtend8(v.b) + Truncate(delta)))
    ensures var v := GetValue(m, t);
      v.Dec? && t.Lit? ==> r == Some(Dec(SaturatingDecimalAdd(v.d, delta)))
  {
    var v := GetValue(m, t);
    match v
    case Byte(b) => Some(Int(WrapI32(SignExtend8(b) + CastToInt32(delta))))
    case Short(s) => Some(Int(WrapI32(s + CastToInt32(delta))))
    case Int(i) => Some(Int(WrapI32(i + CastToInt32(delta))))
    case Single(f) => Some(Double(FloatAdd(f, delta)))
    case Double(f) => Some(Double(FloatAdd(f, delta)))
    case Dec(d) => if t.Lit? then Some(Dec(SaturatingDecimalAdd(d, delta))) else None
    case Long(_) => None
    case Unknown => None
  }

  /** Whether the builder keeps an offered value for variable `i`. */
  predicate Accepts(layouts: seq<Layout>, i: nat, offer: Option<Value>)
  {
    offer.Some? && i < |layouts| && LayoutOf(offer.value) == layouts[i]
  }

  /** A loop over the variables that offers `offers[i]` to variable `i`
      through `TryAssign` (`None`: nothing is offered). Each variable ends up
      with its accepted offer, or keeps its value. */
  function AssignEach(layouts: seq<Layout>, builder: Model, offers: seq<Option<Value>>): (r: Model)
    requires |offers| <= |builder|
    ensures |r| == |builder|
    ensures forall i :: 0 <= i < |r| ==>
      r[i] == if i < |offers| && Accepts(layouts, i, offers[i]) then offers[i].value else builder[i]
    ensures Conforms(layouts, builder) ==> Conforms(layouts, r)
    decreases |offers|
  {
    if |offers| == 0 then builder
    else
      var k := |offers| - 1;
      var prefix := AssignEach(layouts, builder, offers[..k]);
      if offers[k].Some? then TryAssign(layouts, prefix, k, offers[k].value) else prefix
  }

  /** Truncating division by two, as CLI `div` on integers rounds. */
  function HalfTruncated(x: int): int
  {
    if x >= 0 then x / 2 else -((-x) / 2)
  }

  /** `DivideByTwo(Add(a, b))` of intermediate recombination: the sum in the
      operands' layout (wrapping for integers), divided by `One + One` of that
      layout. Operands of different layouts have no sum. */
  function HalfOfSum(a: Value, b: Value): (r: Option<Value>)
    ensures r.Some? <==> LayoutOf(a) == LayoutOf(b) && !a.Unknown?
    ensures r.Some? ==> LayoutOf(r.value) == LayoutOf(a)
    ensures a.Double? && b.Double? && a.f64.Real? && b.f64.Real?
            ==> r == Some(Double(Real((a.f64.r + b.f64.r) / 2.0)))
    ensures a.Dec? && b.Dec? ==> r == Some(Dec((a.d + b.d) / 2.0))
  {
    if LayoutOf(a) != LayoutOf(b) then None
    else match a
      case Byte(x) => Some(Byte(WrapU8(x + b.b) / 2))
      case Short(x) => Some(Short(WrapI16(HalfTruncated(WrapI16(x + b.s)))))
      case Int(x) => Some(Int(WrapI32(HalfTruncated(WrapI32(x + b.i)))))
      case Long(x) => Some(Long(WrapI64(HalfTruncated(WrapI64(x + b.l)))))
      case Single(x) =>
        Some(Single(if x.Real? && b.f32.Real? then Real((x.r + b.f32.r) / 2.0) else NonFinite))
      case Double(x) =>
        Some(Double(if x.Real? && b.f64.Real? then Real((x.r + b.f64.r) / 2.0) else NonFinite))
      case Dec(x) => Some(Dec((x + b.d) / 2.0))
      case Unknown => None
  }

  /** Without overflow of the 32-bit sum, the halved sum of two integers lies
      between them: the truncated mean. */
  lemma HalfOfSumIntBetween(x: I32, y: I32)
    requires -0x8000_0000 <= x + y < 0x8000_0000
    ensures HalfOfSum(Int(x), Int(y)) == Some(Int(HalfTruncated(x + y)))
    ensures x <= y ==> x <= HalfTruncated(x + y) <= y
    ensures y <= x ==> y <= HalfTruncated(x + y) <= x
  {
  }
}
