/**
 Scalar values as the host term library hands them to the solvers: one variant
 per memory layout (8/16/32/64-bit integers, 32/64-bit binary floating point,
 the 128-bit decimal type) plus a catch-all for layouts the solvers do not
 handle. Integer widths are kept explicit through subset types, and the
 wrap-around of fixed-width arithmetic is written out.
 */
module Values {

  datatype Option<+T> = None | Some(value: T)

  /** The layouts the solvers dispatch on. */
  datatype Layout = I1 | I2 | I4 | I8 | R4 | R8 | Decimal | Other

  /** The host reads I1 constants as an unsigned byte. */
  type U8 = x: int | 0 <= x < 0x100
  type I16 = x: int | -0x8000 <= x < 0x8000
  type I32 = x: int | -0x8000_0000 <= x < 0x8000_0000
  type I64 = x: int | -0x8000_0000_0000_0000 <= x < 0x8000_0000_0000_0000

  /** Largest magnitude of the decimal type, 2^96 - 1. */
  const DecimalMax: real := 79228162514264337593543950335.0

  type DecimalReal = r: real | -DecimalMax <= r <= DecimalMax

  /** A binary floating-point number: a finite value, or one of NaN and the infinities. */
  datatype Float = Real(r: real) | NonFinite

  datatype Value =
    | Byte(b: U8)
    | Short(s: I16)
    | Int(i: I32)
    | Long(l: I64)
    | Single(f32: Float)
    | Double(f64: Float)
    | Dec(d: DecimalReal)
    | Unknown

  function LayoutOf(v: Value): Layout
  {
    match v
    case Byte(_) => I1
    case Short(_) => I2
    case Int(_) => I4
    case Long(_) => I8
    case Single(_) => R4
    case Double(_) => R8
    case Dec(_) => Decimal
    case Unknown => Other
  }

  function Pow2(k: nat): (r: nat)
    ensures r >= 1
  {
    if k == 0 then 1 else 2 * Pow2(k - 1)
  }

  function Pow10(k: nat): (r: nat)
    ensures r >= 1
  {
    if k == 0 then 1 else 10 * Pow10(k - 1)
  }

  /** Unsigned 8-bit wrap-around: the `(byte)` cast of the source. */
  function WrapU8(x: int): (r: U8)
    ensures 0 <= x < 0x100 ==> r == x
  {
    x % 0x100
  }

  /** Two's-complement wrap-around to 16, 32 and 64 bits: the `(short)` cast of
      the source and the CLI `add`/`sub` on 32- and 64-bit stack values. */
  function WrapI16(x: int): (r: I16)
    ensures -0x8000 <= x < 0x8000 ==> r == x
  {
    (x + 0x8000) % 0x1_0000 - 0x8000
  }

  function WrapI32(x: int): (r: I32)
    ensures -0x8000_0000 <= x < 0x8000_0000 ==> r == x
  {
    (x + 0x8000_0000) % 0x1_0000_0000 - 0x8000_0000
  }

  function WrapI64(x: int): (r: I64)
    ensures -0x8000_0000_0000_0000 <= x < 0x8000_0000_0000_0000 ==> r == x
  {
    (x + 0x8000_0000_0000_0000) % 0x1_0000_0000_0000_0000 - 0x8000_0000_0000_0000
  }

  /** Sign extension of an I1 byte, as the CLI widening from int8 performs it. */
  function SignExtend8(b: U8): (r: int)
    ensures -0x80 <= r < 0x80
    ensures WrapU8(r) == b
  {
    if b < 0x80 then b else b - 0x100
  }

  /** Truncation of a real toward zero, the rounding of a C# `(int)` cast. */
  function Truncate(x: real): (r: int)
    ensures x >= 0.0 ==> r as real <= x < r as real + 1.0
    ensures x < 0.0 ==> r as real - 1.0 < x <= r as real
  {
    if x >= 0.0 then x.Floor else -((-x).Floor)
  }

  /** The `(int)` cast of a double: truncation toward zero; a value outside the
      32-bit range yields int.MinValue, the x86 "integer indefinite" result. */
  function CastToInt32(x: real): (r: I32)
    ensures -0x8000_0000 <= Truncate(x) < 0x8000_0000 ==> r == Truncate(x)
    ensures !(-0x8000_0000 <= Truncate(x) < 0x8000_0000) ==> r == -0x8000_0000
  {
    var t := Truncate(x);
    if -0x8000_0000 <= t < 0x8000_0000 then t else -0x8000_0000
  }

  function Abs(x: real): (r: real)
    ensures r >= 0.0
    ensures r == x || r == -x
  {
    if x < 0.0 then -x else x
  }

  function FloatSub(a: Float, b: Float): (r: Float)
    ensures r.Real? <==> a.Real? && b.Real?
    ensures r.Real? ==> r.r == a.r - b.r
  {
    if a.Real? && b.Real? then Real(a.r - b.r) else NonFinite
  }

  function FloatAdd(a: Float, delta: real): (r: Float)
    ensures r.Real? <==> a.Real?
    ensures r.Real? ==> r.r == a.r + delta
  {
    if a.Real? then Real(a.r + delta) else NonFinite
  }

  function InDecimalRange(x: real): bool
  {
    -DecimalMax <= x <= DecimalMax
  }
}
