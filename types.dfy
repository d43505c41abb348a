/**
 * Machine integer ranges, Go's integer conversions and division, and the
 * option/result wrappers shared by the rest of the model.
 */
module Types {

  datatype Option<+T> = None | Some(value: T)

  /** Errors the model can report; store failures carry the store's message. */
  datatype Error =
    | StoreFailure(reason: string)
    | SensorNameNotFound(name: string)
    | SliceOutOfRange
    | NetworkFailure(reason: string)
    | IndexOutOfRange

  datatype Result<+T> = Ok(value: T) | Err(error: Error)

  const TWO_8: int := 0x100
  const TWO_16: int := 0x1_0000
  const TWO_31: int := 0x8000_0000
  const TWO_32: int := 0x1_0000_0000
  const TWO_63: int := 0x8000_0000_0000_0000
  const TWO_64: int := 0x1_0000_0000_0000_0000

  type U8 = x: int | 0 <= x < 0x100
  type U16 = x: int | 0 <= x < 0x1_0000
  type U32 = x: int | 0 <= x < 0x1_0000_0000
  type U64 = x: int | 0 <= x < 0x1_0000_0000_0000_0000
  type I32 = x: int | -0x8000_0000 <= x < 0x8000_0000
  type I64 = x: int | -0x8000_0000_0000_0000 <= x < 0x8000_0000_0000_0000

  /** Two's-complement wrap-around of an int32 addition or conversion. */
  function WrapI32(x: int): (r: I32)
    ensures (x - r) % TWO_32 == 0
    ensures -TWO_31 <= x < TWO_31 ==> r == x
  {
    var y := x % TWO_32;
    if y >= TWO_31 then y - TWO_32 else y
  }

  /** Go's uint16(x) for an unsigned x: the low 16 bits. */
  function Low16(x: nat): (r: U16)
    ensures (x - r) % TWO_16 == 0
    ensures x < TWO_16 ==> r == x
  {
    x % TWO_16
  }

  /** Go's uint8(x) for an unsigned x: the low 8 bits. */
  function Low8(x: nat): (r: U8)
    ensures (x - r) % TWO_8 == 0
    ensures x < TWO_8 ==> r == x
  {
    x % TWO_8
  }

  /**
   * Go's integer division, which truncates toward zero (Dafny's `/` is
   * Euclidean and differs for a negative dividend).
   */
  function GoDiv(a: int, b: int): (q: int)
    requires b > 0
    ensures a >= 0 ==> q * b <= a < q * b + b
    ensures a < 0 ==> q * b - b < a <= q * b
  {
    if a >= 0 then a / b else -((-a) / b)
  }

  /**
   * A float64 as the model sees it: a finite value (rounding is not
   * modelled) or one of Inf/NaN, which only a division by zero produces here.
   */
  datatype Float = Finite(v: real) | NonFinite

  /** float64 division: a zero divisor gives +Inf, -Inf or NaN. */
  function Quotient(a: real, b: real): (r: Float)
    ensures r.Finite? <==> b != 0.0
    ensures r.Finite? ==> r.v * b == a
  {
    if b == 0.0 then NonFinite else Finite(a / b)
  }

  /** float64 subtraction: Inf or NaN on either side gives Inf or NaN. */
  function Minus(x: Float, y: Float): (r: Float)
    ensures r.Finite? <==> x.Finite? && y.Finite?
    ensures r.Finite? ==> r.v + y.v == x.v
  {
    if x.Finite? && y.Finite? then Finite(x.v - y.v) else NonFinite
  }
}
