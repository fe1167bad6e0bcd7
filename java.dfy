/** Java value domains and the two small wrappers that the combinator modules share. */
module Java {

  /** Java's primitive integral types, as the ranges of values they hold. */
  type Byte = x: int | -0x80 <= x < 0x80
  type Short = x: int | -0x8000 <= x < 0x8000
  type Char = x: int | 0 <= x < 0x1_0000
  type Int = x: int | -0x8000_0000 <= x < 0x8000_0000
  type Long = x: int | -0x8000_0000_0000_0000 <= x < 0x8000_0000_0000_0000

  /** `float` and `double` values are only passed along by the combinators, never
      computed with, so they are kept as their IEEE 754 bit patterns. */
  datatype Float = FloatBits(bits: bv32)
  datatype Double = DoubleBits(bits: bv64)

  /** A reference to a Java array (possibly null). The elements live in the heap, which
      is part of the state a body runs against; the combinators pass the reference on
      without reading it. */
  datatype ArrayRef = NullArray | ArrayAt(address: nat)

  /** The exceptions a call can complete with: the one the combinators raise themselves,
      and any other exception a user-supplied body throws. */
  datatype Exception = NullPointerException | UserException(detail: nat)

  /** A possibly-null reference to an operand. */
  datatype Option<+T> = None | Some(value: T)

  /** The outcome of calling a combinator: the compound it returns, or the exception it throws. */
  datatype Result<+T> = Success(value: T) | Failure(error: Exception)

  /** `Objects.requireNonNull(x)`: throws NullPointerException for a null reference. */
  function RequireNonNull<T>(x: Option<T>): (r: Result<T>)
    ensures x.None? <==> r == Failure(NullPointerException)
    ensures x.Some? ==> r == Success(x.value)
  {
    match x
    case None => Failure(NullPointerException)
    case Some(v) => Success(v)
  }
}
