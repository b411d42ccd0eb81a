/**
 * The Java primitive types and exceptions the buffer codec touches: fixed-width
 * integers, the 16-bit char, 32-bit int wrap-around, and results that either
 * carry a value or the exception that was thrown instead.
 */
module JavaLang {

  /** The value ranges of Java's integral primitives, which the newtypes below are. */
  const MinInt8: int := -0x80
  const MaxInt8: int := 0x7f
  const MinInt16: int := -0x8000
  const MaxInt16: int := 0x7fff
  const MinInt32: int := -0x8000_0000
  const MaxInt32: int := 0x7fff_ffff
  const MinInt64: int := -0x8000_0000_0000_0000
  const MaxInt64: int := 0x7fff_ffff_ffff_ffff
  const MinChar: int := 0
  const MaxChar: int := 0xffff

  newtype Int8 = x: int | MinInt8 <= x <= MaxInt8
  newtype Int16 = x: int | MinInt16 <= x <= MaxInt16
  newtype Int32 = x: int | MinInt32 <= x <= MaxInt32
  newtype Int64 = x: int | MinInt64 <= x <= MaxInt64
  /** A Java char: one UTF-16 code unit. */
  newtype JChar = x: int | MinChar <= x <= MaxChar

  /** Java int arithmetic: the mathematical value reduced into the 32-bit two's-complement range. */
  function Wrap32(v: int): (r: Int32)
    ensures (r as int - v) % 0x1_0000_0000 == 0
    ensures MinInt32 <= v <= MaxInt32 ==> r as int == v
  {
    ((v + 0x8000_0000) % 0x1_0000_0000 - 0x8000_0000) as Int32
  }

  /** The exceptions the modelled code can raise. */
  datatype Exception =
    | IOException               // a read past the end of a stream or of the wrong kind
    | IndexOutOfBounds          // Buffer.get(i) with i outside the limit
    | BufferOverflow            // Buffer.put past the limit
    | IllegalArgument           // a negative allocation size or position

  /** A value, or the exception thrown instead of returning one. */
  datatype Result<T> = Ok(value: T) | Err(error: Exception)

  /** A void call that returned normally or threw. */
  datatype Outcome = Done | Thrown(error: Exception)

  datatype Option<T> = None | Some(value: T)
}
