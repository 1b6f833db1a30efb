/** Fixed-width integer types of the C# source and the checked arithmetic it relies on. */
module Numeric {
  import opened Wrappers

  const Int32Min: int := -0x8000_0000
  const Int32Max: int := 0x7FFF_FFFF

  /** System.Int32. */
  type int32 = x: int | Int32Min <= x <= Int32Max

  /** System.Byte. */
  type byte = x: int | 0 <= x < 256

  /** The OverflowException thrown by Math.Abs(Int32.MinValue). */
  datatype Overflow = Overflow

  /** Math.Abs(int): the magnitude, or an overflow for the one value whose magnitude is not an Int32. */
  function Abs32(x: int32): (r: Result<int32, Overflow>)
    ensures r.Failure? <==> x == Int32Min
    ensures r.Success? ==> r.value >= 0 && (r.value == x || r.value == -x)
  {
    if x == Int32Min then Failure(Overflow)
    else if x < 0 then Success(-x)
    else Success(x)
  }
}
