/** The pieces of the .NET runtime that the banking core leans on: a null
    stand-in, the exceptions the core throws, and C#'s 32-bit `int`. */
module Runtime {

  /** `None` stands for a null reference or a missing value. */
  datatype Option<+T> = None | Some(value: T)

  /** The exception classes the core throws, each with its message. */
  datatype Exception =
    | InvalidOperation(message: string)    // System.InvalidOperationException
    | Argument(message: string)            // System.ArgumentException
    | KeyNotFound(message: string)         // System.Collections.Generic.KeyNotFoundException
    | UnauthorizedAccess(message: string)  // System.UnauthorizedAccessException
    | NullReference                        // dereferencing a null list

  /** A call either returns a value or throws. */
  datatype Result<+T> = Ok(value: T) | Throw(exception: Exception)

  const TwoTo32: int := 0x1_0000_0000
  const Int32Min: int := -0x8000_0000
  const Int32Max: int := 0x7fff_ffff

  /** C#'s `int`. */
  newtype int32 = x: int | -0x8000_0000 <= x < 0x8000_0000

  /** The two's-complement truncation of an integer to 32 bits. */
  function Wrap32(x: int): (r: int32)
    ensures Int32Min <= x <= Int32Max ==> r as int == x
    ensures (x - r as int) % TwoTo32 == 0
  {
    ((x - Int32Min) % TwoTo32 + Int32Min) as int32
  }

  /** C#'s `a + b` on `int` in an unchecked context: the sum wraps around. */
  function UncheckedAdd(a: int32, b: int32): (r: int32)
    ensures Int32Min <= a as int + b as int <= Int32Max ==> r as int == a as int + b as int
    ensures a as int + b as int > Int32Max ==> r as int == a as int + b as int - TwoTo32
    ensures a as int + b as int < Int32Min ==> r as int == a as int + b as int + TwoTo32
  {
    Wrap32(a as int + b as int)
  }
}
