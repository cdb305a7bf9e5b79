/** Shared value types of the Nibe heat-pump binding model: the Java byte,
    optional and failing results, and the exceptions the modelled code raises. */
module Common {

  /** A Java `byte`, kept as its 8-bit pattern; signedness is applied
      explicitly (see Signed) wherever the Java code compares or widens it. */
  type byte = bv8

  /** The value a Java `byte` has when it is widened to `int` (sign extension). */
  function Signed(b: byte): (r: int)
    ensures -128 <= r < 128
    ensures r >= 0 <==> b < 0x80
    ensures r % 256 == b as int
  {
    if b < 0x80 then b as int else b as int - 256
  }

  /** The Java narrowing cast `(byte) i`: keep the low eight bits. */
  function IntToByte(i: int): byte
  {
    (i % 256) as bv8
  }

  const Int32Min: int := -0x8000_0000
  const Int32Max: int := 0x7FFF_FFFF

  /** Java `int` arithmetic: the exact result wrapped into 32 bits. */
  function Wrap32(x: int): (r: int)
    ensures Int32Min <= r <= Int32Max
    ensures (r - x) % 0x1_0000_0000 == 0
    ensures Int32Min <= x <= Int32Max ==> r == x
  {
    (x - Int32Min) % 0x1_0000_0000 + Int32Min
  }

  datatype Option<+T> = None | Some(value: T)

  datatype Result<+T, +E> = Ok(value: T) | Err(error: E)

  /** The exceptions the modelled code raises or lets escape. */
  datatype Error =
    | NibeError(text: string)         // NibeHeatPumpException with its message
    | HelperFailure                   // a NibeHeatPumpException raised by a helper that is not part of the model
    | IndexOutOfBounds                // ArrayIndexOutOfBounds / IndexOutOfBounds
    | BufferOverflow                  // java.nio.BufferOverflowException
    | NumberFormat                    // NumberFormatException from Integer.parseInt
    | IllegalArgument(text: string)   // IllegalArgumentException with its message

  /** Sequence concatenation regrouped, for loops that append in steps. */
  lemma AppendAssoc<T>(a: seq<T>, b: seq<T>, c: seq<T>)
    ensures (a + b) + c == a + (b + c)
  {
  }
}
