/** Machine integers, wrappers and the errors the protocol engine can report. */
module Types {

  /** One octet on the wire. */
  type byte = x: int | 0 <= x < 0x100

  /** Go's `uint32` (block sequence numbers, the verifier's expected counter). */
  type uint32 = x: int | 0 <= x < 0x1_0000_0000

  /** Go's `int32` (the counts and timings of a test descriptor). */
  type int32 = x: int | -0x8000_0000 <= x < 0x8000_0000

  const TWO_TO_31: int := 0x8000_0000
  const TWO_TO_32: int := 0x1_0000_0000

  datatype Option<T> = None | Some(value: T)

  datatype Result<T> = Ok(value: T) | Err(error: Error)

  /** Every error value a loop of the engine can push onto the error queue. */
  datatype Error =
    | EOF                               // io.EOF: the stream ended before the read began
    | UnexpectedEOF                     // io.ErrUnexpectedEOF: the stream ended in the middle of a read
    | Closed                            // a read or write on a connection that was closed
    | BadHeader(header: seq<byte>)      // the four bytes read in place of the magic header
    | ShortMagicHeaderWrite
    | ShortLengthWrite
    | ShortDataWrite
    | LengthOutOfRange(length: int)     // a negative decoded length, which makes `make` panic
    | Malformed                         // the message codec could not decode a payload
    | SequenceMismatch(expected: uint32, actual: uint32)
    | HashMismatch

  function Min(a: int, b: int): int { if a <= b then a else b }

  function Max(a: int, b: int): int { if a >= b then a else b }
}
