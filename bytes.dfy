/**
 * Byte strings as PHP sees them: a PHP string is a sequence of bytes, and
 * `null` stands in wherever a `list(...)` assignment or an array lookup finds
 * nothing.
 */
module Bytes {

  /** One byte of a PHP binary string. */
  type Byte = b: int | 0 <= b < 256

  datatype Option<+T> = None | Some(value: T)

  /** The bytes of an ASCII text (only used for literals of the protocol). */
  function Ascii(s: string): (r: seq<Byte>)
    ensures |r| == |s|
  {
    seq(|s|, i requires 0 <= i < |s| => (s[i] as int) % 256)
  }

  const NUL: Byte := 0
}
