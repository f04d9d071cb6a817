/** Single characters and their byte values, as `String#getbyte`, `String#bytes`
    and `Integer#chr` see them. A character's byte is its code point, which is
    what Ruby reports for the ASCII text every barcode format consists of.
 */
module Chars {
  import opened Errors

  function Byte(c: char): nat {
    c as int
  }

  /** `Integer#chr`: a one-byte character, or RangeError outside 0..255. */
  function Chr(n: int): (r: Result<char>)
    ensures r.Ok? <==> 0 <= n < 256
    ensures r.Ok? ==> Byte(r.value) == n
    ensures r.Err? ==> r.error == RangeError
  {
    if 0 <= n < 256 then Ok(n as char) else Err(RangeError)
  }
}
