/** Classes of characters, as ctype.h has them, and the character that ends a C string. */
module Chars {

  predicate IsSpace(c: char) {
    c == ' ' || '\t' <= c <= '\r'
  }

  predicate IsDigit(c: char) {
    '0' <= c <= '9'
  }

  function Nuls(n: nat): (s: string)
    ensures |s| == n
  {
    seq(n, i => '\0')
  }
}
