/** The characters of JSON as RFC 8259 has them, by their code points, and those that a number may be
    made of. Nothing here depends on the reader. */
module JsonGrammar {
  /** White space, by section 2. */
  predicate IsWhite(c: char) {
    var p := c as int;
    p == 0x20 || p == 0x09 || p == 0x0A || p == 0x0D
  }

  /** A character that stands for itself in a string, by section 7. The reader sees the bytes of UTF-8,
      and none of those beyond ASCII is excepted. */
  predicate StandsForItself(c: char) {
    var p := c as int;
    0x20 <= p <= 0x21 || 0x23 <= p <= 0x5B || 0x5D <= p
  }

  /** What may follow a backslash other than u, by section 7, */
  predicate IsEscapable(c: char) {
    var p := c as int;
    p == 0x22 || p == 0x5C || p == 0x2F || p == 0x62 || p == 0x66 || p == 0x6E || p == 0x72 || p == 0x74
  }

  /** and what it stands for then. */
  function EscapeMeaning(c: char): char {
    var p := c as int;
    if p == 0x62 then 0x08 as char
    else if p == 0x66 then 0x0C as char
    else if p == 0x6E then 0x0A as char
    else if p == 0x72 then 0x0D as char
    else if p == 0x74 then 0x09 as char
    else c
  }

  predicate IsHexDigit(c: char) {
    var p := c as int;
    0x30 <= p <= 0x39 || 0x41 <= p <= 0x46 || 0x61 <= p <= 0x66
  }

  function HexValue(c: char): (d: nat)
    ensures d < 16
  {
    var p := c as int;
    if 0x30 <= p <= 0x39 then p - 0x30
    else if 0x41 <= p <= 0x46 then p - 0x41 + 10
    else if 0x61 <= p <= 0x66 then p - 0x61 + 10
    else 0
  }

  /** A digit or the minus sign, */
  predicate MayBeginNumber(c: char) {
    var p := c as int;
    0x30 <= p <= 0x39 || p == 0x2D
  }

  /** and besides those the plus sign, the point and the letter e. */
  predicate MayBeInNumber(c: char) {
    var p := c as int;
    MayBeginNumber(c) || p == 0x2B || p == 0x2E || p == 0x45 || p == 0x65
  }
}
