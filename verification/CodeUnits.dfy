/** Text as JavaScript sees it: a sequence of UTF-16 code units, surrogates included. */
module CodeUnits {
  type Unit = n: int | 0 <= n < 0x1_0000
  type Text = seq<Unit>

  const NEWLINE: Unit := 0x0A
  const SPACE: Unit := 0x20
  const QUOTE: Unit := 0x22
  const HASH: Unit := 0x23
  const OPEN_PAREN: Unit := 0x28
  const CLOSE_PAREN: Unit := 0x29
  const BACKTICK: Unit := 0x60
  const BACKSLASH: Unit := 0x5C
  const DOT: Unit := 0x2E
  const PLUS: Unit := 0x2B
  const MINUS: Unit := 0x2D
  const COMMA: Unit := 0x2C
  const COLON: Unit := 0x3A
  const ZERO: Unit := 0x30
  const LETTER_E: Unit := 0x65
  const OPEN_BRACKET: Unit := 0x5B
  const CLOSE_BRACKET: Unit := 0x5D
  const OPEN_BRACE: Unit := 0x7B
  const CLOSE_BRACE: Unit := 0x7D
  const NULL_TEXT: Text := [0x6E, 0x75, 0x6C, 0x6C]
  const TRUE_TEXT: Text := [0x74, 0x72, 0x75, 0x65]
  const FALSE_TEXT: Text := [0x66, 0x61, 0x6C, 0x73, 0x65]

  predicate IsLead(u: Unit) { 0xD800 <= u < 0xDC00 }
  predicate IsTrail(u: Unit) { 0xDC00 <= u < 0xE000 }

  /** The default Array.prototype.sort order on strings, which is also the order that
      section 3.2.3 of RFC 8785 prescribes: lexicographic by code unit. */
  predicate AtMost(a: Text, b: Text) {
    if a == [] then true
    else if b == [] then false
    else a[0] < b[0] || (a[0] == b[0] && AtMost(a[1..], b[1..]))
  }

  lemma {:induction false} AtMostTotal(a: Text, b: Text)
    ensures AtMost(a, b) || AtMost(b, a)
    ensures AtMost(a, b) && AtMost(b, a) ==> a == b
  {
    if a != [] && b != [] {
      AtMostTotal(a[1..], b[1..]);
      assert a == [a[0]] + a[1..] && b == [b[0]] + b[1..];
    }
  }

  lemma {:induction false} AtMostTransitive(a: Text, b: Text, c: Text)
    requires AtMost(a, b) && AtMost(b, c)
    ensures AtMost(a, c)
  {
    if a != [] && a[0] == b[0] == c[0] {
      AtMostTransitive(a[1..], b[1..], c[1..]);
    }
  }
}
