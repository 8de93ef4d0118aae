/** How JSON.stringify quotes a string (section 25.5.2.3 of ECMA-262): short escapes, \u00xx for
    the other control units, \udxxx for a surrogate without its partner, everything else as is. */
module QuotedText {
  import opened CodeUnits
  import opened Prelude

  function HexDigit(d: nat): Unit
    requires d < 16
  {
    if d < 10 then ZERO + d else 0x57 + d
  }

  function Hex4(u: Unit): Text {
    [HexDigit(u / 4096), HexDigit(u / 256 % 16), HexDigit(u / 16 % 16), HexDigit(u % 16)]
  }

  /** The letter of a two-unit escape, or the unit itself when it has none. */
  function ShortEscape(u: Unit): Unit {
    if u == 0x08 then 0x62
    else if u == 0x09 then 0x74
    else if u == 0x0A then 0x6E
    else if u == 0x0C then 0x66
    else if u == 0x0D then 0x72
    else u
  }

  function EscapeUnit(u: Unit): Text {
    if u == QUOTE || u == BACKSLASH || ShortEscape(u) != u then [BACKSLASH, ShortEscape(u)]
    else if u < 0x20 || IsLead(u) || IsTrail(u) then [BACKSLASH, 0x75] + Hex4(u)
    else [u]
  }

  /** Units taken by the first code point. */
  function Width(s: Text): (n: nat)
    requires s != []
    ensures 1 <= n <= |s|
  {
    if |s| > 1 && IsLead(s[0]) && IsTrail(s[1]) then 2 else 1
  }

  function EscapeFirst(s: Text): Text
    requires s != []
  {
    if Width(s) == 2 then s[..2] else EscapeUnit(s[0])
  }

  function Escaped(s: Text): Text {
    if s == [] then [] else EscapeFirst(s) + Escaped(s[Width(s)..])
  }

  function Quote(s: Text): Text {
    [QUOTE] + Escaped(s) + [QUOTE]
  }

  lemma HexParts(u: Unit)
    ensures u == 4096 * (u / 4096) + 256 * (u / 256 % 16) + 16 * (u / 16 % 16) + u % 16
  {
    assert u / 256 == 16 * (u / 4096) + u / 256 % 16;
    assert u / 16 == 16 * (u / 256) + u / 16 % 16;
  }

  lemma HexUnique(u: Unit, v: Unit)
    requires Hex4(u) == Hex4(v)
    ensures u == v
  {
    HexParts(u);
    HexParts(v);
    var s, t := Hex4(u), Hex4(v);
    assert s[0] == t[0] && s[1] == t[1] && s[2] == t[2] && s[3] == t[3];
  }

  lemma EscapeUnitShape(u: Unit)
    ensures var e := EscapeUnit(u);
      && |e| > 0 && e[0] != QUOTE && !IsLead(e[0])
      && |e| == (if e[0] != BACKSLASH then 1 else if e[1] == 0x75 then 6 else 2)
  {
  }

  lemma EscapeUnitUnique(u: Unit, v: Unit)
    requires EscapeUnit(u) == EscapeUnit(v)
    ensures u == v
  {
    if |EscapeUnit(u)| == 6 {
      assert EscapeUnit(u)[2..] == Hex4(u) && EscapeUnit(v)[2..] == Hex4(v);
      HexUnique(u, v);
    } else {
      assert EscapeUnit(u)[|EscapeUnit(u)| - 1] == ShortEscape(u);
      assert EscapeUnit(v)[|EscapeUnit(u)| - 1] == ShortEscape(v);
    }
  }

  /** An escaped code point can be cut off the front in one way only. */
  lemma EscapeFirstUnique(s: Text, u: Text, t: Text, v: Text)
    requires s != [] && t != [] && EscapeFirst(s) + u == EscapeFirst(t) + v
    ensures s[..Width(s)] == t[..Width(t)] && u == v
  {
    var e, f := EscapeFirst(s), EscapeFirst(t);
    var whole := e + u;
    EscapeUnitShape(s[0]);
    EscapeUnitShape(t[0]);
    assert e[0] == whole[0] && f[0] == whole[0];
    assert |e| > 1 ==> e[1] == whole[1];
    assert |f| > 1 ==> f[1] == whole[1];
    assert Width(s) == Width(t);
    assert |e| == |f|;
    assert e == whole[..|e|] && f == whole[..|e|] && u == whole[|e|..] && v == whole[|e|..];
    if Width(s) == 1 { EscapeUnitUnique(s[0], t[0]); }
  }

  lemma EscapedStep(s: Text, r: Text)
    requires s != []
    ensures Escaped(s) + [QUOTE] + r == EscapeFirst(s) + (Escaped(s[Width(s)..]) + [QUOTE] + r)
    ensures (Escaped(s) + [QUOTE] + r)[0] != QUOTE
  {
    EscapeUnitShape(s[0]);
    Regroup(EscapeFirst(s), Escaped(s[Width(s)..]), [QUOTE], r);
    FirstOf(EscapeFirst(s), Escaped(s[Width(s)..]) + [QUOTE] + r);
  }

  lemma EscapedEnd(r: Text)
    ensures Escaped([]) + [QUOTE] + r == [QUOTE] + r
  {
  }

  /** A closing quote ends a quoted string unambiguously, so quoting is injective. */
  lemma {:induction false} EscapedUnique(s: Text, r: Text, t: Text, q: Text)
    requires Escaped(s) + [QUOTE] + r == Escaped(t) + [QUOTE] + q
    ensures s == t && r == q
  {
    if s == [] { EscapedEnd(r); } else { EscapedStep(s, r); }
    if t == [] { EscapedEnd(q); } else { EscapedStep(t, q); }
    if s == [] {
      Cancel([QUOTE], r, [QUOTE], q);
    } else {
      var s', t' := s[Width(s)..], t[Width(t)..];
      EscapeFirstUnique(s, Escaped(s') + [QUOTE] + r, t, Escaped(t') + [QUOTE] + q);
      EscapedUnique(s', r, t', q);
      assert s == s[..Width(s)] + s' && t == t[..Width(t)] + t';
    }
  }

  lemma QuoteUnique(s: Text, r: Text, t: Text, q: Text)
    requires Quote(s) + r == Quote(t) + q
    ensures s == t && r == q
  {
    var whole := Quote(s) + r;
    assert whole[1..] == Escaped(s) + [QUOTE] + r;
    assert whole[1..] == Escaped(t) + [QUOTE] + q;
    EscapedUnique(s, r, t, q);
  }
}
