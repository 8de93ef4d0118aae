/** How JSON.stringify prints a finite number: the four layouts of Number::toString
    (section 6.1.6.1.20 of ECMA-262) over the shortest decimal of the number. */
module NumberText {
  import opened CodeUnits
  import opened Prelude

  /** The shortest decimal digits that read back as the number: no zero at either end. */
  type Significand = d: seq<nat> |
    |d| > 0 && d[0] != 0 && d[|d| - 1] != 0 && forall i | 0 <= i < |d| :: d[i] < 10
    witness [1]

  /** Finite(negative, d1 d2 .. dk, n) stands for 0.d1 d2 .. dk times ten to the n. */
  datatype Number =
    | NonFinite
    | Zero(negative: bool)
    | Finite(negative: bool, digits: Significand, point: int)

  predicate IsNumeral(u: Unit) {
    ZERO <= u < ZERO + 10 || u == DOT || u == LETTER_E || u == PLUS || u == MINUS
  }

  function Zeros(n: nat): (t: Text)
    ensures |t| == n && forall i | 0 <= i < n :: t[i] == ZERO
  {
    seq(n, _ => ZERO)
  }

  function Digits(d: seq<nat>): (t: Text)
    requires forall i | 0 <= i < |d| :: d[i] < 10
    ensures |t| == |d| && forall i | 0 <= i < |d| :: t[i] == ZERO + d[i]
  {
    seq(|d|, i requires 0 <= i < |d| => ZERO + d[i])
  }

  function DecimalOf(n: nat): (t: Text)
    ensures |t| > 0 && forall i | 0 <= i < |t| :: ZERO <= t[i] < ZERO + 10
  {
    if n < 10 then [ZERO + n] else DecimalOf(n / 10) + [ZERO + n % 10]
  }

  lemma {:induction false} DecimalUnique(m: nat, n: nat)
    requires DecimalOf(m) == DecimalOf(n)
    ensures m == n
  {
    var s, t := DecimalOf(m), DecimalOf(n);
    assert s[|s| - 1] == ZERO + m % 10 && t[|t| - 1] == ZERO + n % 10;
    if m >= 10 && n >= 10 {
      assert DecimalOf(m / 10) == s[..|s| - 1] && DecimalOf(n / 10) == t[..|t| - 1];
      DecimalUnique(m / 10, n / 10);
    }
  }

  function ExponentText(e: int): Text {
    [if e < 0 then MINUS else PLUS] + DecimalOf(if e < 0 then -e else e)
  }

  function Mantissa(d: Significand): Text {
    var ds := Digits(d);
    if |d| == 1 then ds else [ds[0], DOT] + ds[1..]
  }

  function Layout(d: Significand, n: int): Text {
    var ds, k := Digits(d), |d|;
    if k <= n <= 21 then ds + Zeros(n - k)
    else if 0 < n <= 21 then ds[..n] + [DOT] + ds[n..]
    else if -6 < n <= 0 then [ZERO, DOT] + Zeros(-n) + ds
    else Mantissa(d) + [LETTER_E] + ExponentText(n - 1)
  }

  function PrintNumber(x: Number): Text
    requires !x.NonFinite?
  {
    match x
    case Zero(_) => [ZERO]
    case Finite(negative, d, n) => (if negative then [MINUS] else []) + Layout(d, n)
  }

  lemma DigitsUnique(d: Significand, e: Significand)
    requires Digits(d) == Digits(e)
    ensures d == e
  {
    forall i | 0 <= i < |d| ensures d[i] == e[i] {
      assert Digits(d)[i] == ZERO + d[i] && Digits(e)[i] == ZERO + e[i];
    }
  }

  lemma TrailingZerosUnique(d: Significand, m: nat, e: Significand, n: nat)
    requires Digits(d) + Zeros(m) == Digits(e) + Zeros(n)
    ensures d == e
  {
    var s, t, i := Digits(d) + Zeros(m), Digits(e) + Zeros(n), (if |d| < |e| then |e| else |d|) - 1;
    assert s[i] == (if i < |d| then ZERO + d[i] else ZERO);
    assert t[i] == (if i < |e| then ZERO + e[i] else ZERO);
    assert |d| == |e|;
    assert Digits(d) == s[..|d|] && Digits(e) == t[..|d|];
    DigitsUnique(d, e);
  }

  lemma LeadingZerosUnique(m: nat, d: Significand, n: nat, e: Significand)
    requires Zeros(m) + Digits(d) == Zeros(n) + Digits(e)
    ensures m == n && d == e
  {
    var s, t, i := Zeros(m) + Digits(d), Zeros(n) + Digits(e), if m < n then m else n;
    assert s[i] == (if i < m then ZERO else ZERO + d[0]);
    assert t[i] == (if i < n then ZERO else ZERO + e[0]);
    assert m == n;
    assert Digits(d) == s[m..] && Digits(e) == t[m..];
    DigitsUnique(d, e);
  }

  lemma MantissaUnique(d: Significand, e: Significand)
    requires Mantissa(d) == Mantissa(e)
    ensures d == e
  {
    var s, t := Mantissa(d), Mantissa(e);
    assert |s| == (if |d| == 1 then 1 else |d| + 1);
    assert |t| == (if |e| == 1 then 1 else |e| + 1);
    assert s[0] == Digits(d)[0] && t[0] == Digits(e)[0];
    if |d| > 1 {
      assert s[2..] == Digits(d)[1..] && t[2..] == Digits(e)[1..];
      assert Digits(d) == [s[0]] + s[2..] && Digits(e) == [t[0]] + t[2..];
    }
    DigitsUnique(d, e);
  }

  lemma ExponentUnique(d: int, e: int)
    requires d != 0 && ExponentText(d) == ExponentText(e)
    ensures d == e
  {
    var s, t := ExponentText(d), ExponentText(e);
    assert s[0] == t[0];
    assert s[1..] == DecimalOf(if d < 0 then -d else d) && t[1..] == DecimalOf(if e < 0 then -e else e);
    DecimalUnique(if d < 0 then -d else d, if e < 0 then -e else e);
  }

  predicate AllDigits(t: Text) { forall i | 0 <= i < |t| :: ZERO <= t[i] < ZERO + 10 }
  predicate AllNumeral(t: Text) { forall i | 0 <= i < |t| :: IsNumeral(t[i]) }

  lemma PlainShape(d: Significand, n: int)
    requires |d| <= n <= 21
    ensures AllDigits(Layout(d, n)) && |Layout(d, n)| == n && Layout(d, n)[0] != ZERO
  {
  }

  lemma PointShape(d: Significand, n: int)
    requires 0 < n < |d| && n <= 21
    ensures var ds, t := Digits(d), Layout(d, n);
      && t == ds[..n] + [DOT] + ds[n..] && AllDigits(ds[..n]) && AllDigits(ds[n..])
      && |t| > 0 && t[0] != ZERO && t[n] == DOT
  {
  }

  lemma FractionShape(d: Significand, n: int)
    requires -6 < n <= 0
    ensures var t := Layout(d, n);
      |t| > 2 && t[0] == ZERO && t[1] == DOT && t[2..] == Zeros(-n) + Digits(d) && AllDigits(t[2..])
  {
    assert Layout(d, n) == [ZERO, DOT] + (Zeros(-n) + Digits(d));
  }

  lemma ScientificShape(d: Significand, n: int)
    requires n <= -6 || 21 < n
    ensures var m, t := Mantissa(d), Layout(d, n);
      && t == m + [LETTER_E] + ExponentText(n - 1) && |m| > 0 && t[0] == ZERO + d[0] && t[|m|] == LETTER_E
      && LETTER_E !in m && AllNumeral(m) && AllNumeral(ExponentText(n - 1))
  {
    var m := Mantissa(d);
    assert m[0] == Digits(d)[0] == ZERO + d[0];
    forall i | 0 <= i < |m| ensures m[i] != LETTER_E && IsNumeral(m[i]) {
      assert m[i] == if i == 0 then ZERO + d[0] else if i == 1 then DOT else ZERO + d[i - 1];
    }
  }

  /** The four layouts, told apart by what a reader of the text sees. */
  datatype Shape = Plain | Point | Fraction | Scientific

  function ShapeOf(d: Significand, n: int): Shape {
    if |d| <= n <= 21 then Plain else if 0 < n <= 21 then Point else if -6 < n <= 0 then Fraction else Scientific
  }

  function SeenShape(t: Text): Shape {
    if LETTER_E in t then Scientific
    else if DOT !in t then Plain
    else if t[0] == ZERO then Fraction else Point
  }

  ghost predicate Recognized(d: Significand, n: int) {
    var t := Layout(d, n);
    && SeenShape(t) == ShapeOf(d, n)
    && AllNumeral(t) && |t| > 0 && ZERO <= t[0] < ZERO + 10
    && (t[0] == ZERO ==> |t| > 1)
  }

  lemma LayoutShape(d: Significand, n: int)
    ensures Recognized(d, n)
  {
    match ShapeOf(d, n) {
      case Plain => PlainShape(d, n);
      case Point => PointRecognized(d, n);
      case Fraction => FractionRecognized(d, n);
      case Scientific => ScientificRecognized(d, n);
    }
  }

  lemma PointRecognized(d: Significand, n: int)
    requires ShapeOf(d, n).Point?
    ensures Recognized(d, n)
  {
    PointShape(d, n);
    assert Layout(d, n)[n] in Layout(d, n);
  }

  lemma FractionRecognized(d: Significand, n: int)
    requires ShapeOf(d, n).Fraction?
    ensures Recognized(d, n)
  {
    FractionShape(d, n);
    assert Layout(d, n) == Layout(d, n)[..2] + Layout(d, n)[2..];
  }

  lemma ScientificRecognized(d: Significand, n: int)
    requires ShapeOf(d, n).Scientific?
    ensures Recognized(d, n)
  {
    ScientificShape(d, n);
    assert Layout(d, n)[|Mantissa(d)|] in Layout(d, n);
  }

  lemma LayoutUnique(d: Significand, m: int, e: Significand, n: int)
    requires Layout(d, m) == Layout(e, n)
    ensures d == e && m == n
  {
    LayoutShape(d, m);
    LayoutShape(e, n);
    match ShapeOf(d, m) {
      case Plain =>
        PlainShape(d, m);
        PlainShape(e, n);
        TrailingZerosUnique(d, m - |d|, e, n - |e|);
      case Point =>
        PointUnique(d, m, e, n);
      case Fraction =>
        FractionShape(d, m);
        FractionShape(e, n);
        LeadingZerosUnique(-m, d, -n, e);
      case Scientific =>
        ScientificUnique(d, m, e, n);
    }
  }

  lemma ScientificSplit(d: Significand, m: int, e: Significand, n: int)
    requires ShapeOf(d, m).Scientific? && ShapeOf(e, n).Scientific? && Layout(d, m) == Layout(e, n)
    ensures Mantissa(d) == Mantissa(e) && ExponentText(m - 1) == ExponentText(n - 1)
  {
    ScientificShape(d, m);
    ScientificShape(e, n);
    SplitUnique(Mantissa(d), ExponentText(m - 1), Mantissa(e), ExponentText(n - 1), LETTER_E);
  }

  lemma ScientificUnique(d: Significand, m: int, e: Significand, n: int)
    requires ShapeOf(d, m).Scientific? && ShapeOf(e, n).Scientific? && Layout(d, m) == Layout(e, n)
    ensures d == e && m == n
  {
    ScientificSplit(d, m, e, n);
    MantissaUnique(d, e);
    ExponentUnique(m - 1, n - 1);
  }

  lemma PointUnique(d: Significand, m: int, e: Significand, n: int)
    requires ShapeOf(d, m).Point? && ShapeOf(e, n).Point? && Layout(d, m) == Layout(e, n)
    ensures d == e && m == n
  {
    PointShape(d, m);
    PointShape(e, n);
    var ds, es := Digits(d), Digits(e);
    SplitUnique(ds[..m], ds[m..], es[..n], es[n..], DOT);
    assert ds == ds[..m] + ds[m..] && es == es[..n] + es[n..];
    DigitsUnique(d, e);
  }

  /** A number with the sign of zero forgotten. */
  function Unsigned(x: Number): Number {
    if x.Zero? then Zero(false) else x
  }

  lemma NumberShape(x: Number)
    requires !x.NonFinite?
    ensures AllNumeral(PrintNumber(x)) && |PrintNumber(x)| > 0
  {
    if x.Finite? { LayoutShape(x.digits, x.point); }
  }

  lemma SignSeen(x: Number)
    requires x.Finite?
    ensures var s := PrintNumber(x);
      && |s| > 0 && x.negative == (s[0] == MINUS) && s != [ZERO]
      && Layout(x.digits, x.point) == s[if x.negative then 1 else 0..]
  {
    LayoutShape(x.digits, x.point);
  }

  lemma {:induction false} NumberUnique(x: Number, y: Number)
    requires !x.NonFinite? && !y.NonFinite?
    ensures PrintNumber(x) == PrintNumber(y) <==> Unsigned(x) == Unsigned(y)
  {
    if x.Finite? { SignSeen(x); }
    if y.Finite? { SignSeen(y); }
    if PrintNumber(x) == PrintNumber(y) && x.Finite? && y.Finite? {
      LayoutUnique(x.digits, x.point, y.digits, y.point);
    }
  }
}
