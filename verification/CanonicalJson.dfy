/** The canonical serializer whose digest decides whether two requests are the same request. */
module CanonicalJson {
  import opened CodeUnits
  import opened NumberText
  import opened Prelude
  import opened QuotedText
  import opened Sorting

  /** A request body as the serializer receives it. An object lists its own keys in enumeration
      order beside the values they hold. */
  datatype Json =
    | Null
    | Bool(b: bool)
    | Num(n: Number)
    | Str(s: Text)
    | Arr(items: seq<Json>)
    | Obj(keys: seq<Text>, fields: map<Text, Json>)
    | Unsupported(kind: string)

  datatype TypeError = NonFiniteNumber | UnsupportedType(kind: string)

  /** Objects enumerate each of their keys exactly once. */
  ghost predicate Valid(v: Json) {
    match v
    case Arr(items) => forall i | 0 <= i < |items| :: Valid(items[i])
    case Obj(keys, fields) =>
      && Distinct(keys)
      && (forall k :: k in keys <==> k in fields)
      && forall k | k in fields :: Valid(fields[k])
    case _ => true
  }

  function Canonical(v: Json): Result<Text, TypeError>
    requires Valid(v)
    decreases v, 1
  {
    match v
    case Null => Ok(NULL_TEXT)
    case Bool(b) => Ok(if b then TRUE_TEXT else FALSE_TEXT)
    case Str(s) => Ok(Quote(s))
    case Num(n) => if n.NonFinite? then Err(NonFiniteNumber) else Ok(PrintNumber(n))
    case Arr(items) =>
      var body :- Elements(items);
      Ok([OPEN_BRACKET] + body + [CLOSE_BRACKET])
    case Obj(keys, fields) =>
      var sorted := Sort(keys, AtMost);
      SameMembers(sorted, keys);
      var body :- Members(v, sorted);
      Ok([OPEN_BRACE] + body + [CLOSE_BRACE])
    case Unsupported(kind) => Err(UnsupportedType(kind))
  }

  function Elements(items: seq<Json>): Result<Text, TypeError>
    requires forall i | 0 <= i < |items| :: Valid(items[i])
    decreases items, 0
  {
    if items == [] then Ok([])
    else
      var first :- Canonical(items[0]);
      if |items| == 1 then Ok(first)
      else
        var rest :- Elements(items[1..]);
        Ok(first + [COMMA] + rest)
  }

  function Members(obj: Json, keys: seq<Text>): Result<Text, TypeError>
    requires obj.Obj? && Valid(obj) && forall k | k in keys :: k in obj.fields
    decreases obj, 0, |keys|
  {
    if keys == [] then Ok([])
    else
      var value :- Canonical(obj.fields[keys[0]]);
      var first := Quote(keys[0]) + [COLON] + value;
      if |keys| == 1 then Ok(first)
      else
        var rest :- Members(obj, keys[1..]);
        Ok(first + [COMMA] + rest)
  }

  /** What a JSON text denotes: objects are maps, and zero has no sign. */
  datatype Value =
    | NullValue
    | BoolValue(b: bool)
    | NumValue(n: Number)
    | StrValue(s: Text)
    | ArrValue(items: seq<Value>)
    | ObjValue(fields: map<Text, Value>)
    | NoValue(kind: string)

  ghost function Meaning(v: Json): Value {
    match v
    case Null => NullValue
    case Bool(b) => BoolValue(b)
    case Num(n) => NumValue(Unsigned(n))
    case Str(s) => StrValue(s)
    case Arr(items) => ArrValue(seq(|items|, i requires 0 <= i < |items| => Meaning(items[i])))
    case Obj(_, fields) => ObjValue(map k | k in fields :: Meaning(fields[k]))
    case Unsupported(kind) => NoValue(kind)
  }

  ghost predicate Supported(v: Json) {
    match v
    case Num(n) => !n.NonFinite?
    case Arr(items) => forall i | 0 <= i < |items| :: Supported(items[i])
    case Obj(_, fields) => forall k | k in fields :: Supported(fields[k])
    case Unsupported(_) => false
    case _ => true
  }

  lemma {:induction false} CanonicalDomain(v: Json)
    requires Valid(v)
    ensures Canonical(v).Ok? <==> Supported(v)
    decreases v, 1
  {
    match v
    case Arr(items) => ElementsDomain(items);
    case Obj(keys, fields) =>
      var sorted := Sort(keys, AtMost);
      SameMembers(sorted, keys);
      MembersDomain(v, sorted);
    case _ =>
  }

  lemma {:induction false} ElementsDomain(items: seq<Json>)
    requires forall i | 0 <= i < |items| :: Valid(items[i])
    ensures Elements(items).Ok? <==> AllSupported(items)
    decreases items, 0
  {
    if items != [] {
      CanonicalDomain(items[0]);
      ElementsDomain(items[1..]);
      AllSupportedStep(items);
    }
  }

  ghost predicate AllSupported(items: seq<Json>) {
    forall i | 0 <= i < |items| :: Supported(items[i])
  }

  lemma AllSupportedStep(items: seq<Json>)
    requires items != []
    ensures AllSupported(items) <==> Supported(items[0]) && AllSupported(items[1..])
  {
    assert forall i | 1 <= i < |items| :: items[i] == items[1..][i - 1];
  }

  lemma {:induction false} MembersDomain(obj: Json, keys: seq<Text>)
    requires obj.Obj? && Valid(obj) && forall k | k in keys :: k in obj.fields
    ensures Members(obj, keys).Ok? <==> forall k | k in keys :: Supported(obj.fields[k])
    decreases obj, 0, |keys|
  {
    if keys != [] {
      CanonicalDomain(obj.fields[keys[0]]);
      MembersDomain(obj, keys[1..]);
      assert keys == [keys[0]] + keys[1..];
    }
  }

  /** A value's text is over when the text ends or a unit no number contains comes next. */
  predicate Ends(r: Text) { r == [] || !IsNumeral(r[0]) }

  /** The first unit of a value's text tells its kind. */
  function Kind(u: Unit): nat {
    if u == QUOTE then 0 else if u == OPEN_BRACKET then 1 else if u == OPEN_BRACE then 2
    else if u == NULL_TEXT[0] then 3 else if u == TRUE_TEXT[0] then 4 else if u == FALSE_TEXT[0] then 5
    else if IsNumeral(u) then 6 else 7
  }

  function KindOf(v: Json): nat {
    match v
    case Str(_) => 0
    case Arr(_) => 1
    case Obj(_, _) => 2
    case Null => 3
    case Bool(b) => if b then 4 else 5
    case Num(_) => 6
    case Unsupported(_) => 7
  }

  lemma KindSeen(v: Json, r: Text)
    requires Valid(v) && Canonical(v).Ok?
    ensures var t := Canonical(v).value; |t| > 0 && KindOf(v) < 7 && Kind((t + r)[0]) == KindOf(v)
  {
    if v.Num? { NumberShape(v.n); }
  }

  lemma NumberEnds(x: Number, r: Text, y: Number, q: Text)
    requires !x.NonFinite? && !y.NonFinite? && Ends(r) && Ends(q)
    requires PrintNumber(x) + r == PrintNumber(y) + q
    ensures PrintNumber(x) == PrintNumber(y) && r == q
  {
    NumberShape(x);
    NumberShape(y);
    var s, t := PrintNumber(x), PrintNumber(y);
    var whole, i := s + r, if |s| < |t| then |s| else |t|;
    assert i < |whole| ==> whole[i] == (t + q)[i];
    assert |s| == |t|;
    assert s == whole[..|s|] && t == whole[..|s|] && r == whole[|s|..] && q == whole[|s|..];
  }

  /** Unique readability: a value's text is recognised at the front of any longer text. */
  lemma {:induction false} ReadValue(a: Json, r: Text, b: Json, q: Text)
    requires Valid(a) && Valid(b) && Canonical(a).Ok? && Canonical(b).Ok? && Ends(r) && Ends(q)
    requires Canonical(a).value + r == Canonical(b).value + q
    ensures Meaning(a) == Meaning(b) && r == q
    decreases a, 2
  {
    KindSeen(a, r);
    KindSeen(b, q);
    match a
    case Null => Cancel(NULL_TEXT, r, NULL_TEXT, q);
    case Bool(_) => Cancel(Canonical(a).value, r, Canonical(b).value, q);
    case Str(s) => QuoteUnique(s, r, b.s, q);
    case Num(n) =>
      NumberEnds(n, r, b.n, q);
      NumberUnique(n, b.n);
    case Arr(_) => ReadArray(a, r, b, q);
    case Obj(_, _) => ReadObject(a, r, b, q);
  }

  lemma {:induction false} ReadArray(a: Json, r: Text, b: Json, q: Text)
    requires a.Arr? && b.Arr? && Valid(a) && Valid(b) && Canonical(a).Ok? && Canonical(b).Ok?
    requires Canonical(a).value + r == Canonical(b).value + q
    ensures Meaning(a) == Meaning(b) && r == q
    decreases a, 1
  {
    Unwrap(OPEN_BRACKET, Elements(a.items).value, r, Elements(b.items).value, q, CLOSE_BRACKET);
    ReadElements(a.items, r, b.items, q);
  }

  lemma Unwrap(open: Unit, s: Text, r: Text, t: Text, q: Text, close: Unit)
    requires [open] + s + [close] + r == [open] + t + [close] + q
    ensures s + [close] + r == t + [close] + q
  {
    Regroup([open], s, [close], r);
    Regroup([open], t, [close], q);
    Cancel([open], s + [close] + r, [open], t + [close] + q);
  }

  lemma ObjectText(v: Json) returns (ks: seq<Text>)
    requires v.Obj? && Valid(v) && Canonical(v).Ok?
    ensures Printable(v, ks) && Canonical(v).value == [OPEN_BRACE] + Members(v, ks).value + [CLOSE_BRACE]
    ensures forall k :: k in ks <==> k in v.fields
  {
    ks := Sort(v.keys, AtMost);
    SameMembers(ks, v.keys);
  }

  lemma {:induction false} ReadObject(a: Json, r: Text, b: Json, q: Text)
    requires a.Obj? && b.Obj? && Valid(a) && Valid(b) && Canonical(a).Ok? && Canonical(b).Ok?
    requires Canonical(a).value + r == Canonical(b).value + q
    ensures Meaning(a) == Meaning(b) && r == q
    decreases a, 1
  {
    var ks := ObjectText(a);
    var ls := ObjectText(b);
    Unwrap(OPEN_BRACE, Members(a, ks).value, r, Members(b, ls).value, q, CLOSE_BRACE);
    ReadFields(a, ks, r, b, ls, q);
  }

  lemma {:induction false} ReadFields(a: Json, ks: seq<Text>, r: Text, b: Json, ls: seq<Text>, q: Text)
    requires Printable(a, ks) && Printable(b, ls)
    requires (forall k :: k in ks <==> k in a.fields) && forall k :: k in ls <==> k in b.fields
    requires Members(a, ks).value + [CLOSE_BRACE] + r == Members(b, ls).value + [CLOSE_BRACE] + q
    ensures Meaning(a) == Meaning(b) && r == q
    decreases a, 0, |ks|, 2
  {
    ReadMembers(a, ks, r, b, ls, q);
    FieldsDecide(a, b);
  }

  lemma FieldsDecide(a: Json, b: Json)
    requires a.Obj? && b.Obj? && a.fields.Keys == b.fields.Keys
    requires forall k | k in a.fields :: Meaning(a.fields[k]) == Meaning(b.fields[k])
    ensures Meaning(a) == Meaning(b)
  {
  }

  lemma FieldsDecided(a: Json, b: Json)
    requires a.Obj? && b.Obj? && Meaning(a) == Meaning(b)
    ensures a.fields.Keys == b.fields.Keys
    ensures forall k | k in a.fields :: Meaning(a.fields[k]) == Meaning(b.fields[k])
  {
    assert Meaning(a).fields.Keys == a.fields.Keys && Meaning(b).fields.Keys == b.fields.Keys;
    forall k | k in a.fields ensures Meaning(a.fields[k]) == Meaning(b.fields[k]) {
      assert Meaning(a).fields[k] == Meaning(a.fields[k]);
    }
  }

  /** What follows the first of n items: the closing unit, or a comma and the other items. */
  function After(n: nat, rest: Text, close: Unit, r: Text): (t: Text)
    ensures t != [] && t[0] == if n == 1 then close else COMMA
  {
    if n == 1 then [close] + r else [COMMA] + (rest + [close] + r)
  }

  lemma AfterUnique(m: nat, s: Text, n: nat, t: Text, close: Unit, r: Text, q: Text)
    requires close != COMMA && After(m, s, close, r) == After(n, t, close, q)
    ensures (m == 1) == (n == 1)
    ensures m == 1 ==> r == q
    ensures m != 1 ==> s + [close] + r == t + [close] + q
  {
    if m == 1 {
      Cancel([close], r, [close], q);
    } else {
      Cancel([COMMA], s + [close] + r, [COMMA], t + [close] + q);
    }
  }

  ghost function ElementsRest(xs: seq<Json>): Text
    requires xs != [] && (forall i | 0 <= i < |xs| :: Valid(xs[i])) && Elements(xs).Ok?
  {
    if |xs| == 1 then [] else Elements(xs[1..]).value
  }

  lemma ListStep(n: nat, first: Text, rest: Text, close: Unit, r: Text)
    ensures (if n == 1 then first else first + [COMMA] + rest) + [close] + r == first + After(n, rest, close, r)
  {
    JoinStep(first, COMMA, rest, close, r);
  }

  lemma ElementsUnfold(xs: seq<Json>)
    requires xs != [] && (forall i | 0 <= i < |xs| :: Valid(xs[i])) && Elements(xs).Ok?
    ensures Canonical(xs[0]).Ok?
    ensures Elements(xs).value
      == if |xs| == 1 then Canonical(xs[0]).value else Canonical(xs[0]).value + [COMMA] + ElementsRest(xs)
  {
  }

  lemma NotClosed(v: Json, r: Text)
    requires Valid(v) && Canonical(v).Ok?
    ensures (Canonical(v).value + r)[0] != CLOSE_BRACKET
  {
    KindSeen(v, r);
  }

  lemma ElementsStep(xs: seq<Json>, r: Text)
    requires xs != [] && (forall i | 0 <= i < |xs| :: Valid(xs[i])) && Elements(xs).Ok?
    ensures Canonical(xs[0]).Ok?
    ensures var whole := Elements(xs).value + [CLOSE_BRACKET] + r;
      && whole == Canonical(xs[0]).value + After(|xs|, ElementsRest(xs), CLOSE_BRACKET, r)
      && whole[0] != CLOSE_BRACKET
  {
    ElementsUnfold(xs);
    ListStep(|xs|, Canonical(xs[0]).value, ElementsRest(xs), CLOSE_BRACKET, r);
    NotClosed(xs[0], After(|xs|, ElementsRest(xs), CLOSE_BRACKET, r));
  }

  ghost predicate Listed(xs: seq<Json>) {
    (forall i | 0 <= i < |xs| :: Valid(xs[i])) && Elements(xs).Ok?
  }

  ghost predicate SameMeanings(xs: seq<Json>, ys: seq<Json>) {
    |xs| == |ys| && forall i | 0 <= i < |xs| :: Meaning(xs[i]) == Meaning(ys[i])
  }

  lemma SameMeaningsStep(xs: seq<Json>, ys: seq<Json>)
    requires xs != [] && ys != [] && Meaning(xs[0]) == Meaning(ys[0]) && SameMeanings(xs[1..], ys[1..])
    ensures SameMeanings(xs, ys)
  {
    assert forall i | 1 <= i < |xs| :: xs[i] == xs[1..][i - 1] && ys[i] == ys[1..][i - 1];
  }

  lemma ListedRest(xs: seq<Json>)
    requires Listed(xs) && |xs| > 1
    ensures Listed(xs[1..]) && Elements(xs[1..]).value == ElementsRest(xs)
  {
  }

  lemma ListEnd(close: Unit, r: Text)
    ensures [] + [close] + r == [close] + r
  {
  }

  lemma ListEnds(xs: seq<Json>, r: Text)
    requires Listed(xs)
    ensures (xs == []) == ((Elements(xs).value + [CLOSE_BRACKET] + r)[0] == CLOSE_BRACKET)
    ensures xs == [] ==> Elements(xs).value + [CLOSE_BRACKET] + r == [CLOSE_BRACKET] + r
  {
    if xs == [] { ListEnd(CLOSE_BRACKET, r); } else { ElementsStep(xs, r); }
  }

  lemma {:induction false} ReadElements(xs: seq<Json>, r: Text, ys: seq<Json>, q: Text)
    requires Listed(xs) && Listed(ys)
    requires Elements(xs).value + [CLOSE_BRACKET] + r == Elements(ys).value + [CLOSE_BRACKET] + q
    ensures SameMeanings(xs, ys) && r == q
    decreases xs, 0
  {
    ListEnds(xs, r);
    ListEnds(ys, q);
    if xs == [] {
      Cancel([CLOSE_BRACKET], r, [CLOSE_BRACKET], q);
    } else {
      ElementsStep(xs, r);
      ElementsStep(ys, q);
      var s, t := ElementsRest(xs), ElementsRest(ys);
      ReadValue(xs[0], After(|xs|, s, CLOSE_BRACKET, r), ys[0], After(|ys|, t, CLOSE_BRACKET, q));
      AfterUnique(|xs|, s, |ys|, t, CLOSE_BRACKET, r, q);
      if |xs| > 1 {
        ListedRest(xs);
        ListedRest(ys);
        ReadElements(xs[1..], r, ys[1..], q);
      }
      SameMeaningsStep(xs, ys);
    }
  }

  ghost predicate Printable(a: Json, ks: seq<Text>) {
    a.Obj? && Valid(a) && (forall k | k in ks :: k in a.fields) && Members(a, ks).Ok?
  }

  ghost function MembersRest(a: Json, ks: seq<Text>): Text
    requires ks != [] && Printable(a, ks)
  {
    if |ks| == 1 then [] else Members(a, ks[1..]).value
  }

  lemma MembersUnfold(a: Json, ks: seq<Text>)
    requires ks != [] && Printable(a, ks)
    ensures Canonical(a.fields[ks[0]]).Ok?
    ensures var first := Quote(ks[0]) + [COLON] + Canonical(a.fields[ks[0]]).value;
      Members(a, ks).value == if |ks| == 1 then first else first + [COMMA] + MembersRest(a, ks)
  {
  }

  lemma MemberText(n: nat, key: Text, value: Text, rest: Text, close: Unit, r: Text)
    requires key != [] && key[0] != close
    ensures var first := key + [COLON] + value;
      var whole := (if n == 1 then first else first + [COMMA] + rest) + [close] + r;
      && whole == key + ([COLON] + (value + After(n, rest, close, r)))
      && whole[0] != close
  {
    ListStep(n, key + [COLON] + value, rest, close, r);
    MemberSplit(key, COLON, value, After(n, rest, close, r));
    FirstOf(key, [COLON] + (value + After(n, rest, close, r)));
  }

  lemma MembersStep(a: Json, ks: seq<Text>, r: Text)
    requires ks != [] && Printable(a, ks)
    ensures Canonical(a.fields[ks[0]]).Ok?
    ensures var whole := Members(a, ks).value + [CLOSE_BRACE] + r;
      && whole == Quote(ks[0]) + ([COLON] + (Canonical(a.fields[ks[0]]).value
           + After(|ks|, MembersRest(a, ks), CLOSE_BRACE, r)))
      && whole[0] != CLOSE_BRACE
  {
    MembersUnfold(a, ks);
    MemberText(|ks|, Quote(ks[0]), Canonical(a.fields[ks[0]]).value, MembersRest(a, ks), CLOSE_BRACE, r);
  }

  lemma MemberSplit<T>(key: seq<T>, colon: T, value: seq<T>, tail: seq<T>)
    ensures key + [colon] + value + tail == key + ([colon] + (value + tail))
  {
  }

  lemma RestPrintable(a: Json, ks: seq<Text>)
    requires |ks| > 1 && Printable(a, ks)
    ensures Printable(a, ks[1..])
  {
  }

  lemma {:induction false} ReadMember(a: Json, ks: seq<Text>, r: Text, b: Json, ls: seq<Text>, q: Text)
    requires ks != [] && ls != [] && Printable(a, ks) && Printable(b, ls)
    requires Members(a, ks).value + [CLOSE_BRACE] + r == Members(b, ls).value + [CLOSE_BRACE] + q
    ensures ks[0] == ls[0] && Meaning(a.fields[ks[0]]) == Meaning(b.fields[ls[0]])
    ensures After(|ks|, MembersRest(a, ks), CLOSE_BRACE, r) == After(|ls|, MembersRest(b, ls), CLOSE_BRACE, q)
    decreases a, 0, |ks|, 0
  {
    MemberHead(a, ks, r, b, ls, q);
    MemberReady(a, ks, r);
    MemberReady(b, ls, q);
    ReadValue(a.fields[ks[0]], After(|ks|, MembersRest(a, ks), CLOSE_BRACE, r),
              b.fields[ls[0]], After(|ls|, MembersRest(b, ls), CLOSE_BRACE, q));
  }

  lemma MemberReady(a: Json, ks: seq<Text>, r: Text)
    requires ks != [] && Printable(a, ks)
    ensures Valid(a.fields[ks[0]]) && Ends(After(|ks|, MembersRest(a, ks), CLOSE_BRACE, r))
  {
    assert ks[0] in ks;
  }

  lemma MemberHead(a: Json, ks: seq<Text>, r: Text, b: Json, ls: seq<Text>, q: Text)
    requires ks != [] && ls != [] && Printable(a, ks) && Printable(b, ls)
    requires Members(a, ks).value + [CLOSE_BRACE] + r == Members(b, ls).value + [CLOSE_BRACE] + q
    ensures ks[0] == ls[0] && Canonical(a.fields[ks[0]]).Ok? && Canonical(b.fields[ls[0]]).Ok?
    ensures Canonical(a.fields[ks[0]]).value + After(|ks|, MembersRest(a, ks), CLOSE_BRACE, r)
      == Canonical(b.fields[ls[0]]).value + After(|ls|, MembersRest(b, ls), CLOSE_BRACE, q)
  {
    MembersStep(a, ks, r);
    MembersStep(b, ls, q);
    MemberUnique(ks[0], Canonical(a.fields[ks[0]]).value + After(|ks|, MembersRest(a, ks), CLOSE_BRACE, r),
                 ls[0], Canonical(b.fields[ls[0]]).value + After(|ls|, MembersRest(b, ls), CLOSE_BRACE, q));
  }

  lemma MemberUnique(k: Text, r: Text, l: Text, q: Text)
    requires Quote(k) + ([COLON] + r) == Quote(l) + ([COLON] + q)
    ensures k == l && r == q
  {
    QuoteUnique(k, [COLON] + r, l, [COLON] + q);
    Cancel([COLON], r, [COLON], q);
  }

  lemma {:induction false} ReadMembers(a: Json, ks: seq<Text>, r: Text, b: Json, ls: seq<Text>, q: Text)
    requires Printable(a, ks) && Printable(b, ls)
    requires Members(a, ks).value + [CLOSE_BRACE] + r == Members(b, ls).value + [CLOSE_BRACE] + q
    ensures ks == ls && r == q && forall k | k in ks :: Meaning(a.fields[k]) == Meaning(b.fields[k])
    decreases a, 0, |ks|, 1
  {
    MembersEnd(a, ks, r);
    MembersEnd(b, ls, q);
    if ks == [] {
      Cancel([CLOSE_BRACE], r, [CLOSE_BRACE], q);
    } else {
      ReadMember(a, ks, r, b, ls, q);
      AfterUnique(|ks|, MembersRest(a, ks), |ls|, MembersRest(b, ls), CLOSE_BRACE, r, q);
      if |ks| > 1 {
        RestPrintable(a, ks);
        RestPrintable(b, ls);
        ReadMembers(a, ks[1..], r, b, ls[1..], q);
      }
      SameFieldsStep(a, ks, b, ls);
    }
  }

  lemma MembersEnd(a: Json, ks: seq<Text>, r: Text)
    requires Printable(a, ks)
    ensures (ks == []) == ((Members(a, ks).value + [CLOSE_BRACE] + r)[0] == CLOSE_BRACE)
    ensures ks == [] ==> Members(a, ks).value + [CLOSE_BRACE] + r == [CLOSE_BRACE] + r
  {
    if ks == [] { ListEnd(CLOSE_BRACE, r); } else { MembersStep(a, ks, r); }
  }

  ghost predicate SameFields(a: Json, ks: seq<Text>, b: Json)
    requires a.Obj? && b.Obj?
  {
    forall k | k in ks :: k in a.fields && k in b.fields && Meaning(a.fields[k]) == Meaning(b.fields[k])
  }

  lemma SameFieldsStep(a: Json, ks: seq<Text>, b: Json, ls: seq<Text>)
    requires a.Obj? && b.Obj? && ks != [] && ls != [] && ks[0] == ls[0] && ks[1..] == ls[1..]
    requires SameFields(a, [ks[0]], b) && SameFields(a, ks[1..], b)
    ensures ks == ls && SameFields(a, ks, b)
  {
    assert ks == [ks[0]] + ks[1..] && ls == [ls[0]] + ls[1..];
  }

  lemma KeyOrder(keys: seq<Text>)
    ensures TotalOn(AtMost, keys) && Separates(AtMost, keys)
  {
    forall a, b ensures (AtMost(a, b) || AtMost(b, a)) && (AtMost(a, b) && AtMost(b, a) ==> a == b) {
      AtMostTotal(a, b);
    }
    forall a, b, c | AtMost(a, b) && AtMost(b, c) ensures AtMost(a, c) {
      AtMostTransitive(a, b, c);
    }
  }

  ghost predicate Ascending(ks: seq<Text>) {
    forall i, j | 0 <= i < j < |ks| :: AtMost(ks[i], ks[j]) && ks[i] != ks[j]
  }

  /** An object prints its members in strictly ascending code-unit order of their keys. */
  lemma {:induction false} KeysAscend(v: Json) returns (ks: seq<Text>)
    requires Valid(v) && v.Obj? && Canonical(v).Ok?
    ensures multiset(ks) == multiset(v.keys) && Ascending(ks) && Printable(v, ks)
    ensures Canonical(v).value == [OPEN_BRACE] + Members(v, ks).value + [CLOSE_BRACE]
  {
    ks := Sort(v.keys, AtMost);
    SameMembers(ks, v.keys);
    KeyOrder(v.keys);
    SortSorted(v.keys, AtMost);
    PermutedDistinct(v.keys, ks);
  }

  /** The same key set prints in the same order, whatever the enumeration order. */
  lemma SortedKeysAgree(ks: seq<Text>, ls: seq<Text>)
    requires Distinct(ks) && Distinct(ls) && forall k :: k in ks <==> k in ls
    ensures Sort(ks, AtMost) == Sort(ls, AtMost)
  {
    DistinctPermutes(ks, ls);
    KeyOrder(ks);
    SortForgetsOrder(ks, ls, AtMost);
  }

  /** Values with one meaning have one text. */
  lemma ItemsDecided(a: Json, b: Json)
    requires Valid(a) && Valid(b) && a.Arr? && Supported(a) && Meaning(a) == Meaning(b)
    ensures b.Arr? && SameMeanings(a.items, b.items)
  {
    assert |a.items| == |Meaning(a).items| == |b.items|;
    forall i | 0 <= i < |a.items| ensures Meaning(a.items[i]) == Meaning(b.items[i]) {
      assert Meaning(a).items[i] == Meaning(b).items[i];
    }
  }

  lemma {:induction false} SameMeaningSameText(a: Json, b: Json)
    requires Valid(a) && Valid(b) && Supported(a) && Meaning(a) == Meaning(b)
    ensures Canonical(a) == Canonical(b)
    decreases a, 1
  {
    match a
    case Num(n) =>
      if !b.n.NonFinite? { NumberUnique(n, b.n); }
    case Arr(_) => SameArrayText(a, b);
    case Obj(_, _) => SameObjectText(a, b);
    case _ =>
  }

  lemma {:induction false} SameArrayText(a: Json, b: Json)
    requires Valid(a) && Valid(b) && a.Arr? && Supported(a) && Meaning(a) == Meaning(b)
    ensures Canonical(a) == Canonical(b)
    decreases a, 0
  {
    ItemsDecided(a, b);
    SameElements(a.items, b.items);
  }

  lemma {:induction false} SameObjectText(a: Json, b: Json)
    requires Valid(a) && Valid(b) && a.Obj? && Supported(a) && Meaning(a) == Meaning(b)
    ensures Canonical(a) == Canonical(b)
    decreases a, 0, |a.keys| + 1
  {
    FieldsDecided(a, b);
    SortedKeysAgree(a.keys, b.keys);
    var sorted := Sort(a.keys, AtMost);
    SameMembers(sorted, a.keys);
    SameMembersText(a, b, sorted);
  }

  lemma {:induction false} SameElements(xs: seq<Json>, ys: seq<Json>)
    requires |xs| == |ys|
    requires forall i | 0 <= i < |xs| :: Valid(xs[i]) && Supported(xs[i])
    requires forall i | 0 <= i < |xs| :: Valid(ys[i]) && Meaning(xs[i]) == Meaning(ys[i])
    ensures Elements(xs) == Elements(ys)
    decreases xs, 0
  {
    if xs != [] {
      SameMeaningSameText(xs[0], ys[0]);
      SameElements(xs[1..], ys[1..]);
    }
  }

  lemma {:induction false} SameMembersText(a: Json, b: Json, ks: seq<Text>)
    requires a.Obj? && b.Obj? && Valid(a) && Valid(b)
    requires forall k | k in ks :: k in a.fields && k in b.fields
    requires forall k | k in ks :: Supported(a.fields[k]) && Meaning(a.fields[k]) == Meaning(b.fields[k])
    ensures Members(a, ks) == Members(b, ks)
    decreases a, 0, |ks|
  {
    if ks != [] {
      SameMeaningSameText(a.fields[ks[0]], b.fields[ks[0]]);
      SameMembersText(a, b, ks[1..]);
    }
  }

  /** Two requests print to the same text exactly when they mean the same. */
  lemma CanonicalFaithful(a: Json, b: Json)
    requires Valid(a) && Valid(b) && Supported(a) && Supported(b)
    ensures Canonical(a).Ok? && Canonical(b).Ok?
    ensures Canonical(a) == Canonical(b) <==> Meaning(a) == Meaning(b)
  {
    CanonicalDomain(a);
    CanonicalDomain(b);
    if Canonical(a) == Canonical(b) {
      ReadValue(a, [], b, []);
    } else if Meaning(a) == Meaning(b) {
      SameMeaningSameText(a, b);
    }
  }
}
