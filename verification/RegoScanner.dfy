/** The structural scan of Rego policy source: comments and strings are stripped, then brackets
    must nest. */
module RegoScanner {
  import opened CodeUnits
  import opened Prelude

  const CONTENT_MAX := 262144

  predicate IsQuote(c: Unit) { c == QUOTE || c == BACKTICK }
  predicate IsSpecial(c: Unit) { IsQuote(c) || c == HASH }

  datatype Stripped = Stripped(source: Text, unterminated: bool)

  /** Where the comment that starts a text ends: at the newline, which stays. */
  function LineEnd(s: Text): (n: nat)
    ensures n <= |s| && (n < |s| ==> s[n] == NEWLINE) && forall i | 0 <= i < n :: s[i] != NEWLINE
  {
    if s == [] || s[0] == NEWLINE then 0 else 1 + LineEnd(s[1..])
  }

  /** The length of the string body that starts a text, up to its closing quote. In a double-quoted
      string a backslash hides the next code unit and a bare newline ends the search. */
  function BodyLength(quote: Unit, s: Text): (n: Option<nat>)
    ensures n.Some? ==> n.value < |s| && s[n.value] == quote
  {
    if s == [] then None
    else if quote == QUOTE && s[0] == BACKSLASH && |s| > 1 then Plus(BodyLength(quote, s[2..]), 2)
    else if s[0] == quote then Some(0)
    else if quote == QUOTE && s[0] == NEWLINE then None
    else Plus(BodyLength(quote, s[1..]), 1)
  }

  function Plus(n: Option<nat>, k: nat): Option<nat> {
    match n case Some(v) => Some(v + k) case None => None
  }

  function Emit(c: Unit, r: Stripped): Stripped { r.(source := [c] + r.source) }

  function Strip(src: Text): Stripped
    decreases |src|
  {
    if src == [] then Stripped([], false)
    else if src[0] == HASH then Strip(src[LineEnd(src)..])
    else if IsQuote(src[0]) then
      match BodyLength(src[0], src[1..])
      case None => Stripped([SPACE], true)
      case Some(n) => Emit(SPACE, Strip(src[n + 2..]))
    else Emit(src[0], Strip(src[1..]))
  }

  function After(prefix: Text, r: Stripped): Stripped { r.(source := prefix + r.source) }

  lemma EmitAfter(out: Text, c: Unit, r: Stripped)
    ensures After(out, Emit(c, r)) == After(out + [c], r)
  {
  }

  lemma CodeAt(src: Text, i: nat)
    requires i < |src| && !IsSpecial(src[i])
    ensures Strip(src[i..]) == Emit(src[i], Strip(src[i + 1..]))
  {
    assert src[i..][1..] == src[i + 1..];
  }

  lemma DropTwice(s: Text, i: nat, n: nat)
    requires i + n <= |s|
    ensures s[i..][n..] == s[i + n..]
  {
  }

  /** What was emitted so far and what the rest strips to make up the whole. */
  ghost predicate Underway(out: Text, src: Text, i: nat) {
    i <= |src| && After(out, Strip(src[i..])) == Strip(src)
  }

  lemma CodeStep(out: Text, src: Text, i: nat)
    requires i < |src| && !IsSpecial(src[i]) && Underway(out, src, i)
    ensures Underway(out + [src[i]], src, i + 1)
  {
    CodeAt(src, i);
    EmitStep(out, src[i], Strip(src), Strip(src[i..]), Strip(src[i + 1..]));
  }

  lemma EmitStep(out: Text, c: Unit, whole: Stripped, here: Stripped, rest: Stripped)
    requires After(out, here) == whole && here == Emit(c, rest)
    ensures After(out + [c], rest) == whole
  {
    EmitAfter(out, c, rest);
  }

  lemma ClosedAt(src: Text, i: nat, next: nat)
    requires i < |src| && IsQuote(src[i]) && i < next <= |src| && BodyEnd(src[i], src, i + 1) == Some(next - 1)
    ensures Strip(src[i..]) == Emit(SPACE, Strip(src[next..]))
  {
    DropTwice(src, i, 1);
    DropTwice(src, i, next - i);
    StripClosed(src[i..], src[i + 1..], next - i - 2, src[next..]);
  }

  lemma StripClosed(s: Text, body: Text, n: nat, rest: Text)
    requires s != [] && IsQuote(s[0]) && body == s[1..] && BodyLength(s[0], body) == Some(n) && rest == s[n + 2..]
    ensures Strip(s) == Emit(SPACE, Strip(rest))
  {
  }

  lemma OpenAt(src: Text, i: nat)
    requires i < |src| && IsQuote(src[i]) && BodyEnd(src[i], src, i + 1).None?
    ensures Strip(src[i..]) == Stripped([SPACE], true)
  {
    DropTwice(src, i, 1);
    StripOpen(src[i..], src[i + 1..]);
  }

  lemma StripOpen(s: Text, body: Text)
    requires s != [] && IsQuote(s[0]) && body == s[1..] && BodyLength(s[0], body).None?
    ensures Strip(s) == Stripped([SPACE], true)
  {
  }

  lemma ClosedStep(out: Text, src: Text, i: nat, next: nat)
    requires i < |src| && IsQuote(src[i]) && Underway(out, src, i)
    requires i < next <= |src| && BodyEnd(src[i], src, i + 1) == Some(next - 1)
    ensures Underway(out + [SPACE], src, next)
  {
    ClosedAt(src, i, next);
    EmitStep(out, SPACE, Strip(src), Strip(src[i..]), Strip(src[next..]));
  }

  lemma OpenStep(out: Text, src: Text, i: nat)
    requires i < |src| && IsQuote(src[i]) && Underway(out, src, i) && BodyEnd(src[i], src, i + 1).None?
    ensures Strip(src) == Stripped(out + [SPACE], true)
  {
    OpenAt(src, i);
  }

  lemma AtEnd(out: Text, src: Text)
    requires Underway(out, src, |src|)
    ensures Strip(src) == Stripped(out, false)
  {
  }

  lemma AtStart(src: Text)
    ensures Underway([], src, 0)
  {
    assert src[0..] == src;
  }

  /** The scanning loop over one index. */
  method StripCommentsAndStrings(src: Text) returns (r: Stripped)
    ensures r == Strip(src)
  {
    var out: Text, i := [], 0;
    AtStart(src);
    while i < |src|
      invariant 0 <= i <= |src| && Underway(out, src, i)
    {
      var ch := src[i];
      if ch == HASH {
        i := SkipComment(src, i);
      } else if IsQuote(ch) {
        var next, closed := SkipString(src, i);
        if !closed {
          OpenStep(out, src, i);
          return Stripped(out + [SPACE], true);
        }
        ClosedStep(out, src, i, next);
        out, i := out + [SPACE], next;
      } else {
        CodeStep(out, src, i);
        out, i := out + [ch], i + 1;
      }
    }
    AtEnd(out, src);
    r := Stripped(out, false);
  }

  method SkipComment(src: Text, start: nat) returns (i: nat)
    requires start < |src| && src[start] == HASH
    ensures start < i <= |src| && Strip(src[i..]) == Strip(src[start..])
  {
    i := start;
    while i < |src| && src[i] != NEWLINE
      invariant start <= i <= |src| && i + LineEnd(src[i..]) == start + LineEnd(src[start..])
    {
      assert src[i..][1..] == src[i + 1..];
      i := i + 1;
    }
    assert src[start..][LineEnd(src[start..])..] == src[i..];
  }

  /** The index of the closing quote of the string whose body begins at an index. */
  function BodyEnd(quote: Unit, src: Text, i: nat): Option<nat>
    requires i <= |src|
  {
    Plus(BodyLength(quote, src[i..]), i)
  }

  lemma BodyAt(quote: Unit, src: Text, i: nat)
    requires i < |src|
    ensures BodyEnd(quote, src, i) ==
      if quote == QUOTE && src[i] == BACKSLASH && i + 1 < |src| then BodyEnd(quote, src, i + 2)
      else if src[i] == quote then Some(i)
      else if quote == QUOTE && src[i] == NEWLINE then None
      else BodyEnd(quote, src, i + 1)
  {
    assert src[i..][1..] == src[i + 1..];
    if i + 1 < |src| { assert src[i..][2..] == src[i + 2..]; }
  }

  method SkipString(src: Text, start: nat) returns (i: nat, closed: bool)
    requires start < |src| && IsQuote(src[start])
    ensures closed <==> BodyEnd(src[start], src, start + 1).Some?
    ensures closed ==> start < i <= |src| && BodyEnd(src[start], src, start + 1) == Some(i - 1)
  {
    var quote := src[start];
    i, closed := start + 1, false;
    while i < |src|
      invariant start < i <= |src| && BodyEnd(quote, src, i) == BodyEnd(quote, src, start + 1)
    {
      var c := src[i];
      BodyAt(quote, src, i);
      if quote == QUOTE && c == BACKSLASH && i + 1 < |src| {
        i := i + 2;
      } else if c == quote {
        return i + 1, true;
      } else if quote == QUOTE && c == NEWLINE {
        return;
      } else {
        i := i + 1;
      }
    }
    assert src[i..] == [];
  }

  predicate Plain(s: Text) { forall i | 0 <= i < |s| :: !IsSpecial(s[i]) }

  lemma {:induction false} StripIsPlain(src: Text)
    ensures Plain(Strip(src).source)
    decreases |src|
  {
    if src != [] {
      if src[0] == HASH {
        StripIsPlain(src[LineEnd(src)..]);
      } else if IsQuote(src[0]) {
        match BodyLength(src[0], src[1..])
        case None =>
        case Some(n) => StripIsPlain(src[n + 2..]);
      } else {
        StripIsPlain(src[1..]);
      }
    }
  }

  lemma {:induction false} PlainUnchanged(s: Text)
    requires Plain(s)
    ensures Strip(s) == Stripped(s, false)
  {
    if s != [] {
      PlainUnchanged(s[1..]);
      assert s == [s[0]] + s[1..];
    }
  }

  /** Stripping emits no quote or hash, and stripping again changes nothing. */
  lemma {:induction false} StripIsIdempotent(src: Text)
    ensures Plain(Strip(src).source) && Strip(Strip(src).source) == Stripped(Strip(src).source, false)
  {
    StripIsPlain(src);
    PlainUnchanged(Strip(src).source);
  }

  /** What policy source is made of. */
  datatype Piece = Code(c: Unit) | Comment(text: Text) | Quoted(quote: Unit, body: Text)

  predicate BodyOk(quote: Unit, b: Text) {
    if b == [] then true
    else if quote == QUOTE && b[0] == BACKSLASH then |b| > 1 && BodyOk(quote, b[2..])
    else b[0] != quote && !(quote == QUOTE && b[0] == NEWLINE) && BodyOk(quote, b[1..])
  }

  /** Code has no special character, a comment runs to the end of its line, a string is closed. */
  predicate WellFormed(ps: seq<Piece>) {
    ps == [] ||
    ((match ps[0]
       case Code(c) => !IsSpecial(c)
       case Comment(text) => NEWLINE !in text && (|ps| > 1 ==> ps[1] == Code(NEWLINE))
       case Quoted(quote, body) => IsQuote(quote) && BodyOk(quote, body))
     && WellFormed(ps[1..]))
  }

  function RenderPiece(p: Piece): Text {
    match p
    case Code(c) => [c]
    case Comment(text) => [HASH] + text
    case Quoted(quote, body) => [quote] + body + [quote]
  }

  function Render(ps: seq<Piece>): Text {
    if ps == [] then [] else RenderPiece(ps[0]) + Render(ps[1..])
  }

  /** The code alone: comments vanish and each string leaves one space. */
  function Erase(ps: seq<Piece>): Text {
    if ps == [] then []
    else (match ps[0] case Code(c) => [c] case Comment(_) => [] case Quoted(_, _) => [SPACE]) + Erase(ps[1..])
  }

  lemma {:induction false} BodyFound(quote: Unit, body: Text, rest: Text)
    requires IsQuote(quote) && BodyOk(quote, body)
    ensures BodyLength(quote, body + [quote] + rest) == Some(|body|)
    decreases |body|
  {
    var s := body + [quote] + rest;
    if body != [] {
      if quote == QUOTE && body[0] == BACKSLASH {
        BodyFound(quote, body[2..], rest);
        assert s[2..] == body[2..] + [quote] + rest;
      } else {
        BodyFound(quote, body[1..], rest);
        assert s[1..] == body[1..] + [quote] + rest;
      }
    }
  }

  lemma {:induction false} BodyRead(quote: Unit, s: Text)
    requires IsQuote(quote) && BodyLength(quote, s).Some?
    ensures BodyOk(quote, s[..BodyLength(quote, s).value])
    decreases |s|
  {
    var n := BodyLength(quote, s).value;
    if quote == QUOTE && s[0] == BACKSLASH && |s| > 1 {
      BodyRead(quote, s[2..]);
      assert s[..n][2..] == s[2..][..n - 2];
    } else if s[0] != quote {
      BodyRead(quote, s[1..]);
      assert s[..n][1..] == s[1..][..n - 1];
    }
  }

  lemma {:induction false} CommentEnds(text: Text, rest: Text)
    requires NEWLINE !in text && (rest == [] || rest[0] == NEWLINE)
    ensures LineEnd(text + rest) == |text|
  {
    if text != [] {
      CommentEnds(text[1..], rest);
      assert (text + rest)[1..] == text[1..] + rest;
    } else {
      assert text + rest == rest;
    }
  }

  /** Stripping a text made of well-formed pieces leaves exactly its code. */
  lemma {:induction false} StripErases(ps: seq<Piece>)
    requires WellFormed(ps)
    ensures Strip(Render(ps)) == Stripped(Erase(ps), false)
    decreases |ps|
  {
    if ps != [] {
      StripErases(ps[1..]);
      match ps[0]
      case Code(c) => assert Render(ps)[1..] == Render(ps[1..]);
      case Comment(_) => CommentErased(ps);
      case Quoted(_, _) => QuotedErased(ps);
    }
  }

  lemma CommentErased(ps: seq<Piece>)
    requires ps != [] && ps[0].Comment? && WellFormed(ps) && Strip(Render(ps[1..])) == Stripped(Erase(ps[1..]), false)
    ensures Strip(Render(ps)) == Stripped(Erase(ps), false)
  {
    var text, rest, src := ps[0].text, Render(ps[1..]), Render(ps);
    assert rest == [] || rest[0] == NEWLINE;
    assert src == ([HASH] + text) + rest;
    CommentEnds([HASH] + text, rest);
    assert src[|text| + 1..] == rest;
  }

  lemma QuotedErased(ps: seq<Piece>)
    requires ps != [] && ps[0].Quoted? && WellFormed(ps) && Strip(Render(ps[1..])) == Stripped(Erase(ps[1..]), false)
    ensures Strip(Render(ps)) == Stripped(Erase(ps), false)
  {
    var quote, body, rest, src := ps[0].quote, ps[0].body, Render(ps[1..]), Render(ps);
    assert src[1..] == body + [quote] + rest;
    BodyFound(quote, body, rest);
    assert src[|body| + 2..] == rest;
  }

  lemma SplitComment(src: Text, rest: seq<Piece>)
    requires src != [] && src[0] == HASH && WellFormed(rest) && Render(rest) == src[LineEnd(src)..]
    ensures var ps := [Comment(src[1..LineEnd(src)])] + rest; WellFormed(ps) && Render(ps) == src
  {
    CommentLine(src);
    CommentFirst(src[1..LineEnd(src)], rest);
    CutAt(src, LineEnd(src));
  }

  lemma CommentLine(src: Text)
    requires src != [] && src[0] == HASH
    ensures 0 < LineEnd(src) && NEWLINE !in src[1..LineEnd(src)]
  {
  }

  lemma CutAt(src: Text, n: nat)
    requires 0 < n <= |src|
    ensures src == ([src[0]] + src[1..n]) + src[n..]
  {
  }

  lemma CommentFirst(text: Text, rest: seq<Piece>)
    requires NEWLINE !in text && WellFormed(rest) && (Render(rest) != [] ==> Render(rest)[0] == NEWLINE)
    ensures var ps := [Comment(text)] + rest; WellFormed(ps) && Render(ps) == ([HASH] + text) + Render(rest)
  {
    var ps := [Comment(text)] + rest;
    assert ps[1..] == rest;
    if rest != [] { StartsWithNewline(rest); }
  }

  lemma SplitQuoted(src: Text, n: nat, rest: seq<Piece>)
    requires src != [] && IsQuote(src[0]) && BodyLength(src[0], src[1..]) == Some(n)
    requires WellFormed(rest) && Render(rest) == src[n + 2..]
    ensures var ps := [Quoted(src[0], src[1..][..n])] + rest; WellFormed(ps) && Render(ps) == src
  {
    var ps := [Quoted(src[0], src[1..][..n])] + rest;
    assert ps[1..] == rest;
    BodyRead(src[0], src[1..]);
    CutQuoted(src, n);
  }

  lemma CutQuoted(src: Text, n: nat)
    requires n + 1 < |src| && src[n + 1] == src[0]
    ensures src == [src[0]] + src[1..][..n] + [src[0]] + src[n + 2..]
  {
  }

  lemma StartsWithNewline(ps: seq<Piece>)
    requires WellFormed(ps) && ps != [] && (Render(ps) != [] ==> Render(ps)[0] == NEWLINE)
    ensures ps[0] == Code(NEWLINE)
  {
    assert Render(ps)[0] == RenderPiece(ps[0])[0];
  }

  /** A text without an unterminated string is made of well-formed pieces. */
  lemma {:induction false} SourceSplits(src: Text) returns (ps: seq<Piece>)
    requires !Strip(src).unterminated
    ensures WellFormed(ps) && Render(ps) == src
    decreases |src|
  {
    if src == [] {
      ps := [];
    } else if src[0] == HASH {
      var rest := SourceSplits(src[LineEnd(src)..]);
      SplitComment(src, rest);
      ps := [Comment(src[1..LineEnd(src)])] + rest;
    } else if IsQuote(src[0]) {
      var n := BodyLength(src[0], src[1..]).value;
      var rest := SourceSplits(src[n + 2..]);
      SplitQuoted(src, n, rest);
      ps := [Quoted(src[0], src[1..][..n])] + rest;
    } else {
      var rest := SourceSplits(src[1..]);
      ps := [Code(src[0])] + rest;
      assert ps[1..] == rest && src == [src[0]] + src[1..];
    }
  }

  /** Rewriting comments and string bodies, and nothing else, is invisible to the scan. */
  ghost predicate SameCode(ps: seq<Piece>, qs: seq<Piece>) {
    && |ps| == |qs|
    && forall i | 0 <= i < |ps| ::
      ps[i] == qs[i] || (ps[i].Comment? && qs[i].Comment?) || (ps[i].Quoted? && qs[i].Quoted?)
  }

  lemma {:induction false} ContentsAreHidden(ps: seq<Piece>, qs: seq<Piece>)
    requires WellFormed(ps) && WellFormed(qs) && SameCode(ps, qs)
    ensures Strip(Render(ps)) == Strip(Render(qs))
  {
    StripErases(ps);
    StripErases(qs);
    SameErasure(ps, qs);
  }

  lemma {:induction false} SameErasure(ps: seq<Piece>, qs: seq<Piece>)
    requires SameCode(ps, qs)
    ensures Erase(ps) == Erase(qs)
  {
    if ps != [] { SameErasure(ps[1..], qs[1..]); }
  }

  predicate IsOpen(c: Unit) { c == OPEN_PAREN || c == OPEN_BRACKET || c == OPEN_BRACE }
  predicate IsClose(c: Unit) { c == CLOSE_PAREN || c == CLOSE_BRACKET || c == CLOSE_BRACE }
  predicate Pairs(open: Unit, close: Unit) {
    || (open == OPEN_PAREN && close == CLOSE_PAREN)
    || (open == OPEN_BRACKET && close == CLOSE_BRACKET)
    || (open == OPEN_BRACE && close == CLOSE_BRACE)
  }

  function Brackets(s: Text): (w: Text)
    ensures forall i | 0 <= i < |w| :: IsOpen(w[i]) || IsClose(w[i])
  {
    if s == [] then [] else (if IsOpen(s[0]) || IsClose(s[0]) then [s[0]] else []) + Brackets(s[1..])
  }

  /** Properly nested words over three kinds of brackets. */
  ghost predicate Nested(w: Text)
    decreases |w|
  {
    w == [] || exists k :: 0 < k < |w| && Pairs(w[0], w[k]) && Nested(w[1..k]) && Nested(w[k + 1..])
  }

  /** The stack after reading a word, unless a closing bracket fails to match. */
  function Scan(stack: Text, w: Text): Option<Text>
    decreases |w|
  {
    if w == [] then Some(stack)
    else if IsOpen(w[0]) then Scan(stack + [w[0]], w[1..])
    else if stack != [] && Pairs(stack[|stack| - 1], w[0]) then Scan(stack[..|stack| - 1], w[1..])
    else None
  }

  lemma {:induction false} ScanSplits(stack: Text, a: Text, b: Text)
    ensures Scan(stack, a + b) == if Scan(stack, a).Some? then Scan(Scan(stack, a).value, b) else None
    decreases |a|
  {
    if a == [] {
      assert a + b == b;
    } else {
      assert (a + b)[1..] == a[1..] + b;
      if IsOpen(a[0]) { ScanSplits(stack + [a[0]], a[1..], b); }
      else if stack != [] && Pairs(stack[|stack| - 1], a[0]) { ScanSplits(stack[..|stack| - 1], a[1..], b); }
    }
  }

  lemma {:induction false} NestedScans(stack: Text, w: Text)
    requires Nested(w)
    ensures Scan(stack, w) == Some(stack)
    decreases |w|
  {
    if w != [] {
      var k :| 0 < k < |w| && Pairs(w[0], w[k]) && Nested(w[1..k]) && Nested(w[k + 1..]);
      var deeper := stack + [w[0]];
      NestedScans(deeper, w[1..k]);
      NestedScans(stack, w[k + 1..]);
      ScanAround(stack, w, k);
    }
  }

  lemma ScanAround(stack: Text, w: Text, k: nat)
    requires 0 < k < |w| && Pairs(w[0], w[k]) && Scan(stack + [w[0]], w[1..k]) == Some(stack + [w[0]])
    ensures Scan(stack, w) == Scan(stack, w[k + 1..])
  {
    var deeper := stack + [w[0]];
    assert w[1..] == w[1..k] + w[k..];
    ScanSplits(deeper, w[1..k], w[k..]);
    assert w[k..][1..] == w[k + 1..] && deeper[..|deeper| - 1] == stack;
  }

  /** A word that closes the stack: nested words around one matching bracket per open one. */
  ghost predicate Closes(stack: Text, w: Text)
    decreases |stack|, 1
  {
    if stack == [] then Nested(w) else exists k :: ClosesAt(stack, w, k)
  }

  ghost predicate ClosesAt(stack: Text, w: Text, k: int)
    requires stack != []
    decreases |stack|, 0
  {
    0 <= k < |w| && Nested(w[..k]) && Pairs(stack[|stack| - 1], w[k]) && Closes(stack[..|stack| - 1], w[k + 1..])
  }

  lemma NestedGrows(w: Text, k: nat)
    requires 0 < k < |w| && Pairs(w[0], w[k]) && Nested(w[1..k]) && Nested(w[k + 1..])
    ensures Nested(w)
  {
  }

  lemma CutAgain(w: Text, k: nat, j: nat)
    requires 0 < k < |w| && j < |w[k + 1..]|
    ensures var rest, m := w[k + 1..], k + 1 + j;
      && w[..m][0] == w[0] && w[..m][k] == w[k] && w[..m][1..k] == w[1..k] && w[..m][k + 1..] == rest[..j]
      && w[m] == rest[j] && w[m + 1..] == rest[j + 1..]
  {
    var m := k + 1 + j;
    SliceOfPrefix(w, m, 1, k);
    SliceOfPrefix(w, m, k + 1, m);
    assert w[..m][k + 1..] == w[..m][k + 1..m];
    SliceOfRest(w, k + 1, j);
    DropTwice(w, k + 1, j + 1);
  }

  lemma SliceOfPrefix(w: Text, m: nat, a: nat, b: nat)
    requires a <= b <= m <= |w|
    ensures w[..m][a..b] == w[a..b]
  {
  }

  lemma SliceOfRest(w: Text, a: nat, j: nat)
    requires a + j <= |w|
    ensures w[a..][..j] == w[a..a + j]
  {
  }

  /** A nested group before a closing word keeps it closing. */
  lemma GroupFirst(stack: Text, w: Text, k: nat)
    requires 0 < k < |w| && Pairs(w[0], w[k]) && Nested(w[1..k]) && Closes(stack, w[k + 1..])
    ensures Closes(stack, w)
  {
    if stack == [] {
      NestedGrows(w, k);
    } else {
      var j :| ClosesAt(stack, w[k + 1..], j);
      CutAgain(w, k, j);
      NestedGrows(w[..k + 1 + j], k);
      assert ClosesAt(stack, w, k + 1 + j);
    }
  }

  lemma {:induction false} ScanCloses(stack: Text, w: Text)
    requires Scan(stack, w) == Some([])
    ensures Closes(stack, w)
    decreases |w|
  {
    if w == [] {
      assert stack == [];
    } else if IsOpen(w[0]) {
      var deeper, rest := stack + [w[0]], w[1..];
      ScanCloses(deeper, rest);
      var k :| ClosesAt(deeper, rest, k);
      assert deeper[..|deeper| - 1] == stack;
      assert w[1..k + 1] == rest[..k] && w[k + 1] == rest[k] && w[k + 2..] == rest[k + 1..];
      GroupFirst(stack, w, k + 1);
    } else {
      ScanCloses(stack[..|stack| - 1], w[1..]);
      assert w[..0] == [];
      assert ClosesAt(stack, w, 0);
    }
  }

  /** The bracket matcher accepts exactly the texts whose brackets form a properly nested word. */
  method BalancedDelimiters(src: Text) returns (balanced: bool)
    ensures balanced <==> Nested(Brackets(src))
  {
    var stack: Text := [];
    assert src[0..] == src;
    for i := 0 to |src|
      invariant Scan(stack, Brackets(src[i..])) == Scan([], Brackets(src))
    {
      var ch := src[i];
      BracketsAt(src, i);
      if IsOpen(ch) {
        stack := stack + [ch];
      } else if IsClose(ch) {
        if stack == [] || !Pairs(stack[|stack| - 1], ch) {
          if Nested(Brackets(src)) { NestedScans([], Brackets(src)); }
          return false;
        }
        stack := stack[..|stack| - 1];
      }
    }
    balanced := stack == [];
    if balanced { ScanCloses([], Brackets(src)); }
    if Nested(Brackets(src)) { NestedScans([], Brackets(src)); }
  }

  lemma BracketsAt(src: Text, i: nat)
    requires i < |src|
    ensures var rest, c := Brackets(src[i + 1..]), src[i];
      if IsOpen(c) || IsClose(c) then Brackets(src[i..]) == [c] + rest && Brackets(src[i..])[1..] == rest
      else Brackets(src[i..]) == rest
  {
    assert src[i..][1..] == src[i + 1..];
  }

  datatype ScanError = EmptyPolicy | ContentTooLarge | UnterminatedString | UnbalancedDelimiters

  /** The structural half of parsing: it passes exactly the texts of admissible size that are made
      of well-formed pieces and whose code nests its brackets, and hands on that code. */
  method ScanPolicy(content: Text) returns (r: Result<Text, ScanError>)
    ensures r == Err(EmptyPolicy) <==> content == []
    ensures r == Err(ContentTooLarge) <==> |content| > CONTENT_MAX
    ensures r == Err(UnterminatedString) ==> !exists ps :: WellFormed(ps) && Render(ps) == content
    ensures r.Ok? ==> 0 < |content| <= CONTENT_MAX
    ensures 0 < |content| <= CONTENT_MAX ==>
      (r.Ok? <==> exists ps :: WellFormed(ps) && Render(ps) == content && Nested(Brackets(Erase(ps))))
    ensures forall ps | WellFormed(ps) && Render(ps) == content && r.Ok? :: r.value == Erase(ps)
  {
    if content == [] { return Err(EmptyPolicy); }
    if |content| > CONTENT_MAX { return Err(ContentTooLarge); }
    var stripped := StripCommentsAndStrings(content);
    forall ps | WellFormed(ps) && Render(ps) == content ensures stripped == Stripped(Erase(ps), false) {
      StripErases(ps);
    }
    if stripped.unterminated { return Err(UnterminatedString); }
    ghost var pieces := SourceSplits(content);
    var balanced := BalancedDelimiters(stripped.source);
    if !balanced { return Err(UnbalancedDelimiters); }
    r := Ok(stripped.source);
  }
}
