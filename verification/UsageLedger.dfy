/**
 * The per-request usage ledger around the gateway: the call budget, the token totals and their
 * attribution to the provider and model that served each completion.
 */
module UsageLedger {
  import opened Prelude

  /** Provider and model names are only ever compared. */
  type Name = nat

  datatype Tokens = Tokens(input: int, output: int)

  datatype Pair = Pair(provider: Name, model: Name)

  /** Tokens under the pair that produced them: one completion, or one attribution row. */
  datatype Usage = Usage(pair: Pair, tokens: Tokens)

  datatype Side = Input | Output

  function Add(a: Tokens, b: Tokens): Tokens {
    Tokens(a.input + b.input, a.output + b.output)
  }

  function Count(u: Usage, side: Side): int {
    if side.Input? then u.tokens.input else u.tokens.output
  }

  function Total(us: seq<Usage>, side: Side): int {
    if us == [] then 0 else Total(us[..|us| - 1], side) + Count(us[|us| - 1], side)
  }

  function Totals(us: seq<Usage>): Tokens {
    Tokens(Total(us, Input), Total(us, Output))
  }

  /** The completions a pair served, and the others. */
  function Only(us: seq<Usage>, pair: Pair): seq<Usage> {
    if us == [] then []
    else
      var rest, last := Only(us[..|us| - 1], pair), us[|us| - 1];
      if last.pair == pair then rest + [last] else rest
  }

  function Except(us: seq<Usage>, pair: Pair): seq<Usage> {
    if us == [] then []
    else
      var rest, last := Except(us[..|us| - 1], pair), us[|us| - 1];
      if last.pair == pair then rest else rest + [last]
  }

  ghost predicate HasPair(us: seq<Usage>, pair: Pair) {
    exists i :: 0 <= i < |us| && us[i].pair == pair
  }

  ghost predicate Exact(row: Usage, us: seq<Usage>) {
    row.tokens == Totals(Only(us, row.pair))
  }

  /** One row per pair that served, carrying exactly that pair's tokens. */
  ghost predicate Attributes(rows: seq<Usage>, us: seq<Usage>) {
    && (forall i, j :: 0 <= i < j < |rows| ==> rows[i].pair != rows[j].pair)
    && (forall i :: 0 <= i < |rows| ==> Exact(rows[i], us))
    && (forall pair :: HasPair(rows, pair) <==> HasPair(us, pair))
  }

  // ---- Attribution loses and invents nothing ----

  lemma TotalAppend(us: seq<Usage>, u: Usage)
    ensures Totals(us + [u]) == Add(Totals(us), u.tokens)
  {
    assert (us + [u])[..|us|] == us;
  }

  lemma OnlyAppend(us: seq<Usage>, u: Usage, pair: Pair)
    ensures Only(us + [u], pair) == if u.pair == pair then Only(us, pair) + [u] else Only(us, pair)
  {
    assert (us + [u])[..|us|] == us;
  }

  lemma PairAppend(us: seq<Usage>, u: Usage, pair: Pair)
    ensures HasPair(us + [u], pair) <==> HasPair(us, pair) || u.pair == pair
  {
    var longer := us + [u];
    assert longer[|us|] == u;
    if HasPair(us, pair) {
      var i :| 0 <= i < |us| && us[i].pair == pair;
      assert longer[i] == us[i];
    }
    if HasPair(longer, pair) && u.pair != pair {
      var i :| 0 <= i < |longer| && longer[i].pair == pair;
      assert us[i] == longer[i];
    }
  }

  lemma {:induction false} TotalSplits(us: seq<Usage>, pair: Pair, side: Side)
    ensures Total(us, side) == Total(Only(us, pair), side) + Total(Except(us, pair), side)
  {
    if us != [] {
      TotalSplits(us[..|us| - 1], pair, side);
    }
  }

  lemma {:induction false} ExceptKeepsOthers(us: seq<Usage>, gone: Pair, pair: Pair)
    requires pair != gone
    ensures Only(Except(us, gone), pair) == Only(us, pair)
  {
    if us != [] {
      var rest, last := us[..|us| - 1], us[|us| - 1];
      ExceptKeepsOthers(rest, gone, pair);
      if last.pair != gone { OnlyAppend(Except(rest, gone), last, pair); }
    }
  }

  lemma {:induction false} ExceptPairs(us: seq<Usage>, gone: Pair, pair: Pair)
    ensures HasPair(Except(us, gone), pair) <==> HasPair(us, pair) && pair != gone
  {
    if us != [] {
      var rest, last := us[..|us| - 1], us[|us| - 1];
      ExceptPairs(rest, gone, pair);
      assert us == rest + [last];
      PairAppend(rest, last, pair);
      if last.pair != gone { PairAppend(Except(rest, gone), last, pair); }
    }
  }

  /** Taking a row away attributes what its pair did not serve. */
  lemma DropRow(rows: seq<Usage>, us: seq<Usage>)
    requires rows != [] && Attributes(rows, us)
    ensures Attributes(rows[..|rows| - 1], Except(us, rows[|rows| - 1].pair))
  {
    var rest, last := rows[..|rows| - 1], rows[|rows| - 1];
    forall i | 0 <= i < |rest| ensures Exact(rest[i], Except(us, last.pair)) {
      ExceptKeepsOthers(us, last.pair, rest[i].pair);
    }
    forall pair ensures HasPair(rest, pair) <==> HasPair(Except(us, last.pair), pair) {
      ExceptPairs(us, last.pair, pair);
      assert rows == rest + [last];
      PairAppend(rest, last, pair);
      assert HasPair(rest, last.pair) ==> false;
    }
  }

  lemma {:induction false} RowsAddUp(rows: seq<Usage>, us: seq<Usage>, side: Side)
    requires Attributes(rows, us)
    ensures Total(rows, side) == Total(us, side)
    decreases |rows|
  {
    if rows == [] {
      NothingServed(us);
    } else {
      var last := rows[|rows| - 1];
      DropRow(rows, us);
      RowsAddUp(rows[..|rows| - 1], Except(us, last.pair), side);
      TotalSplits(us, last.pair, side);
    }
  }

  lemma NothingServed(us: seq<Usage>)
    requires forall pair :: !HasPair(us, pair)
    ensures us == []
  {
    assert us == [] || HasPair(us, us[0].pair);
  }

  /** The rows add up to the tokens of every completion. */
  lemma AttributionConserves(rows: seq<Usage>, us: seq<Usage>)
    requires Attributes(rows, us)
    ensures Totals(rows) == Totals(us)
  {
    RowsAddUp(rows, us, Input);
    RowsAddUp(rows, us, Output);
  }

  // ---- First-served order ----

  /** When a provider first served; the length if it never did. */
  function FirstAt(us: seq<Usage>, provider: Name): (at: nat)
    ensures at <= |us|
    ensures at < |us| ==> us[at].pair.provider == provider
    ensures forall i :: 0 <= i < at ==> us[i].pair.provider != provider
  {
    if us == [] then 0
    else
      var before := FirstAt(us[..|us| - 1], provider);
      if before < |us| - 1 || us[|us| - 1].pair.provider == provider then before else |us|
  }

  /** The distinct providers that served, by when each first did. */
  ghost predicate FirstServed(providers: seq<Name>, us: seq<Usage>) {
    && (forall p :: p in providers <==> FirstAt(us, p) < |us|)
    && (forall a, b :: 0 <= a < b < |providers| ==> FirstAt(us, providers[a]) < FirstAt(us, providers[b]))
  }

  lemma FirstServedAppend(providers: seq<Name>, us: seq<Usage>, u: Usage)
    requires FirstServed(providers, us)
    ensures var p := u.pair.provider;
            FirstServed(if p in providers then providers else providers + [p], us + [u])
  {
    var longer := us + [u];
    forall p
      ensures FirstAt(longer, p) == if FirstAt(us, p) < |us| || u.pair.provider == p then FirstAt(us, p) else |us| + 1
    {
      assert longer[..|us|] == us;
    }
  }

  // ---- The ledger ----

  function RowAt(rows: seq<Usage>, pair: Pair): (at: Option<nat>)
    ensures at.Some? <==> exists i :: 0 <= i < |rows| && rows[i].pair == pair
    ensures at.Some? ==> at.value < |rows| && rows[at.value].pair == pair
  {
    if rows == [] then None
    else if rows[0].pair == pair then Some(0)
    else
      match RowAt(rows[1..], pair)
      case None => None
      case Some(i) => Some(i + 1)
  }

  function OrZero(count: Option<int>): int {
    if count.Some? then count.value else 0
  }

  function Entered(rows: seq<Usage>, u: Usage): seq<Usage> {
    match RowAt(rows, u.pair)
    case Some(i) => rows[i := Usage(u.pair, Add(rows[i].tokens, u.tokens))]
    case None => rows + [u]
  }

  lemma ExactStep(row: Usage, us: seq<Usage>, u: Usage)
    requires Exact(row, us)
    ensures row.pair != u.pair ==> Exact(row, us + [u])
    ensures row.pair == u.pair ==> Exact(Usage(u.pair, Add(row.tokens, u.tokens)), us + [u])
  {
    OnlyAppend(us, u, row.pair);
    TotalAppend(Only(us, row.pair), u);
  }

  lemma ExactStart(us: seq<Usage>, u: Usage)
    requires !HasPair(us, u.pair)
    ensures Exact(u, us + [u])
  {
    NoneServed(us, u.pair);
    OnlyAppend(us, u, u.pair);
    TotalAppend([], u);
    assert [] + [u] == [u];
  }

  lemma EnteredExact(rows: seq<Usage>, us: seq<Usage>, u: Usage, i: nat)
    requires Attributes(rows, us) && i < |Entered(rows, u)|
    ensures Exact(Entered(rows, u)[i], us + [u])
  {
    if i < |rows| {
      ExactStep(rows[i], us, u);
      assert RowAt(rows, u.pair) == Some(i) || rows[i].pair != u.pair;
    } else {
      assert !HasPair(rows, u.pair);
      ExactStart(us, u);
    }
  }

  /** Entering a completion keeps the attribution exact. */
  lemma EnteredAttributes(rows: seq<Usage>, us: seq<Usage>, u: Usage)
    requires Attributes(rows, us)
    ensures Attributes(Entered(rows, u), us + [u])
  {
    forall i | 0 <= i < |Entered(rows, u)| ensures Exact(Entered(rows, u)[i], us + [u]) {
      EnteredExact(rows, us, u, i);
    }
    forall pair ensures HasPair(Entered(rows, u), pair) <==> HasPair(us + [u], pair) {
      PairAppend(us, u, pair);
      EnteredPairs(rows, u, pair);
    }
  }

  lemma EnteredPairs(rows: seq<Usage>, u: Usage, pair: Pair)
    ensures HasPair(Entered(rows, u), pair) <==> HasPair(rows, pair) || pair == u.pair
  {
    match RowAt(rows, u.pair)
    case None => PairAppend(rows, u, pair);
    case Some(i) =>
      var after := Entered(rows, u);
      assert forall k :: 0 <= k < |rows| ==> after[k].pair == rows[k].pair;
      assert after[i].pair == u.pair;
  }

  lemma {:induction false} NoneServed(us: seq<Usage>, pair: Pair)
    requires !HasPair(us, pair)
    ensures Only(us, pair) == []
  {
    if us != [] {
      var rest, last := us[..|us| - 1], us[|us| - 1];
      assert us == rest + [last];
      PairAppend(rest, last, pair);
      NoneServed(rest, pair);
    }
  }

  /** What the ledger reports. */
  datatype Figures = Figures(totals: Tokens, last: Option<Pair>, providers: seq<Name>, rows: seq<Usage>)

  function Recorded(f: Figures, u: Usage): Figures {
    var p := u.pair.provider;
    Figures(Add(f.totals, u.tokens), Some(u.pair), if p in f.providers then f.providers else f.providers + [p],
            Entered(f.rows, u))
  }

  /** Every figure, from the completions alone. */
  ghost predicate Reports(f: Figures, us: seq<Usage>) {
    && f.totals == Totals(us) == Totals(f.rows)
    && Attributes(f.rows, us)
    && FirstServed(f.providers, us)
    && f.last == (if us == [] then None else Some(us[|us| - 1].pair))
  }

  /** The figures after these completions. */
  ghost function FiguresOf(us: seq<Usage>): Figures {
    if us == [] then Figures(Tokens(0, 0), None, [], []) else Recorded(FiguresOf(us[..|us| - 1]), us[|us| - 1])
  }

  lemma ReportsStep(f: Figures, us: seq<Usage>, u: Usage, more: seq<Usage>)
    requires Reports(f, us) && more == us + [u]
    ensures Reports(Recorded(f, u), more)
  {
    EnteredAttributes(f.rows, us, u);
    FirstServedAppend(f.providers, us, u);
    TotalAppend(us, u);
    AttributionConserves(Entered(f.rows, u), us + [u]);
  }

  /** Whatever the completions, the figures account for them exactly. */
  lemma {:induction false} FiguresExact(us: seq<Usage>)
    ensures Reports(FiguresOf(us), us)
  {
    if us != [] {
      var rest, last := us[..|us| - 1], us[|us| - 1];
      FiguresExact(rest);
      ReportsStep(FiguresOf(rest), rest, last, us);
    }
  }

  class Ledger {
    const maxCalls: Option<int>
    var calls: nat
    var totals: Tokens
    var last: Option<Pair>
    var providers: seq<Name>
    var rows: seq<Usage>
    ghost var history: seq<Usage>   // the completions recorded so far

    function View(): Figures
      reads this
    {
      Figures(totals, last, providers, rows)
    }

    ghost predicate Valid()
      reads this
    {
      && View() == FiguresOf(history)
      && |history| <= calls
      && (maxCalls.Some? && maxCalls.value > 0 ==> calls <= maxCalls.value)
    }

    constructor (maxCalls: Option<int>)
      ensures Valid() && this.maxCalls == maxCalls && history == [] && calls == 0
    {
      this.maxCalls := maxCalls;
      calls, totals, last, providers, rows := 0, Tokens(0, 0), None, [], [];
      history := [];
    }

    /** Admits one more model call, or refuses it when the budget is spent. */
    method Guard() returns (admitted: bool)
      requires Valid()
      modifies this`calls
      ensures Valid()
      ensures admitted <==> maxCalls.None? || maxCalls.value <= 0 || old(calls) < maxCalls.value
      ensures calls == old(calls) + if admitted then 1 else 0
    {
      if maxCalls.Some? && maxCalls.value > 0 && calls >= maxCalls.value { return false; }
      calls := calls + 1;
      return true;
    }

    method Enter(u: Usage)
      modifies this`totals, this`last, this`providers, this`rows
      ensures View() == Recorded(old(View()), u)
    {
      totals, last := Add(totals, u.tokens), Some(u.pair);
      if u.pair.provider !in providers { providers := providers + [u.pair.provider]; }
      rows := Entered(rows, u);
    }

    /** Enters the completion of an admitted call; absent token counts are zero. */
    method Record(provider: Name, model: Name, prompt: Option<int>, completion: Option<int>)
      requires Valid() && |history| < calls
      modifies this`totals, this`last, this`providers, this`rows, this`history
      ensures Valid()
      ensures history == old(history) + [Usage(Pair(provider, model), Tokens(OrZero(prompt), OrZero(completion)))]
    {
      var u := Usage(Pair(provider, model), Tokens(OrZero(prompt), OrZero(completion)));
      Enter(u);
      history := history + [u];
      assert history[..|history| - 1] == old(history);
    }
  }
}
