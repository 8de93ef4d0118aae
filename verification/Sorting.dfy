/** The stable array sort that the ledgers and the canonical printer rely on, and the two facts
    they use: it returns an ordered permutation, and an order that separates distinct elements
    leaves exactly one such permutation. */
module Sorting {

  ghost predicate TotalOn<T(!new)>(le: (T, T) -> bool, s: seq<T>) {
    && (forall a, b | a in s && b in s :: le(a, b) || le(b, a))
    && (forall a, b, c | a in s && b in s && c in s && le(a, b) && le(b, c) :: le(a, c))
  }

  ghost predicate Separates<T(!new)>(le: (T, T) -> bool, s: seq<T>) {
    forall a, b | a in s && b in s && le(a, b) && le(b, a) :: a == b
  }

  ghost predicate Sorted<T(!new)>(le: (T, T) -> bool, s: seq<T>) {
    forall i, j | 0 <= i < j < |s| :: le(s[i], s[j])
  }

  ghost predicate Distinct<T>(s: seq<T>) {
    forall i, j | 0 <= i < j < |s| :: s[i] != s[j]
  }

  function Insert<T>(x: T, s: seq<T>, le: (T, T) -> bool): (r: seq<T>)
    ensures multiset(r) == multiset([x] + s)
    ensures |r| == |s| + 1
  {
    if s == [] || le(x, s[0]) then [x] + s
    else
      assert s == [s[0]] + s[1..];
      [s[0]] + Insert(x, s[1..], le)
  }

  /** Elements that compare equal keep their relative order, as Array.prototype.sort promises. */
  function Sort<T>(s: seq<T>, le: (T, T) -> bool): (r: seq<T>)
    ensures multiset(r) == multiset(s)
    ensures |r| == |s|
  {
    if s == [] then []
    else
      assert s == [s[0]] + s[1..];
      Insert(s[0], Sort(s[1..], le), le)
  }

  lemma SameMembers<T>(s: seq<T>, t: seq<T>)
    requires multiset(s) == multiset(t)
    ensures |s| == |t|
    ensures forall x :: x in s <==> x in t
  {
    assert |multiset(s)| == |multiset(t)|;
    forall x ensures x in s <==> x in t {
      assert x in s <==> x in multiset(s);
      assert x in t <==> x in multiset(t);
    }
  }

  lemma TotalOnPart<T(!new)>(le: (T, T) -> bool, s: seq<T>, t: seq<T>)
    requires TotalOn(le, s) && forall x | x in t :: x in s
    ensures TotalOn(le, t)
  {
  }

  lemma SortedAfter<T(!new)>(le: (T, T) -> bool, x: T, s: seq<T>)
    requires Sorted(le, s) && forall y | y in s :: le(x, y)
    ensures Sorted(le, [x] + s)
  {
  }

  lemma BeforeAll<T(!new)>(le: (T, T) -> bool, x: T, s: seq<T>)
    requires TotalOn(le, [x] + s) && Sorted(le, s) && s != [] && le(x, s[0])
    ensures forall y | y in s :: le(x, y)
  {
    assert x in [x] + s;
    forall i | 0 <= i < |s| ensures le(x, s[i]) {
      assert s[0] in [x] + s && s[i] in [x] + s;
    }
  }

  lemma AfterFirst<T(!new)>(le: (T, T) -> bool, x: T, s: seq<T>)
    requires TotalOn(le, [x] + s) && Sorted(le, s) && s != [] && !le(x, s[0])
    ensures forall y | y in [x] + s[1..] :: le(s[0], y)
  {
    assert x in [x] + s && s[0] in [x] + s;
    forall y | y in s[1..] ensures le(s[0], y) {
      var i :| 0 <= i < |s[1..]| && s[1..][i] == y;
      assert y == s[i + 1];
    }
  }

  lemma {:induction false} InsertSorted<T(!new)>(x: T, s: seq<T>, le: (T, T) -> bool)
    requires TotalOn(le, [x] + s) && Sorted(le, s)
    ensures Sorted(le, Insert(x, s, le))
  {
    if s == [] {
    } else if le(x, s[0]) {
      BeforeAll(le, x, s);
      SortedAfter(le, x, s);
    } else {
      var r := Insert(x, s[1..], le);
      TotalOnPart(le, [x] + s, [x] + s[1..]);
      InsertSorted(x, s[1..], le);
      AfterFirst(le, x, s);
      SameMembers(r, [x] + s[1..]);
      SortedAfter(le, s[0], r);
    }
  }

  lemma {:induction false} SortSorted<T(!new)>(s: seq<T>, le: (T, T) -> bool)
    requires TotalOn(le, s)
    ensures Sorted(le, Sort(s, le))
  {
    if s != [] {
      SortSorted(s[1..], le);
      var rest := Sort(s[1..], le);
      SameMembers(rest, s[1..]);
      assert forall y | y in [s[0]] + rest :: y in s;
      InsertSorted(s[0], rest, le);
    }
  }

  lemma SubsetKeepsOrder<T(!new)>(s: seq<T>, part: seq<T>, le: (T, T) -> bool)
    requires TotalOn(le, s) && Separates(le, s) && forall x | x in part :: x in s
    ensures TotalOn(le, part) && Separates(le, part)
  {
  }

  lemma SameHead<T(!new)>(s: seq<T>, t: seq<T>, le: (T, T) -> bool)
    requires s != [] && t != [] && s[0] in t && t[0] in s
    requires TotalOn(le, s) && Separates(le, s) && Sorted(le, s) && Sorted(le, t)
    ensures s[0] == t[0]
  {
    var i :| 0 <= i < |s| && s[i] == t[0];
    var j :| 0 <= j < |t| && t[j] == s[0];
    assert le(s[0], s[i]) || i == 0;
    assert le(t[0], t[j]) || j == 0;
  }

  lemma SameTail<T>(s: seq<T>, t: seq<T>)
    requires multiset(s) == multiset(t) && s != [] && t != [] && s[0] == t[0]
    ensures multiset(s[1..]) == multiset(t[1..])
  {
    assert s == [s[0]] + s[1..] && t == [t[0]] + t[1..];
    assert multiset(s[1..]) == multiset(s) - multiset{s[0]};
    assert multiset(t[1..]) == multiset(t) - multiset{t[0]};
  }

  lemma {:induction false} SortedUnique<T(!new)>(s: seq<T>, t: seq<T>, le: (T, T) -> bool)
    requires multiset(s) == multiset(t)
    requires TotalOn(le, s) && Separates(le, s) && Sorted(le, s) && Sorted(le, t)
    ensures s == t
  {
    SameMembers(s, t);
    if s != [] {
      SameHead(s, t, le);
      SameTail(s, t);
      SubsetKeepsOrder(s, s[1..], le);
      SortedUnique(s[1..], t[1..], le);
      assert s == [s[0]] + s[1..] && t == [t[0]] + t[1..];
    }
  }

  /** Sorting forgets the arrival order. */
  lemma SortForgetsOrder<T(!new)>(s: seq<T>, t: seq<T>, le: (T, T) -> bool)
    requires multiset(s) == multiset(t) && TotalOn(le, s) && Separates(le, s)
    ensures Sort(s, le) == Sort(t, le)
  {
    SameMembers(s, t);
    SameMembers(s, Sort(s, le));
    SortSorted(s, le);
    SortSorted(t, le);
    SortedUnique(Sort(s, le), Sort(t, le), le);
  }

  lemma {:induction false} SortOfSorted<T(!new)>(s: seq<T>, le: (T, T) -> bool)
    requires Sorted(le, s)
    ensures Sort(s, le) == s
  {
    if s != [] {
      SortOfSorted(s[1..], le);
    }
  }

  lemma {:induction false} DistinctPermutes<T>(s: seq<T>, t: seq<T>)
    requires Distinct(s) && Distinct(t) && forall x :: x in s <==> x in t
    ensures multiset(s) == multiset(t)
  {
    forall x ensures multiset(s)[x] == multiset(t)[x] {
      DistinctCount(s, x);
      DistinctCount(t, x);
    }
  }

  lemma {:induction false} DistinctCount<T>(s: seq<T>, x: T)
    requires Distinct(s)
    ensures multiset(s)[x] == if x in s then 1 else 0
  {
    if s != [] {
      assert s == [s[0]] + s[1..];
      DistinctCount(s[1..], x);
    }
  }

  lemma RepeatCount<T>(s: seq<T>, i: nat, j: nat)
    requires i < j < |s| && s[i] == s[j]
    ensures multiset(s)[s[i]] >= 2
  {
    assert s == s[..i] + [s[i]] + s[i + 1..j] + [s[j]] + s[j + 1..];
  }

  lemma PermutedDistinct<T>(s: seq<T>, t: seq<T>)
    requires Distinct(s) && multiset(s) == multiset(t)
    ensures Distinct(t)
  {
    forall i, j | 0 <= i < j < |t| ensures t[i] != t[j] {
      DistinctCount(s, t[i]);
      if t[i] == t[j] { RepeatCount(t, i, j); }
    }
  }
}
