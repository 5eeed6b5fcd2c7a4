/** Sorting by a total order, slices, and texts (letters beyond ASCII have no case here). */
module Ordering {

  ghost predicate TotalOrder<T(!new)>(leq: (T, T) -> bool) {
    && (forall a, b :: leq(a, b) || leq(b, a))
    && (forall a, b :: leq(a, b) && leq(b, a) ==> a == b)
    && (forall a, b, c :: leq(a, b) && leq(b, c) ==> leq(a, c))
  }

  predicate SortedBy<T>(s: seq<T>, leq: (T, T) -> bool) {
    forall i, j :: 0 <= i < j < |s| ==> leq(s[i], s[j])
  }

  function InsertBy<T>(s: seq<T>, x: T, leq: (T, T) -> bool): seq<T> {
    if s == [] || leq(x, s[0]) then [x] + s else [s[0]] + InsertBy(s[1..], x, leq)
  }

  function SortBy<T>(s: seq<T>, leq: (T, T) -> bool): seq<T> {
    if s == [] then [] else InsertBy(SortBy(s[1..], leq), s[0], leq)
  }

  lemma {:induction false} InsertByAddsOne<T>(s: seq<T>, x: T, leq: (T, T) -> bool)
    ensures multiset(InsertBy(s, x, leq)) == multiset(s) + multiset{x}
  {
    if s != [] && !leq(x, s[0]) {
      assert s == [s[0]] + s[1..];
      InsertByAddsOne(s[1..], x, leq);
    }
  }

  lemma {:induction false} InsertByKeepsOrder<T(!new)>(s: seq<T>, x: T, leq: (T, T) -> bool)
    requires TotalOrder(leq) && SortedBy(s, leq)
    ensures SortedBy(InsertBy(s, x, leq), leq)
  {
    if s != [] && !leq(x, s[0]) {
      var rest := InsertBy(s[1..], x, leq);
      InsertByKeepsOrder(s[1..], x, leq);
      InsertByAddsOne(s[1..], x, leq);
      forall y | y in rest
        ensures leq(s[0], y)
      {
        assert y in multiset(rest);
        assert y == x || y in multiset(s[1..]);
      }
    } else if s != [] {
      assert forall y :: y in s ==> leq(x, y);
    }
  }

  lemma {:induction false} SortBySorts<T(!new)>(s: seq<T>, leq: (T, T) -> bool)
    requires TotalOrder(leq)
    ensures SortedBy(SortBy(s, leq), leq) && multiset(SortBy(s, leq)) == multiset(s)
  {
    if s != [] {
      assert s == [s[0]] + s[1..];
      SortBySorts(s[1..], leq);
      InsertByKeepsOrder(SortBy(s[1..], leq), s[0], leq);
      InsertByAddsOne(SortBy(s[1..], leq), s[0], leq);
    }
  }

  /** There is one sorted arrangement of a multiset. */
  lemma {:induction false} SortedIsUnique<T(!new)>(a: seq<T>, b: seq<T>, leq: (T, T) -> bool)
    requires TotalOrder(leq) && SortedBy(a, leq) && SortedBy(b, leq)
    requires multiset(a) == multiset(b)
    ensures a == b
  {
    assert |a| == |multiset(a)| == |multiset(b)| == |b|;
    if a != [] {
      SameHead(a, b, leq);
      assert a == [a[0]] + a[1..] && b == [b[0]] + b[1..];
      assert multiset(a[1..]) == multiset(a) - multiset{a[0]};
      assert multiset(b[1..]) == multiset(b) - multiset{b[0]};
      SortedIsUnique(a[1..], b[1..], leq);
    }
  }

  lemma SameHead<T(!new)>(a: seq<T>, b: seq<T>, leq: (T, T) -> bool)
    requires TotalOrder(leq) && SortedBy(a, leq) && SortedBy(b, leq)
    requires multiset(a) == multiset(b) && a != [] && b != []
    ensures a[0] == b[0]
  {
    assert a[0] in multiset(b) && b[0] in multiset(a);
    assert leq(a[0], a[0]);
    assert leq(a[0], b[0]) && leq(b[0], a[0]);
  }

  /** The elements of a set, each once, in order. */
  ghost predicate Arranges<T(!new)>(list: seq<T>, s: set<T>, leq: (T, T) -> bool) {
    && (forall x :: x in list <==> x in s)
    && forall i, j :: 0 <= i < j < |list| ==> leq(list[i], list[j]) && list[i] != list[j]
  }

  lemma {:induction false} NeverTwice<T>(s: seq<T>, x: T)
    requires forall i, j :: 0 <= i < j < |s| ==> s[i] != s[j]
    ensures multiset(s)[x] == if x in s then 1 else 0
  {
    if s != [] {
      assert s == [s[0]] + s[1..];
      NeverTwice(s[1..], x);
      assert s[0] !in s[1..];
    }
  }

  lemma TwiceCounts<T>(s: seq<T>, i: nat, j: nat)
    requires i < j < |s|
    ensures s[i] == s[j] ==> multiset(s)[s[i]] >= 2
  {
    assert s == s[..j] + [s[j]] + s[j + 1..];
    assert s[..j][i] in multiset(s[..j]);
  }

  lemma {:induction false} ArrangementIsUnique<T(!new)>(a: seq<T>, b: seq<T>, s: set<T>, leq: (T, T) -> bool)
    requires TotalOrder(leq) && Arranges(a, s, leq) && Arranges(b, s, leq)
    ensures a == b
  {
    forall x
      ensures multiset(a)[x] == multiset(b)[x]
    {
      NeverTwice(a, x);
      NeverTwice(b, x);
    }
    assert multiset(a) == multiset(b);
    SortedIsUnique(a, b, leq);
  }

  /** Lists a set in order. */
  method SortSet<T(!new, ==)>(s: set<T>, leq: (T, T) -> bool) returns (list: seq<T>)
    requires TotalOrder(leq)
    ensures Arranges(list, s, leq)
  {
    var any: seq<T> := [];
    var rest := s;
    while rest != {}
      invariant rest <= s
      invariant forall x :: x in any <==> x in s && x !in rest
      invariant forall i, j :: 0 <= i < j < |any| ==> any[i] != any[j]
    {
      var x :| x in rest;
      rest := rest - {x};
      any := any + [x];
    }
    list := SortBy(any, leq);
    SortBySorts(any, leq);
    SortedOnceArranges(any, list, s, leq);
  }

  lemma SortedOnceArranges<T(!new)>(any: seq<T>, list: seq<T>, s: set<T>, leq: (T, T) -> bool)
    requires (forall x :: x in any <==> x in s) && forall i, j :: 0 <= i < j < |any| ==> any[i] != any[j]
    requires SortedBy(list, leq) && multiset(list) == multiset(any)
    ensures Arranges(list, s, leq)
  {
    forall x
      ensures x in list <==> x in s
    {
      assert x in list <==> x in multiset(list);
      assert x in any <==> x in multiset(any);
    }
    forall i, j | 0 <= i < j < |list|
      ensures list[i] != list[j]
    {
      NeverTwice(any, list[i]);
      TwiceCounts(list, i, j);
    }
  }

  /** A slice up to `end`, which counts from the back when negative. */
  function UpTo<T>(s: seq<T>, end: int): (r: seq<T>)
    ensures r <= s
    ensures end >= 0 ==> |r| == if end < |s| then end else |s|
  {
    if end >= |s| then s
    else if end >= 0 then s[..end]
    else if |s| + end >= 0 then s[..|s| + end]
    else []
  }

  /** Order by first differing character; a prefix comes first. */
  predicate TextLeq(a: string, b: string) {
    a == "" || (b != "" && (a[0] < b[0] || (a[0] == b[0] && TextLeq(a[1..], b[1..]))))
  }

  lemma {:induction false} TextOrderFacts(a: string, b: string, c: string)
    ensures TextLeq(a, b) || TextLeq(b, a)
    ensures TextLeq(a, b) && TextLeq(b, a) ==> a == b
    ensures TextLeq(a, b) && TextLeq(b, c) ==> TextLeq(a, c)
  {
    if a != "" && b != "" {
      TextOrderFacts(a[1..], b[1..], if c == "" then "" else c[1..]);
      assert a == [a[0]] + a[1..] && b == [b[0]] + b[1..];
    }
  }

  function Lower(s: string): string {
    if s == "" then ""
    else [if 'A' <= s[0] <= 'Z' then s[0] - 'A' + 'a' else s[0]] + Lower(s[1..])
  }

  function Upper(s: string): string {
    if s == "" then ""
    else [if 'a' <= s[0] <= 'z' then s[0] - 'a' + 'A' else s[0]] + Upper(s[1..])
  }
}
