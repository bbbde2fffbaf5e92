/** ECMAScript's stable `Array.prototype.sort`, as a function, with what its users need of it. */
module Sorting {

  /** `x` in front of everything it does not have to follow. */
  function Insert<T>(le: (T, T) -> bool, x: T, s: seq<T>): seq<T> {
    if s == [] || le(x, s[0]) then [x] + s else [s[0]] + Insert(le, x, s[1..])
  }

  function SortBy<T>(le: (T, T) -> bool, s: seq<T>): seq<T> {
    if s == [] then [] else Insert(le, s[0], SortBy(le, s[1..]))
  }

  ghost predicate Sorted<T(!new)>(le: (T, T) -> bool, s: seq<T>) {
    forall i, j :: 0 <= i < j < |s| ==> le(s[i], s[j])
  }

  /** `le` is total and transitive on the elements of `s`. */
  ghost predicate Orders<T(!new)>(le: (T, T) -> bool, s: seq<T>) {
    && (forall a, b :: a in s && b in s ==> le(a, b) || le(b, a))
    && (forall a, b, c :: a in s && b in s && c in s && le(a, b) && le(b, c) ==> le(a, c))
  }

  lemma {:induction false} InsertElements<T(!new)>(le: (T, T) -> bool, x: T, s: seq<T>)
    ensures multiset(Insert(le, x, s)) == multiset(s) + multiset{x}
  {
    if s == [] || le(x, s[0]) {
    } else {
      InsertElements(le, x, s[1..]);
      assert s == [s[0]] + s[1..];
    }
  }

  /** Sorting permutes. */
  lemma {:induction false} SortElements<T(!new)>(le: (T, T) -> bool, s: seq<T>)
    ensures multiset(SortBy(le, s)) == multiset(s)
  {
    if s != [] {
      SortElements(le, s[1..]);
      InsertElements(le, s[0], SortBy(le, s[1..]));
      assert s == [s[0]] + s[1..];
    }
  }

  lemma SameElements<T(!new)>(a: seq<T>, b: seq<T>)
    requires multiset(a) == multiset(b)
    ensures |a| == |b| && forall x :: x in a <==> x in b
  {
    assert |multiset(a)| == |a| && |multiset(b)| == |b|;
    assert forall x :: x in a <==> x in multiset(a);
    assert forall x :: x in b <==> x in multiset(b);
  }

  lemma {:induction false} InsertSorted<T(!new)>(le: (T, T) -> bool, x: T, s: seq<T>)
    requires Sorted(le, s) && Orders(le, [x] + s)
    ensures Sorted(le, Insert(le, x, s))
  {
    assert forall y :: y in s ==> y in [x] + s;
    assert x in [x] + s;
    if s == [] {
    } else if le(x, s[0]) {
      forall j | 0 <= j < |s| ensures le(x, s[j]) { assert s[j] in [x] + s; }
    } else {
      assert forall y :: y in [x] + s[1..] ==> y in [x] + s;
      InsertSorted(le, x, s[1..]);
      InsertElements(le, x, s[1..]);
      var r := Insert(le, x, s[1..]);
      forall j | 0 <= j < |r| ensures le(s[0], r[j]) {
        assert r[j] in multiset(r);
        assert r[j] == x || r[j] in s[1..];
      }
    }
  }

  lemma OrdersFewer<T(!new)>(le: (T, T) -> bool, s: seq<T>, t: seq<T>)
    requires Orders(le, s) && forall x :: x in t ==> x in s
    ensures Orders(le, t)
  {}

  /** Sorting sorts. */
  lemma {:induction false} SortSorted<T(!new)>(le: (T, T) -> bool, s: seq<T>)
    requires Orders(le, s)
    ensures Sorted(le, SortBy(le, s))
  {
    if s != [] {
      SortElements(le, s[1..]);
      SameElements(SortBy(le, s[1..]), s[1..]);
      var tail := SortBy(le, s[1..]);
      forall y | y in [s[0]] + tail ensures y in s {
        if y != s[0] { assert y in tail && y in s[1..]; }
      }
      OrdersFewer(le, s, [s[0]] + tail);
      OrdersFewer(le, s, s[1..]);
      SortSorted(le, s[1..]);
      InsertSorted(le, s[0], SortBy(le, s[1..]));
    }
  }

  ghost predicate Antisymmetric<T(!new)>(le: (T, T) -> bool, s: seq<T>) {
    forall a, b :: a in s && b in s && le(a, b) && le(b, a) ==> a == b
  }

  lemma SameTail<T(!new)>(a: seq<T>, b: seq<T>)
    requires a != [] && b != [] && a[0] == b[0] && multiset(a) == multiset(b)
    ensures multiset(a[1..]) == multiset(b[1..])
  {
    assert a == [a[0]] + a[1..] && b == [b[0]] + b[1..];
    assert multiset(a[1..]) == multiset(a) - multiset{a[0]};
    assert multiset(b[1..]) == multiset(b) - multiset{b[0]};
  }

  lemma SameHead<T(!new)>(le: (T, T) -> bool, a: seq<T>, b: seq<T>)
    requires a != [] && b != [] && Sorted(le, a) && Sorted(le, b) && Antisymmetric(le, a)
    requires a[0] in b && b[0] in a
    ensures a[0] == b[0]
  {
    var i :| 0 <= i < |b| && b[i] == a[0];
    var j :| 0 <= j < |a| && a[j] == b[0];
    if i > 0 { assert le(b[0], b[i]); }
    if j > 0 { assert le(a[0], a[j]); }
  }

  /** There is only one way to sort when no two elements tie. */
  lemma {:induction false} SortedUnique<T(!new)>(le: (T, T) -> bool, a: seq<T>, b: seq<T>)
    requires multiset(a) == multiset(b) && Sorted(le, a) && Sorted(le, b) && Antisymmetric(le, a)
    ensures a == b
    decreases |a|
  {
    SameElements(a, b);
    if a != [] {
      SameHead(le, a, b);
      SameTail(a, b);
      SortedUnique(le, a[1..], b[1..]);
      assert a == [a[0]] + a[1..] && b == [b[0]] + b[1..];
    }
  }

  /** So the order of the input does not matter. */
  lemma SortOfPermutation<T(!new)>(le: (T, T) -> bool, a: seq<T>, b: seq<T>)
    requires multiset(a) == multiset(b) && Orders(le, a) && Antisymmetric(le, a)
    ensures SortBy(le, a) == SortBy(le, b)
  {
    var sa, sb := SortBy(le, a), SortBy(le, b);
    SameElements(a, b);
    OrdersFewer(le, a, b);
    SortSorted(le, a);
    SortSorted(le, b);
    SortElements(le, a);
    SortElements(le, b);
    SameElements(a, sa);
    SortedUnique(le, sa, sb);
  }

  ghost predicate Distinct<T(!new)>(s: seq<T>) {
    forall i, j :: 0 <= i < j < |s| ==> s[i] != s[j]
  }

  /** Having no repeats is a matter of the elements, not of their order. */
  lemma {:induction false} DistinctCounts<T(!new)>(s: seq<T>)
    ensures Distinct(s) <==> forall x :: x in s ==> multiset(s)[x] == 1
  {
    if s != [] {
      var init, last := s[..|s| - 1], s[|s| - 1];
      assert s == init + [last];
      assert multiset(s) == multiset(init) + multiset{last};
      DistinctCounts(init);
      assert Distinct(s) <==> Distinct(init) && last !in init;
      assert forall x :: x in s <==> x in init || x == last;
      assert last in init <==> multiset(init)[last] > 0;
      if forall x :: x in s ==> multiset(s)[x] == 1 {
        assert last !in init;
        forall x | x in init ensures multiset(init)[x] == 1 { assert x in s; }
      }
    }
  }

  lemma SortDistinct<T(!new)>(le: (T, T) -> bool, s: seq<T>)
    requires Distinct(s)
    ensures Distinct(SortBy(le, s))
  {
    SortElements(le, s);
    SameElements(SortBy(le, s), s);
    DistinctCounts(s);
    DistinctCounts(SortBy(le, s));
  }
}
