/** Stable sorting of sequences: the `ORDER BY` of a table query and Python's `list.sort`. */
module Sorting {

  ghost predicate TotalPreorder<T(!new)>(le: (T, T) -> bool) {
    && (forall x, y :: le(x, y) || le(y, x))
    && (forall x, y, z :: le(x, y) && le(y, z) ==> le(x, z))
  }

  /** Every earlier element is related to every later one. */
  ghost predicate Pairwise<T>(r: (T, T) -> bool, s: seq<T>) {
    forall i, j :: 0 <= i < j < |s| ==> r(s[i], s[j])
  }

  /** Order by `le` first and, among `le`-equal elements, by `r`. */
  function Then<T>(le: (T, T) -> bool, r: (T, T) -> bool): (T, T) -> bool {
    (x, y) => le(x, y) && (le(y, x) ==> r(x, y))
  }

  function Filter<T>(p: T -> bool, s: seq<T>): seq<T> {
    if s == [] then [] else (if p(s[0]) then [s[0]] else []) + Filter(p, s[1..])
  }

  /** Puts `x` in front of the first element it may precede. */
  function InsertFront<T>(le: (T, T) -> bool, x: T, s: seq<T>): seq<T> {
    if s == [] || le(x, s[0]) then [x] + s else [s[0]] + InsertFront(le, x, s[1..])
  }

  /** Stable sort: equal elements keep their order. */
  function Sort<T>(le: (T, T) -> bool, s: seq<T>): seq<T> {
    if s == [] then [] else InsertFront(le, s[0], Sort(le, s[1..]))
  }

  lemma FilterHead<T>(p: T -> bool, x: T, s: seq<T>)
    ensures Filter(p, [x] + s) == (if p(x) then [x] else []) + Filter(p, s)
  {
    assert ([x] + s)[1..] == s;
  }

  lemma {:induction false} FilterSplit<T>(p: T -> bool, a: seq<T>, b: seq<T>)
    ensures Filter(p, a + b) == Filter(p, a) + Filter(p, b)
  {
    if a == [] {
      assert a + b == b;
    } else {
      var x, rest := a[0], a[1..];
      FilterSplit(p, rest, b);
      FilterHead(p, x, rest);
      FilterHead(p, x, rest + b);
      assert [x] + rest == a && [x] + (rest + b) == a + b;
    }
  }

  lemma {:induction false} FilterAll<T>(p: T -> bool, s: seq<T>)
    requires forall x :: x in s ==> p(x)
    ensures Filter(p, s) == s
  {
    if s != [] {
      FilterAll(p, s[1..]);
    }
  }

  lemma {:induction false} FilterNone<T>(p: T -> bool, s: seq<T>)
    requires forall x :: x in s ==> !p(x)
    ensures Filter(p, s) == []
  {
    if s != [] {
      FilterNone(p, s[1..]);
    }
  }

  lemma {:induction false} FilterMembers<T>(p: T -> bool, s: seq<T>, x: T)
    ensures x in Filter(p, s) <==> x in s && p(x)
  {
    if s != [] {
      FilterMembers(p, s[1..], x);
      assert s == [s[0]] + s[1..];
    }
  }

  lemma {:induction false} FilterPairwise<T>(r: (T, T) -> bool, p: T -> bool, s: seq<T>)
    requires Pairwise(r, s)
    ensures Pairwise(r, Filter(p, s))
  {
    if s != [] {
      FilterPairwise(r, p, s[1..]);
      HeadIsFirst(r, s);
      forall x | x in Filter(p, s[1..]) ensures r(s[0], x) {
        FilterMembers(p, s[1..], x);
      }
    }
  }

  lemma {:induction false} InsertFrontElements<T>(le: (T, T) -> bool, x: T, s: seq<T>)
    ensures multiset(InsertFront(le, x, s)) == multiset{x} + multiset(s)
    ensures |InsertFront(le, x, s)| == |s| + 1
  {
    if s != [] && !le(x, s[0]) {
      InsertFrontElements(le, x, s[1..]);
      assert s == [s[0]] + s[1..];
    }
  }

  /** Sorting only rearranges. */
  lemma {:induction false} SortPermutes<T>(le: (T, T) -> bool, s: seq<T>)
    ensures multiset(Sort(le, s)) == multiset(s)
    ensures |Sort(le, s)| == |s|
    ensures forall x :: x in Sort(le, s) <==> x in s
  {
    if s != [] {
      SortPermutes(le, s[1..]);
      InsertFrontElements(le, s[0], Sort(le, s[1..]));
      assert s == [s[0]] + s[1..];
    }
    forall x ensures x in Sort(le, s) <==> x in s {
      assert x in Sort(le, s) <==> x in multiset(Sort(le, s));
      assert x in s <==> x in multiset(s);
    }
  }

  lemma SortMembers<T>(le: (T, T) -> bool, s: seq<T>, x: T)
    ensures x in Sort(le, s) <==> x in s
  {
    SortPermutes(le, s);
    assert x in Sort(le, s) <==> x in multiset(Sort(le, s));
    assert x in s <==> x in multiset(s);
  }

  lemma {:induction false} InsertFrontOrders<T(!new)>(le: (T, T) -> bool, r: (T, T) -> bool, x: T, s: seq<T>)
    requires TotalPreorder(le)
    requires Pairwise(Then(le, r), s)
    requires forall y :: y in s ==> r(x, y)
    ensures Pairwise(Then(le, r), InsertFront(le, x, s))
  {
    if s == [] {
    } else if le(x, s[0]) {
      forall y | y in s ensures Then(le, r)(x, y) {
        var k :| 0 <= k < |s| && s[k] == y;
        if k > 0 {
          assert Then(le, r)(s[0], s[k]);
        }
      }
    } else {
      InsertFrontOrders(le, r, x, s[1..]);
      var t := InsertFront(le, x, s[1..]);
      InsertFrontElements(le, x, s[1..]);
      forall y | y in t ensures Then(le, r)(s[0], y) {
        assert y in multiset(t);
        if y in s[1..] {
          var k :| 1 <= k < |s| && s[k] == y;
          assert Then(le, r)(s[0], s[k]);
        }
      }
    }
  }

  /** Stability: sorting by `le` a sequence already ordered by `r` orders it by `le`, then by `r`. */
  lemma {:induction false} SortOrders<T(!new)>(le: (T, T) -> bool, r: (T, T) -> bool, s: seq<T>)
    requires TotalPreorder(le)
    requires Pairwise(r, s)
    ensures Pairwise(Then(le, r), Sort(le, s))
  {
    if s != [] {
      SortOrders(le, r, s[1..]);
      SortPermutes(le, s[1..]);
      InsertFrontOrders(le, r, s[0], Sort(le, s[1..]));
    }
  }

  /** A sequence already in order is left alone. */
  lemma {:induction false} SortFixed<T>(le: (T, T) -> bool, s: seq<T>)
    requires Pairwise(le, s)
    ensures Sort(le, s) == s
  {
    if s != [] {
      SortFixed(le, s[1..]);
      if |s| > 1 {
        assert le(s[0], s[1]);
      }
    }
  }

  lemma SameHead<T(!new)>(lt: (T, T) -> bool, a: seq<T>, b: seq<T>)
    requires forall x, y :: lt(x, y) ==> !lt(y, x)
    requires Pairwise(lt, a) && Pairwise(lt, b)
    requires a != [] && b != [] && a[0] in b && b[0] in a
    ensures a[0] == b[0]
  {
    var i :| 0 <= i < |b| && b[i] == a[0];
    var j :| 0 <= j < |a| && a[j] == b[0];
    assert 0 < i ==> lt(b[0], b[i]);
    assert 0 < j ==> lt(a[0], a[j]);
  }

  lemma SameTail<T>(a: seq<T>, b: seq<T>)
    requires a != [] && b != [] && a[0] == b[0]
    requires multiset(a) == multiset(b)
    ensures multiset(a[1..]) == multiset(b[1..])
  {
    assert a == [a[0]] + a[1..] && b == [b[0]] + b[1..];
    assert multiset(a[1..]) == multiset(a) - multiset{a[0]};
    assert multiset(b[1..]) == multiset(b) - multiset{b[0]};
  }

  /** Two arrangements of the same elements that are both strictly ordered by `lt` are equal. */
  lemma {:induction false} StrictOrderUnique<T(!new)>(lt: (T, T) -> bool, a: seq<T>, b: seq<T>)
    requires forall x, y :: lt(x, y) ==> !lt(y, x)
    requires Pairwise(lt, a) && Pairwise(lt, b)
    requires multiset(a) == multiset(b)
    ensures a == b
  {
    assert |a| == |multiset(a)| == |multiset(b)| == |b|;
    if a != [] {
      assert a[0] in multiset(b) && b[0] in multiset(a);
      SameHead(lt, a, b);
      SameTail(a, b);
      StrictOrderUnique(lt, a[1..], b[1..]);
    }
  }

  lemma EmptyIff<T(!new)>(s: seq<T>)
    ensures s == [] <==> forall x :: x !in s
  {
    if s != [] {
      assert s[0] in s;
    }
  }

  /** Two strictly ordered sequences with the same members are equal. */
  lemma {:induction false} StrictOrderMembers<T(!new)>(lt: (T, T) -> bool, a: seq<T>, b: seq<T>)
    requires forall x, y :: lt(x, y) ==> !lt(y, x)
    requires Pairwise(lt, a) && Pairwise(lt, b)
    requires forall x :: x in a <==> x in b
    ensures a == b
  {
    EmptyIff(a);
    EmptyIff(b);
    if a != [] {
      assert a[0] in a && a[0] in b;
      assert b[0] in b && b[0] in a;
      SameHead(lt, a, b);
      forall x ensures x in a[1..] <==> x in b[1..] {
        assert a == [a[0]] + a[1..] && b == [b[0]] + b[1..];
        assert x in a <==> x == a[0] || x in a[1..];
        assert x in b <==> x == a[0] || x in b[1..];
        HeadIsFirst(lt, a);
        HeadIsFirst(lt, b);
      }
      StrictOrderMembers(lt, a[1..], b[1..]);
    }
  }

  lemma HeadIsFirst<T>(lt: (T, T) -> bool, s: seq<T>)
    requires Pairwise(lt, s) && s != []
    ensures forall x :: x in s[1..] ==> lt(s[0], x)
  {
    forall x | x in s[1..] ensures lt(s[0], x) {
      var i :| 1 <= i < |s| && s[i] == x;
    }
  }
}
