/** Sorting by a strict order, and why the result is the only possible one. */
module Sorting {
  function InsertBy<T(!new)>(x: T, s: seq<T>, less: (T, T) -> bool): seq<T> {
    if |s| == 0 then [x]
    else if less(x, s[0]) then [x] + s
    else [s[0]] + InsertBy(x, s[1..], less)
  }

  function SortBy<T(!new)>(s: seq<T>, less: (T, T) -> bool): seq<T> {
    if |s| == 0 then [] else InsertBy(s[0], SortBy(s[1..], less), less)
  }

  ghost predicate Ordered<T>(s: seq<T>, less: (T, T) -> bool) {
    forall i, j :: 0 <= i < j < |s| ==> less(s[i], s[j])
  }

  ghost predicate StrictOrder<T(!new)>(less: (T, T) -> bool) {
    && (forall a :: !less(a, a))
    && (forall a, b, c :: less(a, b) && less(b, c) ==> less(a, c))
  }

  /** Any two entries of `s` at different places can be compared. */
  ghost predicate Comparable<T>(s: seq<T>, less: (T, T) -> bool) {
    forall i, j :: 0 <= i < j < |s| ==> less(s[i], s[j]) || less(s[j], s[i])
  }

  lemma {:induction false} InsertIsPermutation<T(!new)>(x: T, s: seq<T>, less: (T, T) -> bool)
    ensures multiset(InsertBy(x, s, less)) == multiset(s) + multiset{x}
  {
    if |s| > 0 && !less(x, s[0]) {
      InsertIsPermutation(x, s[1..], less);
      assert s == [s[0]] + s[1..];
    }
  }

  lemma {:induction false} InsertKeepsOrder<T(!new)>(x: T, s: seq<T>, less: (T, T) -> bool)
    requires StrictOrder(less) && Ordered(s, less)
    requires forall y <- s :: less(x, y) || less(y, x)
    ensures Ordered(InsertBy(x, s, less), less)
  {
    if |s| > 0 {
      if less(x, s[0]) {
        forall y | y in s ensures less(x, y) { }
      } else {
        InsertKeepsOrder(x, s[1..], less);
        InsertIsPermutation(x, s[1..], less);
        var rest := InsertBy(x, s[1..], less);
        forall y | y in rest ensures less(s[0], y) {
          assert y in multiset(rest);
          assert y == x || y in s[1..];
        }
      }
    }
  }

  lemma {:induction false} SortIsPermutation<T(!new)>(s: seq<T>, less: (T, T) -> bool)
    ensures multiset(SortBy(s, less)) == multiset(s)
  {
    if |s| > 0 {
      SortIsPermutation(s[1..], less);
      InsertIsPermutation(s[0], SortBy(s[1..], less), less);
      assert s == [s[0]] + s[1..];
    }
  }

  lemma {:induction false} SortIsOrdered<T(!new)>(s: seq<T>, less: (T, T) -> bool)
    requires StrictOrder(less) && Comparable(s, less)
    ensures Ordered(SortBy(s, less), less)
  {
    if |s| > 0 {
      SortIsOrdered(s[1..], less);
      SortIsPermutation(s[1..], less);
      var rest := SortBy(s[1..], less);
      forall y | y in rest ensures less(s[0], y) || less(y, s[0]) {
        assert y in multiset(s[1..]);
        var j :| 0 <= j < |s[1..]| && s[1..][j] == y;
        assert s[j + 1] == y;
      }
      InsertKeepsOrder(s[0], rest, less);
    }
  }

  /** Two ordered arrangements of the same entries are the same sequence. */
  lemma {:induction false} OrderIsUnique<T(!new)>(a: seq<T>, b: seq<T>, less: (T, T) -> bool)
    requires StrictOrder(less) && Ordered(a, less) && Ordered(b, less) && multiset(a) == multiset(b)
    ensures a == b
  {
    if |a| == 0 {
      assert |multiset(b)| == 0;
    } else {
      assert |multiset(b)| == |a|;
      SameHead(a, b, less);
      assert a == [a[0]] + a[1..] && b == [b[0]] + b[1..];
      assert multiset(a[1..]) == multiset(a) - multiset{a[0]};
      OrderIsUnique(a[1..], b[1..], less);
    }
  }

  lemma SameHead<T(!new)>(a: seq<T>, b: seq<T>, less: (T, T) -> bool)
    requires StrictOrder(less) && Ordered(a, less) && Ordered(b, less) && multiset(a) == multiset(b)
    requires |a| > 0 && |b| > 0
    ensures a[0] == b[0]
  {
    assert a[0] in multiset(b) && b[0] in multiset(a);
    var k :| 0 <= k < |b| && b[k] == a[0];
    var j :| 0 <= j < |a| && a[j] == b[0];
    if k > 0 && j > 0 { assert false; }
  }
}
