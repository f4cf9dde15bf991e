/**
 * The two LINQ operators the console app's list actions are built from:
 * `Where` (an order-preserving filter) and `OrderBy` (a stable sort by a
 * key order), over sequences of any element type.
 */
module Sequences {

  /** `xs.Where(keep).ToList()`. */
  function Filter<T>(xs: seq<T>, keep: T -> bool): (r: seq<T>)
    ensures |r| <= |xs|
    ensures forall i :: 0 <= i < |r| ==> keep(r[i])
  {
    if xs == [] then []
    else if keep(xs[0]) then [xs[0]] + Filter(xs[1..], keep)
    else Filter(xs[1..], keep)
  }

  /** `a` is `b` with some elements left out, the rest in their order. */
  predicate IsSubsequence<T(==)>(a: seq<T>, b: seq<T>)
    decreases |b|
  {
    if a == [] then true
    else if b == [] then false
    else if a[0] == b[0] then IsSubsequence(a[1..], b[1..])
    else IsSubsequence(a, b[1..])
  }

  lemma {:induction false} FilterIsSubsequence<T>(xs: seq<T>, keep: T -> bool)
    ensures IsSubsequence(Filter(xs, keep), xs)
  {
    if xs != [] {
      FilterIsSubsequence(xs[1..], keep);
      var r := Filter(xs, keep);
      if !keep(xs[0]) && r != [] {
        assert keep(r[0]);
        assert r[0] != xs[0];
      }
    }
  }

  /** An element is kept exactly when it is in the input and passes the test. */
  lemma {:induction false} FilterMembers<T>(xs: seq<T>, keep: T -> bool, x: T)
    ensures x in Filter(xs, keep) <==> x in xs && keep(x)
  {
    if xs != [] {
      FilterMembers(xs[1..], keep, x);
      assert xs == [xs[0]] + xs[1..];
    }
  }

  /** Filtering again by the same test changes nothing. */
  lemma {:induction false} FilterIdempotent<T>(xs: seq<T>, keep: T -> bool)
    ensures Filter(Filter(xs, keep), keep) == Filter(xs, keep)
  {
    if xs != [] {
      FilterIdempotent(xs[1..], keep);
      if keep(xs[0]) {
        var r := Filter(xs[1..], keep);
        assert ([xs[0]] + r)[1..] == r;
      }
    }
  }

  /** A filter keeps everything when every element passes. */
  lemma {:induction false} FilterAll<T>(xs: seq<T>, keep: T -> bool)
    requires forall i :: 0 <= i < |xs| ==> keep(xs[i])
    ensures Filter(xs, keep) == xs
  {
    if xs != [] {
      FilterAll(xs[1..], keep);
      assert [xs[0]] + xs[1..] == xs;
    }
  }

  /** Two filters one after the other are one filter by both tests. */
  lemma {:induction false} FilterTwice<T>(xs: seq<T>, first: T -> bool, second: T -> bool, both: T -> bool)
    requires forall x :: both(x) == (first(x) && second(x))
    ensures Filter(Filter(xs, first), second) == Filter(xs, both)
  {
    if xs != [] {
      FilterTwice(xs[1..], first, second, both);
      if first(xs[0]) {
        var r := Filter(xs[1..], first);
        assert ([xs[0]] + r)[1..] == r;
      }
    }
  }

  /** A test and its negation split the input between them. */
  lemma {:induction false} FilterSplits<T>(xs: seq<T>, keep: T -> bool, rest: T -> bool)
    requires forall x :: rest(x) == !keep(x)
    ensures multiset(Filter(xs, keep)) + multiset(Filter(xs, rest)) == multiset(xs)
  {
    if xs != [] {
      var x, tail := xs[0], xs[1..];
      FilterSplits(tail, keep, rest);
      assert multiset(xs) == multiset{x} + multiset(tail) by {
        assert xs == [x] + tail;
      }
      if keep(x) {
        assert multiset(Filter(xs, keep)) == multiset{x} + multiset(Filter(tail, keep));
        assert Filter(xs, rest) == Filter(tail, rest);
      } else {
        assert Filter(xs, keep) == Filter(tail, keep);
        assert multiset(Filter(xs, rest)) == multiset{x} + multiset(Filter(tail, rest));
      }
    }
  }

  /** `le` is a total preorder: any two elements compare, and the order is transitive. */
  ghost predicate TotalPreorder<T(!new)>(le: (T, T) -> bool) {
    && (forall a, b :: le(a, b) || le(b, a))
    && (forall a, b, c :: le(a, b) && le(b, c) ==> le(a, c))
  }

  /** The reverse order, by which OrderByDescending sorts. */
  function Flip<T>(le: (T, T) -> bool): (T, T) -> bool {
    (a, b) => le(b, a)
  }

  lemma FlipIsTotalPreorder<T(!new)>(le: (T, T) -> bool)
    requires TotalPreorder(le)
    ensures TotalPreorder(Flip(le))
  {
    var f := Flip(le);
    forall a, b, c | f(a, b) && f(b, c) ensures f(a, c) {
      assert le(c, b) && le(b, a);
    }
  }

  predicate Sorted<T>(xs: seq<T>, le: (T, T) -> bool) {
    forall i, j :: 0 <= i < j < |xs| ==> le(xs[i], xs[j])
  }

  /** Insert x into sorted s after every element not above it. */
  function Insert<T>(x: T, s: seq<T>, le: (T, T) -> bool): (r: seq<T>)
    ensures |r| == |s| + 1
    ensures multiset(r) == multiset(s) + multiset{x}
  {
    if s == [] then [x]
    else if le(s[|s| - 1], x) then s + [x]
    else
      var init := s[..|s| - 1];
      assert s == init + [s[|s| - 1]];
      Insert(x, init, le) + [s[|s| - 1]]
  }

  /** The stable sort: each element in turn inserted after the ones before it that are not above it. */
  function SortBy<T>(xs: seq<T>, le: (T, T) -> bool): (r: seq<T>)
    ensures |r| == |xs|
    ensures multiset(r) == multiset(xs)
  {
    if xs == [] then []
    else
      var init := xs[..|xs| - 1];
      assert xs == init + [xs[|xs| - 1]];
      Insert(xs[|xs| - 1], SortBy(init, le), le)
  }

  lemma {:induction false} InsertSorted<T(!new)>(x: T, s: seq<T>, le: (T, T) -> bool)
    requires TotalPreorder(le) && Sorted(s, le)
    ensures Sorted(Insert(x, s, le), le)
  {
    if s != [] {
      var last := s[|s| - 1];
      if le(last, x) {
        var r := s + [x];
        forall i, j | 0 <= i < j < |r| ensures le(r[i], r[j]) {
          if j == |s| && i < |s| - 1 {
            assert le(s[i], last);
          }
        }
      } else {
        var init := s[..|s| - 1];
        InsertSorted(x, init, le);
        var front := Insert(x, init, le);
        var r := front + [last];
        forall i | 0 <= i < |front| ensures le(front[i], last) {
          assert front[i] in multiset(front);
          if front[i] != x {
            assert front[i] in multiset(init);
            var k :| 0 <= k < |init| && init[k] == front[i];
            assert s[k] == init[k];
          }
        }
        forall i, j | 0 <= i < j < |r| ensures le(r[i], r[j]) {
          if j == |front| {
            assert r[i] == front[i];
          } else {
            assert r[i] == front[i] && r[j] == front[j];
          }
        }
      }
    }
  }

  /** OrderBy's result is ordered by its key. */
  lemma {:induction false} SortBySorted<T(!new)>(xs: seq<T>, le: (T, T) -> bool)
    requires TotalPreorder(le)
    ensures Sorted(SortBy(xs, le), le)
  {
    if xs != [] {
      SortBySorted(xs[..|xs| - 1], le);
      InsertSorted(xs[|xs| - 1], SortBy(xs[..|xs| - 1], le), le);
    }
  }

  /** Filtering a concatenation filters each part. */
  lemma {:induction false} FilterAppend<T>(a: seq<T>, b: seq<T>, keep: T -> bool)
    ensures Filter(a + b, keep) == Filter(a, keep) + Filter(b, keep)
  {
    if a != [] {
      FilterAppend(a[1..], b, keep);
      assert (a + b)[1..] == a[1..] + b;
    } else {
      assert a + b == b;
    }
  }

  /** Inserting x puts it after every element of its class already there. */
  lemma {:induction false} InsertKeepsTies<T>(x: T, s: seq<T>, le: (T, T) -> bool, tie: T -> bool)
    requires forall a, b :: tie(a) && tie(b) ==> le(a, b)
    ensures Filter(Insert(x, s, le), tie) == Filter(s, tie) + Filter([x], tie)
  {
    if s == [] {
    } else if le(s[|s| - 1], x) {
      FilterAppend(s, [x], tie);
    } else {
      var init, last := s[..|s| - 1], s[|s| - 1];
      InsertKeepsTies(x, init, le, tie);
      FilterAppend(Insert(x, init, le), [last], tie);
      FilterAppend(init, [last], tie);
      assert s == init + [last];
      assert !(tie(x) && tie(last));
    }
  }

  /**
   * OrderBy is stable: the elements of any class of mutually equal keys
   * come out in the order they went in.
   */
  lemma {:induction false} SortByIsStable<T>(xs: seq<T>, le: (T, T) -> bool, tie: T -> bool)
    requires forall a, b :: tie(a) && tie(b) ==> le(a, b)
    ensures Filter(SortBy(xs, le), tie) == Filter(xs, tie)
  {
    if xs != [] {
      var init, last := xs[..|xs| - 1], xs[|xs| - 1];
      assert SortBy(xs, le) == Insert(last, SortBy(init, le), le);
      SortByIsStable(init, le, tie);
      InsertKeepsTies(last, SortBy(init, le), le, tie);
      assert Filter(SortBy(xs, le), tie) == Filter(init, tie) + Filter([last], tie);
      FilterAppend(init, [last], tie);
      assert xs == init + [last];
    }
  }

  /** The sort is stable: a list already in order, ties included, stays as it is. */
  lemma {:induction false} SortByOfSorted<T>(xs: seq<T>, le: (T, T) -> bool)
    requires Sorted(xs, le)
    ensures SortBy(xs, le) == xs
  {
    if xs != [] {
      var init := xs[..|xs| - 1];
      assert Sorted(init, le);
      SortByOfSorted(init, le);
      if |init| > 0 {
        assert le(init[|init| - 1], xs[|xs| - 1]);
      }
      assert init + [xs[|xs| - 1]] == xs;
    }
  }
}
