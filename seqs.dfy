/** Sequence helpers shared by the loader, the filters and the aggregations. */
module Seqs {

  /** The elements of `xs` that satisfy `p`, in their original order: a boolean mask. */
  function Where<T(!new)>(xs: seq<T>, p: T -> bool): (ys: seq<T>)
    ensures |ys| <= |xs|
    ensures forall y :: y in ys <==> y in xs && p(y)
  {
    if xs == [] then [] else (if p(xs[0]) then [xs[0]] else []) + Where(xs[1..], p)
  }

  /** The conjunction of two row tests. */
  function Both<T>(p: T -> bool, q: T -> bool): T -> bool {
    x => p(x) && q(x)
  }

  /** `f` applied to every element, in order. */
  function MapSeq<T, U>(xs: seq<T>, f: T -> U): (ys: seq<U>)
    ensures |ys| == |xs|
    ensures forall i :: 0 <= i < |xs| ==> ys[i] == f(xs[i])
  {
    seq(|xs|, i requires 0 <= i < |xs| => f(xs[i]))
  }

  /** `a` is obtained from `b` by deleting elements, keeping the order of the rest. */
  ghost predicate IsSubsequence<T>(a: seq<T>, b: seq<T>)
    decreases |b|
  {
    a == [] || (b != [] && ((a[0] == b[0] && IsSubsequence(a[1..], b[1..])) || IsSubsequence(a, b[1..])))
  }

  predicate Distinct<T(==)>(xs: seq<T>) {
    forall i, j :: 0 <= i < j < |xs| ==> xs[i] != xs[j]
  }

  /** The distinct elements of `xs` in order of first appearance (pandas `unique()`). */
  function Unique<T(==,!new)>(xs: seq<T>): (u: seq<T>)
    ensures Distinct(u)
    ensures forall x :: x in u <==> x in xs
    ensures |u| <= |xs|
    decreases |xs|
  {
    if xs == [] then []
    else
      var init := Unique(xs[..|xs| - 1]);
      var last := xs[|xs| - 1];
      assert xs == xs[..|xs| - 1] + [last];
      if last in init then init else init + [last]
  }

  lemma {:induction false} SubsequenceLength<T>(a: seq<T>, b: seq<T>)
    requires IsSubsequence(a, b)
    ensures |a| <= |b|
    decreases |b|
  {
    if a != [] {
      if a[0] == b[0] && IsSubsequence(a[1..], b[1..]) {
        SubsequenceLength(a[1..], b[1..]);
      } else {
        SubsequenceLength(a, b[1..]);
      }
    }
  }

  lemma {:induction false} SubsequenceOfTail<T>(a: seq<T>, b: seq<T>)
    requires b != [] && IsSubsequence(a, b[1..])
    ensures IsSubsequence(a, b)
  {
  }

  /** Appending the same element to both sides keeps a subsequence a subsequence. */
  lemma {:induction false} SubsequenceSnoc<T>(a: seq<T>, b: seq<T>, x: T)
    requires IsSubsequence(a, b)
    ensures IsSubsequence(a + [x], b + [x])
    decreases |b|
  {
    if a == [] {
      if b == [] {
        assert IsSubsequence([x][1..], [x][1..]);
      } else {
        SubsequenceSnoc(a, b[1..], x);
        assert (b + [x])[1..] == b[1..] + [x];
      }
    } else if a[0] == b[0] && IsSubsequence(a[1..], b[1..]) {
      SubsequenceSnoc(a[1..], b[1..], x);
      assert (a + [x])[1..] == a[1..] + [x];
      assert (b + [x])[1..] == b[1..] + [x];
    } else {
      SubsequenceSnoc(a, b[1..], x);
      assert (b + [x])[1..] == b[1..] + [x];
    }
  }

  /** Appending an element to the longer side keeps a subsequence a subsequence. */
  lemma {:induction false} SubsequenceExtend<T>(a: seq<T>, b: seq<T>, x: T)
    requires IsSubsequence(a, b)
    ensures IsSubsequence(a, b + [x])
    decreases |b|
  {
    if a != [] {
      assert (b + [x])[1..] == b[1..] + [x];
      if a[0] == b[0] && IsSubsequence(a[1..], b[1..]) {
        SubsequenceExtend(a[1..], b[1..], x);
      } else {
        SubsequenceExtend(a, b[1..], x);
      }
    }
  }

  /** Every element of a subsequence is an element of the whole. */
  lemma {:induction false} SubsequenceMembers<T>(a: seq<T>, b: seq<T>)
    requires IsSubsequence(a, b)
    ensures forall x :: x in a ==> x in b
    decreases |b|
  {
    if a != [] {
      if a[0] == b[0] && IsSubsequence(a[1..], b[1..]) {
        SubsequenceMembers(a[1..], b[1..]);
        assert forall x :: x in a ==> x == a[0] || x in a[1..];
      } else {
        SubsequenceMembers(a, b[1..]);
      }
    }
  }

  /** A subsequence of a sequence without repetitions has none either. */
  lemma {:induction false} SubsequenceDistinct<T>(a: seq<T>, b: seq<T>)
    requires IsSubsequence(a, b) && Distinct(b)
    ensures Distinct(a)
    decreases |b|
  {
    if a != [] {
      assert Distinct(b[1..]) by {
        forall i, j | 0 <= i < j < |b[1..]| ensures b[1..][i] != b[1..][j] {
          assert b[1..][i] == b[i + 1] && b[1..][j] == b[j + 1];
        }
      }
      if a[0] == b[0] && IsSubsequence(a[1..], b[1..]) {
        SubsequenceDistinct(a[1..], b[1..]);
        SubsequenceMembers(a[1..], b[1..]);
        assert b[0] !in b[1..];
        forall i, j | 0 <= i < j < |a| ensures a[i] != a[j] {
          if i == 0 {
            assert a[j] == a[1..][j - 1];
          } else {
            assert a[i] == a[1..][i - 1] && a[j] == a[1..][j - 1];
          }
        }
      } else {
        SubsequenceDistinct(a, b[1..]);
      }
    }
  }

  /** A mask keeps a subsequence of its input. */
  lemma {:induction false} WhereIsSubsequence<T(!new)>(xs: seq<T>, p: T -> bool)
    ensures IsSubsequence(Where(xs, p), xs)
    decreases |xs|
  {
    if xs != [] {
      WhereIsSubsequence(xs[1..], p);
      if p(xs[0]) {
        assert Where(xs, p) == [xs[0]] + Where(xs[1..], p);
        assert Where(xs, p)[1..] == Where(xs[1..], p);
      } else {
        assert Where(xs, p) == Where(xs[1..], p);
        SubsequenceOfTail(Where(xs, p), xs);
      }
    }
  }

  /** A stronger test keeps a subsequence of what a weaker test keeps. */
  lemma {:induction false} WhereStronger<T(!new)>(xs: seq<T>, p: T -> bool, q: T -> bool)
    requires forall x :: p(x) ==> q(x)
    ensures IsSubsequence(Where(xs, p), Where(xs, q))
    decreases |xs|
  {
    if xs != [] {
      WhereStronger(xs[1..], p, q);
      var wp, wq := Where(xs, p), Where(xs, q);
      if p(xs[0]) {
        assert wp == [xs[0]] + Where(xs[1..], p) && wq == [xs[0]] + Where(xs[1..], q);
        assert wp[0] == wq[0] && wp[1..] == Where(xs[1..], p) && wq[1..] == Where(xs[1..], q);
      } else if q(xs[0]) {
        assert wp == Where(xs[1..], p) && wq == [xs[0]] + Where(xs[1..], q);
        assert wq[1..] == Where(xs[1..], q);
        SubsequenceOfTail(wp, wq);
      } else {
        assert wp == Where(xs[1..], p) && wq == Where(xs[1..], q);
      }
    }
  }

  /** Two masks in a row are one mask with the conjunction of their tests. */
  lemma {:induction false} WhereWhere<T(!new)>(xs: seq<T>, p: T -> bool, q: T -> bool)
    ensures Where(Where(xs, p), q) == Where(xs, Both(p, q))
    decreases |xs|
  {
    if xs != [] {
      WhereWhere(xs[1..], p, q);
      assert Both(p, q)(xs[0]) == (p(xs[0]) && q(xs[0]));
      if p(xs[0]) {
        assert Where(xs, p) == [xs[0]] + Where(xs[1..], p);
        assert Where(xs, p)[1..] == Where(xs[1..], p);
      } else {
        assert Where(xs, p) == Where(xs[1..], p);
      }
    }
  }

  /** Tests that agree on every element keep the same elements. */
  lemma {:induction false} WhereAgree<T(!new)>(xs: seq<T>, p: T -> bool, q: T -> bool)
    requires forall x :: p(x) == q(x)
    ensures Where(xs, p) == Where(xs, q)
    decreases |xs|
  {
    if xs != [] {
      WhereAgree(xs[1..], p, q);
    }
  }

  /** A test every element passes keeps everything. */
  lemma {:induction false} WhereAll<T(!new)>(xs: seq<T>, p: T -> bool)
    requires forall x :: p(x)
    ensures Where(xs, p) == xs
    decreases |xs|
  {
    if xs != [] {
      WhereAll(xs[1..], p);
    }
  }

  /** A test no element passes keeps nothing. */
  lemma {:induction false} WhereNone<T(!new)>(xs: seq<T>, p: T -> bool)
    requires forall x :: !p(x)
    ensures Where(xs, p) == []
    decreases |xs|
  {
    if xs != [] {
      WhereNone(xs[1..], p);
    }
  }

  /** `before` orders every pair and is transitive: what a sort key comparison provides. */
  ghost predicate TotalPreorder<T(!new)>(before: (T, T) -> bool) {
    && (forall a, b :: before(a, b) || before(b, a))
    && (forall a, b, c :: before(a, b) && before(b, c) ==> before(a, c))
  }

  /** Every element comes `before` every later one. */
  ghost predicate SortedBy<T>(xs: seq<T>, before: (T, T) -> bool) {
    forall i, j :: 0 <= i < j < |xs| ==> before(xs[i], xs[j])
  }

  /** `x` placed ahead of the first element it comes `before`; after any it does not. */
  function Insert<T(!new)>(x: T, xs: seq<T>, before: (T, T) -> bool): (ys: seq<T>)
    ensures multiset(ys) == multiset(xs) + multiset{x}
    ensures |ys| == |xs| + 1
    ensures TotalPreorder(before) && SortedBy(xs, before) ==> SortedBy(ys, before)
    decreases |xs|
  {
    if xs == [] || before(x, xs[0]) then
      assert TotalPreorder(before) && SortedBy(xs, before) ==> SortedBy([x] + xs, before) by {
        if TotalPreorder(before) && SortedBy(xs, before) && xs != [] {
          forall j | 0 <= j < |xs| ensures before(x, xs[j]) {
            assert j == 0 || before(xs[0], xs[j]);
          }
        }
      }
      [x] + xs
    else
      var rest := Insert(x, xs[1..], before);
      assert xs == [xs[0]] + xs[1..];
      assert TotalPreorder(before) && SortedBy(xs, before) ==> SortedBy([xs[0]] + rest, before) by {
        if TotalPreorder(before) && SortedBy(xs, before) {
          assert before(xs[0], x);
          forall j | 0 <= j < |rest| ensures before(xs[0], rest[j]) {
            assert rest[j] in multiset(rest);
            assert rest[j] == x || rest[j] in multiset(xs[1..]);
            if rest[j] != x {
              var k :| 0 <= k < |xs[1..]| && xs[1..][k] == rest[j];
              assert xs[k + 1] == rest[j];
            }
          }
          assert SortedBy(xs[1..], before) by {
            forall i, j | 0 <= i < j < |xs[1..]| ensures before(xs[1..][i], xs[1..][j]) {
              assert xs[1..][i] == xs[i + 1] && xs[1..][j] == xs[j + 1];
            }
          }
        }
      }
      [xs[0]] + rest
  }

  /** A stable insertion sort: a permutation of `xs`, sorted by `before` when it is a total preorder. */
  function SortBy<T(!new)>(xs: seq<T>, before: (T, T) -> bool): (ys: seq<T>)
    ensures multiset(ys) == multiset(xs)
    ensures |ys| == |xs|
    ensures TotalPreorder(before) ==> SortedBy(ys, before)
    decreases |xs|
  {
    if xs == [] then []
    else
      assert xs == [xs[0]] + xs[1..];
      Insert(xs[0], SortBy(xs[1..], before), before)
  }
}
