/** Sums over a sequence in any commutative monoid. */
module Folds {

  function Fold<T, M>(plus: (M, M) -> M, zero: M, f: T -> M, xs: seq<T>, n: nat): M
    requires n <= |xs|
  {
    if n == 0 then zero else plus(Fold(plus, zero, f, xs, n - 1), f(xs[n - 1]))
  }

  ghost predicate Monoid<M(!new)>(plus: (M, M) -> M, zero: M) {
    && (forall a, b, c :: plus(plus(a, b), c) == plus(a, plus(b, c)))
    && (forall a :: plus(a, zero) == a)
  }

  ghost predicate Commutative<M(!new)>(plus: (M, M) -> M) {
    forall a, b :: plus(a, b) == plus(b, a)
  }

  function Without<T>(xs: seq<T>, i: nat): seq<T>
    requires i < |xs|
  {
    xs[..i] + xs[i + 1..]
  }

  lemma {:induction false} FoldPrefix<T, M>(plus: (M, M) -> M, zero: M, f: T -> M, xs: seq<T>, ys: seq<T>, n: nat)
    requires n <= |xs| && n <= |ys| && xs[..n] == ys[..n]
    ensures Fold(plus, zero, f, xs, n) == Fold(plus, zero, f, ys, n)
  {
    if n > 0 {
      assert xs[..n][n - 1] == ys[..n][n - 1];
      assert xs[..n - 1] == xs[..n][..n - 1] && ys[..n - 1] == ys[..n][..n - 1];
      FoldPrefix(plus, zero, f, xs, ys, n - 1);
    }
  }

  /** The last two summands may change places. */
  ghost predicate Exchanges<M(!new)>(plus: (M, M) -> M) {
    forall a, x, y :: plus(plus(a, x), y) == plus(plus(a, y), x)
  }

  lemma LastTwo<M(!new)>(plus: (M, M) -> M, zero: M)
    requires Monoid(plus, zero) && Commutative(plus)
    ensures Exchanges(plus)
  {
    forall a, x, y ensures plus(plus(a, x), y) == plus(plus(a, y), x) {
      assert plus(plus(a, x), y) == plus(a, plus(x, y)) == plus(a, plus(y, x)) == plus(plus(a, y), x);
    }
  }

  /** Any element may be taken out and added last. */
  lemma {:induction false} TakeOut<T, M(!new)>(plus: (M, M) -> M, zero: M, f: T -> M, xs: seq<T>, i: nat, n: nat)
    requires Exchanges(plus) && i < n <= |xs|
    ensures Fold(plus, zero, f, xs, n) == plus(Fold(plus, zero, f, Without(xs, i), n - 1), f(xs[i]))
    decreases n
  {
    var rest := Without(xs, i);
    if i == n - 1 {
      FoldPrefix(plus, zero, f, xs, rest, n - 1);
    } else {
      TakeOut(plus, zero, f, xs, i, n - 1);
      var a, x, y := Fold(plus, zero, f, rest, n - 2), f(xs[i]), f(xs[n - 1]);
      assert rest[n - 2] == xs[n - 1];
      assert plus(plus(a, x), y) == plus(plus(a, y), x);
    }
  }

  /** The order of the elements does not matter. */
  lemma {:induction false} AnyOrder<T, M(!new)>(plus: (M, M) -> M, zero: M, f: T -> M, xs: seq<T>, ys: seq<T>)
    requires Monoid(plus, zero) && Commutative(plus) && multiset(xs) == multiset(ys)
    ensures |xs| == |ys|
    ensures Fold(plus, zero, f, xs, |xs|) == Fold(plus, zero, f, ys, |ys|)
    decreases |xs|
  {
    assert |multiset(xs)| == |xs| && |multiset(ys)| == |ys|;
    if xs != [] {
      LastTwo(plus, zero);
      var n := |xs| - 1;
      assert xs[n] in multiset(ys);
      var i :| 0 <= i < |ys| && ys[i] == xs[n];
      SameWithout(xs, n, ys, i);
      AnyOrder(plus, zero, f, Without(xs, n), Without(ys, i));
      TakeOut(plus, zero, f, xs, n, |xs|);
      TakeOut(plus, zero, f, ys, i, |ys|);
    }
  }

  lemma SameWithout<T>(xs: seq<T>, n: nat, ys: seq<T>, i: nat)
    requires n < |xs| && i < |ys| && xs[n] == ys[i] && multiset(xs) == multiset(ys)
    ensures multiset(Without(xs, n)) == multiset(Without(ys, i))
  {
    WithoutOne(xs, n);
    WithoutOne(ys, i);
  }

  lemma WithoutOne<T>(xs: seq<T>, n: nat)
    requires n < |xs|
    ensures multiset(Without(xs, n)) == multiset(xs) - multiset{xs[n]}
  {
    assert xs == xs[..n] + [xs[n]] + xs[n + 1..];
  }

  /** Elements that add nothing may be dropped. */
  function Kept<T(!new)>(keep: T -> bool, xs: seq<T>, n: nat): (r: seq<T>)
    requires n <= |xs|
    ensures |r| <= n
    ensures forall x :: x in r <==> x in xs[..n] && keep(x)
  {
    if n == 0 then [] else Kept(keep, xs, n - 1) + (if keep(xs[n - 1]) then [xs[n - 1]] else [])
  }

  lemma {:induction false} DropUnits<T(!new), M(!new)>(plus: (M, M) -> M, zero: M, f: T -> M,
                                                        keep: T -> bool, xs: seq<T>, n: nat)
    requires Monoid(plus, zero) && n <= |xs|
    requires forall i :: 0 <= i < |xs| && !keep(xs[i]) ==> f(xs[i]) == zero
    ensures Fold(plus, zero, f, Kept(keep, xs, n), |Kept(keep, xs, n)|) == Fold(plus, zero, f, xs, n)
  {
    if n > 0 {
      DropUnits(plus, zero, f, keep, xs, n - 1);
      var k := Kept(keep, xs, n - 1);
      if keep(xs[n - 1]) {
        var all := Kept(keep, xs, n);
        assert all == k + [xs[n - 1]] && all[..|k|] == k == k[..|k|];
        FoldPrefix(plus, zero, f, all, k, |k|);
        assert all[|k|] == xs[n - 1] && |all| == |k| + 1;
        assert Fold(plus, zero, f, all, |all|) == plus(Fold(plus, zero, f, all, |k|), f(all[|k|]));
      } else {
        assert Kept(keep, xs, n) == k;
        assert Fold(plus, zero, f, xs, n) == plus(Fold(plus, zero, f, xs, n - 1), zero);
      }
    }
  }

  lemma {:induction false} FoldAppend<T, M(!new)>(plus: (M, M) -> M, zero: M, f: T -> M, xs: seq<T>, ys: seq<T>)
    requires Monoid(plus, zero)
    ensures Fold(plus, zero, f, xs + ys, |xs + ys|) ==
            plus(Fold(plus, zero, f, xs, |xs|), Fold(plus, zero, f, ys, |ys|))
    decreases |ys|
  {
    var a := Fold(plus, zero, f, xs, |xs|);
    if ys == [] {
      assert xs + ys == xs;
      assert plus(a, zero) == a;
    } else {
      var all, ws, y := xs + ys, ys[..|ys| - 1], ys[|ys| - 1];
      assert all[..|all| - 1] == xs + ws && all[|all| - 1] == y;
      FoldAppend(plus, zero, f, xs, ws);
      assert all[..|all| - 1] == (xs + ws)[..|all| - 1] && ys[..|ws|] == ws[..|ws|];
      FoldPrefix(plus, zero, f, all, xs + ws, |all| - 1);
      FoldPrefix(plus, zero, f, ys, ws, |ws|);
      assert plus(plus(a, Fold(plus, zero, f, ws, |ws|)), f(y)) == plus(a, plus(Fold(plus, zero, f, ws, |ws|), f(y)));
    }
  }

  // ---------------------------------------------------------------- ranges of a sequence

  /** The sum over the positions from `start` up to, and not including, `end`. */
  function RangeFold<T, M>(plus: (M, M) -> M, zero: M, f: (int, T) -> M, xs: seq<T>, start: int, end: int): M
    requires 0 <= start && end <= |xs|
    decreases |xs|, end - start
  {
    if start >= end then zero else plus(RangeFold(plus, zero, f, xs, start, end - 1), f(end - 1, xs[end - 1]))
  }

  ghost predicate AllNothing<T, M(!new)>(zero: M, f: (int, T) -> M, xs: seq<T>, start: int, end: int)
    requires 0 <= start && end <= |xs|
  {
    forall i :: start <= i < end ==> f(i, xs[i]) == zero
  }

  ghost predicate NothingBut<T, M(!new)>(zero: M, f: (int, T) -> M, xs: seq<T>, start: int, end: int, k: int)
    requires 0 <= start && end <= |xs|
  {
    forall i :: start <= i < end && i != k ==> f(i, xs[i]) == zero
  }

  ghost predicate AllSame<T, M>(f: (int, T) -> M, g: (int, T) -> M, xs: seq<T>, start: int, end: int)
    requires 0 <= start && end <= |xs|
  {
    forall i :: start <= i < end ==> f(i, xs[i]) == g(i, xs[i])
  }

  ghost predicate Unit<M(!new)>(plus: (M, M) -> M, zero: M) {
    forall a :: plus(a, zero) == a && plus(zero, a) == a
  }

  lemma {:induction false} RangeFoldNothing<T, M(!new)>(plus: (M, M) -> M, zero: M, f: (int, T) -> M,
                                                        xs: seq<T>, start: int, end: int)
    requires 0 <= start && end <= |xs| && Unit(plus, zero)
    requires AllNothing(zero, f, xs, start, end)
    ensures RangeFold(plus, zero, f, xs, start, end) == zero
    decreases end - start
  {
    if start < end {
      RangeFoldNothing(plus, zero, f, xs, start, end - 1);
    }
  }

  lemma {:induction false} RangeFoldSame<T, M>(plus: (M, M) -> M, zero: M, f: (int, T) -> M, g: (int, T) -> M,
                                               xs: seq<T>, start: int, end: int)
    requires 0 <= start && end <= |xs|
    requires AllSame(f, g, xs, start, end)
    ensures RangeFold(plus, zero, f, xs, start, end) == RangeFold(plus, zero, g, xs, start, end)
    decreases end - start
  {
    if start < end {
      RangeFoldSame(plus, zero, f, g, xs, start, end - 1);
    }
  }

  /** If one position alone adds something, the sum is what it adds. */
  lemma {:induction false} RangeFoldOne<T, M(!new)>(plus: (M, M) -> M, zero: M, f: (int, T) -> M,
                                                    xs: seq<T>, start: int, end: int, k: int)
    requires 0 <= start && end <= |xs| && Unit(plus, zero)
    requires NothingBut(zero, f, xs, start, end, k)
    ensures RangeFold(plus, zero, f, xs, start, end) == if start <= k < end then f(k, xs[k]) else zero
    decreases end - start
  {
    if start < end {
      RangeFoldOne(plus, zero, f, xs, start, end - 1, k);
    }
  }
}
