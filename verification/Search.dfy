/** The bisection behind both `sort.Search` and `utils.SearchUInt64`. */
module Search {

  /** The value the loop settles on when it starts between `i` and `j`. */
  function Bisect(f: nat -> bool, i: nat, j: nat): (r: nat)
    requires i <= j
    ensures i <= r <= j
    decreases j - i
  {
    if i == j then i
    else
      var h := (i + j) / 2;
      if f(h) then Bisect(f, i, h) else Bisect(f, h + 1, j)
  }

  method BinarySearch(n: nat, f: nat -> bool) returns (r: nat)
    ensures r == Bisect(f, 0, n) <= n
  {
    var i, j := 0, n;
    while i < j
      invariant 0 <= i <= j <= n
      invariant Bisect(f, 0, n) == Bisect(f, i, j)
    {
      var h := (i + j) / 2;
      if !f(h) {
        i := h + 1;
      } else {
        j := h;
      }
    }
    r := i;
  }

  /** Once true, `f` stays true below `n`. */
  ghost predicate Monotone(f: nat -> bool, n: nat) {
    forall i: nat, j: nat :: i <= j < n && f(i) ==> f(j)
  }

  /** On a monotone test the search finds the first index that passes, or `n`. */
  lemma {:induction false} BisectFindsFirst(f: nat -> bool, i: nat, j: nat, n: nat)
    requires i <= j <= n && Monotone(f, n)
    requires forall k: nat :: k < i ==> !f(k)
    requires forall k: nat :: j <= k < n ==> f(k)
    ensures forall k: nat :: k < Bisect(f, i, j) ==> !f(k)
    ensures forall k: nat :: Bisect(f, i, j) <= k < n ==> f(k)
    decreases j - i
  {
    if i < j {
      var h := (i + j) / 2;
      if f(h) {
        BisectFindsFirst(f, i, h, n);
      } else {
        BisectFindsFirst(f, h + 1, j, n);
      }
    }
  }
}
