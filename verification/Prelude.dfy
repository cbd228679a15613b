/** Small vocabulary shared by the other modules: optional values, the outcome of a
    request handler, machine-integer bounds, and sums over sequences and maps. */
module Prelude {

  datatype Option<+T> = None | Some(value: T)

  /** How a handler ends.  `Done`: it took effect.  `Ignored`: it returned an empty
      answer.  `Refused`: it returned an error.  `Panicked`: a nil dereference or an
      index out of range stopped it. */
  datatype Outcome = Done | Ignored | Refused | Panicked

  const TWO_64: int := 0x1_0000_0000_0000_0000

  /** Go's uint64. */
  type U64 = x: int | 0 <= x < 0x1_0000_0000_0000_0000

  const MAX_INT64: int := 0x7FFF_FFFF_FFFF_FFFF

  /** The uint64 value of the Go expression `-x`. */
  function Negate64(x: U64): U64 {
    (TWO_64 - x) % TWO_64
  }

  function Min(a: int, b: int): int {
    if a < b then a else b
  }

  function Max(a: int, b: int): int {
    if a < b then b else a
  }

  /** Any member: the iteration order over a Go map is not specified. */
  method Pick<T(==)>(s: set<T>) returns (x: T)
    requires s != {}
    ensures x in s
  {
    x :| x in s;
  }

  lemma {:induction false} Within<T>(a: set<T>, b: set<T>)
    requires a <= b
    ensures |a| <= |b|
    decreases |a|
  {
    if a != {} {
      var x :| x in a;
      Within(a - {x}, b - {x});
    }
  }

  ghost function MapSum<K(!new)>(m: map<K, int>): int {
    if m == map[] then 0
    else
      var k :| k in m;
      m[k] + MapSum(m - {k})
  }

  ghost predicate NonNegative<K(!new)>(m: map<K, int>) {
    forall k :: k in m ==> 0 <= m[k]
  }

  /** Any key may be taken out first. */
  lemma {:induction false} MapSumRemove<K(!new)>(m: map<K, int>, k: K)
    requires k in m
    ensures MapSum(m) == m[k] + MapSum(m - {k})
    decreases |m|
  {
    var p :| p in m && MapSum(m) == m[p] + MapSum(m - {p});
    if p != k {
      MapSumRemove(m - {p}, k);
      MapSumRemove(m - {k}, p);
      assert m - {p} - {k} == m - {k} - {p};
    }
  }

  lemma MapSumUpdate<K(!new)>(m: map<K, int>, k: K, v: int)
    ensures MapSum(m[k := v]) == MapSum(m) + v - (if k in m then m[k] else 0)
  {
    var n := m[k := v];
    MapSumRemove(n, k);
    assert n - {k} == m - {k};
    if k in m {
      MapSumRemove(m, k);
    } else {
      assert m - {k} == m;
    }
  }

  lemma {:induction false} MapSumAtLeast<K(!new)>(m: map<K, int>, k: K)
    requires k in m
    requires NonNegative(m)
    ensures 0 <= MapSum(m - {k})
    ensures m[k] <= MapSum(m)
  {
    MapSumNonNegative(m - {k});
    MapSumRemove(m, k);
  }

  lemma {:induction false} MapSumNonNegative<K(!new)>(m: map<K, int>)
    requires NonNegative(m)
    ensures 0 <= MapSum(m)
    decreases |m|
  {
    if m != map[] {
      var k :| k in m;
      MapSumRemove(m, k);
      MapSumNonNegative(m - {k});
    }
  }
}
