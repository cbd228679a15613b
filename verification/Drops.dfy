/** Weighted picks from drop tables. */
module Drops {
  import opened Prelude
  import opened Search

  ghost predicate Sorted(probs: seq<int>) {
    forall i, j :: 0 <= i <= j < |probs| ==> probs[i] <= probs[j]
  }

  /** The test of `sort.SearchInts`. */
  function Reaches(probs: seq<int>, seed: int): nat -> bool {
    (k: nat) => k < |probs| && seed <= probs[k]
  }

  /** The linear scan: steps over every entry below the seed and stops at the first other one. */
  function Scan(probs: seq<int>, seed: int): (index: nat)
    ensures index <= |probs|
    ensures forall k :: 0 <= k < index ==> probs[k] < seed
    ensures index < |probs| ==> seed <= probs[index]
  {
    if probs == [] || seed <= probs[0] then 0 else 1 + Scan(probs[1..], seed)
  }

  method LinearScan(probs: seq<int>, seed: int) returns (index: nat)
    ensures index == Scan(probs, seed)
  {
    index := 0;
    for i := 0 to |probs|
      invariant index == i
      invariant Scan(probs, seed) == i + Scan(probs[i..], seed)
    {
      if seed > probs[i] {
        index := index + 1;
        continue;
      }
      break;
    }
  }

  /** On a sorted table the binary search picks what the scan picks. */
  lemma SearchIsScan(probs: seq<int>, seed: int)
    requires Sorted(probs)
    ensures Bisect(Reaches(probs, seed), 0, |probs|) == Scan(probs, seed)
  {
    var f := Reaches(probs, seed);
    BisectFindsFirst(f, 0, |probs|, |probs|);
    var b, s := Bisect(f, 0, |probs|), Scan(probs, seed);
    assert b < |probs| ==> f(b);
    assert s < |probs| ==> f(s);
  }

  // ---------------------------------------------------------------- scaling

  /** Go's conversion of a float to an int: toward zero. */
  function Truncate(x: real): int {
    if x >= 0.0 then x.Floor else -((-x).Floor)
  }

  lemma TruncateMonotone(x: real, y: real)
    requires x <= y
    ensures Truncate(x) <= Truncate(y)
  {
  }

  lemma TruncateReaches(x: real, seed: int)
    requires 0 < seed
    ensures seed <= Truncate(x) <==> seed as real <= x
  {
  }

  function Times(p: int, rate: real): real {
    p as real * rate
  }

  function Scaled(probs: seq<int>, rate: real): (r: seq<int>)
    ensures |r| == |probs|
  {
    seq(|probs|, i requires 0 <= i < |probs| => Truncate(Times(probs[i], rate)))
  }

  lemma TimesMonotone(x: real, y: real, rate: real)
    requires x <= y && 0.0 <= rate
    ensures x * rate <= y * rate
  {
  }

  lemma ScaledMonotone(p: int, q: int, rate: real)
    requires p <= q && rate > 0.0
    ensures Times(p, rate) <= Times(q, rate)
  {
    TimesMonotone(p as real, q as real, rate);
  }

  lemma ScaledSorted(probs: seq<int>, rate: real)
    requires Sorted(probs) && rate > 0.0
    ensures Sorted(Scaled(probs, rate))
  {
    var r := Scaled(probs, rate);
    forall i, j | 0 <= i <= j < |r| ensures r[i] <= r[j] {
      ScaledMonotone(probs[i], probs[j], rate);
      TruncateMonotone(Times(probs[i], rate), Times(probs[j], rate));
    }
  }

  /** Truncating the scaled entries loses nothing: a positive seed still stops at an entry
      exactly when it is at most the exact product. */
  lemma TruncationHarmless(probs: seq<int>, rate: real, seed: int, k: nat)
    requires 0 < seed && k < |probs|
    ensures seed <= Scaled(probs, rate)[k] <==> seed as real <= Times(probs[k], rate)
  {
    TruncateReaches(Times(probs[k], rate), seed);
  }

  // ---------------------------------------------------------------- one draw of a mob's loot

  function Last(probs: seq<int>): int
    requires probs != []
  {
    probs[|probs| - 1]
  }

  /** The cut-off above which the seed is stretched instead of the table. */
  predicate Stretches(probs: seq<int>, rate: real)
    requires probs != []
  {
    Times(Last(probs), rate) >= 900.0
  }

  /** Seeds out of 1000 that still find something once the chance of finding nothing is
      divided by the rate. */
  function Chance(probs: seq<int>, rate: real): real
    requires probs != [] && rate != 0.0
  {
    1000.0 - (1000 - Last(probs)) as real / rate
  }

  /** The seed, blown up so that `chance` of it meets the last entry. */
  function Stretch(seed: real, last: int, chance: real): real
    requires chance != 0.0
  {
    seed * (last as real / chance)
  }

  lemma ChancePositive(probs: seq<int>, rate: real)
    requires probs != [] && rate > 0.0 && Stretches(probs, rate)
    ensures Last(probs) > 0 && Chance(probs, rate) > 0.0
  {
    var last := Last(probs) as real;
    PositiveFactor(last, rate);
    Balance(last, rate);
    Quotient((1000 - Last(probs)) as real, rate, 1000.0);
  }

  lemma PositiveFactor(x: real, y: real)
    requires x * y > 0.0 && y > 0.0
    ensures x > 0.0
  {
  }

  lemma Cancel(x: real, y: real, c: real)
    requires x * c < y * c && c > 0.0
    ensures x < y
  {
    if y <= x {
      TimesMonotone(y, x, c);
    }
  }

  lemma Balance(last: real, rate: real)
    requires 0.0 < last && 0.0 < rate && last * rate >= 900.0
    ensures 1000.0 - last < 1000.0 * rate
  {
    assert (last - 500.0) * (last - 500.0) >= 0.0;
    assert (1000.0 - last) * last <= 250000.0;
    assert 1000.0 * rate * last == 1000.0 * (last * rate);
    Cancel(1000.0 - last, 1000.0 * rate, last);
  }

  lemma Quotient(x: real, y: real, c: real)
    requires y > 0.0 && x < c * y
    ensures x / y < c
  {
    Cancel(x / y, c, y);
  }

  method SearchInts(probs: seq<int>, seed: int) returns (index: nat)
    ensures index == Bisect(Reaches(probs, seed), 0, |probs|)
  {
    index := BinarySearch(|probs|, Reaches(probs, seed));
  }

  /** The table and the seed that the search is called with. */
  function Prepared(probs: seq<int>, rate: real, seed: int): (seq<int>, int)
    requires probs != [] && rate > 0.0
  {
    if !Stretches(probs, rate) then (Scaled(probs, rate), seed)
    else
      ChancePositive(probs, rate);
      (probs, Truncate(Stretch(seed as real, Last(probs), Chance(probs, rate))))
  }

  /** The first entry whose product with the rate the seed does not exceed. */
  ghost predicate FirstReached(probs: seq<int>, rate: real, seed: real, index: nat) {
    && index <= |probs|
    && (forall k :: 0 <= k < index ==> Times(probs[k], rate) < seed)
    && (index < |probs| ==> seed <= Times(probs[index], rate))
  }

  /** The first entry that `x` does not exceed by one or more. */
  ghost predicate FirstWithin(probs: seq<int>, x: real, index: nat) {
    && index <= |probs|
    && (forall k :: 0 <= k < index ==> probs[k] as real + 1.0 <= x)
    && (index < |probs| ==> x < probs[index] as real + 1.0)
  }

  /** The pick in exact arithmetic: while the last entry times the rate is below 900 the rate widens
      the entries; from there on it divides the chance of finding nothing, and the seed is
      stretched to match. */
  ghost predicate Picks(probs: seq<int>, rate: real, seed: int, index: nat)
    requires probs != [] && rate > 0.0
  {
    if Times(Last(probs), rate) < 900.0 then FirstReached(probs, rate, seed as real, index)
    else
      && Chance(probs, rate) > 0.0
      && FirstWithin(probs, Stretch(seed as real, Last(probs), Chance(probs, rate)), index)
  }

  lemma PoorPicks(probs: seq<int>, rate: real, seed: int)
    requires rate > 0.0 && Sorted(probs) && seed > 0
    ensures FirstReached(probs, rate, seed as real, Scan(Scaled(probs, rate), seed))
  {
    var index := Scan(Scaled(probs, rate), seed);
    forall k | 0 <= k < index ensures Times(probs[k], rate) < seed as real {
      TruncationHarmless(probs, rate, seed, k);
    }
    if index < |probs| {
      TruncationHarmless(probs, rate, seed, index);
    }
  }

  lemma RichPicks(probs: seq<int>, x: real)
    requires x >= 0.0
    ensures FirstWithin(probs, x, Scan(probs, Truncate(x)))
  {
    var index := Scan(probs, Truncate(x));
    forall k | 0 <= k < index ensures probs[k] as real + 1.0 <= x {
      TruncateBelow(x, probs[k]);
    }
    if index < |probs| {
      TruncateBelow(x, probs[index]);
    }
  }

  /** The factors in plain arithmetic. */
  lemma FactorsAre(probs: seq<int>, rate: real, seed: real)
    requires probs != [] && rate > 0.0 && Chance(probs, rate) != 0.0
    ensures Times(Last(probs), rate) == probs[|probs| - 1] as real * rate
    ensures Chance(probs, rate) == 1000.0 - (1000.0 - probs[|probs| - 1] as real) / rate
    ensures Stretch(seed, Last(probs), Chance(probs, rate)) ==
            seed * (probs[|probs| - 1] as real / Chance(probs, rate))
  {
    assert (1000 - Last(probs)) as real == 1000.0 - probs[|probs| - 1] as real;
  }

  lemma RichDraw(probs: seq<int>, rate: real, seed: int, x: real)
    requires probs != [] && rate > 0.0 && seed > 0 && Stretches(probs, rate)
    requires rate != 0.0 && Chance(probs, rate) > 0.0
    requires x == Stretch(seed as real, Last(probs), Chance(probs, rate))
    ensures FirstWithin(probs, x, Scan(probs, Prepared(probs, rate, seed).1))
  {
    ChancePositive(probs, rate);
    StretchPositive(seed as real, Last(probs), Chance(probs, rate));
    RichPicks(probs, x);
  }

  lemma DrawPicks(probs: seq<int>, rate: real, seed: int)
    requires probs != [] && rate > 0.0 && Sorted(probs) && seed > 0
    ensures Picks(probs, rate, seed, Scan(Prepared(probs, rate, seed).0, Prepared(probs, rate, seed).1))
  {
    if Stretches(probs, rate) {
      ChancePositive(probs, rate);
      RichDraw(probs, rate, seed, Stretch(seed as real, Last(probs), Chance(probs, rate)));
    } else {
      PoorPicks(probs, rate, seed);
    }
  }

  method Draw(probs: seq<int>, rate: real, seed: int) returns (index: nat)
    requires probs != [] && rate > 0.0
    ensures index == Bisect(Reaches(Prepared(probs, rate, seed).0, Prepared(probs, rate, seed).1), 0, |probs|)
    ensures Sorted(probs) ==> index == Scan(Prepared(probs, rate, seed).0, Prepared(probs, rate, seed).1)
    ensures Sorted(probs) && seed > 0 ==> Picks(probs, rate, seed, index)
  {
    var table, point := probs, seed;
    if Times(Last(probs), rate) < 900.0 {
      table := Scaled(probs, rate);
    } else {
      ChancePositive(probs, rate);
      point := Truncate(Stretch(seed as real, Last(probs), Chance(probs, rate)));
    }
    index := SearchInts(table, point);
    if Sorted(probs) {
      ScaledSorted(probs, rate);
      SearchIsScan(table, point);
      if seed > 0 {
        DrawPicks(probs, rate, seed);
      }
    }
  }

  /** What the rate buys on a sorted table.  A poor table finds something on exactly the seeds
      up to its last entry times the rate; a rich one on exactly the seeds that stretch to less than
      one past the last entry, among them every seed up to 1000 less the failing share divided by
      the rate. */
  lemma RateRaisesChance(probs: seq<int>, rate: real, seed: int)
    requires probs != [] && Sorted(probs) && rate > 0.0 && 0 < seed
    ensures var p := Prepared(probs, rate, seed);
            && |p.0| == |probs|
            && (!Stretches(probs, rate) ==>
                  (Scan(p.0, p.1) < |probs| <==> seed as real <= Times(Last(probs), rate)))
            && (Stretches(probs, rate) ==>
                  && Chance(probs, rate) > 0.0
                  && (Scan(p.0, p.1) < |probs| <==>
                      Stretch(seed as real, Last(probs), Chance(probs, rate)) < Last(probs) as real + 1.0)
                  && (seed as real <= Chance(probs, rate) ==> Scan(p.0, p.1) < |probs|))
  {
    if !Stretches(probs, rate) {
      PoorChance(probs, rate, seed);
    } else {
      RichChance(probs, rate, seed);
    }
  }

  lemma PoorChance(probs: seq<int>, rate: real, seed: int)
    requires probs != [] && Sorted(probs) && rate > 0.0 && 0 < seed
    ensures Scan(Scaled(probs, rate), seed) < |probs| <==> seed as real <= Times(Last(probs), rate)
  {
    ScaledSorted(probs, rate);
    TruncationHarmless(probs, rate, seed, |probs| - 1);
    ScanFinds(Scaled(probs, rate), seed);
  }

  lemma RichChance(probs: seq<int>, rate: real, seed: int)
    requires probs != [] && Sorted(probs) && rate > 0.0 && 0 < seed
    requires Stretches(probs, rate)
    ensures Chance(probs, rate) > 0.0
    ensures Scan(probs, Prepared(probs, rate, seed).1) < |probs| <==>
            Stretch(seed as real, Last(probs), Chance(probs, rate)) < Last(probs) as real + 1.0
    ensures seed as real <= Chance(probs, rate) ==> Scan(probs, Prepared(probs, rate, seed).1) < |probs|
  {
    ChancePositive(probs, rate);
    var x := Stretch(seed as real, Last(probs), Chance(probs, rate));
    StretchPositive(seed as real, Last(probs), Chance(probs, rate));
    TruncateBelow(x, Last(probs));
    ScanFinds(probs, Truncate(x));
    if seed as real <= Chance(probs, rate) {
      StretchBounded(seed as real, Last(probs), Chance(probs, rate));
    }
  }

  lemma StretchPositive(seed: real, last: int, chance: real)
    requires seed > 0.0 && last > 0 && chance > 0.0
    ensures Stretch(seed, last, chance) >= 0.0
  {
    TimesMonotone(0.0, seed, last as real / chance);
  }

  lemma TruncateBelow(x: real, n: int)
    requires x >= 0.0
    ensures Truncate(x) <= n <==> x < n as real + 1.0
  {
  }

  lemma StretchBounded(seed: real, last: int, chance: real)
    requires seed <= chance && chance > 0.0 && last > 0
    ensures Truncate(Stretch(seed, last, chance)) <= last
  {
    TimesMonotone(seed, chance, last as real / chance);
    TruncateMonotone(Stretch(seed, last, chance), last as real);
  }

  /** On a sorted table a seed finds an entry exactly when the last entry reaches it. */
  lemma ScanFinds(probs: seq<int>, seed: int)
    requires probs != [] && Sorted(probs)
    ensures Scan(probs, seed) < |probs| <==> seed <= Last(probs)
  {
  }
}
