/** The fortune box: a walk through drop tables that list other tables. */
module FortuneBox {
  import opened Prelude
  import opened Drops

  datatype Table = Table(items: seq<int>, probabilities: seq<int>)

  /** How a walk ends: on an id that is no table, past the end of a table, or not yet. */
  datatype Walked = Landed(itemID: int) | PastEnd(itemID: int) | Walking(table: int)

  /** Seeds are drawn from 0 up to, and not including, this. */
  const ROLLS: nat := 1000

  ghost predicate Rolls(seeds: nat -> int) {
    forall n: nat :: 0 <= seeds(n) < ROLLS
  }

  /** At most `limit` draws; `seeds(n)` is the seed of the n-th. */
  function Walk(drops: map<int, Table>, seeds: nat -> int, id: int, itemID: int, n: nat, limit: nat): Walked
    decreases limit
  {
    if id !in drops then Landed(itemID)
    else if limit == 0 then Walking(id)
    else
      var index := Scan(drops[id].probabilities, seeds(n));
      if index >= |drops[id].items| then PastEnd(itemID)
      else Walk(drops, seeds, drops[id].items[index], drops[id].items[index], n + 1, limit - 1)
  }

  // ---------------------------------------------------------------- links between tables

  /** On this seed the table draws `next`. */
  ghost predicate Links(drops: map<int, Table>, id: int, seed: int, next: int) {
    && id in drops
    && var index := Scan(drops[id].probabilities, seed);
       index < |drops[id].items| && drops[id].items[index] == next
  }

  lemma WalkLink(drops: map<int, Table>, seeds: nat -> int, id: int, itemID: int, next: int, n: nat, limit: nat)
    requires Links(drops, id, seeds(n), next) && limit > 0
    ensures Walk(drops, seeds, id, itemID, n, limit) == Walk(drops, seeds, next, next, n + 1, limit - 1)
  {
  }

  /** Both are tables and some roll leads from one to the other; what is listed but out of reach
      of every roll does not matter. */
  ghost predicate Drawable(drops: map<int, Table>, id: int, next: int) {
    next in drops && exists seed :: 0 <= seed < ROLLS && Links(drops, id, seed, next)
  }

  ghost predicate Ranked(drops: map<int, Table>, rank: int -> nat) {
    forall id, next :: Drawable(drops, id, next) ==> rank(next) < rank(id)
  }

  /** No chain of draws comes back to a table. */
  ghost predicate Acyclic(drops: map<int, Table>) {
    exists rank: int -> nat :: Ranked(drops, rank)
  }

  // ---------------------------------------------------------------- without a cycle

  /** The tables a walk from `id` may still visit. */
  ghost function Below(drops: map<int, Table>, rank: int -> nat, id: int): set<int> {
    set t | t in drops && rank(t) <= rank(id)
  }

  /** Without a cycle the walk ends after at most one draw for each table. */
  lemma {:induction false} WalkEnds(drops: map<int, Table>, seeds: nat -> int, rank: int -> nat,
                                    id: int, itemID: int, n: nat, limit: nat)
    requires Ranked(drops, rank) && Rolls(seeds)
    requires id in drops ==> |Below(drops, rank, id)| <= limit
    ensures !Walk(drops, seeds, id, itemID, n, limit).Walking?
    decreases limit
  {
    if id in drops {
      var all := Below(drops, rank, id);
      assert id in all;
      var index := Scan(drops[id].probabilities, seeds(n));
      if limit != 0 && index < |drops[id].items| {
        var next := drops[id].items[index];
        if next in drops {
          assert Links(drops, id, seeds(n), next);
          assert Drawable(drops, id, next);
          Shrinks(Below(drops, rank, next), all, id);
        }
        WalkEnds(drops, seeds, rank, next, next, n + 1, limit - 1);
      }
    }
  }

  lemma Shrinks(a: set<int>, b: set<int>, x: int)
    requires a <= b && x in b && x !in a
    ensures |a| <= |b| - 1
  {
    Within(a, b - {x});
  }

  lemma WalkEndsWithinTables(drops: map<int, Table>, seeds: nat -> int, id: int, itemID: int)
    requires Acyclic(drops) && Rolls(seeds)
    ensures !Walk(drops, seeds, id, itemID, 0, |drops|).Walking?
  {
    var rank: int -> nat :| Ranked(drops, rank);
    Within(Below(drops, rank, id), drops.Keys);
    WalkEnds(drops, seeds, rank, id, itemID, 0, |drops|);
  }

  // ---------------------------------------------------------------- with a cycle

  /** Whatever is rolled, a walk from `id` ends within `k` draws. */
  ghost predicate Ends(drops: map<int, Table>, id: int, k: nat)
    decreases k
  {
    id in drops ==>
      k > 0 && forall seed, next :: 0 <= seed < ROLLS && Links(drops, id, seed, next) ==> Ends(drops, next, k - 1)
  }

  lemma {:induction false} EndsLater(drops: map<int, Table>, id: int, k: nat, more: nat)
    requires Ends(drops, id, k) && k <= more
    ensures Ends(drops, id, more)
    decreases k
  {
    if id in drops {
      forall seed, next | 0 <= seed < ROLLS && Links(drops, id, seed, next) ensures Ends(drops, next, more - 1) {
        EndsLater(drops, next, k - 1, more - 1);
      }
    }
  }

  /** No number of draws is enough. */
  ghost predicate Trapped(drops: map<int, Table>, id: int) {
    forall k: nat :: !Ends(drops, id, k)
  }

  /** A trap for a range of seeds, or a number of draws that is enough behind all of them. */
  lemma {:induction false} BoundOrTrap(drops: map<int, Table>, id: int, m: nat) returns (k: nat)
    requires m <= ROLLS
    requires forall seed, next :: 0 <= seed < m && Links(drops, id, seed, next) ==> !Trapped(drops, next)
    ensures forall seed, next :: 0 <= seed < m && Links(drops, id, seed, next) ==> Ends(drops, next, k)
    decreases m
  {
    k := 0;
    if m > 0 {
      var j := BoundOrTrap(drops, id, m - 1);
      var l := LastBound(drops, id, m - 1);
      k := Max(j, l);
      forall seed, next | 0 <= seed < m && Links(drops, id, seed, next) ensures Ends(drops, next, k) {
        EndsLater(drops, next, if seed < m - 1 then j else l, k);
      }
    }
  }

  lemma LastBound(drops: map<int, Table>, id: int, seed: int) returns (k: nat)
    requires forall next :: Links(drops, id, seed, next) ==> !Trapped(drops, next)
    ensures forall next :: Links(drops, id, seed, next) ==> Ends(drops, next, k)
  {
    k := 0;
    if next :| Links(drops, id, seed, next) {
      k :| Ends(drops, next, k);
    }
  }

  /** From a trap some roll leads into a trap. */
  lemma TrapLeadsOn(drops: map<int, Table>, id: int)
    requires Trapped(drops, id)
    ensures id in drops
    ensures exists seed, next :: 0 <= seed < ROLLS && Links(drops, id, seed, next) && Trapped(drops, next)
  {
    assert !Ends(drops, id, 0);
    if forall seed, next :: 0 <= seed < ROLLS && Links(drops, id, seed, next) ==> !Trapped(drops, next) {
      var k := BoundOrTrap(drops, id, ROLLS);
      assert Ends(drops, id, k + 1);
    }
  }

  ghost function TrapSeed(drops: map<int, Table>, id: int): (seed: int)
    requires Trapped(drops, id)
    ensures 0 <= seed < ROLLS && exists next :: Links(drops, id, seed, next) && Trapped(drops, next)
  {
    TrapLeadsOn(drops, id);
    var seed, next :| 0 <= seed < ROLLS && Links(drops, id, seed, next) && Trapped(drops, next);
    seed
  }

  ghost function NextTrap(drops: map<int, Table>, id: int): (next: int)
    requires Trapped(drops, id)
    ensures Links(drops, id, TrapSeed(drops, id), next) && Trapped(drops, next)
  {
    var next :| Links(drops, id, TrapSeed(drops, id), next) && Trapped(drops, next);
    next
  }

  /** The table of the n-th draw on the way through the traps. */
  ghost function TrapPath(drops: map<int, Table>, id: int, n: nat): (t: int)
    requires Trapped(drops, id)
    ensures Trapped(drops, t)
  {
    if n == 0 then id else NextTrap(drops, TrapPath(drops, id, n - 1))
  }

  ghost function TrapSeeds(drops: map<int, Table>, id: int): (seeds: nat -> int)
    requires Trapped(drops, id)
    ensures Rolls(seeds) && forall n: nat :: seeds(n) == TrapSeed(drops, TrapPath(drops, id, n))
  {
    (n: nat) => TrapSeed(drops, TrapPath(drops, id, n))
  }

  /** The n-th roll leads along the path. */
  ghost predicate LeadsOn(drops: map<int, Table>, seeds: nat -> int, path: nat -> int, n: nat) {
    Links(drops, path(n), seeds(n), path(n + 1))
  }

  /** Along a path that always goes on, no number of draws ends the walk. */
  lemma {:induction false} PathNeverEnds(drops: map<int, Table>, seeds: nat -> int, path: nat -> int,
                                         itemID: int, n: nat, limit: nat)
    requires forall m: nat :: LeadsOn(drops, seeds, path, m)
    ensures Walk(drops, seeds, path(n), itemID, n, limit).Walking?
    decreases limit
  {
    assert LeadsOn(drops, seeds, path, n);
    if limit > 0 {
      WalkLink(drops, seeds, path(n), itemID, path(n + 1), n, limit);
      PathNeverEnds(drops, seeds, path, path(n + 1), n + 1, limit - 1);
    }
  }

  ghost predicate Endless(drops: map<int, Table>, seeds: nat -> int, id: int) {
    forall limit: nat :: Walk(drops, seeds, id, 0, 0, limit).Walking?
  }

  lemma TrapHolds(drops: map<int, Table>, id: int)
    requires Trapped(drops, id)
    ensures id in drops && Endless(drops, TrapSeeds(drops, id), id)
  {
    TrapLeadsOn(drops, id);
    var seeds := TrapSeeds(drops, id);
    ghost var path := (n: nat) => TrapPath(drops, id, n);
    forall n: nat ensures LeadsOn(drops, seeds, path, n) {
      assert path(n + 1) == NextTrap(drops, path(n));
    }
    forall limit: nat ensures Walk(drops, seeds, id, 0, 0, limit).Walking? {
      PathNeverEnds(drops, seeds, path, 0, 0, limit);
    }
  }

  /** Two tables that list each other, on rolls of zero. */
  lemma TwoTables(drops: map<int, Table>, seeds: nat -> int)
    requires drops == map[1 := Table([2], [500]), 2 := Table([1], [500])] && seeds == ((n: nat) => 0)
    ensures Rolls(seeds) && Endless(drops, seeds, 1)
  {
    var path := (n: nat) => if n % 2 == 0 then 1 else 2;
    forall n: nat ensures LeadsOn(drops, seeds, path, n) {
      assert Scan([500], 0) == 0;
    }
    forall limit: nat ensures Walk(drops, seeds, 1, 0, 0, limit).Walking? {
      PathNeverEnds(drops, seeds, path, 0, 0, limit);
    }
  }

  /** The least number of draws that is enough. */
  ghost function Height(drops: map<int, Table>, id: int, k: nat): (h: nat)
    requires Ends(drops, id, k)
    ensures Ends(drops, id, h) && forall j: nat :: j < h ==> !Ends(drops, id, j)
    decreases k
  {
    if k > 0 && Ends(drops, id, k - 1) then Height(drops, id, k - 1)
    else
      LeastIs(drops, id, k);
      k
  }

  lemma LeastIs(drops: map<int, Table>, id: int, k: nat)
    requires Ends(drops, id, k) && (k > 0 ==> !Ends(drops, id, k - 1))
    ensures forall j: nat :: j < k ==> !Ends(drops, id, j)
  {
    forall j: nat | j < k ensures !Ends(drops, id, j) {
      if Ends(drops, id, j) {
        EndsLater(drops, id, j, k - 1);
      }
    }
  }

  ghost function HeightOf(drops: map<int, Table>, id: int): (h: nat)
    requires !Trapped(drops, id)
    ensures Ends(drops, id, h) && forall j: nat :: j < h ==> !Ends(drops, id, j)
  {
    var k: nat :| Ends(drops, id, k);
    Height(drops, id, k)
  }

  /** Without a trap the heights rank the tables. */
  lemma HeightsRank(drops: map<int, Table>)
    requires forall id :: !Trapped(drops, id)
    ensures Acyclic(drops)
  {
    ghost var rank: int -> nat := (id: int) => HeightOf(drops, id);
    forall id, next | Drawable(drops, id, next) ensures rank(next) < rank(id) {
      var seed :| 0 <= seed < ROLLS && Links(drops, id, seed, next);
      assert Ends(drops, next, rank(id) - 1);
    }
    assert Ranked(drops, rank);
  }

  // ---------------------------------------------------------------- exactly when it ends

  ghost predicate AlwaysEnds(drops: map<int, Table>) {
    forall id, seeds: nat -> int :: id in drops && Rolls(seeds) ==> !Walk(drops, seeds, id, 0, 0, |drops|).Walking?
  }

  /** The box ends on every start and all rolls, and then within as many draws as there are tables,
      exactly when no chain of draws comes back to a table; otherwise some start and some rolls
      keep it going for ever. */
  lemma EndsIff(drops: map<int, Table>)
    ensures AlwaysEnds(drops) <==> Acyclic(drops)
    ensures !Acyclic(drops) <==>
            exists id, seeds: nat -> int :: id in drops && Rolls(seeds) && Endless(drops, seeds, id)
  {
    if Acyclic(drops) {
      forall id, seeds: nat -> int | id in drops && Rolls(seeds)
        ensures !Walk(drops, seeds, id, 0, 0, |drops|).Walking?
      {
        WalkEndsWithinTables(drops, seeds, id, 0);
      }
    } else {
      if forall id :: !Trapped(drops, id) {
        HeightsRank(drops);
      }
      var id :| Trapped(drops, id);
      TrapHolds(drops, id);
    }
  }

  // ---------------------------------------------------------------- on what it ends

  /** More draws allowed, same ending. */
  lemma {:induction false} WalkSettles(drops: map<int, Table>, seeds: nat -> int, id: int, itemID: int,
                                       n: nat, limit: nat, more: nat)
    requires limit <= more && !Walk(drops, seeds, id, itemID, n, limit).Walking?
    ensures Walk(drops, seeds, id, itemID, n, more) == Walk(drops, seeds, id, itemID, n, limit)
    decreases limit
  {
    if id in drops {
      var index := Scan(drops[id].probabilities, seeds(n));
      if index < |drops[id].items| {
        var next := drops[id].items[index];
        WalkSettles(drops, seeds, next, next, n + 1, limit - 1, more - 1);
      }
    }
  }

  /** Where a walk can stop: a landing is never on a table; a walk past the end leaves the id of
      the table it fell off, or nothing if that was the first one. */
  lemma {:induction false} StopsProperly(drops: map<int, Table>, seeds: nat -> int, id: int, itemID: int,
                                         n: nat, limit: nat)
    requires id in drops || itemID == id
    ensures match Walk(drops, seeds, id, itemID, n, limit)
            case Landed(x) => x !in drops
            case PastEnd(x) => x in drops || (x == itemID && id in drops)
            case Walking(t) => t in drops
    decreases limit
  {
    if id in drops && limit != 0 {
      var index := Scan(drops[id].probabilities, seeds(n));
      if index < |drops[id].items| {
        var next := drops[id].items[index];
        StopsProperly(drops, seeds, next, next, n + 1, limit - 1);
      }
    }
  }

  /** Some roll finds nothing in the table. */
  ghost predicate HasGap(drops: map<int, Table>, id: int) {
    id in drops && exists seed :: 0 <= seed < ROLLS && Scan(drops[id].probabilities, seed) >= |drops[id].items|
  }

  /** A table that some roll leads to and some roll falls off. */
  ghost predicate InnerGap(drops: map<int, Table>) {
    exists id, next :: Drawable(drops, id, next) && HasGap(drops, next)
  }

  ghost predicate EndsOnTable(drops: map<int, Table>, w: Walked) {
    !w.Walking? && w.itemID in drops
  }

  lemma {:induction false} TableFromGap(drops: map<int, Table>, seeds: nat -> int, id: int, itemID: int,
                                        n: nat, limit: nat)
    requires Rolls(seeds) && EndsOnTable(drops, Walk(drops, seeds, id, itemID, n, limit))
    requires itemID in drops ==> itemID == id && exists prev :: Drawable(drops, prev, id)
    ensures InnerGap(drops)
    decreases limit
  {
    if id in drops && limit > 0 {
      var index := Scan(drops[id].probabilities, seeds(n));
      if index >= |drops[id].items| {
        assert HasGap(drops, id);
      } else {
        var next := drops[id].items[index];
        assert Links(drops, id, seeds(n), next);
        assert next in drops ==> Drawable(drops, id, next);
        TableFromGap(drops, seeds, next, next, n + 1, limit - 1);
      }
    }
  }

  /** First one roll, then another for ever. */
  function Then(first: int, later: int): nat -> int {
    (n: nat) => if n == 0 then first else later
  }

  lemma GapGivesTable(drops: map<int, Table>, id: int, next: int) returns (seeds: nat -> int)
    requires Drawable(drops, id, next) && HasGap(drops, next)
    ensures Rolls(seeds) && id in drops && Walk(drops, seeds, id, 0, 0, 2) == PastEnd(next)
  {
    var first :| 0 <= first < ROLLS && Links(drops, id, first, next);
    var later :| 0 <= later < ROLLS && Scan(drops[next].probabilities, later) >= |drops[next].items|;
    seeds := Then(first, later);
    WalkLink(drops, seeds, id, 0, next, 0, 2);
  }

  /** Id 0 being no table, the box can end on the id of a table exactly when some table behind
      another has a gap. */
  lemma EndsOnTableIff(drops: map<int, Table>)
    requires 0 !in drops
    ensures InnerGap(drops) <==>
            exists id, seeds: nat -> int, limit: nat ::
              id in drops && Rolls(seeds) && EndsOnTable(drops, Walk(drops, seeds, id, 0, 0, limit))
  {
    forall id, seeds: nat -> int, limit: nat
      | id in drops && Rolls(seeds) && EndsOnTable(drops, Walk(drops, seeds, id, 0, 0, limit))
      ensures InnerGap(drops)
    {
      TableFromGap(drops, seeds, id, 0, 0, limit);
    }
    if InnerGap(drops) {
      var id, next :| Drawable(drops, id, next) && HasGap(drops, next);
      var seeds := GapGivesTable(drops, id, next);
      assert EndsOnTable(drops, Walk(drops, seeds, id, 0, 0, 2));
    }
  }

  // ---------------------------------------------------------------- the loop

  /** The loop of the fortune box, cut off after `limit` draws.  When no chain of draws comes back
      to a table, as many draws as there are tables are never cut off. */
  method FortuneWalk(drops: map<int, Table>, seeds: nat -> int, dropID: int, limit: nat) returns (w: Walked)
    ensures w == Walk(drops, seeds, dropID, 0, 0, limit)
    ensures Acyclic(drops) && Rolls(seeds) && limit >= |drops| ==> !w.Walking?
  {
    if Acyclic(drops) && Rolls(seeds) && limit >= |drops| {
      WalkEndsWithinTables(drops, seeds, dropID, 0);
      WalkSettles(drops, seeds, dropID, 0, 0, |drops|, limit);
    }
    var itemID, id := 0, dropID;
    for n := 0 to limit
      invariant Walk(drops, seeds, id, itemID, n, limit - n) == Walk(drops, seeds, dropID, 0, 0, limit)
    {
      if id !in drops {
        break;
      }
      var index := LinearScan(drops[id].probabilities, seeds(n));
      if index >= |drops[id].items| {
        return PastEnd(itemID);
      }
      itemID := drops[id].items[index];
      id := itemID;
    }
    w := if id in drops then Walking(id) else Landed(itemID);
  }
}
