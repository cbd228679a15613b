/** The great war: capture stones with hysteresis, and the score loop. */
module War {
  import opened Prelude
  import opened Slices

  /** `owner` is 0 for nobody, 1 for Zhuang, 2 for Shao; `value` leans to 0 for Zhuang. */
  datatype Stone = Stone(value: int, owner: int, zhuang: seq<int>, shao: seq<int>)

  datatype Majority = Zhuang | Shao | Tie

  function MajorityOf(s: Stone): Majority {
    if |s.zhuang| > |s.shao| then Zhuang else if |s.shao| > |s.zhuang| then Shao else Tie
  }

  // ---------------------------------------------------------------- one stone

  /** Value and owner after one second. */
  function Turn(s: Stone, m: Majority): Stone {
    match m
    case Zhuang =>
      var v := if s.value > 0 then s.value - 1 else s.value;
      s.(value := v, owner := if 0 <= v <= 30 then 1 else if v > 170 then 0 else s.owner)
    case Shao =>
      var v := if s.value < 200 then s.value + 1 else s.value;
      s.(value := v, owner := if 170 <= v <= 200 then 2 else if v < 30 then 0 else s.owner)
    case Tie => s
  }

  function Turns(s: Stone, ms: seq<Majority>): Stone
    decreases |ms|
  {
    if ms == [] then s else Turns(Turn(s, ms[0]), ms[1..])
  }

  /** Holds after a reset (value 0) and after the server start (value 100). */
  predicate StoneOk(s: Stone) {
    && 0 <= s.value <= 200
    && 0 <= s.owner <= 2
    && (s.owner == 1 ==> s.value < 170)
    && (s.owner == 2 ==> s.value > 30)
  }

  lemma {:induction false} StoneStaysOk(s: Stone, ms: seq<Majority>)
    requires StoneOk(s)
    ensures StoneOk(Turns(s, ms))
    decreases |ms|
  {
    if ms != [] {
      StoneStaysOk(Turn(s, ms[0]), ms[1..]);
    }
  }

  function Sustained(m: Majority, n: nat): seq<Majority> {
    seq(n, i => m)
  }

  /** Turns under one lasting majority, the last one outermost. */
  function Held(s: Stone, m: Majority, n: nat): Stone {
    if n == 0 then s else Turn(Held(s, m, n - 1), m)
  }

  lemma {:induction false} HeldIsTurns(s: Stone, m: Majority, n: nat)
    ensures Held(s, m, n) == Turns(s, Sustained(m, n))
    decreases n
  {
    if n > 0 {
      HeldIsTurns(Turn(s, m), m, n - 1);
      HeldFirst(s, m, n - 1);
      assert Sustained(m, n)[1..] == Sustained(m, n - 1);
    }
  }

  lemma {:induction false} HeldFirst(s: Stone, m: Majority, n: nat)
    ensures Held(s, m, n + 1) == Held(Turn(s, m), m, n)
  {
    if n > 0 {
      HeldFirst(s, m, n - 1);
    }
  }

  lemma {:induction false} ZhuangValue(s: Stone, n: nat)
    requires StoneOk(s)
    ensures StoneOk(Held(s, Zhuang, n)) && Held(s, Zhuang, n).value == Max(s.value - n, 0)
  {
    if n > 0 {
      ZhuangValue(s, n - 1);
    }
  }

  /** A stone that is not theirs falls to a lasting Zhuang majority after exactly
      max(1, value - 30) seconds, and stays theirs from then on. */
  lemma {:induction false} ZhuangTakes(s: Stone, n: nat)
    requires StoneOk(s) && s.owner != 1
    ensures Held(s, Zhuang, n).owner == 1 <==> n >= Max(1, s.value - 30)
  {
    if n > 0 {
      ZhuangTakes(s, n - 1);
      ZhuangValue(s, n - 1);
    }
  }

  lemma {:induction false} ShaoValue(s: Stone, n: nat)
    requires StoneOk(s)
    ensures StoneOk(Held(s, Shao, n)) && Held(s, Shao, n).value == Min(s.value + n, 200)
  {
    if n > 0 {
      ShaoValue(s, n - 1);
    }
  }

  /** And to a lasting Shao majority after exactly max(1, 170 - value) seconds. */
  lemma {:induction false} ShaoTakes(s: Stone, n: nat)
    requires StoneOk(s) && s.owner != 2
    ensures Held(s, Shao, n).owner == 2 <==> n >= Max(1, 170 - s.value)
  {
    if n > 0 {
      ShaoTakes(s, n - 1);
      ShaoValue(s, n - 1);
    }
  }

  /** An owner keeps the stone while its majority lasts. */
  lemma {:induction false} OwnerKeeps(s: Stone, n: nat)
    requires StoneOk(s)
    ensures s.owner == 1 ==> Held(s, Zhuang, n).owner == 1
    ensures s.owner == 2 ==> Held(s, Shao, n).owner == 2
  {
    if n > 0 {
      OwnerKeeps(s, n - 1);
      ZhuangValue(s, n - 1);
      ShaoValue(s, n - 1);
    }
  }

  /** Hysteresis: an owner is lost to the other side's majority exactly when the value enters
      the other side's band, or leaves its own below 30 (above 170) without having crossed over. */
  lemma LosesOwner(s: Stone)
    requires StoneOk(s)
    ensures s.owner == 1 ==> (Turn(s, Shao).owner != 1 <==> s.value + 1 < 30 || s.value + 1 == 170)
    ensures s.owner == 2 ==> (Turn(s, Zhuang).owner != 2 <==> s.value - 1 > 170 || s.value - 1 == 30)
  {
  }

  // ---------------------------------------------------------------- crowds

  /** A player of a faction comes into sight of the stone, or goes out of sight. */
  datatype Sighting = Appear(id: int, faction: int) | Vanish(id: int, faction: int)

  function RemoveFirst(xs: seq<int>, id: int): seq<int> {
    if xs == [] then [] else if xs[0] == id then xs[1..] else [xs[0]] + RemoveFirst(xs[1..], id)
  }

  lemma {:induction false} RemoveFirstTakesOne(xs: seq<int>, id: int)
    ensures multiset(RemoveFirst(xs, id)) == multiset(xs) - multiset{id}
  {
    if xs != [] {
      assert xs == [xs[0]] + xs[1..];
      if xs[0] != id {
        RemoveFirstTakesOne(xs[1..], id);
      }
    }
  }

  function Sighted(s: Stone, e: Sighting): Stone {
    match e
    case Appear(id, faction) =>
      if faction == 1 then (if Member(Ints(s.zhuang), Int(id)) then s else s.(zhuang := s.zhuang + [id]))
      else if Member(Ints(s.shao), Int(id)) then s else s.(shao := s.shao + [id])
    case Vanish(id, faction) =>
      if faction == 1 then (if Member(Ints(s.zhuang), Int(id)) then s.(zhuang := RemoveFirst(s.zhuang, id)) else s)
      else if Member(Ints(s.shao), Int(id)) then s.(shao := RemoveFirst(s.shao, id)) else s
  }

  function SightedAll(s: Stone, es: seq<Sighting>): Stone {
    if es == [] then s else Sighted(SightedAll(s, es[..|es| - 1]), es[|es| - 1])
  }

  function Appearances(es: seq<Sighting>, zhuang: bool): nat {
    if es == [] then 0
    else Appearances(es[..|es| - 1], zhuang)
         + (if es[|es| - 1].Appear? && (es[|es| - 1].faction == 1) == zhuang then 1 else 0)
  }

  /** Crowds are `[]int`, so the membership test fails and a crowd is as long as the number of
      appearances since the reset, departures and repeats included: the majority is that of
      sightings, not of players present. */
  lemma {:induction false} CrowdsCountAppearances(s: Stone, es: seq<Sighting>)
    ensures |SightedAll(s, es).zhuang| == |s.zhuang| + Appearances(es, true)
    ensures |SightedAll(s, es).shao| == |s.shao| + Appearances(es, false)
    ensures SightedAll(s, es).value == s.value && SightedAll(s, es).owner == s.owner
  {
    if es != [] {
      CrowdsCountAppearances(s, es[..|es| - 1]);
    }
  }

  // ---------------------------------------------------------------- the score

  function Owned(stones: seq<Stone>, side: int): nat {
    if stones == [] then 0 else (if stones[0].owner == side then 1 else 0) + Owned(stones[1..], side)
  }

  lemma {:induction false} OwnedBounds(stones: seq<Stone>)
    ensures Owned(stones, 1) + Owned(stones, 2) <= |stones|
  {
    if stones != [] {
      OwnedBounds(stones[1..]);
    }
  }

  function Owners(stones: seq<Stone>): seq<int> {
    seq(|stones|, i requires 0 <= i < |stones| => stones[i].owner)
  }

  /** How often a side occurs among the owners. */
  function Holdings(stones: seq<Stone>, side: int): nat {
    multiset(Owners(stones))[side]
  }

  lemma {:induction false} OwnedCounts(stones: seq<Stone>, side: int)
    ensures Owned(stones, side) == Holdings(stones, side)
  {
    if stones != [] {
      OwnedCounts(stones[1..], side);
      assert Owners(stones) == [stones[0].owner] + Owners(stones[1..]);
    }
  }

  ghost predicate StonesOk(stones: seq<Stone>) {
    forall i :: 0 <= i < |stones| ==> StoneOk(stones[i])
  }

  /** The crowds at the stones second by second, as the sight scans leave them. */
  type Crowds = nat -> seq<(seq<int>, seq<int>)>

  function Gathered(stones: seq<Stone>, crowd: seq<(seq<int>, seq<int>)>): (r: seq<Stone>)
    ensures |r| == |stones|
    ensures forall i :: 0 <= i < |stones| ==> r[i].owner == stones[i].owner && r[i].value == stones[i].value
  {
    seq(|stones|, i requires 0 <= i < |stones| =>
      if i < |crowd| then stones[i].(zhuang := crowd[i].0, shao := crowd[i].1) else stones[i])
  }

  datatype Score = Score(order: int, shao: int, stones: seq<Stone>)

  predicate Over(w: Score) {
    w.order <= 0 || w.shao <= 0
  }

  /** One second: the owned stones cost the other side two points each, then the stones turn. */
  function Second(w: Score, crowd: seq<(seq<int>, seq<int>)>): Score {
    var stones := Gathered(w.stones, crowd);
    Score(w.order - 2 * Owned(w.stones, 2), w.shao - 2 * Owned(w.stones, 1),
          seq(|stones|, i requires 0 <= i < |stones| => Turn(stones[i], MajorityOf(stones[i]))))
  }

  /** The score after at most `left` seconds from second `now`. */
  function Played(w: Score, crowds: Crowds, now: nat, left: nat): Score
    decreases left
  {
    if left == 0 || Over(w) then w else Played(Second(w, crowds(now)), crowds, now + 1, left - 1)
  }

  /** Seconds actually played. */
  function Length(w: Score, crowds: Crowds, now: nat, left: nat): nat
    decreases left
  {
    if left == 0 || Over(w) then 0 else 1 + Length(Second(w, crowds(now)), crowds, now + 1, left - 1)
  }

  lemma SecondKeepsStones(w: Score, crowd: seq<(seq<int>, seq<int>)>)
    requires StonesOk(w.stones)
    ensures StonesOk(Second(w, crowd).stones) && |Second(w, crowd).stones| == |w.stones|
  {
    var g := Gathered(w.stones, crowd);
    forall i | 0 <= i < |g| ensures StoneOk(Turn(g[i], MajorityOf(g[i]))) {
      assert StoneOk(w.stones[i]);
    }
  }

  /** Neither score ever rises, and a war without kills ends with neither below 1 - 2 |stones|. */
  lemma {:induction false} ScoreBounds(w: Score, crowds: Crowds, now: nat, left: nat)
    requires StonesOk(w.stones)
    requires w.order >= 1 - 2 * |w.stones| && w.shao >= 1 - 2 * |w.stones|
    ensures var e := Played(w, crowds, now, left);
            && |e.stones| == |w.stones| && StonesOk(e.stones)
            && 1 - 2 * |w.stones| <= e.order <= w.order
            && 1 - 2 * |w.stones| <= e.shao <= w.shao
    decreases left
  {
    if left > 0 && !Over(w) {
      OwnedBounds(w.stones);
      SecondKeepsStones(w, crowds(now));
      ScoreBounds(Second(w, crowds(now)), crowds, now + 1, left - 1);
    }
  }

  /** Seconds over which a side owns some stone throughout. */
  ghost predicate AlwaysOwns(w: Score, crowds: Crowds, now: nat, left: nat, side: int)
    decreases left
  {
    left > 0 && !Over(w) ==>
      Owned(w.stones, side) > 0 && AlwaysOwns(Second(w, crowds(now)), crowds, now + 1, left - 1, side)
  }

  /** A side that always owns a stone finishes the other within half its score, rounded up. */
  lemma {:induction false} SteadyOwnerWins(w: Score, crowds: Crowds, now: nat, left: nat)
    requires AlwaysOwns(w, crowds, now, left, 1)
    ensures w.shao > 0 ==> Length(w, crowds, now, left) <= (w.shao + 1) / 2
    ensures w.shao > 0 && left >= (w.shao + 1) / 2 ==> Over(Played(w, crowds, now, left))
    decreases left
  {
    if left > 0 && !Over(w) {
      SteadyOwnerWins(Second(w, crowds(now)), crowds, now + 1, left - 1);
    }
  }

  lemma {:induction false} SteadyShaoWins(w: Score, crowds: Crowds, now: nat, left: nat)
    requires AlwaysOwns(w, crowds, now, left, 2)
    ensures w.order > 0 ==> Length(w, crowds, now, left) <= (w.order + 1) / 2
    ensures w.order > 0 && left >= (w.order + 1) / 2 ==> Over(Played(w, crowds, now, left))
    decreases left
  {
    if left > 0 && !Over(w) {
      SteadyShaoWins(Second(w, crowds(now)), crowds, now + 1, left - 1);
    }
  }

  // ---------------------------------------------------------------- who moves a stone

  /** While the war goes on and more Zhuang than Shao are counted at a stone, its value falls by one
      a second down to zero; if it was not theirs it becomes so after exactly max(1, value - 30)
      seconds, and if it was it stays so. */
  lemma {:induction false} ZhuangCrowdWins(w: Score, crowds: Crowds, now: nat, n: nat, i: nat)
    requires StonesOk(w.stones) && i < |w.stones| && Length(w, crowds, now, n) == n
    requires forall t :: now <= t < now + n ==> i < |crowds(t)| && |crowds(t)[i].0| > |crowds(t)[i].1|
    ensures var v, s := w.stones[i].value, Played(w, crowds, now, n).stones;
            && |s| == |w.stones| && s[i].value == Max(v - n, 0)
            && (w.stones[i].owner == 1 ==> s[i].owner == 1)
            && (w.stones[i].owner != 1 ==> (s[i].owner == 1 <==> n >= Max(1, v - 30)))
    decreases n
  {
    if n > 0 {
      SecondKeepsStones(w, crowds(now));
      ZhuangCrowdWins(Second(w, crowds(now)), crowds, now + 1, n - 1, i);
    }
  }

  /** And more Shao push it up to 200, and take it after exactly max(1, 170 - value) seconds. */
  lemma {:induction false} ShaoCrowdWins(w: Score, crowds: Crowds, now: nat, n: nat, i: nat)
    requires StonesOk(w.stones) && i < |w.stones| && Length(w, crowds, now, n) == n
    requires forall t :: now <= t < now + n ==> i < |crowds(t)| && |crowds(t)[i].1| > |crowds(t)[i].0|
    ensures var v, s := w.stones[i].value, Played(w, crowds, now, n).stones;
            && |s| == |w.stones| && s[i].value == Min(v + n, 200)
            && (w.stones[i].owner == 2 ==> s[i].owner == 2)
            && (w.stones[i].owner != 2 ==> (s[i].owner == 2 <==> n >= Max(1, 170 - v)))
    decreases n
  {
    if n > 0 {
      SecondKeepsStones(w, crowds(now));
      ShaoCrowdWins(Second(w, crowds(now)), crowds, now + 1, n - 1, i);
    }
  }

  /** Equal crowds leave it alone. */
  lemma {:induction false} EqualCrowdsRest(w: Score, crowds: Crowds, now: nat, n: nat, i: nat)
    requires i < |w.stones| && Length(w, crowds, now, n) == n
    requires forall t :: now <= t < now + n ==> i < |crowds(t)| && |crowds(t)[i].0| == |crowds(t)[i].1|
    ensures var s := Played(w, crowds, now, n).stones;
            |s| == |w.stones| && s[i].value == w.stones[i].value && s[i].owner == w.stones[i].owner
    decreases n
  {
    if n > 0 {
      EqualCrowdsRest(Second(w, crowds(now)), crowds, now + 1, n - 1, i);
    }
  }

  /** Over those seconds each side pays two points a second for every stone of the other. */
  lemma SecondCharges(w: Score, crowds: Crowds, now: nat)
    requires Length(w, crowds, now, 1) == 1
    ensures var e := Played(w, crowds, now, 1);
            && e.order == w.order - 2 * Holdings(w.stones, 2)
            && e.shao == w.shao - 2 * Holdings(w.stones, 1)
  {
    OwnedCounts(w.stones, 1);
    OwnedCounts(w.stones, 2);
    assert Played(w, crowds, now, 1) == Played(Second(w, crowds(now)), crowds, now + 1, 0);
  }

  // ---------------------------------------------------------------- the object

  class Battle {
    var orderPoints: int
    var shaoPoints: int
    var stones: seq<Stone>
    var started: bool

    constructor (stones: seq<Stone>)
      ensures this.stones == stones && !started
    {
      orderPoints, shaoPoints, this.stones, started := 10000, 10000, stones, false;
    }

    function Current(): Score
      reads this
    {
      Score(orderPoints, shaoPoints, stones)
    }

    /** Clears scores, values, owners and crowds. */
    method Reset()
      modifies this
      ensures orderPoints == shaoPoints == 10000 && |stones| == |old(stones)| && StonesOk(stones)
      ensures forall i :: 0 <= i < |stones| ==> stones[i] == Stone(0, 0, [], [])
    {
      orderPoints, shaoPoints := 10000, 10000;
      for i := 0 to |stones|
        invariant |stones| == |old(stones)|
        invariant orderPoints == shaoPoints == 10000
        invariant forall j :: 0 <= j < i ==> stones[j] == Stone(0, 0, [], [])
      {
        stones := stones[i := Stone(0, 0, [], [])];
      }
    }

    /** The loop over the remaining seconds; each second lowers both scores and turns the stones. */
    method StartInWarTimer(seconds: nat, crowds: Crowds) returns (ticks: nat)
      requires StonesOk(stones)
      modifies this
      ensures Current() == Played(old(Current()), crowds, 0, seconds)
      ensures ticks == Length(old(Current()), crowds, 0, seconds) <= seconds
      ensures !started
    {
      var remaining := seconds;
      ticks := 0;
      while !(remaining <= 0 || orderPoints <= 0 || shaoPoints <= 0)
        invariant 0 <= remaining <= seconds && ticks == seconds - remaining
        invariant Played(old(Current()), crowds, 0, seconds) == Played(Current(), crowds, ticks, remaining)
        invariant Length(old(Current()), crowds, 0, seconds) == ticks + Length(Current(), crowds, ticks, remaining)
        decreases remaining
      {
        Tick(crowds(ticks));
        remaining := remaining - 1;
        ticks := ticks + 1;
      }
      started := false;
    }

    method Tick(crowd: seq<(seq<int>, seq<int>)>)
      modifies this`orderPoints, this`shaoPoints, this`stones
      ensures Current() == Second(old(Current()), crowd)
    {
      Charge();
      stones := Gathered(stones, crowd);
      TurnStones();
    }

    method Charge()
      modifies this`orderPoints, this`shaoPoints
      ensures orderPoints == old(orderPoints) - 2 * Owned(stones, 2)
      ensures shaoPoints == old(shaoPoints) - 2 * Owned(stones, 1)
      ensures orderPoints == old(orderPoints) - 2 * Holdings(stones, 2)
      ensures shaoPoints == old(shaoPoints) - 2 * Holdings(stones, 1)
      ensures orderPoints + shaoPoints == old(orderPoints + shaoPoints) - 2 * (Owned(stones, 1) + Owned(stones, 2))
    {
      for i := 0 to |stones|
        invariant orderPoints - 2 * Owned(stones[i..], 2) == old(orderPoints) - 2 * Owned(stones, 2)
        invariant shaoPoints - 2 * Owned(stones[i..], 1) == old(shaoPoints) - 2 * Owned(stones, 1)
      {
        assert stones[i..][1..] == stones[i + 1..];
        if stones[i].owner == 1 {
          shaoPoints := shaoPoints - 2;
        } else if stones[i].owner == 2 {
          orderPoints := orderPoints - 2;
        }
      }
      OwnedCounts(stones, 1);
      OwnedCounts(stones, 2);
    }

    method TurnStones()
      modifies this`stones
      ensures |stones| == |old(stones)|
      ensures forall i :: 0 <= i < |stones| ==> stones[i] == Turn(old(stones)[i], MajorityOf(old(stones)[i]))
      ensures forall i :: 0 <= i < |stones| ==>
                var s, r := old(stones)[i], stones[i];
                && r.zhuang == s.zhuang && r.shao == s.shao
                && (|s.zhuang| > |s.shao| ==> r.value == if s.value > 0 then s.value - 1 else s.value)
                && (|s.shao| > |s.zhuang| ==> r.value == if s.value < 200 then s.value + 1 else s.value)
                && (|s.zhuang| == |s.shao| ==> r == s)
    {
      for i := 0 to |stones|
        invariant |stones| == |old(stones)|
        invariant forall j :: 0 <= j < i ==> stones[j] == Turn(old(stones)[j], MajorityOf(old(stones)[j]))
        invariant forall j :: i <= j < |stones| ==> stones[j] == old(stones)[j]
      {
        var s := stones[i];
        if |s.zhuang| > |s.shao| {
          if s.value > 0 {
            s := s.(value := s.value - 1);
          }
          if s.value >= 0 && s.value <= 30 {
            s := s.(owner := 1);
          } else if s.value > 170 {
            s := s.(owner := 0);
          }
        } else if |s.shao| > |s.zhuang| {
          if s.value < 200 {
            s := s.(value := s.value + 1);
          }
          if s.value >= 170 && s.value <= 200 {
            s := s.(owner := 2);
          } else if s.value < 30 {
            s := s.(owner := 0);
          }
        }
        stones := stones[i := s];
      }
    }

    method RemoveZhuang(k: nat, id: int)
      requires k < |stones|
      modifies this`stones
      ensures stones == old(stones)[k := old(stones)[k].(zhuang := RemoveFirst(old(stones)[k].zhuang, id))]
    {
      var crowd := RemoveEntry(stones[k].zhuang, id);
      stones := stones[k := stones[k].(zhuang := crowd)];
    }

    method RemoveShao(k: nat, id: int)
      requires k < |stones|
      modifies this`stones
      ensures stones == old(stones)[k := old(stones)[k].(shao := RemoveFirst(old(stones)[k].shao, id))]
    {
      var crowd := RemoveEntry(stones[k].shao, id);
      stones := stones[k := stones[k].(shao := crowd)];
    }
  }

  /** Takes the first entry of a player out of a crowd. */
  method RemoveEntry(crowd: seq<int>, id: int) returns (r: seq<int>)
    ensures r == RemoveFirst(crowd, id)
  {
    for i := 0 to |crowd|
      invariant RemoveFirst(crowd, id) == crowd[..i] + RemoveFirst(crowd[i..], id)
    {
      var rest := crowd[i..];
      assert rest[1..] == crowd[i + 1..];
      if crowd[i] == id {
        return crowd[..i] + crowd[i + 1..];
      }
      assert RemoveFirst(rest, id) == [crowd[i]] + RemoveFirst(crowd[i + 1..], id);
    }
    assert crowd[|crowd|..] == [];
    return crowd;
  }
}
