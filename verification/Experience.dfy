/** Levelling: the experience loop, its awards, and the closed form that resets stat points. */
module Experience {
  import opened Prelude
  import opened Search

  /** One row of the level table: the experience that ends the level, and its skill points. */
  datatype ExpRow = ExpRow(exp: int, skillPoints: int)

  type Levels = t: seq<ExpRow> | |t| == 300 witness seq(300, i => ExpRow(0, 0))

  datatype Progress = Progress(exp: int, level: int, statPoints: int, naturePoints: int, skillPoints: int)

  const FIRST_CAP: int := 233332051410
  const SECOND_CAP: int := 544951059310

  function Wrap64(x: int): int {
    (x + MAX_INT64 + 1) % TWO_64 - MAX_INT64 - 1
  }

  function Clamp(exp: int, level: int): int {
    var first := if exp > FIRST_CAP && level <= 100 then FIRST_CAP else exp;
    if first > SECOND_CAP && level <= 200 then SECOND_CAP else first
  }

  /** `utils.SearchUInt64`: how many thresholds the experience has passed. */
  function SkillIndex(points: seq<int>, exp: int): nat {
    Bisect(Above(points, exp), 0, |points|)
  }

  function Above(points: seq<int>, exp: int): nat -> bool {
    (k: nat) => k < |points| && points[k] > exp % TWO_64
  }

  /** Stat points for reaching a level. */
  function StatAward(level: int): int {
    if level <= 100 then level / 10 + 4
    else if level <= 115 then 3
    else if level <= 130 then 4
    else if level <= 145 then 5
    else if level <= 160 then 6
    else if level <= 175 then 7
    else if level <= 190 then 8
    else if level <= 201 then 9
    else if level <= 210 then 10
    else if level <= 220 then 11
    else if level <= 240 then 12
    else 13
  }

  /** Nature points credited in an iteration that ends at a level. */
  function NatureAward(level: int): int {
    if 101 <= level < 201 then 4 else 0
  }

  datatype Climbed = Climbed(level: int, skillPoints: int, statPoints: int, naturePoints: int, levelUp: bool)

  /** What the levelling loop does from a level on. */
  function Climb(t: Levels, kind: int, exp: int, level: int): (r: Climbed)
    requires 0 <= level < 300
    ensures 0 <= r.level < 300
    decreases 300 - level
  {
    if exp < t[level].exp || level >= 299 then Climbed(level, 0, 0, 0, false)
    else if kind <= 59 && level >= 100 then Climbed(100, 0, 0, NatureAward(100), false)
    else if kind <= 69 && level >= 200 then Climbed(200, 0, 0, NatureAward(200), false)
    else
      var rest := Climb(t, kind, exp, level + 1);
      Climbed(rest.level,
              rest.skillPoints + t[level + 1].skillPoints,
              rest.statPoints + StatAward(level + 1),
              rest.naturePoints + NatureAward(level + 1),
              true)
  }

  /** The answer says whether the level rose. */
  lemma {:induction false} RaisesIffUp(t: Levels, kind: int, exp: int, level: int)
    requires 0 <= level < 300
    ensures Climb(t, kind, exp, level).levelUp <==> level < Climb(t, kind, exp, level).level
    decreases 300 - level
  {
    if exp >= t[level].exp && level < 299 && !(kind <= 59 && level >= 100) && !(kind <= 69 && level >= 200) {
      RaisesIffUp(t, kind, exp, level + 1);
    }
  }

  /** The progress after one grant of already scaled experience. */
  function Granted(t: Levels, points: seq<int>, kind: int, p: Progress, gain: int): Progress
    requires 0 <= p.level < 300
  {
    var exp := Clamp(Wrap64(p.exp + gain), p.level);
    var c := Climb(t, kind, exp, p.level);
    Progress(exp, c.level,
             p.statPoints + (if c.levelUp then c.statPoints else 0),
             p.naturePoints + (if c.levelUp then c.naturePoints else 0),
             p.skillPoints + (if c.level < 101 then SkillIndex(points, exp) - SkillIndex(points, p.exp)
                              else c.skillPoints))
  }

  class Player {
    const kind: int
    const levels: Levels
    const points: seq<int>
    var active: bool
    var exp: int
    var level: int
    var statPoints: int
    var naturePoints: int
    var skillPoints: int

    constructor (kind: int, levels: Levels, points: seq<int>)
      ensures Current() == Progress(0, 1, 4, 0, 0) && active
      ensures this.kind == kind && this.levels == levels && this.points == points
    {
      this.kind, this.levels, this.points := kind, levels, points;
      active, exp, level, statPoints, naturePoints, skillPoints := true, 0, 1, 4, 0, 0;
    }

    function Current(): Progress
      reads this
    {
      Progress(exp, level, statPoints, naturePoints, skillPoints)
    }

    method AddExp(gain: int) returns (levelUp: bool)
      requires 0 <= level < 300
      modifies this
      ensures active == old(active)
      ensures Current() == if active then Granted(levels, points, kind, old(Current()), gain) else old(Current())
      ensures levelUp <==> active && old(level) < level
      ensures 0 <= level < 300
    {
      if !active {
        return false;
      }
      var newExp := Wrap64(exp + gain);
      var spIndex: int := BinarySearch(|points|, Above(points, exp));
      newExp := CapExp(newExp);
      exp := newExp;
      var spIndex2: int := BinarySearch(|points|, Above(points, exp));

      var c := LevelLoop(newExp);
      RaisesIffUp(levels, kind, newExp, level);
      level := c.level;
      skillPoints := skillPoints + (if level < 101 then spIndex2 - spIndex else c.skillPoints);
      levelUp := c.levelUp;
      if levelUp {
        statPoints := statPoints + c.statPoints;
        naturePoints := naturePoints + c.naturePoints;
      }
    }

    method CapExp(newExp: int) returns (r: int)
      ensures r == Clamp(newExp, level)
    {
      r := newExp;
      if r > FIRST_CAP && level <= 100 {
        r := FIRST_CAP;
      }
      if r > SECOND_CAP && level <= 200 {
        r := SECOND_CAP;
      }
    }

    method LevelLoop(newExp: int) returns (c: Climbed)
      requires 0 <= level < 300
      ensures c == Climb(levels, kind, newExp, level)
    {
      var l, target, levelUp := level, levels[level].exp, false;
      var skPts: int, sp: int, np: int, canLevelUp := 0, 0, 0, true;
      while newExp >= target && l < 299 && canLevelUp
        invariant 0 <= l < 300
        invariant canLevelUp ==> target == levels[l].exp
        invariant canLevelUp ==>
          var rest := Climb(levels, kind, newExp, l);
          Climb(levels, kind, newExp, level) ==
          Climbed(rest.level, skPts + rest.skillPoints, sp + rest.statPoints,
                  np + rest.naturePoints, levelUp || rest.levelUp)
        invariant !canLevelUp ==> Climb(levels, kind, newExp, level) == Climbed(l, skPts, sp, np, levelUp)
        decreases canLevelUp, 300 - l
      {
        if kind <= 59 && l >= 100 {
          l := 100;
          canLevelUp := false;
        } else if kind <= 69 && l >= 200 {
          l := 200;
          canLevelUp := false;
        } else {
          l := l + 1;
          skPts := skPts + levels[l].skillPoints;
          sp := sp + StatAward(l);
          target := levels[l].exp;
          levelUp := true;
        }
        if l >= 101 && l < 201 {
          np := np + 4;
        }
      }
      c := Climbed(l, skPts, sp, np, levelUp);
    }

    /** Sets the points to what the level should have earned, short by ten awards when the
        level ends in nine. */
    method Reset()
      requires 1 <= level
      modifies this`statPoints
      ensures statPoints == Earned(level) - (if level % 10 == 9 then 10 * (level / 10 + 4) else 0)
    {
      var tens := level / 10;
      var statPts := (((tens + 3) * (tens + 4) / 2) - 6) * 10 - 4;
      statPts := statPts + (tens + 4) * ((level + 1) % 10);
      statPoints := statPts;
      ClosedForm(level);
    }
  }

  // ---------------------------------------------------------------- the loop's answer

  /** For a first-class character the loop stops at the least level whose threshold exceeds
      the experience, capped at 100, and awards exactly the levels passed. */
  lemma {:induction false} ClimbFindsLevel(t: Levels, kind: int, exp: int, level: int)
    requires kind <= 59 && 0 <= level <= 100
    ensures var r := Climb(t, kind, exp, level);
            && level <= r.level <= 100
            && (forall l :: level <= l < r.level ==> t[l].exp <= exp)
            && (r.level == 100 || exp < t[r.level].exp)
            && r.statPoints == Awards(level, r.level)
            && r.naturePoints == 0
            && r.levelUp == (level < r.level)
    decreases 100 - level
  {
    if level < 100 && exp >= t[level].exp {
      ClimbFindsLevel(t, kind, exp, level + 1);
    }
  }

  /** Stat points for going from one level to another. */
  function Awards(lo: int, hi: int): int
    decreases hi - lo
  {
    if lo >= hi then 0 else StatAward(lo + 1) + Awards(lo + 1, hi)
  }

  lemma {:induction false} AwardsSplit(lo: int, mid: int, hi: int)
    requires lo <= mid <= hi
    ensures Awards(lo, hi) == Awards(lo, mid) + Awards(mid, hi)
    decreases mid - lo
  {
    if lo < mid {
      AwardsSplit(lo + 1, mid, hi);
    }
  }

  // ---------------------------------------------------------------- path independence

  ghost predicate FirstClass(kind: int, p: Progress) {
    kind <= 59 && 0 <= p.level <= 100 && 0 <= p.exp
  }

  lemma GrantStaysFirstClass(t: Levels, points: seq<int>, kind: int, p: Progress, gain: nat)
    requires FirstClass(kind, p) && p.exp + gain <= MAX_INT64
    ensures var q := Granted(t, points, kind, p, gain);
            FirstClass(kind, q) && q.exp == Min(p.exp + gain, FIRST_CAP) && p.level <= q.level
  {
    ClimbFindsLevel(t, kind, Clamp(p.exp + gain, p.level), p.level);
  }

  /** A first-class grant in full: capped experience, the level it reaches, the awards of the
      levels passed, and the skill points of the thresholds passed. */
  lemma GrantIs(t: Levels, points: seq<int>, kind: int, p: Progress, gain: nat)
    requires FirstClass(kind, p) && p.exp + gain <= MAX_INT64
    ensures var exp := Min(p.exp + gain, FIRST_CAP);
            var level := Climb(t, kind, exp, p.level).level;
            && p.level <= level <= 100
            && Granted(t, points, kind, p, gain) ==
               Progress(exp, level, p.statPoints + Awards(p.level, level), p.naturePoints,
                        p.skillPoints + SkillIndex(points, exp) - SkillIndex(points, p.exp))
  {
    ClimbFindsLevel(t, kind, Clamp(p.exp + gain, p.level), p.level);
  }

  /** Two grants equal one grant of their sum, for every level and skill table. */
  lemma GrantTwice(t: Levels, points: seq<int>, kind: int, p: Progress, a: nat, b: nat)
    requires FirstClass(kind, p) && p.exp + a + b <= MAX_INT64
    ensures 0 <= Granted(t, points, kind, p, a).level < 300
    ensures Granted(t, points, kind, Granted(t, points, kind, p, a), b) == Granted(t, points, kind, p, a + b)
  {
    GrantIs(t, points, kind, p, a);
    GrantIs(t, points, kind, p, a + b);
    var q := Granted(t, points, kind, p, a);
    GrantIs(t, points, kind, q, b);
    var e1, e2 := Min(p.exp + a, FIRST_CAP), Min(p.exp + a + b, FIRST_CAP);
    SameClimb(t, kind, e1, e2, p.level);
    AwardsSplit(p.level, q.level, Climb(t, kind, e2, q.level).level);
  }

  /** Climbing with more experience passes through every level the lesser climb reaches. */
  lemma SameClimb(t: Levels, kind: int, e1: int, e2: int, level: int)
    requires kind <= 59 && 0 <= level <= 100 && e1 <= e2
    ensures 0 <= Climb(t, kind, e1, level).level <= 100
    ensures Climb(t, kind, e2, level).level == Climb(t, kind, e2, Climb(t, kind, e1, level).level).level
    decreases 100 - level
  {
    ClimbFindsLevel(t, kind, e1, level);
    if level < 100 && e1 >= t[level].exp {
      SameClimb(t, kind, e1, e2, level + 1);
    }
  }

  function Sum(xs: seq<nat>): nat {
    if xs == [] then 0 else xs[0] + Sum(xs[1..])
  }

  function GrantedAll(t: Levels, points: seq<int>, kind: int, p: Progress, gains: seq<nat>): Progress
    requires FirstClass(kind, p) && p.exp + Sum(gains) <= MAX_INT64
    decreases |gains|
  {
    if gains == [] then p
    else
      GrantStaysFirstClass(t, points, kind, p, gains[0]);
      GrantedAll(t, points, kind, Granted(t, points, kind, p, gains[0]), gains[1..])
  }

  /** However a total is split into grants, the character ends up the same. */
  lemma {:induction false} PathIndependence(t: Levels, points: seq<int>, kind: int, p: Progress, gains: seq<nat>)
    requires FirstClass(kind, p) && p.exp + Sum(gains) <= MAX_INT64 && gains != []
    ensures GrantedAll(t, points, kind, p, gains) == Granted(t, points, kind, p, Sum(gains))
    decreases |gains|
  {
    var q := Granted(t, points, kind, p, gains[0]);
    GrantStaysFirstClass(t, points, kind, p, gains[0]);
    if |gains| > 1 {
      PathIndependence(t, points, kind, q, gains[1..]);
      GrantTwice(t, points, kind, p, gains[0], Sum(gains[1..]));
    } else {
      assert gains[1..] == [];
    }
  }

  // ---------------------------------------------------------------- beyond level 100

  ghost predicate SecondClass(kind: int, p: Progress) {
    60 <= kind <= 69 && 101 <= p.level <= 200 && 0 <= p.exp
  }

  /** Skill points for going from one level to another, from the level table. */
  function SkillAwards(t: Levels, lo: int, hi: int): int
    requires 0 <= lo && hi < 300
    decreases hi - lo
  {
    if lo >= hi then 0 else t[lo + 1].skillPoints + SkillAwards(t, lo + 1, hi)
  }

  lemma {:induction false} SkillAwardsSplit(t: Levels, lo: int, mid: int, hi: int)
    requires 0 <= lo <= mid <= hi < 300
    ensures SkillAwards(t, lo, hi) == SkillAwards(t, lo, mid) + SkillAwards(t, mid, hi)
    decreases mid - lo
  {
    if lo < mid {
      SkillAwardsSplit(t, lo + 1, mid, hi);
    }
  }

  /** Four nature points a level, and four more for the iteration that runs into the cap. */
  function NatureGain(t: Levels, lo: int, hi: int, exp: int): int {
    if lo == hi then 0 else 4 * (hi - lo) + (if hi == 200 && exp >= t[200].exp then 4 else 0)
  }

  lemma {:induction false} ClimbSecondClass(t: Levels, kind: int, exp: int, level: int)
    requires 60 <= kind <= 69 && 101 <= level <= 200
    ensures var r := Climb(t, kind, exp, level);
            && level <= r.level <= 200
            && (forall l :: level <= l < r.level ==> t[l].exp <= exp)
            && (r.level == 200 || exp < t[r.level].exp)
            && r.statPoints == Awards(level, r.level)
            && r.skillPoints == SkillAwards(t, level, r.level)
            && r.levelUp == (level < r.level)
            && (r.levelUp ==> r.naturePoints == NatureGain(t, level, r.level, exp))
    decreases 200 - level
  {
    if level < 200 && exp >= t[level].exp {
      ClimbSecondClass(t, kind, exp, level + 1);
    }
  }

  lemma SecondGrantIs(t: Levels, points: seq<int>, kind: int, p: Progress, gain: nat)
    requires SecondClass(kind, p) && p.exp + gain <= MAX_INT64
    ensures var exp := Min(p.exp + gain, SECOND_CAP);
            var level := Climb(t, kind, exp, p.level).level;
            && p.level <= level <= 200
            && (forall l :: p.level <= l < level ==> t[l].exp <= exp)
            && (level == 200 || exp < t[level].exp)
            && Granted(t, points, kind, p, gain) ==
               Progress(exp, level, p.statPoints + Awards(p.level, level),
                        p.naturePoints + NatureGain(t, p.level, level, exp),
                        p.skillPoints + SkillAwards(t, p.level, level))
  {
    ClimbSecondClass(t, kind, Clamp(p.exp + gain, p.level), p.level);
  }

  lemma {:induction false} SameSecondClimb(t: Levels, kind: int, e1: int, e2: int, level: int)
    requires 60 <= kind <= 69 && 101 <= level <= 200 && e1 <= e2
    ensures Climb(t, kind, e2, level).level == Climb(t, kind, e2, Climb(t, kind, e1, level).level).level
    decreases 200 - level
  {
    if level < 200 && e1 >= t[level].exp {
      SameSecondClimb(t, kind, e1, e2, level + 1);
    }
  }

  /** The first part of a split takes the character to level 200 below its threshold, and the
      whole passes that threshold. */
  predicate SplitsAtCap(t: Levels, p: Progress, a: nat, b: nat)
    requires 0 <= p.level
  {
    && p.level < 200
    && (forall l :: p.level <= l < 200 ==> t[l].exp <= Min(p.exp + a, SECOND_CAP))
    && Min(p.exp + a, SECOND_CAP) < t[200].exp <= Min(p.exp + a + b, SECOND_CAP)
  }

  /** Between levels 101 and 200 two grants equal one in experience, level, stat and skill points;
      in nature points exactly unless the split falls at the cap: then the single grant is worth
      four more. */
  lemma SecondGrantTwice(t: Levels, points: seq<int>, kind: int, p: Progress, a: nat, b: nat)
    requires SecondClass(kind, p) && p.exp + a + b <= MAX_INT64
    ensures 0 <= Granted(t, points, kind, p, a).level < 300
    ensures var q := Granted(t, points, kind, p, a);
            var r, s := Granted(t, points, kind, p, a + b), Granted(t, points, kind, q, b);
            s == r.(naturePoints := r.naturePoints - (if SplitsAtCap(t, p, a, b) then 4 else 0))
  {
    SecondGrantIs(t, points, kind, p, a);
    SecondGrantIs(t, points, kind, p, a + b);
    var q, r := Granted(t, points, kind, p, a), Granted(t, points, kind, p, a + b);
    SecondGrantIs(t, points, kind, q, b);
    var s := Granted(t, points, kind, q, b);
    SameSecondClimb(t, kind, q.exp, r.exp, p.level);
    AwardsSplit(p.level, q.level, r.level);
    SkillAwardsSplit(t, p.level, q.level, r.level);
  }

  lemma {:induction false} ClimbStaysUnder(t: Levels, kind: int, exp: int, level: int)
    requires 60 <= kind <= 69 && 0 <= level <= 200
    ensures level <= Climb(t, kind, exp, level).level <= 200
    decreases 200 - level
  {
    if level < 200 && exp >= t[level].exp {
      ClimbStaysUnder(t, kind, exp, level + 1);
    }
  }

  lemma ExpIs(t: Levels, points: seq<int>, kind: int, p: Progress, gain: nat)
    requires 60 <= kind <= 69 && 0 <= p.level <= 200 && 0 <= p.exp && p.exp + gain <= MAX_INT64
    ensures var exp := Min(p.exp + gain, if p.level <= 100 then FIRST_CAP else SECOND_CAP);
            && Granted(t, points, kind, p, gain).exp == exp
            && 0 <= Granted(t, points, kind, p, gain).level == Climb(t, kind, exp, p.level).level <= 200
  {
    ClimbStaysUnder(t, kind, Clamp(p.exp + gain, p.level), p.level);
  }

  lemma {:induction false} ClimbStopsBy(t: Levels, kind: int, exp: int, level: int, m: int)
    requires 60 <= kind <= 69 && 0 <= level <= m < 200
    ensures Climb(t, kind, exp, level).level <= m <==> exists l :: level <= l <= m && exp < t[l].exp
    decreases m - level
  {
    ClimbStaysUnder(t, kind, exp, level);
    if exp >= t[level].exp {
      ClimbStaysUnder(t, kind, exp, level + 1);
      if level < m {
        ClimbStopsBy(t, kind, exp, level + 1, m);
      }
    }
  }

  /** Across level 100 the cap of the lower levels is applied before the climb, so splitting a
      total keeps the experience exactly when the second part is nothing, the total stays under
      that cap, or the first part stays below some threshold up to that of level 100. */
  lemma CrossingIff(t: Levels, points: seq<int>, kind: int, p: Progress, a: nat, b: nat)
    requires 60 <= kind <= 69 && 0 <= p.level <= 100 && 0 <= p.exp && p.exp + a + b <= MAX_INT64
    ensures 0 <= Granted(t, points, kind, p, a).level < 300
    ensures var q := Granted(t, points, kind, p, a);
            Granted(t, points, kind, q, b).exp == Granted(t, points, kind, p, a + b).exp
            <==> || b == 0
                 || p.exp + a + b <= FIRST_CAP
                 || exists l :: p.level <= l <= 100 && Min(p.exp + a, FIRST_CAP) < t[l].exp
  {
    ClimbStopsBy(t, kind, Min(p.exp + a, FIRST_CAP), p.level, 100);
    ExpIs(t, points, kind, p, a);
    ExpIs(t, points, kind, p, a + b);
    ExpIs(t, points, kind, Granted(t, points, kind, p, a), b);
  }

  /** With sorted thresholds the skill index counts the thresholds reached. */
  lemma SkillIndexCounts(points: seq<int>, exp: int)
    requires forall i, j :: 0 <= i <= j < |points| ==> points[i] <= points[j]
    requires 0 <= exp < TWO_64
    ensures forall k :: 0 <= k < |points| ==> (k < SkillIndex(points, exp) <==> points[k] <= exp)
    ensures SkillIndex(points, exp) <= |points|
  {
    var f := Above(points, exp);
    BisectFindsFirst(f, 0, |points|, |points|);
    forall k: nat | k < |points| ensures k < SkillIndex(points, exp) <==> points[k] <= exp {
      assert f(k) <==> points[k] > exp;
    }
  }

  // ---------------------------------------------------------------- the closed form

  /** Points a character should have: 4 at level 1, and the award of each level gained. */
  function Earned(level: int): int {
    if level <= 1 then 4 else Earned(level - 1) + level / 10 + 4
  }

  /** `Stat.Reset`. */
  function ResetPoints(level: int): int {
    Closed(level / 10, (level + 1) % 10)
  }

  function Closed(tens: int, ones: int): int {
    (((tens + 3) * (tens + 4) / 2) - 6) * 10 - 4 + (tens + 4) * ones
  }

  lemma Half(p: int, k: int)
    ensures (p + 2 * k) / 2 == p / 2 + k
  {
  }

  lemma NextDecade(t: int)
    requires t >= 0
    ensures Closed(t + 1, 1) == Closed(t, 0) + 10 * (t + 4) + (t + 5)
  {
    var p := (t + 3) * (t + 4);
    assert (t + 4) * (t + 5) == p + 2 * (t + 4);
    Half(p, t + 4);
    assert Closed(t, 0) == (p / 2 - 6) * 10 - 4;
    assert Closed(t + 1, 1) == ((p + 2 * (t + 4)) / 2 - 6) * 10 - 4 + (t + 5);
  }

  lemma NextUnit(t: int, ones: int)
    ensures Closed(t, ones + 1) == Closed(t, ones) + (t + 4)
  {
    assert (t + 4) * (ones + 1) == (t + 4) * ones + (t + 4);
  }

  lemma NinthUnit(t: int)
    ensures Closed(t, 9) == Closed(t, 0) + 9 * (t + 4)
  {
  }

  lemma {:induction false} ClosedFormByDecade(t: int, unit: int)
    requires t >= 0 && 0 <= unit < 10 && 10 * t + unit >= 1
    ensures Earned(10 * t + unit) == if unit == 9 then Closed(t, 0) + 10 * (t + 4) else Closed(t, unit + 1)
    decreases t, unit
  {
    if t == 0 && unit == 1 {
      assert Closed(0, 2) == 4;
    } else if unit == 0 {
      ClosedFormByDecade(t - 1, 9);
      NextDecade(t - 1);
      assert (10 * t) / 10 == t;
    } else {
      ClosedFormByDecade(t, unit - 1);
      assert (10 * t + unit) / 10 == t;
      if unit == 9 {
        NinthUnit(t);
      } else {
        NextUnit(t, unit);
      }
    }
  }

  lemma Ones(level: int)
    ensures (level + 1) % 10 == if level % 10 == 9 then 0 else level % 10 + 1
  {
  }

  lemma ResetByDecade(level: int)
    ensures ResetPoints(level) == if level % 10 == 9 then Closed(level / 10, 0)
                                  else Closed(level / 10, level % 10 + 1)
  {
    Ones(level);
  }

  /** At every level the closed form is the earned total, except that it is short by ten awards
      when the level ends in nine. */
  lemma ClosedForm(level: int)
    requires level >= 1
    ensures Earned(level) == ResetPoints(level) + (if level % 10 == 9 then 10 * (level / 10 + 4) else 0)
  {
    var t, unit := level / 10, level % 10;
    assert level == 10 * t + unit;
    ClosedFormByDecade(t, unit);
    ResetByDecade(level);
  }

  lemma {:induction false} EarnedIsAwards(level: int)
    requires 1 <= level <= 100
    ensures Earned(level) == 4 + Awards(1, level)
  {
    if level > 1 {
      EarnedIsAwards(level - 1);
      AwardsSplit(1, level - 1, level);
      assert Awards(level - 1, level) == StatAward(level);
    }
  }

  /** From creation on, unspent points are exactly what the level has earned; so a reset is
      neutral exactly when the level does not end in nine. */
  lemma ResetAgreesIff(t: Levels, points: seq<int>, kind: int, gains: seq<nat>)
    requires kind <= 59 && Sum(gains) <= MAX_INT64
    ensures var p := GrantedAll(t, points, kind, Progress(0, 1, 4, 0, 0), gains);
            && 1 <= p.level <= 100
            && p.statPoints == Earned(p.level)
            && (p.statPoints == ResetPoints(p.level) <==> p.level % 10 != 9)
  {
    var start := Progress(0, 1, 4, 0, 0);
    if gains != [] {
      PathIndependence(t, points, kind, start, gains);
      GrantStaysFirstClass(t, points, kind, start, Sum(gains));
      ClimbFindsLevel(t, kind, Clamp(Sum(gains), 1), 1);
    }
    var level := GrantedAll(t, points, kind, start, gains).level;
    EarnedIsAwards(level);
    ClosedForm(level);
  }
}
