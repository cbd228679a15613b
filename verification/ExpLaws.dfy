/** Levelling in plain numbers, for every kind of character: the caps, the level reached, and the
    points of all four sorts that one grant brings. */
module ExpLaws {
  import opened Prelude
  import opened Search
  import opened Experience

  /** The highest level of a kind. */
  function Cap(kind: int): int {
    if kind <= 59 then 100 else if kind <= 69 then 200 else 299
  }

  /** The first level from `level` on whose threshold exceeds the experience, or the cap. */
  ghost predicate Reaches(t: Levels, exp: int, level: int, reached: int, cap: int)
    requires 0 <= level && cap < 300
  {
    && level <= reached <= cap
    && (forall l :: level <= l < reached ==> t[l].exp <= exp)
    && (reached == cap || exp < t[reached].exp)
  }

  /** How many of the levels passed lie above 100 and up to 200. */
  function Middle(lo: int, hi: int): int {
    Max(Min(hi, 200) - Max(lo, 100), 0)
  }

  lemma {:induction false} ClimbIs(t: Levels, kind: int, exp: int, level: int)
    requires 0 <= level <= Cap(kind)
    ensures var r := Climb(t, kind, exp, level);
            && Reaches(t, exp, level, r.level, Cap(kind))
            && r.levelUp == (level < r.level)
            && r.statPoints == Awards(level, r.level) && r.skillPoints == SkillAwards(t, level, r.level)
            && r.naturePoints == 4 * Middle(level, r.level)
                                 + (if Cap(kind) == 200 == r.level && t[200].exp <= exp then 4 else 0)
    decreases 300 - level
  {
    if level < Cap(kind) && t[level].exp <= exp {
      ClimbIs(t, kind, exp, level + 1);
    }
  }

  /** A character above the cap of its kind is put back to it by any grant that would have raised it. */
  lemma AboveCap(t: Levels, kind: int, exp: int, level: int)
    requires Cap(kind) < level < 299
    ensures Climb(t, kind, exp, level).level == (if t[level].exp <= exp then Cap(kind) else level)
    ensures !Climb(t, kind, exp, level).levelUp
  {
  }

  /** Experience stops at 233,332,051,410 up to level 100 and at 544,951,059,310 up to level 200. */
  function Capped(exp: int, level: int): int {
    if level <= 100 then Min(exp, 233_332_051_410)
    else if level <= 200 then Min(exp, 544_951_059_310)
    else exp
  }

  /** One grant, for every kind: capped experience; the level it reaches; its awards for the levels
      passed; four nature points for each of them above 100 up to 200, and four more for running into the
      cap of 200; skill points by thresholds while the level stays below 101, by the level table above. */
  lemma GrantedIs(t: Levels, points: seq<int>, kind: int, p: Progress, gain: nat)
    requires 0 <= p.level <= Cap(kind) && 0 <= p.exp && p.exp + gain <= MAX_INT64
    ensures var exp, r := Capped(p.exp + gain, p.level), Granted(t, points, kind, p, gain);
            && r.exp == exp && Reaches(t, exp, p.level, r.level, Cap(kind))
            && r.statPoints == p.statPoints + Awards(p.level, r.level)
            && r.naturePoints == p.naturePoints + 4 * Middle(p.level, r.level)
                 + (if p.level < r.level == 200 == Cap(kind) && t[200].exp <= exp then 4 else 0)
            && r.skillPoints == p.skillPoints
                 + (if r.level < 101 then SkillIndex(points, exp) - SkillIndex(points, p.exp)
                    else SkillAwards(t, p.level, r.level))
  {
    ClimbIs(t, kind, Clamp(p.exp + gain, p.level), p.level);
  }

  lemma AwardsNext(level: int)
    requires 100 <= level
    ensures Awards(100, level + 1) == Awards(100, level) + StatAward(level + 1)
  {
    AwardsSplit(100, level, level + 1);
    assert Awards(level, level + 1) == StatAward(level + 1) + Awards(level + 1, level + 1);
  }

  /** Above level 100 each level brings three stat points, and one more beyond each of ten marks. */
  lemma {:induction false} AwardsAboveHundred(level: int)
    requires 100 <= level
    ensures Awards(100, level) ==
            3 * (level - 100) + Max(level - 115, 0) + Max(level - 130, 0) + Max(level - 145, 0)
            + Max(level - 160, 0) + Max(level - 175, 0) + Max(level - 190, 0) + Max(level - 201, 0)
            + Max(level - 210, 0) + Max(level - 220, 0) + Max(level - 240, 0)
  {
    if level > 100 {
      AwardsAboveHundred(level - 1);
      AwardsNext(level - 1);
    }
  }

  /** Up to level 100, from level 1, each level brings four points and one more for each ten. */
  lemma AwardsUpToHundred(level: int)
    requires 1 <= level <= 100
    ensures Awards(1, level) == Earned(level) - 4
    ensures level > 1 ==> Earned(level) - Earned(level - 1) == 4 + level / 10
  {
    EarnedIsAwards(level);
  }
}
