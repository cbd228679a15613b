/** Skill points in plain numbers: when a request takes effect, what it changes, what each level has
    cost in all, and what stepping up and down again leaves behind. */
module SkillLaws {
  import opened Prelude
  import opened SkillLedger

  /** One skill has another level, the points another value, and nothing else has changed. */
  ghost predicate OneChanged(s: State, r: State, i: int, j: int, plus: int, points: int)
    requires Present(s, i, j)
  {
    && r.points == points && |r.books[i]| == |s.books[i]|
    && r.books[i][j] == Skill(s.books[i][j].skillID, plus)
    && (forall l :: 0 <= l < |s.books[i]| && l != j ==> r.books[i][l] == s.books[i][l])
    && (forall k :: 0 <= k < 11 && k != i ==> r.books[k] == s.books[k])
  }

  /** A combat step up takes effect exactly below the skill's maximum and with the price in hand. */
  lemma UpIs(infos: Infos, s: State, i: int, j: int)
    requires Bounded(infos, s)
    ensures Step(infos, s, Up(i, j)) != s <==>
            && 0 <= i < 11 && 0 <= j < |s.books[i]| && s.books[i][j].skillID in infos
            && s.books[i][j].plus < infos[s.books[i][j].skillID]
            && s.points >= SkillPrice(s.books[i][j].skillID, s.books[i][j].plus)
    ensures Step(infos, s, Up(i, j)) != s ==>
              var x := s.books[i][j];
              OneChanged(s, Step(infos, s, Up(i, j)), i, j, x.plus + 1, s.points - SkillPrice(x.skillID, x.plus))
  {
    if 0 <= i < 11 && 0 <= j < |s.books[i]| && s.books[i][j].skillID in infos {
      Int8Small(s.books[i][j].plus);
      SetPlusIs(s, i, j, s.books[i][j].plus + 1, s.points - SkillPrice(s.books[i][j].skillID, s.books[i][j].plus));
    }
  }

  /** A combat step down takes effect exactly above level 0. */
  lemma DownIs(infos: Infos, s: State, i: int, j: int)
    requires Bounded(infos, s)
    ensures Step(infos, s, Down(i, j)) != s <==>
            && 0 <= i < 11 && 0 <= j < |s.books[i]| && s.books[i][j].skillID in infos && s.books[i][j].plus > 0
    ensures Step(infos, s, Down(i, j)) != s ==>
              var x := s.books[i][j];
              OneChanged(s, Step(infos, s, Down(i, j)), i, j, x.plus - 1, s.points + SkillRefund(x.skillID, x.plus))
  {
    if 0 <= i < 11 && 0 <= j < |s.books[i]| && s.books[i][j].skillID in infos {
      Int8Small(s.books[i][j].plus);
      SetPlusIs(s, i, j, s.books[i][j].plus - 1, s.points + SkillRefund(s.books[i][j].skillID, s.books[i][j].plus));
    }
  }

  /** A passive step up takes effect exactly below level 12 and, in a passive book, with the price in
      hand. */
  lemma UpPassiveIs(infos: Infos, s: State, i: int)
    ensures Step(infos, s, UpPassive(i)) != s <==>
            && 0 <= i < 11 && 0 < |s.books[i]| && s.books[i][0].plus < 12
            && (5 <= i <= 7 ==> s.points >= PassivePrice(i, s.books[i][0].plus))
    ensures Step(infos, s, UpPassive(i)) != s ==>
              var p := s.books[i][0].plus;
              OneChanged(s, Step(infos, s, UpPassive(i)), i, 0, p + 1, s.points - PassivePrice(i, p))
  {
    if 0 <= i < 11 && 0 < |s.books[i]| {
      SetPlusIs(s, i, 0, s.books[i][0].plus + 1, s.points - PassivePrice(i, s.books[i][0].plus));
    }
  }

  lemma DownPassiveIs(infos: Infos, s: State, i: int)
    ensures Step(infos, s, DownPassive(i)) != s <==> 0 <= i < 11 && 0 < |s.books[i]| && s.books[i][0].plus > 0
    ensures Step(infos, s, DownPassive(i)) != s ==>
              var p := s.books[i][0].plus;
              OneChanged(s, Step(infos, s, DownPassive(i)), i, 0, p - 1, s.points + PassiveRefund(i, p))
  {
    if 0 <= i < 11 && 0 < |s.books[i]| {
      SetPlusIs(s, i, 0, s.books[i][0].plus - 1, s.points + PassiveRefund(i, s.books[i][0].plus));
    }
  }

  lemma Int8Small(plus: int)
    ensures 0 <= plus <= 127 ==> Int8(plus) == plus
  {
  }

  lemma SetPlusIs(s: State, i: int, j: int, plus: int, points: int)
    requires Present(s, i, j)
    ensures OneChanged(s, SetPlus(s, i, j, plus, points), i, j, plus, points)
    ensures plus != s.books[i][j].plus ==> SetPlus(s, i, j, plus, points) != s
  {
    var r := SetPlus(s, i, j, plus, points);
    assert r.books[i][j] == Skill(s.books[i][j].skillID, plus);
  }

  // ---------------------------------------------------------------- what levels cost

  predicate JobSkill(skillID: int) {
    28000 <= skillID <= 28007 || 29000 <= skillID <= 29007 || 20193 <= skillID <= 20217
  }

  /** What all levels of a job skill up to each of the first nineteen have cost. */
  const JOB_TOTALS: seq<int> := [0, 1, 3, 6, 9, 13, 18, 24, 31, 39, 49, 61, 75, 92, 113, 138, 168, 204, 247, 299]
  const FIRST_TOTALS: seq<int> := [0, 1, 2, 3, 5, 8, 12, 18, 27, 41, 62, 93, 140]
  const RUNNING_TOTALS: seq<int> := [0, 3, 5, 8, 12, 18, 27, 41, 62, 93, 140, 210, 315]

  lemma {:induction false} JobSkillCosts(i: int, skillID: int, n: nat)
    requires !(5 <= i <= 7) && JobSkill(skillID) && n <= 19
    ensures Held(i, skillID, n) == JOB_TOTALS[n]
  {
    if n > 0 {
      JobSkillCosts(i, skillID, n - 1);
      assert forall k :: 0 <= k < 19 ==> JOB_TOTALS[k + 1] == JOB_TOTALS[k] + JOB[k];
      assert Lookup(JOB, n - 1) == JOB[n - 1];
    }
  }

  /** Then the steps cost 62, from level 30 on 94, and so on by tens up to level 100; the second-job
      skills cost nothing beyond level 50. */
  lemma {:induction false} HighCosts(i: int, skillID: int, n: nat)
    requires !(5 <= i <= 7) && JobSkill(skillID) && 19 <= n <= 100
    ensures var m := if 28000 <= skillID <= 28007 then Min(n, 50) else n;
            Held(i, skillID, n) ==
            299 + 62 * (m - 19) + 32 * Max(m - 30, 0) + 22 * Max(m - 40, 0) + 22 * Max(m - 50, 0)
            + 22 * Max(m - 60, 0) + 38 * Max(m - 70, 0) + 42 * Max(m - 80, 0) + 55 * Max(m - 90, 0)
  {
    if n == 19 {
      JobSkillCosts(i, skillID, 19);
    } else {
      HighCosts(i, skillID, n - 1);
    }
  }

  /** Every other skill costs one point a level. */
  lemma {:induction false} OrdinaryCosts(i: int, skillID: int, n: nat)
    requires !(5 <= i <= 7) && !JobSkill(skillID)
    ensures Held(i, skillID, n) == n
  {
    if n > 0 {
      OrdinaryCosts(i, skillID, n - 1);
    }
  }

  lemma {:induction false} PassiveCosts(i: int, skillID: int, n: nat)
    requires 5 <= i <= 7 && n <= 12
    ensures Held(i, skillID, n) == if i == 7 then RUNNING_TOTALS[n] else FIRST_TOTALS[n]
  {
    if n > 0 {
      PassiveCosts(i, skillID, n - 1);
      assert forall k :: 0 <= k < 12 ==> FIRST_TOTALS[k + 1] == FIRST_TOTALS[k] + FJP[k];
      assert forall k :: 0 <= k < 12 ==> RUNNING_TOTALS[k + 1] == RUNNING_TOTALS[k] + WD[k];
      assert Lookup(FJP, n - 1) == FJP[n - 1] && Lookup(WD, n - 1) == WD[n - 1];
    }
  }

  // ---------------------------------------------------------------- up and down again

  /** A combat step up and down again leaves everything as it was, but for darkness skills: these
      give back the price of the next step instead. */
  lemma UpThenDown(infos: Infos, s: State, i: int, j: int)
    requires Bounded(infos, s) && Step(infos, s, Up(i, j)) != s
    ensures var x, r := s.books[i][j], Step(infos, Step(infos, s, Up(i, j)), Down(i, j));
            && r.books == s.books
            && r.points == s.points + (if 20193 <= x.skillID <= 20217 then Dsjp(x.plus + 1) - Dsjp(x.plus) else 0)
  {
    var x, s1 := s.books[i][j], Step(infos, s, Up(i, j));
    UpIs(infos, s, i, j);
    Int8Small(x.plus + 1);
    var r := Step(infos, s1, Down(i, j));
    assert s1.books[i] == s.books[i][j := x.(plus := x.plus + 1)];
    assert r.books[i] == s.books[i];
  }

  /** A passive step up and down again is free for the first passive book only: the second gives
      nothing back, and running gives back the price of the next step, of which the last has none. */
  lemma UpThenDownPassive(infos: Infos, s: State, i: int)
    requires 5 <= i <= 7 && Step(infos, s, UpPassive(i)) != s && 0 <= s.books[i][0].plus
    ensures var p, r := s.books[i][0].plus, Step(infos, Step(infos, s, UpPassive(i)), DownPassive(i));
            && r.books == s.books && p < 12
            && r.points == s.points + (if i == 5 then 0 else if i == 6 then -FJP[p]
                                       else if p < 11 then WD[p + 1] - WD[p] else -105)
  {
    var x, s1 := s.books[i][0], Step(infos, s, UpPassive(i));
    var r := Step(infos, s1, DownPassive(i));
    assert s1.books[i] == s.books[i][0 := x.(plus := x.plus + 1)];
    assert r.books[i] == s.books[i];
  }
}
