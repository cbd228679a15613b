/** Skill points against the levels they bought: upgrades, downgrades and their price tables. */
module SkillLedger {
  import opened Prelude

  datatype Skill = Skill(skillID: int, plus: int)

  /** Books 0 to 4 hold combat skills, 5 and 6 first-job passives, 7 running. */
  type Books = b: seq<seq<Skill>> | |b| == 11 witness seq(11, i => [])

  datatype State = State(points: int, books: Books)

  /** Skill id to its maximal level, an int8.  Passive books hold item ids, which have no row. */
  type Infos = map<int, int>

  // ---------------------------------------------------------------- price tables

  const FJP: seq<int> := [1, 1, 1, 2, 3, 4, 6, 9, 14, 21, 31, 47]
  const WD: seq<int> := [3, 2, 3, 4, 6, 9, 14, 21, 31, 47, 70, 105]
  const JOB: seq<int> := [1, 2, 3, 3, 4, 5, 6, 7, 8, 10, 12, 14, 17, 21, 25, 30, 36, 43, 52]

  /** A Go map answers 0 for a missing key. */
  function Lookup(t: seq<int>, k: int): int {
    if 0 <= k < |t| then t[k] else 0
  }

  /** The divine table: single steps, then plateaus of ten. */
  function Dsjp(k: int): int {
    if k < 19 then Lookup(JOB, k)
    else if k < 30 then 62
    else if k < 40 then 94
    else if k < 50 then 116
    else if k < 60 then 138
    else if k < 70 then 160
    else if k < 80 then 198
    else if k < 90 then 240
    else if k < 100 then 295
    else 0
  }

  /** The second-job table is the first half of the divine one. */
  function Sjp(k: int): int {
    if k < 50 then Dsjp(k) else 0
  }

  predicate IsDarkness(skillID: int) {
    20193 <= skillID <= 20217
  }

  /** Price of the step from `plus` to `plus + 1` of a combat skill. */
  function SkillPrice(skillID: int, plus: int): int {
    if 28000 <= skillID <= 28007 then Sjp(plus)
    else if 29000 <= skillID <= 29007 then Dsjp(plus)
    else if IsDarkness(skillID) then Dsjp(plus)
    else 1
  }

  /** Points given back for the step down from `plus`. */
  function SkillRefund(skillID: int, plus: int): int {
    if 28000 <= skillID <= 28007 && plus > 0 then Sjp(plus - 1)
    else if 29000 <= skillID <= 29007 && plus > 0 then Dsjp(plus - 1)
    else if IsDarkness(skillID) then Dsjp(plus)
    else 1
  }

  function PassivePrice(i: int, plus: int): int {
    if i == 5 || i == 6 then Lookup(FJP, plus) else if i == 7 then Lookup(WD, plus) else 0
  }

  function PassiveRefund(i: int, plus: int): int {
    if i == 5 && plus > 0 then Lookup(FJP, plus - 1)
    else if i == 7 && plus > 0 then Lookup(WD, plus)
    else 0
  }

  predicate IsPassive(i: int) {
    5 <= i <= 7
  }

  /** What a level is worth in a given book: the price of the step that bought it. */
  function StepWorth(i: int, skillID: int, plus: int): int {
    if IsPassive(i) then PassivePrice(i, plus) else SkillPrice(skillID, plus)
  }

  lemma PricesNonNegative(i: int, skillID: int, plus: int)
    ensures 0 <= SkillPrice(skillID, plus) && 0 <= SkillRefund(skillID, plus)
    ensures 0 <= PassivePrice(i, plus) && 0 <= PassiveRefund(i, plus)
  {
    TablesNonNegative();
  }

  lemma TablesNonNegative()
    ensures forall k :: 0 <= Lookup(FJP, k)
    ensures forall k :: 0 <= Lookup(WD, k)
    ensures forall k :: 0 <= Lookup(JOB, k)
  {
    assert forall k :: 0 <= k < 12 ==> 0 <= FJP[k];
    assert forall k :: 0 <= k < 12 ==> 0 <= WD[k];
    assert forall k :: 0 <= k < 19 ==> 0 <= JOB[k];
  }

  // ---------------------------------------------------------------- requests

  datatype Request = Up(i: int, j: int) | Down(i: int, j: int) | UpPassive(i: int) | DownPassive(i: int)

  function Int8(x: int): int {
    (x + 128) % 256 - 128
  }

  predicate Present(s: State, i: int, j: int) {
    0 <= i < 11 && 0 <= j < |s.books[i]|
  }

  function SetPlus(s: State, i: int, j: int, plus: int, points: int): State
    requires Present(s, i, j)
  {
    State(points, s.books[i := s.books[i][j := s.books[i][j].(plus := plus)]])
  }

  /** Refused and crashing requests leave the state as it is. */
  function Step(infos: Infos, s: State, r: Request): State {
    match r
    case Up(i, j) =>
      if !Present(s, i, j) || s.books[i][j].skillID !in infos then s
      else
        var x := s.books[i][j];
        var price := SkillPrice(x.skillID, x.plus);
        if Int8(x.plus) >= infos[x.skillID] || s.points < price then s
        else SetPlus(s, i, j, x.plus + 1, s.points - price)
    case Down(i, j) =>
      if !Present(s, i, j) || s.books[i][j].skillID !in infos then s
      else
        var x := s.books[i][j];
        if Int8(x.plus) <= 0 then s
        else SetPlus(s, i, j, x.plus - 1, s.points + SkillRefund(x.skillID, x.plus))
    case UpPassive(i) =>
      if !Present(s, i, 0) then s
      else
        var x := s.books[i][0];
        if x.plus >= 12 || (IsPassive(i) && s.points < PassivePrice(i, x.plus)) then s
        else SetPlus(s, i, 0, x.plus + 1, s.points - PassivePrice(i, x.plus))
    case DownPassive(i) =>
      if !Present(s, i, 0) then s
      else
        var x := s.books[i][0];
        if x.plus <= 0 then s
        else SetPlus(s, i, 0, x.plus - 1, s.points + PassiveRefund(i, x.plus))
  }

  function Run(infos: Infos, s: State, rs: seq<Request>): State
    decreases |rs|
  {
    if rs == [] then s else Run(infos, Step(infos, s, rs[0]), rs[1..])
  }

  // ---------------------------------------------------------------- the ledger

  /** Worth of all levels of one skill. */
  function Held(i: int, skillID: int, plus: int): int
    decreases plus
  {
    if plus <= 0 then 0 else Held(i, skillID, plus - 1) + StepWorth(i, skillID, plus - 1)
  }

  function BookWorth(i: int, skills: seq<Skill>): int {
    if skills == [] then 0
    else Held(i, skills[0].skillID, skills[0].plus) + BookWorth(i, skills[1..])
  }

  function BooksWorth(books: seq<seq<Skill>>, i: nat): int
    requires i <= |books|
    decreases |books| - i
  {
    if i == |books| then 0 else BookWorth(i, books[i]) + BooksWorth(books, i + 1)
  }

  /** Points in hand plus the worth of every level held. */
  function Ledger(s: State): int {
    s.points + BooksWorth(s.books, 0)
  }

  lemma {:induction false} BookUpdate(i: int, skills: seq<Skill>, j: nat, x: Skill)
    requires j < |skills|
    ensures BookWorth(i, skills[j := x]) == BookWorth(i, skills)
              - Held(i, skills[j].skillID, skills[j].plus) + Held(i, x.skillID, x.plus)
  {
    if j == 0 {
      assert skills[j := x][1..] == skills[1..];
    } else {
      assert skills[j := x][1..] == skills[1..][j - 1 := x];
      BookUpdate(i, skills[1..], j - 1, x);
    }
  }

  lemma {:induction false} BooksUpdate(books: seq<seq<Skill>>, k: nat, i: nat, skills: seq<Skill>)
    requires k <= |books| && i < |books|
    ensures BooksWorth(books[i := skills], k) ==
            BooksWorth(books, k) + (if k <= i then BookWorth(i, skills) - BookWorth(i, books[i]) else 0)
    decreases |books| - k
  {
    if k < |books| {
      BooksUpdate(books, k + 1, i, skills);
    }
  }

  lemma LedgerAfter(s: State, i: int, j: int, plus: int, points: int)
    requires Present(s, i, j)
    ensures Ledger(SetPlus(s, i, j, plus, points)) == Ledger(s) + points - s.points
              + Held(i, s.books[i][j].skillID, plus) - Held(i, s.books[i][j].skillID, s.books[i][j].plus)
  {
    var x := s.books[i][j];
    BookUpdate(i, s.books[i], j, x.(plus := plus));
    BooksUpdate(s.books, 0, i, s.books[i][j := x.(plus := plus)]);
  }

  /** Points created (or, negative, lost) by a request that takes effect. */
  function Drift(infos: Infos, s: State, r: Request): int {
    if Step(infos, s, r) == s then 0
    else
      match r
      case Up(i, j) =>
        var x := s.books[i][j];
        StepWorth(i, x.skillID, x.plus) - SkillPrice(x.skillID, x.plus)
      case Down(i, j) =>
        var x := s.books[i][j];
        SkillRefund(x.skillID, x.plus) - StepWorth(i, x.skillID, x.plus - 1)
      case UpPassive(i) =>
        var x := s.books[i][0];
        StepWorth(i, x.skillID, x.plus) - PassivePrice(i, x.plus)
      case DownPassive(i) =>
        var x := s.books[i][0];
        PassiveRefund(i, x.plus) - StepWorth(i, x.skillID, x.plus - 1)
  }

  ghost predicate Grounded(s: State) {
    forall i, j :: 0 <= i < 11 && 0 <= j < |s.books[i]| ==> 0 <= s.books[i][j].plus
  }

  /** Every request, of any kind, moves the ledger by exactly its drift. */
  lemma StepLedger(infos: Infos, s: State, r: Request)
    requires Grounded(s)
    ensures Ledger(Step(infos, s, r)) == Ledger(s) + Drift(infos, s, r)
    ensures Grounded(Step(infos, s, r))
  {
    if Step(infos, s, r) != s {
      match r
      case Up(i, j) => UpLedger(infos, s, i, j);
      case Down(i, j) => DownLedger(infos, s, i, j);
      case UpPassive(i) => UpPassiveLedger(infos, s, i);
      case DownPassive(i) => DownPassiveLedger(infos, s, i);
    }
  }

  lemma UpPassiveLedger(infos: Infos, s: State, i: int)
    requires Grounded(s) && Step(infos, s, UpPassive(i)) != s
    ensures Ledger(Step(infos, s, UpPassive(i))) == Ledger(s) + Drift(infos, s, UpPassive(i))
    ensures Grounded(Step(infos, s, UpPassive(i)))
  {
    var x := s.books[i][0];
    LedgerAfter(s, i, 0, x.plus + 1, s.points - PassivePrice(i, x.plus));
  }

  lemma DownPassiveLedger(infos: Infos, s: State, i: int)
    requires Grounded(s) && Step(infos, s, DownPassive(i)) != s
    ensures Ledger(Step(infos, s, DownPassive(i))) == Ledger(s) + Drift(infos, s, DownPassive(i))
    ensures Grounded(Step(infos, s, DownPassive(i)))
  {
    var x := s.books[i][0];
    LedgerAfter(s, i, 0, x.plus - 1, s.points + PassiveRefund(i, x.plus));
  }

  lemma UpLedger(infos: Infos, s: State, i: int, j: int)
    requires Grounded(s) && Step(infos, s, Up(i, j)) != s
    ensures Ledger(Step(infos, s, Up(i, j))) == Ledger(s) + Drift(infos, s, Up(i, j))
    ensures Grounded(Step(infos, s, Up(i, j)))
  {
    var x := s.books[i][j];
    LedgerAfter(s, i, j, x.plus + 1, s.points - SkillPrice(x.skillID, x.plus));
  }

  lemma DownLedger(infos: Infos, s: State, i: int, j: int)
    requires Grounded(s) && Step(infos, s, Down(i, j)) != s
    ensures Ledger(Step(infos, s, Down(i, j))) == Ledger(s) + Drift(infos, s, Down(i, j))
    ensures Grounded(Step(infos, s, Down(i, j)))
  {
    var x := s.books[i][j];
    LedgerAfter(s, i, j, x.plus - 1, s.points + SkillRefund(x.skillID, x.plus));
  }

  // ---------------------------------------------------------------- what conserves

  /** The item ids in passive books are not skill ids, so combat requests crash on them. */
  ghost predicate PassivesAreItems(infos: Infos, s: State) {
    forall i, j :: IsPassive(i) && 0 <= j < |s.books[i]| ==> s.books[i][j].skillID !in infos
  }

  /** Where the darkness table has the same price twice in a row. */
  predicate OnPlateau(p: int) {
    p == 3 || 20 <= p < 30 || (30 < p < 100 && p % 10 != 0) || p > 100
  }

  /** Requests that leave the ledger alone: every combat step up; a combat step down, for darkness
      skills only on a plateau; a passive step up aimed at a passive book; a passive step down of
      the first passive book, or aimed at a combat skill whose last level was free. */
  predicate Conserves(s: State, r: Request) {
    match r
    case Up(_, _) => true
    case Down(i, j) => Present(s, i, j) && IsDarkness(s.books[i][j].skillID) ==> OnPlateau(s.books[i][j].plus)
    case UpPassive(i) => IsPassive(i)
    case DownPassive(i) =>
      i == 5 || (!IsPassive(i) && Present(s, i, 0) && SkillPrice(s.books[i][0].skillID, s.books[i][0].plus - 1) == 0)
  }

  lemma ConservesHasNoDrift(infos: Infos, s: State, r: Request)
    requires Grounded(s) && PassivesAreItems(infos, s)
    requires Step(infos, s, r) != s ==> Conserves(s, r)
    ensures Drift(infos, s, r) == 0
    ensures PassivesAreItems(infos, Step(infos, s, r))
  {
    if Step(infos, s, r) != s {
      DriftIs(infos, s, r);
      if r.Down? {
        assert Int8(s.books[r.i][r.j].plus) > 0;
        DsjpStep(s.books[r.i][r.j].plus);
      }
    }
  }

  ghost predicate ConservingRun(infos: Infos, s: State, rs: seq<Request>)
    decreases |rs|
  {
    rs != [] ==>
      && (Step(infos, s, rs[0]) != s ==> Conserves(s, rs[0]))
      && ConservingRun(infos, Step(infos, s, rs[0]), rs[1..])
  }

  /** Over any run of such requests, points plus the worth of the held levels never change. */
  lemma {:induction false} RunConserves(infos: Infos, s: State, rs: seq<Request>)
    requires Grounded(s) && PassivesAreItems(infos, s) && ConservingRun(infos, s, rs)
    ensures Ledger(Run(infos, s, rs)) == Ledger(s)
    decreases |rs|
  {
    if rs != [] {
      StepLedger(infos, s, rs[0]);
      ConservesHasNoDrift(infos, s, rs[0]);
      RunConserves(infos, Step(infos, s, rs[0]), rs[1..]);
    }
  }

  /** No request of any kind ever takes the points below zero. */
  lemma {:induction false} RunNonNegative(infos: Infos, s: State, rs: seq<Request>)
    requires s.points >= 0
    ensures Run(infos, s, rs).points >= 0
    decreases |rs|
  {
    if rs != [] {
      var r := rs[0];
      if Step(infos, s, r) != s {
        var j := if r.Up? || r.Down? then r.j else 0;
        PricesNonNegative(r.i, s.books[r.i][j].skillID, s.books[r.i][j].plus);
      }
      RunNonNegative(infos, Step(infos, s, r), rs[1..]);
    }
  }

  /** Every known skill is between 0 and its maximum, every passive between 0 and 12. */
  ghost predicate Bounded(infos: Infos, s: State) {
    forall i, j :: 0 <= i < 11 && 0 <= j < |s.books[i]| ==>
      var x := s.books[i][j];
      && 0 <= x.plus
      && (x.skillID in infos ==> x.plus <= infos[x.skillID] <= 127)
      && (IsPassive(i) ==> x.plus <= 12)
  }

  lemma SetPlusBounded(infos: Infos, s: State, i: int, j: int, plus: int, points: int)
    requires Bounded(infos, s) && Present(s, i, j)
    requires 0 <= plus
    requires s.books[i][j].skillID in infos ==> plus <= infos[s.books[i][j].skillID]
    requires IsPassive(i) ==> plus <= 12
    ensures Bounded(infos, SetPlus(s, i, j, plus, points))
  {
    var s' := SetPlus(s, i, j, plus, points);
    forall k, l | 0 <= k < 11 && 0 <= l < |s'.books[k]|
      ensures var x := s'.books[k][l];
              && 0 <= x.plus
              && (x.skillID in infos ==> x.plus <= infos[x.skillID] <= 127)
              && (IsPassive(k) ==> x.plus <= 12)
    {
      assert s.books[k][l].skillID == s'.books[k][l].skillID;
    }
  }

  /** A passive step up that does not push a combat skill past its maximum. */
  predicate WithinMaximum(infos: Infos, s: State, r: Request) {
    r.UpPassive? && Present(s, r.i, 0) && s.books[r.i][0].skillID in infos ==>
      s.books[r.i][0].plus < infos[s.books[r.i][0].skillID]
  }

  /** Exactly when a request that takes effect keeps every level within its maximum: unless it is
      a passive step up aimed at a combat skill that already has it. */
  lemma StepBoundedIff(infos: Infos, s: State, r: Request)
    requires Bounded(infos, s) && PassivesAreItems(infos, s) && Step(infos, s, r) != s
    ensures PassivesAreItems(infos, Step(infos, s, r))
    ensures Bounded(infos, Step(infos, s, r)) <==> WithinMaximum(infos, s, r)
    ensures r.UpPassive? && IsPassive(r.i) ==> WithinMaximum(infos, s, r)
  {
    var j := if r.Up? || r.Down? then r.j else 0;
    var x := s.books[r.i][j];
    var plus := if r.Up? || r.UpPassive? then x.plus + 1 else x.plus - 1;
    var s' := Step(infos, s, r);
    assert s' == SetPlus(s, r.i, j, plus, s'.points);
    if WithinMaximum(infos, s, r) {
      SetPlusBounded(infos, s, r.i, j, plus, s'.points);
    } else {
      assert s'.books[r.i][0].plus > infos[s'.books[r.i][0].skillID];
    }
  }

  /** No run breaks a maximum as long as passive steps up are aimed at passive books. */
  lemma {:induction false} RunBounded(infos: Infos, s: State, rs: seq<Request>)
    requires Bounded(infos, s) && PassivesAreItems(infos, s)
    requires forall k :: 0 <= k < |rs| && rs[k].UpPassive? ==> IsPassive(rs[k].i)
    ensures Bounded(infos, Run(infos, s, rs))
    decreases |rs|
  {
    if rs != [] {
      if Step(infos, s, rs[0]) != s {
        StepBoundedIff(infos, s, rs[0]);
      }
      RunBounded(infos, Step(infos, s, rs[0]), rs[1..]);
    }
  }

  /** Any other button of the passive window reaches the first skill of book 0: it rises past its
      maximum for nothing. */
  lemma PassiveReachesCombat(infos: Infos, s: State)
    requires infos == map[10001 := 5] && s == State(0, seq(11, i => if i == 0 then [Skill(10001, 5)] else []))
    ensures var s' := Step(infos, s, UpPassive(0));
            && Bounded(infos, s) && PassivesAreItems(infos, s) && Grounded(s)
            && s'.points == 0 && s'.books[0] == [Skill(10001, 6)]
            && !Bounded(infos, s') && Ledger(s') == Ledger(s) + 1
  {
    StepLedger(infos, s, UpPassive(0));
    StepBoundedIff(infos, s, UpPassive(0));
    assert s.books[0] == [Skill(10001, 5)];
  }

  // ---------------------------------------------------------------- what does not

  /** The drift of every request that takes effect, from its own book and the price tables. */
  lemma DriftIs(infos: Infos, s: State, r: Request)
    requires Grounded(s) && PassivesAreItems(infos, s) && Step(infos, s, r) != s
    ensures r.Up? ==> Drift(infos, s, r) == 0
    ensures r.UpPassive? ==>
              var x := s.books[r.i][0];
              Drift(infos, s, r) == if IsPassive(r.i) then 0 else SkillPrice(x.skillID, x.plus)
    ensures r.Down? ==>
              var x := s.books[r.i][r.j];
              Drift(infos, s, r) == if IsDarkness(x.skillID) then Dsjp(x.plus) - Dsjp(x.plus - 1) else 0
    ensures r.DownPassive? ==>
              var p := s.books[r.i][0].plus;
              Drift(infos, s, r) ==
              if r.i == 5 then 0
              else if r.i == 6 then -Lookup(FJP, p - 1)
              else if r.i == 7 then Lookup(WD, p) - Lookup(WD, p - 1)
              else -SkillPrice(s.books[r.i][0].skillID, p - 1)
  {
  }

  /** Exactly when a request that takes effect conserves the ledger. */
  lemma StepConservesIff(infos: Infos, s: State, r: Request)
    requires Bounded(infos, s) && PassivesAreItems(infos, s) && Step(infos, s, r) != s
    ensures Ledger(Step(infos, s, r)) == Ledger(s) <==> Conserves(s, r)
  {
    StepLedger(infos, s, r);
    DriftIs(infos, s, r);
    match r
    case Up(_, _) =>
    case Down(i, j) =>
      if IsDarkness(s.books[i][j].skillID) {
        DarknessConservesIff(infos, s, i, j);
      }
    case UpPassive(i) =>
      var x := s.books[i][0];
      assert 0 <= x.plus <= 11;
      assert Lookup(JOB, x.plus) == JOB[x.plus] > 0;
    case DownPassive(i) =>
      if i == 6 || i == 7 {
        PassiveNeverConserves(infos, s, i);
      }
  }

  /** What the whole run makes or loses. */
  function DriftOver(infos: Infos, s: State, rs: seq<Request>): int
    decreases |rs|
  {
    if rs == [] then 0 else Drift(infos, s, rs[0]) + DriftOver(infos, Step(infos, s, rs[0]), rs[1..])
  }

  /** Over any run of any requests the ledger moves by the sum of the drifts. */
  lemma {:induction false} RunLedger(infos: Infos, s: State, rs: seq<Request>)
    requires Grounded(s)
    ensures Ledger(Run(infos, s, rs)) == Ledger(s) + DriftOver(infos, s, rs)
    decreases |rs|
  {
    if rs != [] {
      StepLedger(infos, s, rs[0]);
      RunLedger(infos, Step(infos, s, rs[0]), rs[1..]);
    }
  }

  /** Stepping down a darkness skill conserves the ledger exactly on the plateaus of its table. */
  lemma DarknessConservesIff(infos: Infos, s: State, i: int, j: int)
    requires Grounded(s) && PassivesAreItems(infos, s)
    requires Step(infos, s, Down(i, j)) != s && IsDarkness(s.books[i][j].skillID)
    ensures var p := s.books[i][j].plus;
            Ledger(Step(infos, s, Down(i, j))) == Ledger(s) <==> OnPlateau(p)
  {
    var p := s.books[i][j].plus;
    StepLedger(infos, s, Down(i, j));
    DriftIs(infos, s, Down(i, j));
    assert Int8(p) > 0;
    DsjpStep(p);
  }

  lemma DsjpStep(p: int)
    requires p > 0
    ensures Dsjp(p) == Dsjp(p - 1) <==> OnPlateau(p)
  {
    if p < 20 {
      assert Lookup(JOB, p) == if p < 19 then JOB[p] else 0;
    }
  }

  /** The second passive book gives nothing back and running gives back the wrong entry, so
      stepping either down never conserves the ledger. */
  lemma PassiveNeverConserves(infos: Infos, s: State, i: int)
    requires Grounded(s) && PassivesAreItems(infos, s) && Bounded(infos, s) && (i == 6 || i == 7)
    requires Step(infos, s, DownPassive(i)) != s
    ensures Ledger(Step(infos, s, DownPassive(i))) != Ledger(s)
  {
    StepLedger(infos, s, DownPassive(i));
    DriftIs(infos, s, DownPassive(i));
    var p := s.books[i][0].plus;
    assert 1 <= p <= 12;
    assert Lookup(FJP, p - 1) == FJP[p - 1] && Lookup(WD, p - 1) == WD[p - 1];
  }

  // ---------------------------------------------------------------- the object

  class SkillBooks {
    var points: int
    var books: Books

    constructor (points: int)
      ensures Current() == State(points, seq(11, i => []))
    {
      this.points := points;
      books := seq(11, i => []);
    }

    function Current(): State
      reads this
    {
      State(points, books)
    }

    method UpgradeSkill(infos: Infos, i: int, j: int)
      modifies this
      ensures Current() == Step(infos, old(Current()), Up(i, j))
    {
      if !(0 <= i < 11 && 0 <= j < |books[i]|) || books[i][j].skillID !in infos {
        return;
      }
      var skill := books[i][j];
      if Int8(skill.plus) >= infos[skill.skillID] {
        return;
      }
      var requiredSP := 1;
      if 28000 <= skill.skillID <= 28007 {
        requiredSP := Sjp(skill.plus);
      } else if 29000 <= skill.skillID <= 29007 {
        requiredSP := Dsjp(skill.plus);
      } else if 20193 <= skill.skillID <= 20217 {
        requiredSP := Dsjp(skill.plus);
      }
      if points < requiredSP {
        return;
      }
      points := points - requiredSP;
      books := books[i := books[i][j := skill.(plus := skill.plus + 1)]];
    }

    method DowngradeSkill(infos: Infos, i: int, j: int)
      modifies this
      ensures Current() == Step(infos, old(Current()), Down(i, j))
    {
      if !(0 <= i < 11 && 0 <= j < |books[i]|) || books[i][j].skillID !in infos {
        return;
      }
      var skill := books[i][j];
      if Int8(skill.plus) <= 0 {
        return;
      }
      var refund := 1;
      if 28000 <= skill.skillID <= 28007 && skill.plus > 0 {
        refund := Sjp(skill.plus - 1);
      } else if 29000 <= skill.skillID <= 29007 && skill.plus > 0 {
        refund := Dsjp(skill.plus - 1);
      } else if 20193 <= skill.skillID <= 20217 {
        refund := Dsjp(skill.plus);
      }
      points := points + refund;
      books := books[i := books[i][j := skill.(plus := skill.plus - 1)]];
    }

    method UpgradePassiveSkill(i: int)
      modifies this
      ensures Current() == Step(map[], old(Current()), UpPassive(i))
    {
      if !(0 <= i < 11) || |books[i]| == 0 || books[i][0].plus >= 12 {
        return;
      }
      var skill := books[i][0];
      if i == 5 || i == 6 {
        if points < Lookup(FJP, skill.plus) {
          return;
        }
        points := points - Lookup(FJP, skill.plus);
      } else if i == 7 {
        if points < Lookup(WD, skill.plus) {
          return;
        }
        points := points - Lookup(WD, skill.plus);
      }
      books := books[i := books[i][0 := skill.(plus := skill.plus + 1)]];
    }

    method DowngradePassiveSkill(i: int)
      modifies this
      ensures Current() == Step(map[], old(Current()), DownPassive(i))
    {
      if !(0 <= i < 11) || |books[i]| == 0 || books[i][0].plus <= 0 {
        return;
      }
      var skill := books[i][0];
      if i == 5 {
        points := points + Lookup(FJP, skill.plus - 1);
      } else if i == 7 {
        points := points + Lookup(WD, skill.plus);
      }
      books := books[i := books[i][0 := skill.(plus := skill.plus - 1)]];
    }
  }
}
