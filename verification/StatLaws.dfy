/** What a rebuild publishes, in plain arithmetic: every field as a formula in the base points and
    the bonuses, what each kind of bonus moves, and what injuries cost. */
module StatLaws {
  import opened Prelude
  import opened Slots
  import opened UpgradeCodes
  import opened Folds
  import opened Stats

  // ---------------------------------------------------------------- percentages

  /** A percentage is taken toward zero. */
  lemma RaisedIs(x: int, rate: int)
    ensures var d := Raised(x, rate) - x;
            if x * rate >= 0 then 100 * d <= x * rate < 100 * (d + 1) else 100 * (d - 1) < x * rate <= 100 * d
  {
  }

  // ---------------------------------------------------------------- injuries

  /** Eight fields at a share of `k` tenths; the arts defence rate is spared. */
  function Hurt(o: Body, k: int, c: Combat): Combat {
    c.(minATK := o.rounding.injured(k, c.minATK), maxATK := o.rounding.injured(k, c.maxATK),
       minArtsATK := o.rounding.injured(k, c.minArtsATK), maxArtsATK := o.rounding.injured(k, c.maxArtsATK),
       accuracy := o.rounding.injured(k, c.accuracy), defRate := o.rounding.injured(k, c.defRate),
       def := o.rounding.injured(k, c.def), artsDEF := o.rounding.injured(k, c.artsDEF))
  }

  /** Up to 70 nothing; then seven tenths, above 80 half, above 90 three tenths of `u`. */
  predicate Bands(o: Body, u: Combat, r: Combat) {
    && (o.injury <= 70.0 ==> r == u)
    && (70.0 < o.injury <= 80.0 ==> r == Hurt(o, 7, u))
    && (80.0 < o.injury <= 90.0 ==> r == Hurt(o, 5, u))
    && (90.0 < o.injury ==> r == Hurt(o, 3, u))
  }

  lemma HurtIs(o: Body, c: Combat)
    ensures Bands(o, c, Injured(o, c))
  {
  }

  // ---------------------------------------------------------------- every field

  /** All that buffs, passives and the items worn before the defences are taken add. */
  function Gained(o: Body, buffs: seq<Buff>): Combat
    requires |o.slots| == SLOT_COUNT
  {
    Dressed(o, Plus(BuffsBonus(buffs, o.epoch), o.passives))
  }

  /** The last two marbles, which come too late for the defences. */
  function Late(o: Body): Combat
    requires |o.slots| == SLOT_COUNT
  {
    RangeBonus(o, 400, 402)
  }

  function BaseDEF(t: Stat, g: Combat): int {
    t.dex + g.def + g.dexBuff + 2 * (t.wind + g.windBuff) + (t.water + g.waterBuff) + (t.fire + g.fireBuff)
  }

  function BaseArtsDEF(t: Stat, g: Combat): int {
    2 * (t.int_ + g.intBuff) + t.dex + g.artsDEF + g.dexBuff
    + (t.wind + g.windBuff) + 2 * (t.water + g.waterBuff) + (t.fire + g.fireBuff)
  }

  /** The attack both ends of the range share, before the rate. */
  function BaseATK(t: Stat, g: Combat, n: Combat): int {
    t.str + n.strBuff + (t.wind + g.windBuff) + (t.water + g.waterBuff) + 2 * (t.fire + g.fireBuff)
  }

  function BaseArtsATK(o: Body, t: Stat, n: Combat, atk: int): int {
    t.str + n.strBuff + 2 * (t.int_ + n.intBuff) + o.rounding.share((t.int_ + n.intBuff) * atk)
  }

  /** The fields an unhurt character publishes: `g` came before the defences, `m` after, `n` is both. */
  predicate Publishes(o: Body, t: Stat, g: Combat, m: Combat, n: Combat, r: Combat) {
    && r.def == Raised(BaseDEF(t, g), g.defRate) + m.def
    && r.artsDEF == Raised(BaseArtsDEF(t, g), g.artsDEFRate) + m.artsDEF
    && r.minATK == Raised(BaseATK(t, g, n) + n.minATK, n.atkRate)
    && r.maxATK == Raised(BaseATK(t, g, n) + n.maxATK, n.atkRate)
    && r.minArtsATK == Raised(BaseArtsATK(o, t, n, r.minATK) + n.minArtsATK, n.artsATKRate)
    && r.maxArtsATK == Raised(BaseArtsATK(o, t, n, r.maxATK) + n.maxArtsATK, n.artsATKRate)
    && PublishesRest(o, t, n, r)
  }

  predicate PublishesRest(o: Body, t: Stat, n: Combat, r: Combat) {
    && r.maxHP == o.startMaxHP + n.maxHP + 10 * (t.str + n.strBuff)
    && r.maxCHI == o.startMaxCHI + n.maxCHI + 3 * (t.int_ + n.intBuff)
    && r.accuracy == o.rounding.accuracy(t.str) + n.accuracy + o.rounding.accuracy(n.strBuff)
    && r.dodge == t.dex + n.dodge + n.dexBuff
    && r.hpRecoveryRate == t.combat.hpRecoveryRate + n.hpRecoveryRate
    && r.chiRecoveryRate == t.combat.chiRecoveryRate + n.chiRecoveryRate
    && (r.strBuff, r.dexBuff, r.intBuff) == (n.strBuff, n.dexBuff, n.intBuff)
    && (r.windBuff, r.waterBuff, r.fireBuff) == (n.windBuff, n.waterBuff, n.fireBuff)
    && (r.atkRate, r.artsATKRate, r.defRate, r.artsDEFRate) == (n.atkRate, n.artsATKRate, n.defRate, n.artsDEFRate)
    && (r.poisonATK, r.paralysisATK, r.confusionATK) == (n.poisonATK, n.paralysisATK, n.confusionATK)
    && (r.poisonDEF, r.paralysisDEF, r.confusionDEF) == (n.poisonDEF, n.paralysisDEF, n.confusionDEF)
  }

  lemma DressedAdds(o: Body, c: Combat, d: Combat)
    requires |o.slots| == SLOT_COUNT
    ensures Dressed(o, Plus(c, d)) == Plus(c, Dressed(o, d))
  {
    var r1, r2, r3, r4 := RangeBonus(o, 0, 10), RangeBonus(o, 307, 316), RangeBonus(o, 11, 68), RangeBonus(o, 341, 398);
    var r5 := RangeBonus(o, 397, 400);
    PlusAssociative(c, d, r1);
    PlusAssociative(c, Plus(d, r1), r2);
    PlusAssociative(c, Plus(Plus(d, r1), r2), r3);
    PlusAssociative(c, Plus(Plus(Plus(d, r1), r2), r3), r4);
    PlusAssociative(c, Plus(Plus(Plus(Plus(d, r1), r2), r3), r4), r5);
  }

  /** Every field, and the columns a rebuild leaves alone or clears: `u` is what the character
      publishes unhurt, and injuries take their share of it. */
  lemma FieldsAre(o: Body, t: Stat, buffs: seq<Buff>) returns (u: Combat)
    requires |o.slots| == SLOT_COUNT
    ensures Publishes(o, t, Gained(o, buffs), Late(o), Plus(Gained(o, buffs), Late(o)), u)
    ensures Bands(o, u, Rebuilt(o, t, buffs).combat)
    ensures var r := Rebuilt(o, t, buffs);
            r == t.(combat := r.combat, poisonTime := 0, paraTime := 0, confusionTime := 0)
  {
    var b, g, m := BuffsBonus(buffs, o.epoch), Gained(o, buffs), Late(o);
    PlusAssociative(Start(o, t), b, o.passives);
    DressedAdds(o, Start(o, t), Plus(b, o.passives));
    var c := Plus(Start(o, t), g);
    u := Attacks(o, t, c, Plus(Defences(t, c), m));
    Computes(o, t, g, m);
    HurtIs(o, u);
  }

  /** The arithmetic alone: what the stages compute from their inputs. */
  lemma Computes(o: Body, t: Stat, g: Combat, m: Combat)
    ensures var c := Plus(Start(o, t), g);
            Publishes(o, t, g, m, Plus(g, m), Attacks(o, t, c, Plus(Defences(t, c), m)))
  {
    DefencesAre(o, t, g, m);
    AttacksAre(o, t, g, m);
    RestIs(o, t, g, m);
  }

  lemma RestIs(o: Body, t: Stat, g: Combat, m: Combat)
    ensures var c := Plus(Start(o, t), g);
            PublishesRest(o, t, Plus(g, m), Attacks(o, t, c, Plus(Defences(t, c), m)))
  {
  }

  lemma DefencesAre(o: Body, t: Stat, g: Combat, m: Combat)
    ensures var c, n := Plus(Start(o, t), g), Plus(g, m);
            var d := Plus(Defences(t, c), m);
            && d.def == Raised(BaseDEF(t, g), g.defRate) + m.def
            && d.artsDEF == Raised(BaseArtsDEF(t, g), g.artsDEFRate) + m.artsDEF
            && d == Plus(c, m).(def := d.def, artsDEF := d.artsDEF)
  {
  }

  lemma AttacksAre(o: Body, t: Stat, g: Combat, m: Combat)
    ensures var c, n := Plus(Start(o, t), g), Plus(g, m);
            var d := Plus(Defences(t, c), m);
            var r := Attacks(o, t, c, d);
            && r.minATK == Raised(BaseATK(t, g, n) + n.minATK, n.atkRate)
            && r.maxATK == Raised(BaseATK(t, g, n) + n.maxATK, n.atkRate)
            && r.minArtsATK == Raised(BaseArtsATK(o, t, n, r.minATK) + n.minArtsATK, n.artsATKRate)
            && r.maxArtsATK == Raised(BaseArtsATK(o, t, n, r.maxATK) + n.maxArtsATK, n.artsATKRate)
            && r == d.(minATK := r.minATK, maxATK := r.maxATK, minArtsATK := r.minArtsATK, maxArtsATK := r.maxArtsATK,
                       maxHP := d.maxHP + 10 * (t.str + n.strBuff), maxCHI := d.maxCHI + 3 * (t.int_ + n.intBuff),
                       accuracy := d.accuracy + o.rounding.accuracy(n.strBuff), dodge := d.dodge + n.dexBuff)
  {
  }

  // ---------------------------------------------------------------- nothing worn

  /** No active buff, no item, no passive, unhurt. */
  ghost predicate Bare(o: Body, buffs: seq<Buff>) {
    && o.passives == NOTHING && o.injury <= 70.0
    && (forall b :: b in buffs ==> b.startedAt + b.duration <= o.epoch || (b.duration == 0 && b.canExpire))
    && (forall i :: 0 <= i < |o.slots| ==> o.slots[i].itemID == 0)
  }

  /** Then everything published is plain arithmetic in the six base points and the starting values. */
  predicate BareFields(o: Body, t: Stat, r: Combat) {
    && r.maxHP == o.startMaxHP + 10 * t.str
    && r.maxCHI == o.startMaxCHI + 3 * t.int_
    && r.def == t.dex + 2 * t.wind + t.water + t.fire
    && r.artsDEF == 2 * t.int_ + t.dex + t.wind + 2 * t.water + t.fire
    && r.minATK == r.maxATK == t.str + t.wind + t.water + 2 * t.fire
    && r.minArtsATK == r.maxArtsATK == t.str + 2 * t.int_ + o.rounding.share(t.int_ * r.minATK)
    && r.accuracy == o.rounding.accuracy(t.str) + o.rounding.accuracy(0)
    && r.dodge == t.dex
    && r.hpRecoveryRate == t.combat.hpRecoveryRate
    && r.chiRecoveryRate == t.combat.chiRecoveryRate
    && r.strBuff == r.dexBuff == r.intBuff == r.windBuff == r.waterBuff == r.fireBuff == 0
    && r.atkRate == r.artsATKRate == r.defRate == r.artsDEFRate == 0
    && r.poisonATK == r.poisonDEF == r.paralysisATK == r.paralysisDEF == r.confusionATK == r.confusionDEF == 0
  }

  lemma EmptyShare(o: Body, start: int, i: int, x: Slot)
    requires x.itemID == 0
    ensures SlotShare(o, start)(i, x) == NOTHING
  {
    assert !TakesPart(o, start, i, x);
  }

  lemma PlusUnit()
    ensures Unit(Plus, NOTHING)
  {
    forall c: Combat ensures Plus(c, NOTHING) == c && Plus(NOTHING, c) == c {
      PlusNothing(c);
      PlusCommutative(c, NOTHING);
    }
  }

  lemma EmptyShares(o: Body, start: int, end: int)
    requires 0 <= start && end <= |o.slots|
    requires forall i :: 0 <= i < |o.slots| ==> o.slots[i].itemID == 0
    ensures AllNothing(NOTHING, SlotShare(o, start), o.slots, start, end)
  {
    forall i | start <= i < end ensures SlotShare(o, start)(i, o.slots[i]) == NOTHING {
      EmptyShare(o, start, i, o.slots[i]);
    }
  }

  lemma EmptyRange(o: Body, start: int, end: int)
    requires 0 <= start && end <= |o.slots|
    requires forall i :: 0 <= i < |o.slots| ==> o.slots[i].itemID == 0
    ensures RangeBonus(o, start, end) == NOTHING
  {
    PlusUnit();
    EmptyShares(o, start, end);
    RangeFoldNothing(Plus, NOTHING, SlotShare(o, start), o.slots, start, end);
  }

  lemma {:induction false} NoActiveRow(buffs: seq<Buff>, epoch: int, n: nat)
    requires n <= |buffs|
    requires forall b :: b in buffs ==> b.startedAt + b.duration <= epoch || (b.duration == 0 && b.canExpire)
    ensures Fold(Plus, NOTHING, Contribution(epoch), buffs, n) == NOTHING
  {
    if n > 0 {
      NoActiveRow(buffs, epoch, n - 1);
      assert buffs[n - 1] in buffs;
    }
  }

  lemma NothingWorn(o: Body, c: Combat)
    requires |o.slots| == SLOT_COUNT
    requires forall i :: 0 <= i < |o.slots| ==> o.slots[i].itemID == 0
    ensures Dressed(o, c) == c && Late(o) == NOTHING
  {
    EmptyRange(o, 0, 10);
    EmptyRange(o, 307, 316);
    EmptyRange(o, 11, 68);
    EmptyRange(o, 341, 398);
    EmptyRange(o, 397, 400);
    EmptyRange(o, 400, 402);
    PlusNothing(c);
  }

  /** A vector all of whose fields are zero. */
  predicate Zero(n: Combat) {
    && n.maxHP == n.maxCHI == n.def == n.artsDEF == n.minATK == n.maxATK == n.minArtsATK == n.maxArtsATK == 0
    && n.accuracy == n.dodge == n.hpRecoveryRate == n.chiRecoveryRate == 0
    && n.strBuff == n.dexBuff == n.intBuff == n.windBuff == n.waterBuff == n.fireBuff == 0
    && n.atkRate == n.artsATKRate == n.defRate == n.artsDEFRate == 0
    && n.poisonATK == n.poisonDEF == n.paralysisATK == n.paralysisDEF == n.confusionATK == n.confusionDEF == 0
  }

  lemma NothingIsZero(n: Combat)
    requires n == NOTHING
    ensures Zero(n)
  {
  }

  lemma NothingPlus(a: Combat, b: Combat)
    requires a == NOTHING && b == NOTHING
    ensures Plus(a, b) == NOTHING
  {
  }

  lemma NoBuffs(buffs: seq<Buff>, epoch: int)
    requires forall b :: b in buffs ==> b.startedAt + b.duration <= epoch || (b.duration == 0 && b.canExpire)
    ensures BuffsBonus(buffs, epoch) == NOTHING
  {
    NoActiveRow(buffs, epoch, |buffs|);
  }

  lemma GainsNothing(o: Body, buffs: seq<Buff>)
    requires |o.slots| == SLOT_COUNT && Bare(o, buffs)
    ensures Gained(o, buffs) == NOTHING && Late(o) == NOTHING
  {
    var c := Plus(BuffsBonus(buffs, o.epoch), o.passives);
    assert c == NOTHING by {
      NoBuffs(buffs, o.epoch);
      NothingPlus(BuffsBonus(buffs, o.epoch), o.passives);
    }
    NothingWorn(o, c);
  }

  lemma BareIs(o: Body, t: Stat, buffs: seq<Buff>)
    requires |o.slots| == SLOT_COUNT && Bare(o, buffs)
    ensures BareFields(o, t, Rebuilt(o, t, buffs).combat)
  {
    var g, m, r := Gained(o, buffs), Late(o), Rebuilt(o, t, buffs).combat;
    var u := FieldsAre(o, t, buffs);
    assert Zero(g) && Zero(m) && Zero(Plus(g, m)) by {
      GainsNothing(o, buffs);
      NothingPlus(g, m);
      NothingIsZero(g);
      NothingIsZero(m);
      NothingIsZero(Plus(g, m));
    }
    BareArithmetic(o, t, g, m, Plus(g, m), u);
  }

  lemma BareArithmetic(o: Body, t: Stat, g: Combat, m: Combat, n: Combat, r: Combat)
    requires Zero(g) && Zero(m) && Zero(n) && Publishes(o, t, g, m, n, r)
    ensures BareFields(o, t, r)
  {
    NotRaised(BaseDEF(t, g));
    NotRaised(BaseArtsDEF(t, g));
    NotRaised(BaseATK(t, g, n));
    NotRaised(BaseArtsATK(o, t, n, r.minATK));
  }

  lemma NotRaised(x: int)
    ensures Raised(x, 0) == x
  {
  }

  // ---------------------------------------------------------------- one more buff

  /** A row that adds nothing yet. */
  function Row(id: int, startedAt: int, duration: int, canExpire: bool): Buff {
    Buff(id, startedAt, duration, canExpire, false,
         0, 0, 0, 0, 0, 0, 0, 0, 0, 0, 0, 0, 0, 0, 0, 0, 0, 0, 0, 0, 0, 0, 0, 0, 0)
  }

  predicate Runs(b: Buff, epoch: int) {
    b.startedAt + b.duration > epoch && !(b.duration == 0 && b.canExpire)
  }

  function RowAdded(c: Combat, b: Buff): Combat {
    c.(minATK := c.minATK + b.atk, maxATK := c.maxATK + b.atk, atkRate := c.atkRate + b.atkRate,
       minArtsATK := c.minArtsATK + b.artsATK, maxArtsATK := c.maxArtsATK + b.artsATK,
       artsATKRate := c.artsATKRate + b.artsATKRate, def := c.def + b.def, defRate := c.defRate + b.defRate,
       artsDEF := c.artsDEF + b.artsDEF, artsDEFRate := c.artsDEFRate + b.artsDEFRate,
       accuracy := c.accuracy + b.accuracy, dodge := c.dodge + b.dodge, maxHP := c.maxHP + b.maxHP,
       maxCHI := c.maxCHI + b.maxCHI, hpRecoveryRate := c.hpRecoveryRate + b.hpRecoveryRate,
       chiRecoveryRate := c.chiRecoveryRate + b.chiRecoveryRate, strBuff := c.strBuff + b.str,
       dexBuff := c.dexBuff + b.dex, intBuff := c.intBuff + b.int_, windBuff := c.windBuff + b.wind,
       waterBuff := c.waterBuff + b.water, fireBuff := c.fireBuff + b.fire,
       poisonATK := c.poisonATK + b.poisonDamage, paralysisATK := c.paralysisATK + b.poisonDamage,
       confusionATK := c.confusionATK + b.confusionDamage, poisonDEF := c.poisonDEF + 2 * b.poisonDEF,
       paralysisDEF := c.paralysisDEF + 2 * b.paralysisDEF, confusionDEF := c.confusionDEF + 2 * b.confusionDEF)
  }

  /** What a row adds at a given time, field by field. */
  lemma ContributionIs(epoch: int, c: Combat, b: Buff)
    ensures Plus(c, Contribution(epoch)(b)) == if Runs(b, epoch) then RowAdded(c, b) else c
  {
  }

  /** A running row is simply added to what was gained. */
  lemma OneMoreRow(o: Body, buffs: seq<Buff>, b: Buff)
    requires |o.slots| == SLOT_COUNT && Runs(b, o.epoch)
    ensures Gained(o, buffs + [b]) == Plus(Gained(o, buffs), BuffBonus(b))
  {
    var all, u, w := buffs + [b], BuffsBonus(buffs, o.epoch), BuffBonus(b);
    assert all[..|buffs|] == buffs[..|buffs|];
    FoldPrefix(Plus, NOTHING, Contribution(o.epoch), all, buffs, |buffs|);
    assert BuffsBonus(all, o.epoch) == Plus(u, w);
    PlusAssociative(u, w, o.passives);
    PlusCommutative(w, o.passives);
    PlusAssociative(u, o.passives, w);
    PlusCommutative(Plus(u, o.passives), w);
    DressedAdds(o, w, Plus(u, o.passives));
    PlusCommutative(w, Gained(o, buffs));
  }

  /** Percentages move what they are percentages of, and nothing else: `r` becomes `s`. */
  predicate MovedByRates(o: Body, t: Stat, g: Combat, m: Combat, n: Combat, b: Buff, r: Combat, s: Combat) {
    s == r.(
      defRate := r.defRate + b.defRate, artsDEFRate := r.artsDEFRate + b.artsDEFRate,
      atkRate := r.atkRate + b.atkRate, artsATKRate := r.artsATKRate + b.artsATKRate,
      def := Raised(BaseDEF(t, g), g.defRate + b.defRate) + m.def,
      artsDEF := Raised(BaseArtsDEF(t, g), g.artsDEFRate + b.artsDEFRate) + m.artsDEF,
      minATK := Raised(BaseATK(t, g, n) + n.minATK, n.atkRate + b.atkRate),
      maxATK := Raised(BaseATK(t, g, n) + n.maxATK, n.atkRate + b.atkRate),
      minArtsATK := Raised(BaseArtsATK(o, t, n, s.minATK) + n.minArtsATK, n.artsATKRate + b.artsATKRate),
      maxArtsATK := Raised(BaseArtsATK(o, t, n, s.maxATK) + n.maxArtsATK, n.artsATKRate + b.artsATKRate))
  }

  /** Wind counts twice for defence, water twice for arts defence, fire twice for attack. */
  predicate MovedByElements(o: Body, t: Stat, g: Combat, m: Combat, n: Combat, b: Buff, r: Combat, s: Combat) {
    s == r.(
      windBuff := r.windBuff + b.wind, waterBuff := r.waterBuff + b.water, fireBuff := r.fireBuff + b.fire,
      def := Raised(BaseDEF(t, g) + 2 * b.wind + b.water + b.fire, g.defRate) + m.def,
      artsDEF := Raised(BaseArtsDEF(t, g) + b.wind + 2 * b.water + b.fire, g.artsDEFRate) + m.artsDEF,
      minATK := Raised(BaseATK(t, g, n) + n.minATK + b.wind + b.water + 2 * b.fire, n.atkRate),
      maxATK := Raised(BaseATK(t, g, n) + n.maxATK + b.wind + b.water + 2 * b.fire, n.atkRate),
      minArtsATK := Raised(BaseArtsATK(o, t, n, s.minATK) + n.minArtsATK, n.artsATKRate),
      maxArtsATK := Raised(BaseArtsATK(o, t, n, s.maxATK) + n.maxArtsATK, n.artsATKRate))
  }

  /** Strength goes to life, attack, arts attack and accuracy; dexterity to both defences and dodging;
      intelligence to energy, arts defence and arts attack. */
  predicate MovedByPoints(o: Body, t: Stat, g: Combat, m: Combat, n: Combat, b: Buff, r: Combat, s: Combat) {
    var k := n.(strBuff := n.strBuff + b.str, intBuff := n.intBuff + b.int_);
    s == r.(
      strBuff := r.strBuff + b.str, dexBuff := r.dexBuff + b.dex, intBuff := r.intBuff + b.int_,
      maxHP := r.maxHP + 10 * b.str, maxCHI := r.maxCHI + 3 * b.int_, dodge := r.dodge + b.dex,
      accuracy := r.accuracy + o.rounding.accuracy(n.strBuff + b.str) - o.rounding.accuracy(n.strBuff),
      def := Raised(BaseDEF(t, g) + b.dex, g.defRate) + m.def,
      artsDEF := Raised(BaseArtsDEF(t, g) + b.dex + 2 * b.int_, g.artsDEFRate) + m.artsDEF,
      minATK := Raised(BaseATK(t, g, n) + n.minATK + b.str, n.atkRate),
      maxATK := Raised(BaseATK(t, g, n) + n.maxATK + b.str, n.atkRate),
      minArtsATK := Raised(BaseArtsATK(o, t, k, s.minATK) + n.minArtsATK, n.artsATKRate),
      maxArtsATK := Raised(BaseArtsATK(o, t, k, s.maxATK) + n.maxArtsATK, n.artsATKRate))
  }

  /** What a row adds outright; both ends of an attack range move, resistances count twice. */
  predicate MovedOutright(o: Body, t: Stat, g: Combat, m: Combat, n: Combat, b: Buff, r: Combat, s: Combat) {
    s == r.(
      maxHP := r.maxHP + b.maxHP, maxCHI := r.maxCHI + b.maxCHI, accuracy := r.accuracy + b.accuracy,
      dodge := r.dodge + b.dodge, hpRecoveryRate := r.hpRecoveryRate + b.hpRecoveryRate,
      chiRecoveryRate := r.chiRecoveryRate + b.chiRecoveryRate,
      poisonATK := r.poisonATK + b.poisonDamage, paralysisATK := r.paralysisATK + b.poisonDamage,
      confusionATK := r.confusionATK + b.confusionDamage, poisonDEF := r.poisonDEF + 2 * b.poisonDEF,
      paralysisDEF := r.paralysisDEF + 2 * b.paralysisDEF, confusionDEF := r.confusionDEF + 2 * b.confusionDEF,
      def := Raised(BaseDEF(t, g) + b.def, g.defRate) + m.def,
      artsDEF := Raised(BaseArtsDEF(t, g) + b.artsDEF, g.artsDEFRate) + m.artsDEF,
      minATK := Raised(BaseATK(t, g, n) + n.minATK + b.atk, n.atkRate),
      maxATK := Raised(BaseATK(t, g, n) + n.maxATK + b.atk, n.atkRate),
      minArtsATK := Raised(BaseArtsATK(o, t, n, s.minATK) + n.minArtsATK + b.artsATK, n.artsATKRate),
      maxArtsATK := Raised(BaseArtsATK(o, t, n, s.maxATK) + n.maxArtsATK + b.artsATK, n.artsATKRate))
  }

  /** A row with percentages only. */
  predicate OnlyRates(b: Buff) {
    b == Row(b.id, b.startedAt, b.duration, b.canExpire).(defRate := b.defRate, artsDEFRate := b.artsDEFRate,
      atkRate := b.atkRate, artsATKRate := b.artsATKRate)
  }

  function WithRates(x: Combat, b: Buff): Combat {
    x.(defRate := x.defRate + b.defRate, artsDEFRate := x.artsDEFRate + b.artsDEFRate,
      atkRate := x.atkRate + b.atkRate, artsATKRate := x.artsATKRate + b.artsATKRate)
  }

  lemma RatesGained(g: Combat, m: Combat, b: Buff)
    requires OnlyRates(b)
    ensures Plus(g, BuffBonus(b)) == WithRates(g, b)
    ensures Plus(WithRates(g, b), m) == WithRates(Plus(g, m), b)
  {
  }

  lemma RatesBase(o: Body, t: Stat, g: Combat, n: Combat, b: Buff, atk: int)
    ensures BaseDEF(t, WithRates(g, b)) == BaseDEF(t, g) && BaseArtsDEF(t, WithRates(g, b)) == BaseArtsDEF(t, g)
    ensures BaseATK(t, WithRates(g, b), WithRates(n, b)) == BaseATK(t, g, n)
    ensures BaseArtsATK(o, t, WithRates(n, b), atk) == BaseArtsATK(o, t, n, atk)
  {
  }

  lemma RatesMove(o: Body, t: Stat, g: Combat, m: Combat, n: Combat, b: Buff, r: Combat, s: Combat)
    requires Publishes(o, t, g, m, n, r) && Publishes(o, t, WithRates(g, b), m, WithRates(n, b), s)
    ensures MovedByRates(o, t, g, m, n, b, r, s)
  {
    RatesBase(o, t, g, n, b, s.minATK);
    RatesBase(o, t, g, n, b, s.maxATK);
  }

  lemma RatesRow(o: Body, t: Stat, buffs: seq<Buff>, b: Buff)
    requires |o.slots| == SLOT_COUNT && o.injury <= 70.0 && Runs(b, o.epoch) && OnlyRates(b)
    ensures MovedByRates(o, t, Gained(o, buffs), Late(o), Plus(Gained(o, buffs), Late(o)), b,
            Rebuilt(o, t, buffs).combat, Rebuilt(o, t, buffs + [b]).combat)
  {
    var r := FieldsAre(o, t, buffs);
    var s := FieldsAre(o, t, buffs + [b]);
    OneMoreRow(o, buffs, b);
    RatesGained(Gained(o, buffs), Late(o), b);
    RatesMove(o, t, Gained(o, buffs), Late(o), Plus(Gained(o, buffs), Late(o)), b, r, s);
  }

  /** A row with elements only. */
  predicate OnlyElements(b: Buff) {
    b == Row(b.id, b.startedAt, b.duration, b.canExpire).(wind := b.wind, water := b.water, fire := b.fire)
  }

  function WithElements(x: Combat, b: Buff): Combat {
    x.(windBuff := x.windBuff + b.wind, waterBuff := x.waterBuff + b.water, fireBuff := x.fireBuff + b.fire)
  }

  lemma ElementsGained(g: Combat, m: Combat, b: Buff)
    requires OnlyElements(b)
    ensures Plus(g, BuffBonus(b)) == WithElements(g, b)
    ensures Plus(WithElements(g, b), m) == WithElements(Plus(g, m), b)
  {
  }

  lemma ElementsBase(o: Body, t: Stat, g: Combat, n: Combat, b: Buff, atk: int)
    ensures BaseDEF(t, WithElements(g, b)) == BaseDEF(t, g) + 2 * b.wind + b.water + b.fire
    ensures BaseArtsDEF(t, WithElements(g, b)) == BaseArtsDEF(t, g) + b.wind + 2 * b.water + b.fire
    ensures BaseATK(t, WithElements(g, b), WithElements(n, b)) == BaseATK(t, g, n) + b.wind + b.water + 2 * b.fire
    ensures BaseArtsATK(o, t, WithElements(n, b), atk) == BaseArtsATK(o, t, n, atk)
  {
  }

  lemma ElementsMove(o: Body, t: Stat, g: Combat, m: Combat, n: Combat, b: Buff, r: Combat, s: Combat)
    requires Publishes(o, t, g, m, n, r) && Publishes(o, t, WithElements(g, b), m, WithElements(n, b), s)
    ensures MovedByElements(o, t, g, m, n, b, r, s)
  {
    ElementsBase(o, t, g, n, b, s.minATK);
    ElementsBase(o, t, g, n, b, s.maxATK);
  }

  lemma ElementsRow(o: Body, t: Stat, buffs: seq<Buff>, b: Buff)
    requires |o.slots| == SLOT_COUNT && o.injury <= 70.0 && Runs(b, o.epoch) && OnlyElements(b)
    ensures MovedByElements(o, t, Gained(o, buffs), Late(o), Plus(Gained(o, buffs), Late(o)), b,
            Rebuilt(o, t, buffs).combat, Rebuilt(o, t, buffs + [b]).combat)
  {
    var r := FieldsAre(o, t, buffs);
    var s := FieldsAre(o, t, buffs + [b]);
    OneMoreRow(o, buffs, b);
    ElementsGained(Gained(o, buffs), Late(o), b);
    ElementsMove(o, t, Gained(o, buffs), Late(o), Plus(Gained(o, buffs), Late(o)), b, r, s);
  }

  /** A row with points only. */
  predicate OnlyPoints(b: Buff) {
    b == Row(b.id, b.startedAt, b.duration, b.canExpire).(str := b.str, dex := b.dex, int_ := b.int_)
  }

  function WithPoints(x: Combat, b: Buff): Combat {
    x.(strBuff := x.strBuff + b.str, dexBuff := x.dexBuff + b.dex, intBuff := x.intBuff + b.int_)
  }

  lemma PointsGained(g: Combat, m: Combat, b: Buff)
    requires OnlyPoints(b)
    ensures Plus(g, BuffBonus(b)) == WithPoints(g, b)
    ensures Plus(WithPoints(g, b), m) == WithPoints(Plus(g, m), b)
  {
  }

  lemma PointsBase(o: Body, t: Stat, g: Combat, n: Combat, b: Buff, atk: int)
    ensures BaseDEF(t, WithPoints(g, b)) == BaseDEF(t, g) + b.dex
    ensures BaseArtsDEF(t, WithPoints(g, b)) == BaseArtsDEF(t, g) + b.dex + 2 * b.int_
    ensures BaseATK(t, WithPoints(g, b), WithPoints(n, b)) == BaseATK(t, g, n) + b.str
    ensures BaseArtsATK(o, t, WithPoints(n, b), atk) ==
            BaseArtsATK(o, t, n.(strBuff := n.strBuff + b.str, intBuff := n.intBuff + b.int_), atk)
  {
  }

  lemma PointsMove(o: Body, t: Stat, g: Combat, m: Combat, n: Combat, b: Buff, r: Combat, s: Combat)
    requires Publishes(o, t, g, m, n, r) && Publishes(o, t, WithPoints(g, b), m, WithPoints(n, b), s)
    ensures MovedByPoints(o, t, g, m, n, b, r, s)
  {
    PointsBase(o, t, g, n, b, s.minATK);
    PointsBase(o, t, g, n, b, s.maxATK);
  }

  lemma PointsRow(o: Body, t: Stat, buffs: seq<Buff>, b: Buff)
    requires |o.slots| == SLOT_COUNT && o.injury <= 70.0 && Runs(b, o.epoch) && OnlyPoints(b)
    ensures MovedByPoints(o, t, Gained(o, buffs), Late(o), Plus(Gained(o, buffs), Late(o)), b,
            Rebuilt(o, t, buffs).combat, Rebuilt(o, t, buffs + [b]).combat)
  {
    var r := FieldsAre(o, t, buffs);
    var s := FieldsAre(o, t, buffs + [b]);
    OneMoreRow(o, buffs, b);
    PointsGained(Gained(o, buffs), Late(o), b);
    PointsMove(o, t, Gained(o, buffs), Late(o), Plus(Gained(o, buffs), Late(o)), b, r, s);
  }

  /** A row with outright amounts only. */
  predicate OnlyAmounts(b: Buff) {
    b == Row(b.id, b.startedAt, b.duration, b.canExpire).(atk := b.atk, artsATK := b.artsATK, def := b.def,
      artsDEF := b.artsDEF, accuracy := b.accuracy, dodge := b.dodge, maxHP := b.maxHP, maxCHI := b.maxCHI,
      hpRecoveryRate := b.hpRecoveryRate, chiRecoveryRate := b.chiRecoveryRate, poisonDamage := b.poisonDamage,
      poisonDEF := b.poisonDEF, paralysisDEF := b.paralysisDEF, confusionDamage := b.confusionDamage,
      confusionDEF := b.confusionDEF)
  }

  function WithAmounts(x: Combat, b: Buff): Combat {
    x.(minATK := x.minATK + b.atk, maxATK := x.maxATK + b.atk, minArtsATK := x.minArtsATK + b.artsATK,
      maxArtsATK := x.maxArtsATK + b.artsATK, def := x.def + b.def, artsDEF := x.artsDEF + b.artsDEF,
      accuracy := x.accuracy + b.accuracy, dodge := x.dodge + b.dodge, maxHP := x.maxHP + b.maxHP,
      maxCHI := x.maxCHI + b.maxCHI, hpRecoveryRate := x.hpRecoveryRate + b.hpRecoveryRate,
      chiRecoveryRate := x.chiRecoveryRate + b.chiRecoveryRate, poisonATK := x.poisonATK + b.poisonDamage,
      paralysisATK := x.paralysisATK + b.poisonDamage, confusionATK := x.confusionATK + b.confusionDamage,
      poisonDEF := x.poisonDEF + 2 * b.poisonDEF, paralysisDEF := x.paralysisDEF + 2 * b.paralysisDEF,
      confusionDEF := x.confusionDEF + 2 * b.confusionDEF)
  }

  lemma AmountsGained(g: Combat, m: Combat, b: Buff)
    requires OnlyAmounts(b)
    ensures Plus(g, BuffBonus(b)) == WithAmounts(g, b)
    ensures Plus(WithAmounts(g, b), m) == WithAmounts(Plus(g, m), b)
  {
  }

  lemma AmountsBase(o: Body, t: Stat, g: Combat, n: Combat, b: Buff, atk: int)
    ensures BaseDEF(t, WithAmounts(g, b)) == BaseDEF(t, g) + b.def
    ensures BaseArtsDEF(t, WithAmounts(g, b)) == BaseArtsDEF(t, g) + b.artsDEF
    ensures BaseATK(t, WithAmounts(g, b), WithAmounts(n, b)) == BaseATK(t, g, n)
    ensures BaseArtsATK(o, t, WithAmounts(n, b), atk) == BaseArtsATK(o, t, n, atk)
  {
  }

  lemma AmountsMove(o: Body, t: Stat, g: Combat, m: Combat, n: Combat, b: Buff, r: Combat, s: Combat)
    requires Publishes(o, t, g, m, n, r) && Publishes(o, t, WithAmounts(g, b), m, WithAmounts(n, b), s)
    ensures MovedOutright(o, t, g, m, n, b, r, s)
  {
    AmountsBase(o, t, g, n, b, s.minATK);
    AmountsBase(o, t, g, n, b, s.maxATK);
  }

  lemma AmountsRow(o: Body, t: Stat, buffs: seq<Buff>, b: Buff)
    requires |o.slots| == SLOT_COUNT && o.injury <= 70.0 && Runs(b, o.epoch) && OnlyAmounts(b)
    ensures MovedOutright(o, t, Gained(o, buffs), Late(o), Plus(Gained(o, buffs), Late(o)), b,
            Rebuilt(o, t, buffs).combat, Rebuilt(o, t, buffs + [b]).combat)
  {
    var r := FieldsAre(o, t, buffs);
    var s := FieldsAre(o, t, buffs + [b]);
    OneMoreRow(o, buffs, b);
    AmountsGained(Gained(o, buffs), Late(o), b);
    AmountsMove(o, t, Gained(o, buffs), Late(o), Plus(Gained(o, buffs), Late(o)), b, r, s);
  }

  // ---------------------------------------------------------------- one item

  /** Worn equipment, pet equipment and the first three marbles. */
  predicate WornSlot(k: int) {
    0 <= k <= 9 || 307 <= k <= 315 || 397 <= k <= 399
  }

  /** The two bags, where items work while they are switched on; their second range ends on the
      first marble. */
  predicate BagSlot(k: int) {
    11 <= k <= 67 || 341 <= k <= 397
  }

  /** The item belongs into the slot, the level fits, and the other weapon is not the one in hand. */
  predicate FitsSlot(o: Body, k: int, x: Slot) {
    && x.itemID != 0 && x.itemID in o.effects
    && o.effects[x.itemID].slot == (if k == 4 then 3 else k)
    && o.effects[x.itemID].minLevel <= o.level
    && (o.effects[x.itemID].maxLevel <= 0 || o.level <= o.effects[x.itemID].maxLevel)
    && (k == 3 ==> o.weaponSlot != 4) && (k == 4 ==> o.weaponSlot != 3)
  }

  /** What an item adds as worn, and what it adds as switched on. */
  function WornShare(o: Body, k: int, x: Slot): Combat {
    if FitsSlot(o, k, x) then SlotBonus(o.effects, x) else NOTHING
  }

  function BagShare(o: Body, x: Slot): Combat {
    if x.itemID != 0 && x.activated && x.inUse then SlotBonus(o.effects, x) else NOTHING
  }

  lemma ShareIs(o: Body, start: int, k: int, x: Slot)
    ensures !IsBagRange(start) ==> SlotShare(o, start)(k, x) == WornShare(o, k, x)
    ensures IsBagRange(start) && k > 4 ==> SlotShare(o, start)(k, x) == BagShare(o, x)
  {
  }

  ghost predicate OnlyItem(o: Body, k: int) {
    |o.slots| == SLOT_COUNT && 0 <= k < SLOT_COUNT
    && forall i :: 0 <= i < SLOT_COUNT && i != k ==> o.slots[i].itemID == 0
  }

  lemma OneInRange(o: Body, start: int, end: int, k: int)
    requires OnlyItem(o, k) && 0 <= start && end <= SLOT_COUNT
    ensures RangeBonus(o, start, end) ==
            if start <= k < end then SlotShare(o, start)(k, o.slots[k]) else NOTHING
  {
    PlusUnit();
    OthersEmpty(o, start, end, k);
    RangeFoldOne(Plus, NOTHING, SlotShare(o, start), o.slots, start, end, k);
  }

  lemma OthersEmpty(o: Body, start: int, end: int, k: int)
    requires OnlyItem(o, k) && 0 <= start && end <= SLOT_COUNT
    ensures NothingBut(NOTHING, SlotShare(o, start), o.slots, start, end, k)
  {
    forall i | start <= i < end && i != k ensures SlotShare(o, start)(i, o.slots[i]) == NOTHING {
      EmptyShare(o, start, i, o.slots[i]);
    }
  }

  /** An item counts once in a worn slot if it fits there, once in a bag slot if it is switched on,
      so the first marble may count twice; in the last two marbles it comes late; elsewhere never. */
  lemma OneItem(o: Body, c: Combat, k: int)
    requires OnlyItem(o, k)
    ensures Dressed(o, c) ==
            Plus(Plus(c, if BagSlot(k) then BagShare(o, o.slots[k]) else NOTHING),
                 if WornSlot(k) then WornShare(o, k, o.slots[k]) else NOTHING)
    ensures Late(o) == if 400 <= k <= 401 then WornShare(o, k, o.slots[k]) else NOTHING
  {
    OneInRange(o, 0, 10, k);
    OneInRange(o, 307, 316, k);
    OneInRange(o, 11, 68, k);
    OneInRange(o, 341, 398, k);
    OneInRange(o, 397, 400, k);
    OneInRange(o, 400, 402, k);
    Ranges(o, k, o.slots[k]);
    var b := if BagSlot(k) then BagShare(o, o.slots[k]) else NOTHING;
    var w := if WornSlot(k) then WornShare(o, k, o.slots[k]) else NOTHING;
    Gathers(c, b, w, RangeBonus(o, 0, 10), RangeBonus(o, 307, 316), RangeBonus(o, 11, 68), RangeBonus(o, 341, 398),
            RangeBonus(o, 397, 400));
  }

  lemma Ranges(o: Body, k: int, x: Slot)
    ensures SlotShare(o, 0)(k, x) == SlotShare(o, 307)(k, x) == SlotShare(o, 397)(k, x) == SlotShare(o, 400)(k, x)
            == WornShare(o, k, x)
    ensures k > 4 ==> SlotShare(o, 11)(k, x) == SlotShare(o, 341)(k, x) == BagShare(o, x)
  {
    ShareIs(o, 0, k, x);
    ShareIs(o, 307, k, x);
    ShareIs(o, 397, k, x);
    ShareIs(o, 400, k, x);
    ShareIs(o, 11, k, x);
    ShareIs(o, 341, k, x);
  }

  /** Of five ranges at most one adds `b` and one adds `w`. */
  lemma Gathers(c: Combat, b: Combat, w: Combat, r1: Combat, r2: Combat, r3: Combat, r4: Combat, r5: Combat)
    requires (r3 == b && r4 == NOTHING) || (r3 == NOTHING && r4 == b)
    requires (r1 == w && r2 == r5 == NOTHING) || (r2 == w && r1 == r5 == NOTHING) || (r5 == w && r1 == r2 == NOTHING)
    requires r5 == w || b == NOTHING
    ensures Plus(Plus(Plus(Plus(Plus(c, r1), r2), r3), r4), r5) == Plus(Plus(c, b), w)
  {
    PlusNothing(c);
    PlusNothing(Plus(c, w));
    PlusNothing(Plus(c, b));
  }

  // ---------------------------------------------------------------- one slot

  function Codes(effects: map<int, Effect>, ids: seq<int>): Combat {
    Fold(Plus, NOTHING, EffectOf(effects), ids, |ids|)
  }

  /** A slot adds its item, its upgrade codes up to the first zero, and its sockets up to theirs. */
  lemma SlotBonusIs(effects: map<int, Effect>, x: Slot)
    ensures SlotBonus(effects, x) ==
            Plus(Plus(EffectOf(effects)(x.itemID), Codes(effects, UntilZero(GetUpgrades(x)))),
                 Codes(effects, UntilZero(GetSockets(x))))
  {
    ThreeParts(effects, x.itemID, UntilZero(GetUpgrades(x)), UntilZero(GetSockets(x)));
  }

  lemma ThreeParts(effects: map<int, Effect>, id: int, us: seq<int>, ss: seq<int>)
    ensures Codes(effects, [id] + us + ss) ==
            Plus(Plus(EffectOf(effects)(id), Codes(effects, us)), Codes(effects, ss))
  {
    var f := EffectOf(effects);
    PlusIsCommutativeMonoid();
    FoldAppend(Plus, NOTHING, f, [id] + us, ss);
    FoldAppend(Plus, NOTHING, f, [id], us);
    PlusNothing(f(id));
    PlusCommutative(NOTHING, f(id));
  }
}
