/** Combat stats: the rebuild from base points, buffs, passives and equipment. */
module Stats {
  import opened Prelude
  import opened Slots
  import opened UpgradeCodes
  import opened Folds

  /** Every field that bonuses are added to. */
  datatype Combat = Combat(
    strBuff: int, dexBuff: int, intBuff: int, windBuff: int, waterBuff: int,
    fireBuff: int, minATK: int, maxATK: int, atkRate: int, minArtsATK: int,
    maxArtsATK: int, artsATKRate: int, def: int, defRate: int, artsDEF: int,
    artsDEFRate: int, maxHP: int, maxCHI: int, accuracy: int, dodge: int,
    poisonATK: int, poisonDEF: int, paralysisATK: int, paralysisDEF: int, confusionATK: int,
    confusionDEF: int, hpRecoveryRate: int, chiRecoveryRate: int)

  const NOTHING: Combat := Combat(
    0, 0, 0, 0, 0, 0, 0, 0, 0, 0, 0, 0, 0, 0,
    0, 0, 0, 0, 0, 0, 0, 0, 0, 0, 0, 0, 0, 0)

  function Plus(a: Combat, b: Combat): Combat {
    Combat(
      a.strBuff + b.strBuff, a.dexBuff + b.dexBuff, a.intBuff + b.intBuff, a.windBuff + b.windBuff,
      a.waterBuff + b.waterBuff, a.fireBuff + b.fireBuff, a.minATK + b.minATK, a.maxATK + b.maxATK,
      a.atkRate + b.atkRate, a.minArtsATK + b.minArtsATK, a.maxArtsATK + b.maxArtsATK, a.artsATKRate + b.artsATKRate,
      a.def + b.def, a.defRate + b.defRate, a.artsDEF + b.artsDEF, a.artsDEFRate + b.artsDEFRate,
      a.maxHP + b.maxHP, a.maxCHI + b.maxCHI, a.accuracy + b.accuracy, a.dodge + b.dodge,
      a.poisonATK + b.poisonATK, a.poisonDEF + b.poisonDEF, a.paralysisATK + b.paralysisATK,
      a.paralysisDEF + b.paralysisDEF, a.confusionATK + b.confusionATK, a.confusionDEF + b.confusionDEF,
      a.hpRecoveryRate + b.hpRecoveryRate, a.chiRecoveryRate + b.chiRecoveryRate)
  }

  /** A character's stat row: base points, the derived part, and columns no rebuild touches. */
  datatype Stat = Stat(
    str: int, dex: int, int_: int, wind: int, water: int, fire: int,
    hp: int, chi: int, statPoints: int, naturePoints: int, honor: int,
    poisonTime: int, paraTime: int, confusionTime: int, combat: Combat)

  datatype Buff = Buff(
    id: int, startedAt: int, duration: int, canExpire: bool, bagExpansion: bool,
    atk: int, atkRate: int, artsATK: int, artsATKRate: int, def: int, defRate: int, artsDEF: int,
    artsDEFRate: int, accuracy: int, dodge: int, maxHP: int, maxCHI: int, hpRecoveryRate: int,
    chiRecoveryRate: int, str: int, dex: int, int_: int, wind: int, water: int, fire: int,
    poisonDamage: int, poisonDEF: int, paralysisDEF: int, confusionDamage: int, confusionDEF: int)

  /** What one item id adds, and where and for whom the item counts. */
  datatype Effect = Effect(slot: int, minLevel: int, maxLevel: int, bonus: Combat)

  /** The float32 roundings, as fixed integer functions: 0.925 of a value, a 200th of it, and
      its share under an injury factor in tenths. */
  datatype Rounding = Rounding(accuracy: int -> int, share: int -> int, injured: (int, int) -> int)

  /** Everything else a rebuild reads. */
  datatype Body = Body(
    epoch: int, injury: real, level: int, weaponSlot: int, slots: seq<Slot>, effects: map<int, Effect>,
    passives: Combat, startMaxHP: int, startMaxCHI: int, rounding: Rounding)

  // ---------------------------------------------------------------- buffs

  function Expiry(b: Buff): int {
    b.startedAt + b.duration
  }

  /** Rows a rebuild deletes on sight. */
  predicate Stillborn(b: Buff) {
    b.duration == 0 && b.canExpire
  }

  predicate Active(b: Buff, epoch: int) {
    !Stillborn(b) && Expiry(b) > epoch
  }

  /** The three resistances are added twice, and paralysis attack takes the poison damage. */
  function BuffBonus(b: Buff): Combat {
    NOTHING.(
      poisonATK := b.poisonDamage, poisonDEF := 2 * b.poisonDEF,
      paralysisATK := b.poisonDamage, paralysisDEF := 2 * b.paralysisDEF,
      confusionATK := b.confusionDamage, confusionDEF := 2 * b.confusionDEF,
      minATK := b.atk, maxATK := b.atk, atkRate := b.atkRate, accuracy := b.accuracy,
      minArtsATK := b.artsATK, maxArtsATK := b.artsATK, artsATKRate := b.artsATKRate,
      artsDEF := b.artsDEF, artsDEFRate := b.artsDEFRate, chiRecoveryRate := b.chiRecoveryRate,
      def := b.def, defRate := b.defRate, dexBuff := b.dex, dodge := b.dodge,
      hpRecoveryRate := b.hpRecoveryRate, intBuff := b.int_, maxCHI := b.maxCHI, maxHP := b.maxHP,
      strBuff := b.str, fireBuff := b.fire, waterBuff := b.water, windBuff := b.wind)
  }

  /** What a row adds at a given time. */
  function Contribution(epoch: int): Buff -> Combat {
    (b: Buff) => if Active(b, epoch) then BuffBonus(b) else NOTHING
  }

  function BuffsBonus(buffs: seq<Buff>, epoch: int): Combat {
    Fold(Plus, NOTHING, Contribution(epoch), buffs, |buffs|)
  }

  function Lives(): Buff -> bool {
    (b: Buff) => !Stillborn(b)
  }

  function Surviving(buffs: seq<Buff>): seq<Buff> {
    Kept(Lives(), buffs, |buffs|)
  }

  // ---------------------------------------------------------------- equipment

  predicate IsBagRange(start: int) {
    start == 0x0B || start == 0x155
  }

  /** The item `x` in slot `i` takes part in the range that starts at `start`. */
  predicate TakesPart(o: Body, start: int, i: int, x: Slot) {
    && (IsBagRange(start) ==> x.activated && x.inUse)
    && !((i == 3 && o.weaponSlot == 4) || (i == 4 && o.weaponSlot == 3))
    && x.itemID != 0
    && (IsBagRange(start)
        || (&& x.itemID in o.effects
            && o.effects[x.itemID].slot == (if i == 4 then 3 else i)
            && o.level >= o.effects[x.itemID].minLevel
            && (o.effects[x.itemID].maxLevel > 0 ==> o.level <= o.effects[x.itemID].maxLevel)))
  }

  /** The item, its upgrade codes and its sockets, each list up to the first zero. */
  function EffectIDs(x: Slot): seq<int> {
    [x.itemID] + UntilZero(GetUpgrades(x)) + UntilZero(GetSockets(x))
  }

  function EffectOf(effects: map<int, Effect>): int -> Combat {
    (id: int) => if id in effects then effects[id].bonus else NOTHING
  }

  function SlotBonus(effects: map<int, Effect>, x: Slot): Combat {
    Fold(Plus, NOTHING, EffectOf(effects), EffectIDs(x), |EffectIDs(x)|)
  }

  /** What the item in slot `i` adds in the range that starts at `start`. */
  function SlotShare(o: Body, start: int): (int, Slot) -> Combat {
    (i: int, x: Slot) => if TakesPart(o, start, i, x) then SlotBonus(o.effects, x) else NOTHING
  }

  /** Bonus of the slots from `start` up to, and not including, `end`. */
  function RangeBonus(o: Body, start: int, end: int): Combat
    requires 0 <= start && end <= |o.slots|
  {
    RangeFold(Plus, NOTHING, SlotShare(o, start), o.slots, start, end)
  }

  // ---------------------------------------------------------------- the rebuild

  /** The derived part before any bonus; only the two recovery rates are carried over. */
  function Start(o: Body, t: Stat): Combat {
    NOTHING.(
      maxHP := o.startMaxHP, maxCHI := o.startMaxCHI,
      minATK := t.str, maxATK := t.str, minArtsATK := t.str, maxArtsATK := t.str,
      def := t.dex, artsDEF := 2 * t.int_ + t.dex, accuracy := o.rounding.accuracy(t.str), dodge := t.dex,
      hpRecoveryRate := t.combat.hpRecoveryRate, chiRecoveryRate := t.combat.chiRecoveryRate)
  }

  /** Go's `/` truncates toward zero. */
  function Percent(x: int, rate: int): int {
    if x * rate >= 0 then x * rate / 100 else -(-(x * rate) / 100)
  }

  function Raised(x: int, rate: int): int {
    x + Percent(x, rate)
  }

  function Defences(t: Stat, c: Combat): Combat {
    var wind, water, fire := t.wind + c.windBuff, t.water + c.waterBuff, t.fire + c.fireBuff;
    c.(def := Raised(c.def + c.dexBuff + 2 * wind + water + fire, c.defRate),
       artsDEF := Raised(c.artsDEF + 2 * c.intBuff + c.dexBuff + wind + 2 * water + fire, c.artsDEFRate))
  }

  /** `before` holds the elemental buffs as they were when the defences were taken. */
  function Attacks(o: Body, t: Stat, before: Combat, c: Combat): Combat {
    var elements := (t.wind + before.windBuff) + (t.water + before.waterBuff) + 2 * (t.fire + before.fireBuff);
    var totalSTR, totalINT := t.str + c.strBuff, t.int_ + c.intBuff;
    var minATK := Raised(c.minATK + c.strBuff + elements, c.atkRate);
    var maxATK := Raised(c.maxATK + c.strBuff + elements, c.atkRate);
    c.(maxHP := c.maxHP + 10 * totalSTR,
       maxCHI := c.maxCHI + 3 * totalINT,
       minATK := minATK,
       maxATK := maxATK,
       minArtsATK := Raised(c.minArtsATK + c.strBuff + 2 * totalINT + o.rounding.share(totalINT * minATK),
                            c.artsATKRate),
       maxArtsATK := Raised(c.maxArtsATK + c.strBuff + 2 * totalINT + o.rounding.share(totalINT * maxATK),
                            c.artsATKRate),
       accuracy := c.accuracy + o.rounding.accuracy(c.strBuff),
       dodge := c.dodge + c.dexBuff)
  }

  function Injured(o: Body, c: Combat): Combat {
    if o.injury <= 70.0 then c
    else
      var k := if o.injury > 90.0 then 3 else if o.injury > 80.0 then 5 else 7;
      c.(minATK := o.rounding.injured(k, c.minATK),
       maxATK := o.rounding.injured(k, c.maxATK),
       minArtsATK := o.rounding.injured(k, c.minArtsATK),
       maxArtsATK := o.rounding.injured(k, c.maxArtsATK),
       accuracy := o.rounding.injured(k, c.accuracy),
       def := o.rounding.injured(k, c.def),
       artsDEF := o.rounding.injured(k, c.artsDEF),
       defRate := o.rounding.injured(k, c.defRate))
  }

  /** The ranges that count before the defences are taken. */
  function Dressed(o: Body, c: Combat): Combat
    requires |o.slots| == SLOT_COUNT
  {
    Plus(Plus(Plus(Plus(Plus(c, RangeBonus(o, 0, 10)), RangeBonus(o, 307, 316)), RangeBonus(o, 11, 68)),
              RangeBonus(o, 341, 398)), RangeBonus(o, 397, 400))
  }

  function Rebuilt(o: Body, t: Stat, buffs: seq<Buff>): Stat
    requires |o.slots| == SLOT_COUNT
  {
    var gathered := Dressed(o, Plus(Plus(Start(o, t), BuffsBonus(buffs, o.epoch)), o.passives));
    var guarded := Plus(Defences(t, gathered), RangeBonus(o, 400, 402));
    t.(combat := Injured(o, Attacks(o, t, gathered, guarded)), poisonTime := 0, paraTime := 0, confusionTime := 0)
  }

  // ---------------------------------------------------------------- what a rebuild forgets

  /** The recovery rates are the only derived fields a rebuild does not start afresh. */
  function WithRates(t: Stat, hp: int, chi: int): Stat {
    t.(combat := t.combat.(hpRecoveryRate := hp,
       chiRecoveryRate := chi))
  }

  predicate SameBase(a: Stat, b: Stat) {
    && (a.str, a.dex, a.int_, a.wind, a.water, a.fire) == (b.str, b.dex, b.int_, b.wind, b.water, b.fire)
    && (a.hp, a.chi, a.statPoints, a.naturePoints, a.honor) == (b.hp, b.chi, b.statPoints, b.naturePoints, b.honor)
  }

  /** Rates gained by one rebuild. */
  function RateGain(o: Body, buffs: seq<Buff>): Combat
    requires |o.slots| == SLOT_COUNT
  {
    Plus(Dressed(o, Plus(BuffsBonus(buffs, o.epoch), o.passives)), RangeBonus(o, 400, 402))
  }

  /** Carried-over rates pass straight through to the result. */
  lemma RatesPassThrough(o: Body, t: Stat, buffs: seq<Buff>)
    requires |o.slots| == SLOT_COUNT
    ensures var gain := RateGain(o, buffs);
            && Rebuilt(o, t, buffs).combat.hpRecoveryRate == t.combat.hpRecoveryRate + gain.hpRecoveryRate
            && Rebuilt(o, t, buffs).combat.chiRecoveryRate == t.combat.chiRecoveryRate + gain.chiRecoveryRate
  {
  }

  /** Equal in everything but the two recovery rates. */
  predicate UpToRates(c: Combat, d: Combat) {
    c == d.(hpRecoveryRate := c.hpRecoveryRate, chiRecoveryRate := c.chiRecoveryRate)
  }

  lemma PlusUpToRates(c: Combat, d: Combat, e: Combat)
    requires UpToRates(c, d)
    ensures UpToRates(Plus(c, e), Plus(d, e))
  {
  }

  lemma DressedUpToRates(o: Body, c: Combat, d: Combat)
    requires |o.slots| == SLOT_COUNT && UpToRates(c, d)
    ensures UpToRates(Dressed(o, c), Dressed(o, d))
  {
    var r1, r2, r3, r4 := RangeBonus(o, 0, 10), RangeBonus(o, 307, 316), RangeBonus(o, 11, 68), RangeBonus(o, 341, 398);
    PlusUpToRates(c, d, r1);
    PlusUpToRates(Plus(c, r1), Plus(d, r1), r2);
    PlusUpToRates(Plus(Plus(c, r1), r2), Plus(Plus(d, r1), r2), r3);
    PlusUpToRates(Plus(Plus(Plus(c, r1), r2), r3), Plus(Plus(Plus(d, r1), r2), r3), r4);
    PlusUpToRates(Plus(Plus(Plus(Plus(c, r1), r2), r3), r4), Plus(Plus(Plus(Plus(d, r1), r2), r3), r4),
                  RangeBonus(o, 397, 400));
  }

  lemma GatheredUpToRates(o: Body, a: Stat, b: Stat, buffs: seq<Buff>)
    requires |o.slots| == SLOT_COUNT && SameBase(a, b)
    ensures UpToRates(Dressed(o, Plus(Plus(Start(o, a), BuffsBonus(buffs, o.epoch)), o.passives)),
                      Dressed(o, Plus(Plus(Start(o, b), BuffsBonus(buffs, o.epoch)), o.passives)))
  {
    var u, v := BuffsBonus(buffs, o.epoch), o.passives;
    PlusUpToRates(Start(o, a), Start(o, b), u);
    PlusUpToRates(Plus(Start(o, a), u), Plus(Start(o, b), u), v);
    DressedUpToRates(o, Plus(Plus(Start(o, a), u), v), Plus(Plus(Start(o, b), u), v));
  }

  lemma DefencesUpToRates(a: Stat, b: Stat, c: Combat, d: Combat)
    requires SameBase(a, b) && UpToRates(c, d)
    ensures UpToRates(Defences(a, c), Defences(b, d))
  {
  }

  lemma AttacksUpToRates(o: Body, a: Stat, b: Stat, x: Combat, y: Combat, c: Combat, d: Combat)
    requires SameBase(a, b) && UpToRates(x, y) && UpToRates(c, d)
    ensures UpToRates(Attacks(o, a, x, c), Attacks(o, b, y, d))
  {
  }

  lemma InjuredUpToRates(o: Body, c: Combat, d: Combat)
    requires UpToRates(c, d)
    ensures UpToRates(Injured(o, c), Injured(o, d))
  {
  }

  /** Whatever the derived fields held, a rebuild gives the same stats up to the two rates. */
  lemma RebuildForgets(o: Body, a: Stat, b: Stat, buffs: seq<Buff>)
    requires |o.slots| == SLOT_COUNT && SameBase(a, b)
    ensures var x, y := Rebuilt(o, a, buffs), Rebuilt(o, b, buffs);
            x == WithRates(y, x.combat.hpRecoveryRate, x.combat.chiRecoveryRate)
  {
    var x := Dressed(o, Plus(Plus(Start(o, a), BuffsBonus(buffs, o.epoch)), o.passives));
    var y := Dressed(o, Plus(Plus(Start(o, b), BuffsBonus(buffs, o.epoch)), o.passives));
    var marbles := RangeBonus(o, 400, 402);
    GatheredUpToRates(o, a, b, buffs);
    DefencesUpToRates(a, b, x, y);
    PlusUpToRates(Defences(a, x), Defences(b, y), marbles);
    var c, d := Plus(Defences(a, x), marbles), Plus(Defences(b, y), marbles);
    AttacksUpToRates(o, a, b, x, y, c, d);
    InjuredUpToRates(o, Attacks(o, a, x, c), Attacks(o, b, y, d));
  }

  // ---------------------------------------------------------------- rebuilding twice

  lemma PlusAssociative(a: Combat, b: Combat, c: Combat)
    ensures Plus(Plus(a, b), c) == Plus(a, Plus(b, c))
  {
  }

  lemma PlusCommutative(a: Combat, b: Combat)
    ensures Plus(a, b) == Plus(b, a)
  {
  }

  lemma PlusIsCommutativeMonoid()
    ensures Monoid(Plus, NOTHING) && Commutative(Plus)
  {
    forall a: Combat, b: Combat, c: Combat ensures Plus(Plus(a, b), c) == Plus(a, Plus(b, c)) {
      PlusAssociative(a, b, c);
    }
    forall a: Combat, b: Combat ensures Plus(a, b) == Plus(b, a) {
      PlusCommutative(a, b);
    }
  }

  /** Deleting the stillborn rows does not change what the others add. */
  lemma SurvivingBonus(buffs: seq<Buff>, epoch: int)
    ensures BuffsBonus(Surviving(buffs), epoch) == BuffsBonus(buffs, epoch)
  {
    PlusIsCommutativeMonoid();
    DropUnits(Plus, NOTHING, Contribution(epoch), Lives(), buffs, |buffs|);
  }

  /** A second rebuild, on the rows the first one left, moves nothing but the recovery rates,
      each by its own sum; so it changes nothing at all exactly when both sums are zero. */
  lemma RebuildTwice(o: Body, t: Stat, buffs: seq<Buff>)
    requires |o.slots| == SLOT_COUNT
    ensures var once := Rebuilt(o, t, buffs);
            var twice := Rebuilt(o, once, Surviving(buffs));
            var gain := RateGain(o, buffs);
            && twice == WithRates(once, once.combat.hpRecoveryRate + gain.hpRecoveryRate,
                                        once.combat.chiRecoveryRate + gain.chiRecoveryRate)
            && (twice == once <==> gain.hpRecoveryRate == 0 && gain.chiRecoveryRate == 0)
  {
    var once := Rebuilt(o, t, buffs);
    SurvivingBonus(buffs, o.epoch);
    RebuildForgets(o, once, t, buffs);
    RatesPassThrough(o, once, buffs);
    assert Rebuilt(o, once, Surviving(buffs)) == Rebuilt(o, once, buffs);
  }

  // ---------------------------------------------------------------- order does not matter

  /** The rows may come in any order, so an unstable sort cannot change the stats. */
  lemma OrderIrrelevant(o: Body, t: Stat, xs: seq<Buff>, ys: seq<Buff>)
    requires |o.slots| == SLOT_COUNT && multiset(xs) == multiset(ys)
    ensures BuffsBonus(xs, o.epoch) == BuffsBonus(ys, o.epoch)
    ensures Rebuilt(o, t, xs) == Rebuilt(o, t, ys)
  {
    PlusIsCommutativeMonoid();
    AnyOrder(Plus, NOTHING, Contribution(o.epoch), xs, ys);
  }

  lemma PlusNothing(c: Combat)
    ensures Plus(c, NOTHING) == c
  {
  }

  lemma FoldStep<T>(c: Combat, f: T -> Combat, xs: seq<T>, n: nat)
    requires n < |xs|
    ensures Plus(Plus(c, Fold(Plus, NOTHING, f, xs, n)), f(xs[n])) == Plus(c, Fold(Plus, NOTHING, f, xs, n + 1))
  {
    PlusAssociative(c, Fold(Plus, NOTHING, f, xs, n), f(xs[n]));
  }

  /** One more slot of a range. */
  lemma RangeStep(slots: seq<Slot>, c: Combat, f: (int, Slot) -> Combat, start: int, i: int)
    requires 0 <= start <= i < |slots|
    ensures Plus(c, RangeFold(Plus, NOTHING, f, slots, start, i + 1)) ==
            Plus(Plus(c, RangeFold(Plus, NOTHING, f, slots, start, i)), f(i, slots[i]))
  {
    PlusAssociative(c, RangeFold(Plus, NOTHING, f, slots, start, i), f(i, slots[i]));
  }

  // ---------------------------------------------------------------- expiry

  ghost predicate SortedListing(rows: seq<Buff>, listing: seq<Buff>) {
    && multiset(listing) == multiset(rows)
    && forall i, j :: 0 <= i < j < |listing| ==> Expiry(listing[i]) <= Expiry(listing[j])
  }

  /** The field-by-field undoing of one buff; elemental buffs are left in, resistances are taken
      off twice, and the life recovery rate stops at zero. */
  function Subtracted(t: Stat, b: Buff): Stat {
    var c := t.combat;
    t.(combat := c.(
      minATK := c.minATK - b.atk, maxATK := c.maxATK - b.atk, atkRate := c.atkRate - b.atkRate,
      accuracy := c.accuracy - b.accuracy, minArtsATK := c.minArtsATK - b.artsATK,
      maxArtsATK := c.maxArtsATK - b.artsATK, artsATKRate := c.artsATKRate - b.artsATKRate,
      artsDEF := c.artsDEF - b.artsDEF, artsDEFRate := c.artsDEFRate - b.artsDEFRate,
      chiRecoveryRate := c.chiRecoveryRate - b.chiRecoveryRate, def := c.def - b.def,
      defRate := c.defRate - b.defRate, dexBuff := c.dexBuff - b.dex, dodge := c.dodge - b.dodge,
      hpRecoveryRate := Max(c.hpRecoveryRate - b.hpRecoveryRate, 0), intBuff := c.intBuff - b.int_,
      maxCHI := c.maxCHI - b.maxCHI, maxHP := c.maxHP - b.maxHP, strBuff := c.strBuff - b.str,
      poisonATK := c.poisonATK - b.poisonDamage, poisonDEF := c.poisonDEF - 2 * b.poisonDEF,
      paralysisATK := c.paralysisATK - b.poisonDamage, paralysisDEF := c.paralysisDEF - 2 * b.paralysisDEF,
      confusionATK := c.confusionATK - b.confusionDamage, confusionDEF := c.confusionDEF - 2 * b.confusionDEF))
  }

  function OtherThan(id: int): Buff -> bool {
    (b: Buff) => b.id != id
  }

  function Removed(rows: seq<Buff>, id: int): seq<Buff> {
    Kept(OtherThan(id), rows, |rows|)
  }

  /** The rebuild deletes the stillborn rows on the way, then the expired row itself goes. */
  function AfterExpiry(rows: seq<Buff>, b: Buff): seq<Buff> {
    Removed(Surviving(rows), b.id)
  }

  ghost predicate DistinctIds(rows: seq<Buff>) {
    forall i, j :: 0 <= i < j < |rows| ==> rows[i].id != rows[j].id
  }

  lemma AfterExpiryRows(rows: seq<Buff>, b: Buff)
    ensures forall x :: x in AfterExpiry(rows, b) <==> x in rows && !Stillborn(x) && x.id != b.id
  {
    var s := Surviving(rows);
    assert rows[..|rows|] == rows && s[..|s|] == s;
  }

  lemma OneRowPerId(rows: seq<Buff>, x: Buff, b: Buff)
    requires x in rows && b in rows && x.id == b.id && DistinctIds(rows)
    ensures x == b
  {
    var i :| 0 <= i < |rows| && rows[i] == x;
    var j :| 0 <= j < |rows| && rows[j] == b;
    assert !(i < j) && !(j < i);
  }

  lemma ExpiredContribution(b: Buff, epoch: int)
    requires Expiry(b) <= epoch
    ensures Contribution(epoch)(b) == NOTHING
  {
  }

  /** Once expired, a row may be dropped without changing any bonus. */
  lemma ExpiredAddsNothing(rows: seq<Buff>, b: Buff, epoch: int)
    requires b in rows && Expiry(b) <= epoch && DistinctIds(rows)
    ensures BuffsBonus(AfterExpiry(rows, b), epoch) == BuffsBonus(rows, epoch)
  {
    var s, f, keep := Surviving(rows), Contribution(epoch), OtherThan(b.id);
    SurvivingBonus(rows, epoch);
    assert rows[..|rows|] == rows;
    forall i | 0 <= i < |s| && !keep(s[i]) ensures f(s[i]) == NOTHING {
      assert s[i] in s;
      OneRowPerId(rows, s[i], b);
      ExpiredContribution(b, epoch);
    }
    assert Monoid(Plus, NOTHING) by {
      PlusIsCommutativeMonoid();
    }
    DropUnits(Plus, NOTHING, f, keep, s, |s|);
  }

  /** What is published after an expiry is a rebuild of the stats as they were, without the
      expired buff, whatever the field-by-field undoing did; only the two recovery rates keep
      a trace of it. */
  lemma PublishedIsRebuild(o: Body, t: Stat, rows: seq<Buff>, b: Buff)
    requires |o.slots| == SLOT_COUNT && b in rows && Expiry(b) <= o.epoch && DistinctIds(rows)
    ensures var published := Rebuilt(o, Subtracted(t, b), rows);
            var clean := Rebuilt(o, t, AfterExpiry(rows, b));
            && published == WithRates(clean, published.combat.hpRecoveryRate, published.combat.chiRecoveryRate)
            && published.combat.hpRecoveryRate ==
                 clean.combat.hpRecoveryRate
                 + Max(t.combat.hpRecoveryRate - b.hpRecoveryRate, 0) - t.combat.hpRecoveryRate
            && published.combat.chiRecoveryRate == clean.combat.chiRecoveryRate - b.chiRecoveryRate
  {
    var rest := AfterExpiry(rows, b);
    ExpiredAddsNothing(rows, b, o.epoch);
    SameBonusSameRebuild(o, Subtracted(t, b), rows, rest);
    RebuildForgets(o, Subtracted(t, b), t, rest);
    RatesPassThrough(o, Subtracted(t, b), rest);
    RatesPassThrough(o, t, rest);
  }

  lemma SameBonusSameRebuild(o: Body, t: Stat, xs: seq<Buff>, ys: seq<Buff>)
    requires |o.slots| == SLOT_COUNT && BuffsBonus(xs, o.epoch) == BuffsBonus(ys, o.epoch)
    ensures Rebuilt(o, t, xs) == Rebuilt(o, t, ys)
  {
  }
}
