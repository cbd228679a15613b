/** The stat row of a character and its buff rows, rebuilt and ticked in place. */
module Fighters {
  import opened Prelude
  import opened Slots
  import opened UpgradeCodes
  import opened Folds
  import opened Stats
  import opened StatLaws

  class Fighter {
    var stat: Stat
    var buffs: seq<Buff>

    constructor (stat: Stat, buffs: seq<Buff>)
      ensures this.stat == stat && this.buffs == buffs
    {
      this.stat, this.buffs := stat, buffs;
    }

    /** Adds the active rows; deletes the stillborn ones. */
    method BuffEffects(epoch: int, c: Combat) returns (r: Combat)
      modifies this`buffs
      ensures r == Plus(c, BuffsBonus(old(buffs), epoch))
      ensures buffs == Surviving(old(buffs))
    {
      var all, kept := buffs, [];
      r := c;
      PlusNothing(c);
      for i := 0 to |all|
        invariant r == Plus(c, Fold(Plus, NOTHING, Contribution(epoch), all, i))
        invariant kept == Kept(Lives(), all, i)
      {
        FoldStep(c, Contribution(epoch), all, i);
        if !(all[i].duration == 0 && all[i].canExpire) {
          kept := kept + [all[i]];
        }
        r := AddBuff(epoch, r, all[i]);
      }
      buffs := kept;
    }

    method AddBuff(epoch: int, c: Combat, b: Buff) returns (r: Combat)
      ensures r == Plus(c, Contribution(epoch)(b))
    {
      if b.duration == 0 && b.canExpire {
        PlusNothing(c);
        return c;
      }
      if b.startedAt + b.duration > epoch {
        r := RunBuff(c, b);
        return;
      }
      PlusNothing(c);
      return c;
    }

    /** A running row adds field by field; resistances are added twice, and paralysis attack takes
        the poison damage. */
    method RunBuff(c: Combat, b: Buff) returns (r: Combat)
      ensures r == RowAdded(c, b) && r == Plus(c, BuffBonus(b))
    {
      r := c.(poisonATK := c.poisonATK + b.poisonDamage, poisonDEF := c.poisonDEF + b.poisonDEF,
              paralysisATK := c.paralysisATK + b.poisonDamage, paralysisDEF := c.paralysisDEF + b.paralysisDEF,
              confusionATK := c.confusionATK + b.confusionDamage, confusionDEF := c.confusionDEF + b.confusionDEF);
      r := r.(minATK := r.minATK + b.atk, maxATK := r.maxATK + b.atk, atkRate := r.atkRate + b.atkRate,
              accuracy := r.accuracy + b.accuracy, minArtsATK := r.minArtsATK + b.artsATK,
              maxArtsATK := r.maxArtsATK + b.artsATK, artsATKRate := r.artsATKRate + b.artsATKRate,
              artsDEF := r.artsDEF + b.artsDEF, artsDEFRate := r.artsDEFRate + b.artsDEFRate,
              chiRecoveryRate := r.chiRecoveryRate + b.chiRecoveryRate,
              confusionDEF := r.confusionDEF + b.confusionDEF, def := r.def + b.def,
              defRate := r.defRate + b.defRate, dexBuff := r.dexBuff + b.dex, dodge := r.dodge + b.dodge,
              hpRecoveryRate := r.hpRecoveryRate + b.hpRecoveryRate, intBuff := r.intBuff + b.int_,
              maxCHI := r.maxCHI + b.maxCHI, maxHP := r.maxHP + b.maxHP,
              paralysisDEF := r.paralysisDEF + b.paralysisDEF, poisonDEF := r.poisonDEF + b.poisonDEF,
              strBuff := r.strBuff + b.str, fireBuff := r.fireBuff + b.fire,
              waterBuff := r.waterBuff + b.water, windBuff := r.windBuff + b.wind);
    }

    /** The five ranges that count before the defences are taken. */
    method Dress(o: Body, c: Combat) returns (r: Combat)
      requires |o.slots| == SLOT_COUNT
      ensures r == Dressed(o, c)
    {
      r := ItemEffects(o, c, 0, 9);
      r := ItemEffects(o, r, 307, 315);
      r := ItemEffects(o, r, 0x0B, 0x43);
      r := ItemEffects(o, r, 0x155, 0x18D);
      r := ItemEffects(o, r, 397, 399);
    }

    method ItemEffects(o: Body, c: Combat, start: int, end: int) returns (r: Combat)
      requires |o.slots| == SLOT_COUNT && 0 <= start <= end < SLOT_COUNT
      ensures r == Plus(c, RangeBonus(o, start, end + 1))
    {
      r := c;
      PlusNothing(c);
      for i := start to end + 1
        invariant r == Plus(c, RangeFold(Plus, NOTHING, SlotShare(o, start), o.slots, start, i))
      {
        RangeStep(o.slots, c, SlotShare(o, start), start, i);
        r := AddItem(o, r, start, i);
      }
    }

    method AddItem(o: Body, c: Combat, start: int, i: int) returns (r: Combat)
      requires 0 <= i < |o.slots|
      ensures r == Plus(c, SlotShare(o, start)(i, o.slots[i]))
    {
      if TakesPart(o, start, i, o.slots[i]) {
        r := AddSlot(o.effects, c, o.slots[i]);
      } else {
        PlusNothing(c);
        r := c;
      }
    }

    /** The item, then its upgrades up to the first zero, then its sockets likewise. */
    method AddSlot(effects: map<int, Effect>, c: Combat, x: Slot) returns (r: Combat)
      ensures r == Plus(c, SlotBonus(effects, x))
    {
      var upgrades := ScanUpgrades(x);
      var sockets := ScanSockets(x);
      r := AddIDs(effects, c, [x.itemID] + upgrades + sockets);
    }

    method AddIDs(effects: map<int, Effect>, c: Combat, ids: seq<int>) returns (r: Combat)
      ensures r == Plus(c, Fold(Plus, NOTHING, EffectOf(effects), ids, |ids|))
    {
      r := c;
      for j := 0 to |ids|
        invariant r == Plus(c, Fold(Plus, NOTHING, EffectOf(effects), ids, j))
      {
        FoldStep(c, EffectOf(effects), ids, j);
        if ids[j] in effects {
          r := Plus(r, effects[ids[j]].bonus);
        } else {
          PlusNothing(r);
        }
      }
    }

    /** `u` is what the character would publish unhurt. */
    method Calculate(o: Body) returns (ghost u: Combat)
      requires |o.slots| == SLOT_COUNT
      modifies this
      ensures stat == Rebuilt(o, old(stat), old(buffs))
      ensures buffs == Surviving(old(buffs))
      ensures Publishes(o, old(stat), Gained(o, old(buffs)), Late(o), Plus(Gained(o, old(buffs)), Late(o)), u)
      ensures Bands(o, u, stat.combat)
      ensures Bare(o, old(buffs)) ==> BareFields(o, old(stat), stat.combat)
    {
      u := FieldsAre(o, stat, buffs);
      if Bare(o, buffs) {
        BareIs(o, stat, buffs);
      }
      var t := stat;
      var c := BuffEffects(o.epoch, Start(o, t));
      c := Plus(c, o.passives);
      c := Dress(o, c);
      var gathered := c;
      c := Defences(t, c);
      c := ItemEffects(o, c, 400, 401);
      c := Injured(o, Attacks(o, t, gathered, c));
      stat := t.(combat := c, poisonTime := 0, paraTime := 0, confusionTime := 0);
    }

    /** One tick.  `listing` is what the sorted query answered; only its first row is examined. */
    method HandleBuffs(o: Body, listing: seq<Buff>)
      requires |o.slots| == SLOT_COUNT
      requires SortedListing(buffs, listing)
      modifies this
      ensures listing == [] || Expiry(listing[0]) > o.epoch ==> stat == old(stat) && buffs == old(buffs)
      ensures listing != [] && Expiry(listing[0]) <= o.epoch ==>
                && stat == Rebuilt(o, Subtracted(old(stat), listing[0]), old(buffs))
                && buffs == AfterExpiry(old(buffs), listing[0])
    {
      if |listing| == 0 {
        return;
      }
      var buff := listing[0];
      if buff.startedAt + buff.duration <= o.epoch {
        stat := Subtracted(stat, buff);
        ghost var u := Calculate(o);
        buffs := Removed(buffs, buff.id);
      }
    }
  }
}
