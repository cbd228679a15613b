/** The character object: its slots are one fixed array that every handler overwrites in place. */
module Characters {
  import opened Prelude
  import opened Slots
  import opened Bags
  import BagRuns
  import opened Trades
  import opened UpgradeCodes

  /** The table of stored items, which numbers the rows it inserts. */
  class ItemTable {
    var nextID: nat

    constructor ()
      ensures nextID == 1
    {
      nextID := 1;
    }

    method Insert() returns (id: nat)
      modifies this
      ensures id == old(nextID) && nextID == old(nextID) + 1
    {
      id := nextID;
      nextID := nextID + 1;
    }
  }

  class Consignments {
    var listings: Market

    constructor ()
      ensures listings == map[]
    {
      listings := map[];
    }
  }

  class Stall {
    const seller: Character
    var items: seq<SaleItem>

    constructor (seller: Character, items: seq<SaleItem>)
      ensures this.seller == seller && this.items == items
    {
      this.seller := seller;
      this.items := items;
    }

    /** Writing the stall packet rewrites the slots of positions that have nothing to show. */
    method SaleData()
      requires seller.Valid() && StallOk(items)
      modifies seller.inventory
      ensures seller.inventory[..] == Cleared(old(seller.inventory[..]), items)
      ensures (forall i :: 0 <= i < SLOT_COUNT && old(seller.inventory[i]).itemID == 0 ==>
                 old(seller.inventory[i]) == EMPTY)
              ==> seller.inventory[..] == old(seller.inventory[..])
    {
      var slots := seller.inventory;
      ghost var before := slots[..];
      for i := 0 to |items|
        invariant Cleared(slots[..], items[i..]) == Cleared(before, items)
      {
        var s := items[i];
        assert items[i..][0] == s && items[i..][1..] == items[i + 1..];
        if s.slotID == 0 || s.price == 0 || slots[s.slotID].itemID == 0 {
          ghost var was := slots[..];
          slots[s.slotID] := EMPTY;
          assert slots[..] == was[s.slotID := EMPTY];
        }
      }
      if forall i :: 0 <= i < SLOT_COUNT && before[i].itemID == 0 ==> before[i] == EMPTY {
        ClearingIsHarmless(before, items);
      }
    }
  }

  class Character {
    const charID: int
    const items: Catalog
    const table: ItemTable
    const inventory: array<Slot>
    var gold: U64
    var expanded: bool
    var onSale: bool
    var onTrade: bool

    constructor (charID: int, items: Catalog, table: ItemTable)
      ensures Valid() && fresh(inventory) && gold == 0
      ensures this.charID == charID && this.items == items && this.table == table
      ensures forall i :: 0 <= i < SLOT_COUNT ==> inventory[i] == EMPTY
    {
      this.charID, this.items, this.table := charID, items, table;
      gold, expanded, onSale, onTrade := 0, false, false, false;
      inventory := new Slot[450](i => EMPTY);
    }

    ghost predicate Valid() {
      inventory.Length == SLOT_COUNT
    }

    function Surroundings(): Context
      reads this
    {
      Context(items, charID, expanded, onSale, onTrade)
    }

    ghost function Contents(): (b: Bag)
      requires Valid()
      reads table, inventory
      ensures |b.slots| == SLOT_COUNT
    {
      Bag(inventory[..], table.nextID)
    }

    ghost function Person(): (t: Trader)
      requires Valid()
      reads this, inventory
      ensures |t.slots| == SLOT_COUNT
    {
      Trader(gold, inventory[..])
    }

    // -------------------------------------------------------------- searching

    method FindFreeSlot() returns (k: int)
      requires Valid()
      ensures k == FirstFree(Surroundings(), inventory[..])
    {
      ghost var s := inventory[..];
      k := 11;
      while k <= 66
        invariant 11 <= k <= 67
        invariant FreeFrom(s, 11, 66) == FreeFrom(s, k, 66)
      {
        if inventory[k].itemID == 0 {
          return;
        }
        k := k + 1;
      }
      if expanded {
        k := 341;
        while k <= 396
          invariant 341 <= k <= 397
          invariant FreeFrom(s, 341, 396) == FreeFrom(s, k, 396)
        {
          if inventory[k].itemID == 0 {
            return;
          }
          k := k + 1;
        }
      }
      return -1;
    }

    /** One page of the search.  The length is compared after every slot, so a count that is
        already met is noticed only if the first slot is taken. */
    method ScanPage(lo: int, hi: int, count: int, found: seq<int>) returns (ids: seq<int>, full: bool)
      requires Valid() && 0 <= lo <= hi < SLOT_COUNT
      ensures var f := found + FreeFrom(inventory[..], lo, hi);
              if |found| < count then full == (|f| >= count) && ids == f[..Min(count, |f|)]
              else if |found| == count && inventory[lo].itemID != 0 then full && ids == found
              else !full && ids == f && (|found| == count ==> |f| > count)
    {
      ghost var s := inventory[..];
      ghost var f := found + FreeFrom(s, lo, hi);
      ids := found;
      var k := lo;
      while k <= hi
        invariant lo <= k <= hi + 1
        invariant f == ids + FreeFrom(s, k, hi)
        invariant |found| < count ==> |ids| < count
        invariant |found| > count ==> |ids| > count
        invariant |found| == count ==> if k == lo then ids == found else |ids| > count && s[lo].itemID == 0
      {
        if inventory[k].itemID == 0 {
          ids := ids + [k];
        }
        assert f == ids + FreeFrom(s, k + 1, hi);
        if |ids| == count {
          return ids, true;
        }
        k := k + 1;
      }
      full := false;
    }

    method FindFreeSlots(count: int) returns (r: Option<seq<int>>)
      requires Valid()
      ensures r == Reservation(Surroundings(), inventory[..], count)
    {
      var ids, full := ScanPage(11, 66, count, []);
      if full {
        assert count > 0 ==> FreeSlots(Surroundings(), inventory[..])[..count] == ids;
        return Some(ids);
      }
      if expanded {
        ghost var first := FreeFrom(inventory[..], 11, 66);
        assert ids == first;
        ids, full := ScanPage(341, 396, count, ids);
        if full {
          assert count > 0 ==> FreeSlots(Surroundings(), inventory[..])[..count] == ids;
          return Some(ids);
        }
      }
      return None;
    }

    method FindItemInInventory(item: Slot) returns (k: int)
      requires Valid()
      ensures k == FindItem(inventory[..], item, 0)
    {
      for i := 0 to SLOT_COUNT
        invariant FindItem(inventory[..], item, 0) == FindItem(inventory[..], item, i)
      {
        if inventory[i].itemID == item.itemID {
          if !IsBank(i) && (!StacksByPlus(item.itemID) || inventory[i].plus == item.plus) {
            return i;
          }
        }
      }
      return -1;
    }

    // -------------------------------------------------------------- adding and taking

    method DecrementItem(slotID: int, amount: nat) returns (o: Outcome)
      requires Valid()
      modifies inventory
      ensures o == (if !InRange(slotID) then Panicked
                    else if !CanDecrement(old(inventory[..]), slotID, amount) then Ignored
                    else if old(inventory[slotID]).itemID !in items then Panicked
                    else Done)
      ensures o == Done ==>
                inventory[..] == old(inventory[..])[slotID := Reduced(old(inventory[slotID]), amount)]
      ensures o == Ignored ==> inventory[..] == old(inventory[..])
    {
      if !(0 <= slotID < inventory.Length) {
        return Panicked;
      }
      var slot := inventory[slotID];
      if slot.itemID == 0 || slot.quantity < amount {
        return Ignored;
      }
      inventory[slotID] := slot.(quantity := slot.quantity - amount);
      if slot.itemID !in items {
        return Panicked;
      }
      if inventory[slotID].quantity == 0 {
        inventory[slotID] := EMPTY;
      }
      return Done;
    }

    method AddItem(item: Slot, slotID: int) returns (o: Outcome, placed: int)
      requires Valid()
      modifies inventory, table
      ensures o == AddOutcome(old(Surroundings()), old(inventory[..]), item, slotID)
      ensures o == Done ==>
                var (k, stacking) := Placement(old(Surroundings()), old(inventory[..]), item, slotID);
                placed == k && Contents() == Added(old(Surroundings()), old(Contents()), item, k, stacking)
      ensures o != Done ==> placed == -1 && Contents() == old(Contents())
    {
      if item.itemID !in items {
        return Panicked, -1;
      }
      var k, stacking, added := slotID, false, item.(owner := Some(charID));
      if k == -1 {
        if items[item.itemID].stackable {
          k := FindItemInInventory(item);
          if k == -1 {
            k := FindFreeSlot();
          } else {
            stacking := true;
          }
        } else {
          k := FindFreeSlot();
        }
        if k == -1 {
          return Ignored, -1;
        }
      }
      if !(0 <= k < inventory.Length) {
        return Panicked, -1;
      }
      Store(added, k, stacking);
      return Done, k;
    }

    /** Puts an item into a slot; the slot keeps its row id, or gets a new one. */
    method Store(item: Slot, k: int, stacking: bool)
      requires Valid() && InRange(k) && item.owner == Some(charID)
      modifies inventory, table
      ensures Contents() == Added(Surroundings(), old(Contents()), item, k, stacking)
    {
      var added := item;
      if stacking {
        added := added.(quantity := (added.quantity + inventory[k].quantity) % TWO_64);
      }
      var id := inventory[k].id;
      inventory[k] := added.(slotID := k, id := id);
      if id == 0 {
        id := table.Insert();
        inventory[k] := inventory[k].(id := id);
      }
    }

    /** A box: the gold goes first, then room is reserved, then the rewards are handed out, and
        finally one box is used up.  Without room the gold is not given back. */
    method OpenWrapperBox(boxSlot: int, cost: U64, rewards: seq<Slot>) returns (o: Outcome)
      requires Valid() && WellFormed(Contents())
      requires rewards != []
      requires BagRuns.KnownRewards(Surroundings(), rewards) && BagRuns.Fits(inventory[..], rewards)
      requires InRange(boxSlot) && inventory[boxSlot].itemID in items && 0 < inventory[boxSlot].quantity
      modifies this`gold, inventory, table
      ensures o != Panicked
      ensures old(gold) < cost ==> o == Refused && gold == old(gold) && Contents() == old(Contents())
      ensures old(gold) >= cost ==> gold == old(gold) - cost
      ensures old(gold) >= cost ==>
                (o == Done <==> |FreeSlots(old(Surroundings()), old(inventory[..]))| >= |rewards|)
      ensures o != Done ==> Contents() == old(Contents())
      ensures o == Done ==> forall id :: id != 0 ==>
                Total(inventory[..], id) ==
                Total(old(inventory[..]), id) + BagRuns.RewardTotal(rewards, id)
                - (if id == old(inventory[boxSlot]).itemID then 1 else 0)
    {
      if gold < cost {
        return Refused;
      }
      gold := gold - cost;
      var room := FindFreeSlots(|rewards|);
      if room == None {
        return Ignored;
      }
      ghost var c, before := Surroundings(), Contents();
      BagRuns.ReservationSuffices(c, before, rewards);
      for i := 0 to |rewards|
        invariant Surroundings() == c && gold == old(gold) - cost
        invariant BagRuns.Opened(c, before, rewards) == BagRuns.Opened(c, Contents(), rewards[i..])
      {
        assert rewards[i..][0] == rewards[i] && rewards[i..][1..] == rewards[i + 1..];
        if rewards[i].itemID != 0 {
          var added, k := AddItem(rewards[i], -1);
          if added != Done {
            return Panicked;
          }
        }
      }
      BagRuns.OpeningKeepsSlot(c, before, rewards, boxSlot);
      ghost var full := inventory[..];
      o := DecrementItem(boxSlot, 1);
      forall id | id != 0 ensures Total(inventory[..], id) ==
        Total(full, id) - (if id == full[boxSlot].itemID then 1 else 0)
      {
        TotalUpdate(full, boxSlot, Reduced(full[boxSlot], 1), id);
      }
    }

    // -------------------------------------------------------------- rearranging

    method ReplaceItem(itemID: int, where: int, to: int) returns (o: Outcome)
      requires Valid()
      modifies inventory
      ensures o == ReplaceOutcome(Surroundings(), old(inventory[..]), where, to)
      ensures inventory[..] == if o == Done then Moved(Surroundings(), old(inventory[..]), itemID, where, to)
                               else old(inventory[..])
    {
      if onSale || onTrade {
        return Refused;
      }
      if !(0 <= where < inventory.Length) {
        return Panicked;
      }
      var whereItem := inventory[where];
      if whereItem.itemID == 0 {
        return Ignored;
      }
      if !(0 <= to < inventory.Length) {
        return Panicked;
      }
      var toItem := inventory[to];
      if (IsPetSlot(where) && IsPetSlot(to)) || (where == 10 && to == 10) {
        if whereItem.itemID !in items || toItem.itemID !in items {
          return Panicked;
        }
        if items[whereItem.itemID].slot != items[toItem.itemID].slot {
          return Refused;
        }
      }
      o := Relocate(where, to);
      if o == Done {
        TimeMoved(itemID, where, to);
      }
    }

    /** The four directions between bank and inventory. */
    method Relocate(where: int, to: int) returns (o: Outcome)
      requires Valid() && InRange(where) && InRange(to)
      modifies inventory
      ensures var x := old(inventory[where]);
              && o == (if old(inventory[to]).itemID != 0 then Ignored
                       else if IsBank(where) || !IsBank(to) then Done
                       else if x.activated || x.inUse then Ignored
                       else if x.itemID !in items then Panicked
                       else if items[x.itemID].tradable == 2 then Ignored
                       else Done)
              && inventory[..] ==
                 if o == Done
                 then old(inventory[..])
                        [to := x.(slotID := to, owner := MovedOwner(Surroundings(), x, where, to))]
                        [where := EMPTY]
                 else old(inventory[..])
    {
      var whereItem, toItem := inventory[where], inventory[to];
      if IsBank(where) && IsBank(to) && toItem.itemID == 0 {
        Carry(where, to, whereItem.owner);
      } else if IsBank(where) && !IsBank(to) && toItem.itemID == 0 {
        Carry(where, to, Some(charID));
      } else if IsBank(to) && !IsBank(where) && toItem.itemID == 0 && !whereItem.activated && !whereItem.inUse {
        if whereItem.itemID !in items {
          return Panicked;
        }
        if items[whereItem.itemID].tradable == 2 {
          return Ignored;
        }
        Carry(where, to, None);
      } else if !IsBank(to) && !IsBank(where) && toItem.itemID == 0 {
        Carry(where, to, whereItem.owner);
      } else {
        return Ignored;
      }
      return Done;
    }

    /** Overwrites the target slot with the item, then the source with a new slot. */
    method Carry(where: int, to: int, owner: Option<int>)
      requires Valid() && InRange(where) && InRange(to)
      modifies inventory
      ensures inventory[..] ==
              old(inventory[..])[to := old(inventory[where]).(slotID := to, owner := owner)][where := EMPTY]
    {
      inventory[to] := inventory[where].(slotID := to, owner := owner);
      inventory[where] := EMPTY;
    }

    /** The item moved to `to` stops or starts running; the timer is looked up under the id the
        client sent. */
    method TimeMoved(itemID: int, where: int, to: int)
      requires Valid() && InRange(where) && InRange(to)
      modifies inventory
      ensures inventory[..] == old(inventory[..])[to := inventory[to]]
      ensures inventory[to] == old(inventory[to]).(inUse :=
                if !Timed(Surroundings(), itemID) then old(inventory[to]).inUse
                else if AffectsStats(to) then true
                else if AffectsStats(where) then false
                else old(inventory[to]).inUse)
    {
      if AffectsStats(where) {
        if itemID in items && items[itemID].timer > 0 {
          inventory[to] := inventory[to].(inUse := false);
        }
      }
      if AffectsStats(to) {
        if itemID in items && items[itemID].timer > 0 {
          inventory[to] := inventory[to].(inUse := true);
        }
      }
    }

    method SwapItems(where: int, to: int) returns (o: Outcome)
      requires Valid()
      modifies inventory
      ensures o == SwapOutcome(Surroundings(), old(inventory[..]), where, to)
      ensures inventory[..] == if o == Done then Swapped(Surroundings(), old(inventory[..]), where, to)
                               else old(inventory[..])
    {
      if onSale || onTrade {
        return Refused;
      }
      if !(0 <= where < inventory.Length) || !(0 <= to < inventory.Length) {
        return Panicked;
      }
      var whereItem, toItem := inventory[where], inventory[to];
      if whereItem.itemID == 0 || toItem.itemID == 0 {
        return Ignored;
      }
      if IsBank(where) && IsBank(to) {
      } else if IsBank(where) && !IsBank(to) && !toItem.activated && !toItem.inUse {
      } else if IsBank(to) && !IsBank(where) && !whereItem.activated && !whereItem.inUse {
      } else if !IsBank(to) && !IsBank(where) {
        if whereItem.itemID == toItem.itemID {
          if whereItem.itemID !in items {
            return Panicked;
          }
          if items[whereItem.itemID].tradable != 2 {
            if whereItem.activated || whereItem.inUse || toItem.activated || toItem.inUse {
              return Ignored;
            }
          }
        }
      } else {
        return Ignored;
      }
      Exchange(where, to);
      return Done;
    }

    method Exchange(where: int, to: int)
      requires Valid() && InRange(where) && InRange(to)
      modifies inventory
      ensures inventory[..] == Swapped(Surroundings(), old(inventory[..]), where, to)
    {
      ghost var s := inventory[..];
      var temp := inventory[to];
      inventory[to] := inventory[where];
      inventory[where] := temp;
      inventory[to] := inventory[to].(slotID := to);
      inventory[where] := inventory[where].(slotID := where);
      StartAndStop(where, to);
      ghost var r := Swapped(Surroundings(), s, where, to);
      assert forall j :: 0 <= j < SLOT_COUNT ==> inventory[j] == r[j];
    }

    /** The item now at `where` starts or stops running, then the one now at `to`. */
    method StartAndStop(where: int, to: int)
      requires Valid() && InRange(where) && InRange(to)
      modifies inventory
      ensures forall j :: 0 <= j < SLOT_COUNT && j != where && j != to ==> inventory[j] == old(inventory[j])
      ensures inventory[to] ==
              var y := old(inventory[to]);
              if !Timed(Surroundings(), y.itemID) then y
              else if AffectsStats(to) then y.(inUse := true)
              else if AffectsStats(where) then y.(inUse := false)
              else y
      ensures where != to ==>
                inventory[where] == (
                  var x := old(inventory[where]);
                  if !Timed(Surroundings(), x.itemID) then x
                  else if AffectsStats(to) then x.(inUse := false)
                  else if AffectsStats(where) then x.(inUse := true)
                  else x)
    {
      if AffectsStats(where) {
        SetInUse(where, true);
        SetInUse(to, false);
      }
      if AffectsStats(to) {
        SetInUse(where, false);
        SetInUse(to, true);
      }
    }

    /** Timed items start and stop running with their position. */
    method SetInUse(k: int, inUse: bool)
      requires Valid() && InRange(k)
      modifies inventory
      ensures forall j :: 0 <= j < SLOT_COUNT && j != k ==> inventory[j] == old(inventory[j])
      ensures inventory[k] == if Timed(Surroundings(), old(inventory[k]).itemID)
                              then old(inventory[k]).(inUse := inUse) else old(inventory[k])
    {
      var itemID := inventory[k].itemID;
      if itemID in items && items[itemID].timer > 0 {
        inventory[k] := inventory[k].(inUse := inUse);
      }
    }

    method SplitItem(where: int, to: int, quantity: nat) returns (o: Outcome)
      requires Valid()
      modifies inventory, table
      ensures o == SplitOutcome(Surroundings(), old(inventory[..]), where, to, quantity)
      ensures Contents() == if o == Done then SplitBag(old(Contents()), where, to, quantity) else old(Contents())
    {
      if onSale || onTrade {
        return Refused;
      }
      if !(0 <= where < inventory.Length) || !(0 <= to < inventory.Length) {
        return Panicked;
      }
      var whereItem := inventory[where];
      if inventory[to].itemID != 0 || whereItem.activated || whereItem.inUse {
        return Ignored;
      }
      if whereItem.itemID !in items {
        return Panicked;
      }
      if items[whereItem.itemID].timer > 0 {
        return Ignored;
      }
      if quantity > 0 {
        if whereItem.quantity >= quantity {
          inventory[to] := whereItem.(slotID := to, quantity := quantity);
          var taken := DecrementItem(where, quantity);
        } else {
          return Ignored;
        }
        var id := table.Insert();
        inventory[to] := inventory[to].(id := id);
        return Done;
      }
      return Ignored;
    }

    method CombineItems(where: int, to: int) returns (o: Outcome, itemID: int, quantity: nat)
      requires Valid()
      modifies inventory
      ensures o == CombineOutcome(Surroundings(), old(inventory[..]), where, to)
      ensures inventory[..] == if o == Done then Combined(old(inventory[..]), where, to) else old(inventory[..])
      ensures o == Done && where != to ==> itemID == inventory[to].itemID && quantity == inventory[to].quantity
    {
      itemID, quantity := 0, 0;
      if !(0 <= where < inventory.Length) || !(0 <= to < inventory.Length) {
        return Panicked, 0, 0;
      }
      if inventory[to].itemID != inventory[where].itemID {
        return Ignored, 0, 0;
      }
      if inventory[to].itemID !in items {
        return Panicked, 0, 0;
      }
      if items[inventory[to].itemID].stackable {
        if inventory[where].plus == inventory[to].plus {
          inventory[to] := inventory[to].(quantity := (inventory[to].quantity + inventory[where].quantity) % TWO_64);
          inventory[where] := EMPTY;
          return Done, inventory[to].itemID, inventory[to].quantity;
        }
      }
      return Refused, 0, 0;
    }

    // -------------------------------------------------------------- gold and trade

    method LootGold(amount: U64)
      modifies this`gold
      ensures gold == Credit(old(gold), amount)
    {
      gold := (gold + amount) % TWO_64;
    }

    method RegisterItem(k: int, price: U64, house: Consignments) returns (o: Outcome)
      requires Valid()
      modifies this`gold, inventory, house
      ensures o == RegisterOutcome(Surroundings(), old(Person()), old(house.listings), k, price)
      ensures (Person(), house.listings) ==
              if o == Done then Registered(Surroundings(), old(Person()), old(house.listings), k, price)
              else (old(Person()), old(house.listings))
    {
      if onTrade {
        return Ignored;
      }
      if !(0 <= k < inventory.Length) {
        return Panicked;
      }
      var item := inventory[k];
      if k == 0 || item.activated || item.inUse {
        return Ignored;
      }
      var mine := set id | id in house.listings && house.listings[id].seller == charID;
      if |mine| >= MAX_LISTINGS {
        return Ignored;
      }
      var commission: U64 := Min(price / 100, 50_000_000);
      if gold < commission {
        return Ignored;
      }
      if item.itemID !in items || items[item.itemID].tradable == 2 {
        return Ignored;
      }
      if item.id in house.listings {
        return Refused;
      }
      var newItem := item.(slotID := -1, consignment := true);
      house.listings := house.listings[item.id := Listing(charID, price, false, newItem)];
      LootGold(Negate64(commission));
      inventory[k] := EMPTY;
      return Done;
    }

    method BuyConsignmentItem(id: int, house: Consignments) returns (o: Outcome)
      requires Valid()
      modifies this`gold, inventory, house
      ensures o == BuyOutcome(Surroundings(), old(Person()), old(house.listings), id)
      ensures o == Done ==> InRange(FirstFree(Surroundings(), old(inventory[..])))
      ensures (Person(), house.listings) ==
              if o == Done then Bought(Surroundings(), old(Person()), old(house.listings), id)
              else (old(Person()), old(house.listings))
    {
      if onTrade || id !in house.listings || house.listings[id].isSold {
        return Ignored;
      }
      var listing := house.listings[id];
      if gold < listing.price {
        return Ignored;
      }
      if listing.item.owner == None {
        return Panicked;
      }
      if listing.item.owner == Some(charID) {
        return Ignored;
      }
      var slotID := FindFreeSlot();
      if slotID == -1 {
        return Panicked;
      }
      BagRuns.FirstFreeSound(Surroundings(), inventory[..]);
      inventory[slotID] := listing.item.(consignment := false, owner := Some(charID), slotID := slotID);
      LootGold(Negate64(listing.price));
      house.listings := house.listings[id := listing.(isSold := true)];
      return Done;
    }

    method ClaimConsignmentItem(id: int, isCancel: bool, house: Consignments) returns (o: Outcome)
      requires Valid()
      modifies this`gold, inventory, house
      ensures o == ClaimOutcome(Surroundings(), old(Person()), old(house.listings), id, isCancel)
      ensures o == Done && isCancel ==> InRange(FirstFree(Surroundings(), old(inventory[..])))
      ensures (Person(), house.listings) ==
              if o == Done then Claimed(Surroundings(), old(Person()), old(house.listings), id, isCancel)
              else (old(Person()), old(house.listings))
    {
      if onTrade || id !in house.listings {
        return Ignored;
      }
      var listing := house.listings[id];
      if isCancel {
        if listing.isSold {
          return Ignored;
        }
        var slotID := FindFreeSlot();
        if slotID == -1 {
          return Panicked;
        }
        BagRuns.FirstFreeSound(Surroundings(), inventory[..]);
        inventory[slotID] := listing.item.(consignment := false, slotID := slotID);
      } else {
        if !listing.isSold {
          return Ignored;
        }
        LootGold(listing.price);
      }
      house.listings := house.listings - {id};
      return Done;
    }

    method OpenSale(offers: seq<(int, U64)>) returns (o: Outcome, stall: Stall?)
      requires Valid()
      requires forall i :: 0 <= i < SLOT_COUNT && inventory[i].itemID == 0 ==> inventory[i] == EMPTY
      modifies inventory
      ensures o == if AnyOfferPanics(Surroundings(), inventory[..], offers) then Panicked else Done
      ensures inventory[..] == old(inventory[..])
      ensures o == Panicked ==> stall == null
      ensures o == Done ==>
                && stall != null && stall.seller == this
                && stall.items == Stocked(Surroundings(), inventory[..], offers) && StallOk(stall.items)
    {
      var kept: seq<SaleItem> := [];
      ghost var s := inventory[..];
      for i := 0 to |offers|
        invariant forall j :: 0 <= j < i ==> !OfferPanics(Surroundings(), s, offers[j].0, offers[j].1)
        invariant kept + Stocked(Surroundings(), s, offers[i..]) == Stocked(Surroundings(), s, offers)
      {
        var slotID, price := offers[i].0, offers[i].1;
        assert offers[i..][0] == offers[i] && offers[i..][1..] == offers[i + 1..];
        if !(0 <= slotID < inventory.Length) {
          assert OfferPanics(Surroundings(), s, offers[i].0, offers[i].1);
          return Panicked, null;
        }
        var item := inventory[slotID];
        if slotID == 0 || price == 0 || item.itemID == 0 {
          continue;
        }
        if item.itemID !in items {
          assert OfferPanics(Surroundings(), s, offers[i].0, offers[i].1);
          return Panicked, null;
        }
        if items[item.itemID].tradable == 2 {
          continue;
        }
        kept := kept + [SaleItem(slotID, price, false)];
      }
      assert kept == Stocked(Surroundings(), s, offers);
      StockedOk(Surroundings(), s, offers);
      var mine := new Stall(this, kept);
      mine.SaleData();
      return Done, mine;
    }

    /** Buying from a stall writes the buyer's slot, whatever it held, and empties the seller's. */
    method BuySaleItem(stall: Stall, index: int, slotID: int) returns (o: Outcome)
      requires Valid() && stall.seller.Valid() && stall.seller != this
      requires stall.seller.inventory != inventory && StallOk(stall.items)
      requires forall i :: 0 <= i < SLOT_COUNT && stall.seller.inventory[i].itemID == 0 ==>
                 stall.seller.inventory[i] == EMPTY
      modifies this`gold, inventory, stall.seller`gold, stall.seller.inventory, stall`items
      ensures Purchase(o, Person(), stall.seller.Person(), stall.items) ==
              StallPurchase(Surroundings(), old(Person()), old(stall.seller.Person()), old(stall.items), index, slotID)
      ensures o == Done ==>
                && 0 <= index < |old(stall.items)| && !old(stall.items)[index].isSold
                && stall.items == old(stall.items)[index := old(stall.items)[index].(isSold := true)]
    {
      var seller := stall.seller;
      if !(0 <= index < |stall.items|) {
        return Panicked;
      }
      var saleItem := stall.items[index];
      if saleItem.isSold {
        return Ignored;
      }
      var item := seller.inventory[saleItem.slotID];
      if item.itemID == 0 || gold < saleItem.price {
        return Ignored;
      }
      LootGold(Negate64(saleItem.price));
      seller.gold := (seller.gold + saleItem.price) % TWO_64;
      if !(0 <= slotID < inventory.Length) {
        return Panicked;
      }
      inventory[slotID] := item.(owner := Some(charID), slotID := slotID);
      stall.items := stall.items[index := saleItem.(isSold := true)];
      seller.inventory[saleItem.slotID] := EMPTY;
      if exists i :: 0 <= i < |stall.items| && !stall.items[i].isSold {
        stall.SaleData();
      }
      return Done;
    }

    // -------------------------------------------------------------- upgrading

    /** How the dice fall: success, perhaps with bonus levels; a softened failure; a destroyed item. */
    method BSUpgrade(k: int, stone: int, stonePlus: nat, bonus: nat, success: bool, softened: bool,
                     loss: nat, cost: U64) returns (o: Outcome)
      requires Valid() && InRange(k) && inventory[k].itemID != 0 && Rep(inventory[k])
      requires 0 < stone < 256 && stonePlus <= 240 && bonus <= 4 && loss < 256
      modifies this`gold, inventory
      ensures Rep(inventory[k])
      ensures o == (if old(inventory[k]).plus >= 12 || cost > old(gold) then Ignored else Done)
      ensures gold == if o == Done then old(gold) - cost else old(gold)
      ensures forall j :: 0 <= j < SLOT_COUNT && j != k ==> inventory[j] == old(inventory[j])
      ensures o == Ignored ==> inventory[k] == old(inventory[k])
      ensures o == Done && success ==>
                var p := old(inventory[k]).plus;
                var raised := if stonePlus == 0 then p + 1 else if p + stonePlus > 15 then 15 else p + stonePlus;
                var n := (if raised + bonus > 15 then 15 else raised + bonus) - p;
                && inventory[k] == old(inventory[k]).(plus := p + n, upgradeArr := inventory[k].upgradeArr) && n > 0
                && GetUpgrades(inventory[k])[..p + n] == GetUpgrades(old(inventory[k]))[..p] + Repeat(stone, n)
      ensures o == Done && !success && softened ==>
                var p := old(inventory[k]).plus;
                && inventory[k].plus == (if p >= loss then p - loss else 0)
                && inventory[k] == old(inventory[k]).(plus := inventory[k].plus, upgradeArr := inventory[k].upgradeArr)
                && GetUpgrades(inventory[k]) == Cut(GetUpgrades(old(inventory[k])), inventory[k].plus)
      ensures o == Done && !success && !softened ==> inventory[k] == EMPTY
    {
      var item := inventory[k];
      if item.plus >= 12 || cost > gold {
        return Ignored;
      }
      ghost var upgs := GetUpgrades(item);
      LootGold(Negate64(cost));
      if success {
        var codes := Repeat(stone, UpgradeTarget(item.plus, stonePlus) + bonus - item.plus);
        AppendedShape(upgs, item.plus, codes);
        AppendedRepeat(upgs, item.plus, stone, |codes|);
        var done := Upgrade(inventory, k, codes);
      } else if softened {
        CutShape(upgs, item.plus, Max(item.plus - loss, 0));
        Soften(inventory, k, loss);
      } else {
        EmptyRep();
        inventory[k] := EMPTY;
      }
      return Done;
    }

    /** Takes the last code out; an item without levels indexes code -1. */
    method Extraction(k: int, cost: U64) returns (o: Outcome)
      requires Valid() && InRange(k) && Rep(inventory[k])
      modifies this`gold, inventory
      ensures Rep(inventory[k])
      ensures o == (if old(inventory[k]).plus == 0 then Panicked
                    else if old(gold) < cost then Ignored else Done)
      ensures gold == if o == Done then old(gold) - cost else old(gold)
      ensures forall j :: 0 <= j < SLOT_COUNT && j != k ==> inventory[j] == old(inventory[j])
      ensures o != Done ==> inventory[k] == old(inventory[k])
      ensures o == Done ==>
                && inventory[k].plus == old(inventory[k]).plus - 1
                && inventory[k] == old(inventory[k]).(plus := inventory[k].plus, upgradeArr := inventory[k].upgradeArr)
                && GetUpgrades(inventory[k]) == Cut(GetUpgrades(old(inventory[k])), inventory[k].plus)
    {
      if inventory[k].plus == 0 {
        return Panicked;
      }
      if gold < cost {
        return Ignored;
      }
      LootGold(Negate64(cost));
      inventory[k] := inventory[k].(plus := inventory[k].plus - 1);
      SetUpgrade(inventory, k, inventory[k].plus, 0);
      return Done;
    }

    /** Rewrites one held code, chosen by `randSlot`, with the low byte of the water's code. */
    method HolyWaterUpgrade(k: int, upgrade: int, randSlot: nat) returns (o: Outcome)
      requires Valid() && InRange(k) && Rep(inventory[k])
      requires inventory[k].plus > 0 ==> randSlot < inventory[k].plus
      modifies inventory
      ensures Rep(inventory[k]) <==> o == Ignored || upgrade % 256 != 0
      ensures o == (if old(inventory[k]).plus == 0 || upgrade <= 0 then Ignored else Done)
      ensures forall j :: 0 <= j < SLOT_COUNT && j != k ==> inventory[j] == old(inventory[j])
      ensures o == Ignored ==> inventory[k] == old(inventory[k])
      ensures o == Done ==>
                && inventory[k] == old(inventory[k]).(upgradeArr := inventory[k].upgradeArr)
                && GetUpgrades(inventory[k]) == GetUpgrades(old(inventory[k]))[randSlot := upgrade % 256]
    {
      if inventory[k].plus == 0 || upgrade <= 0 {
        return Ignored;
      }
      SetUpgrade(inventory, k, randSlot, upgrade % 256);
      assert GetUpgrades(inventory[k])[randSlot] == upgrade % 256;
      return Done;
    }
  }

  /** One level, or as many as a precious stone carries, up to 15. */
  function UpgradeTarget(plus: nat, stonePlus: nat): nat {
    if stonePlus > 0 then Min(plus + stonePlus, MAX_PLUS) else plus + 1
  }
}
