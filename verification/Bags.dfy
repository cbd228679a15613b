/** What the inventory handlers compute, as functions of the 450 slots: move, swap, split,
    combine, decrement, add, and the search for free slots. */
module Bags {
  import opened Prelude
  import opened Slots

  /** The surroundings a handler consults besides the slots. */
  datatype Context = Context(items: Catalog, charID: int, expanded: bool, onSale: bool, onTrade: bool)

  /** The slots of one character and the next id the item table will hand out. */
  datatype Bag = Bag(slots: seq<Slot>, nextID: nat)

  predicate InRange(k: int) {
    0 <= k < SLOT_COUNT
  }

  predicate Timed(c: Context, itemID: int) {
    itemID in c.items && c.items[itemID].timer > 0
  }

  // ---------------------------------------------------------------- the invariant

  ghost predicate Distinct(s: seq<Slot>) {
    forall i, j :: 0 <= i < j < |s| && s[i].itemID != 0 && s[j].itemID != 0 ==> s[i].id != s[j].id
  }

  /** Every empty slot is a new slot; every occupied slot knows its index and has an id that no
      other slot has and that the item table has already handed out. */
  ghost predicate WellFormed(b: Bag) {
    && |b.slots| == SLOT_COUNT
    && 0 < b.nextID
    && (forall i :: 0 <= i < SLOT_COUNT && b.slots[i].itemID == 0 ==> b.slots[i] == EMPTY)
    && (forall i :: 0 <= i < SLOT_COUNT && b.slots[i].itemID != 0 ==>
          b.slots[i].slotID == i && 0 < b.slots[i].id < b.nextID)
    && Distinct(b.slots)
  }

  // ---------------------------------------------------------------- quantities

  function Share(x: Slot, itemID: int): nat {
    if x.itemID == itemID then x.quantity else 0
  }

  /** Quantity of one item over all slots. */
  function Total(s: seq<Slot>, itemID: int): nat {
    if s == [] then 0 else Share(s[0], itemID) + Total(s[1..], itemID)
  }

  lemma {:induction false} TotalUpdate(s: seq<Slot>, k: nat, x: Slot, itemID: int)
    requires k < |s|
    ensures Total(s[k := x], itemID) == Total(s, itemID) - Share(s[k], itemID) + Share(x, itemID)
  {
    if k == 0 {
      assert s[k := x][1..] == s[1..];
    } else {
      assert s[k := x][1..] == s[1..][k - 1 := x];
      TotalUpdate(s[1..], k - 1, x, itemID);
    }
  }

  lemma TotalUpdateTwo(s: seq<Slot>, j: nat, k: nat, x: Slot, y: Slot, itemID: int)
    requires j < |s| && k < |s| && j != k
    ensures Total(s[j := x][k := y], itemID) == Total(s, itemID)
              - Share(s[j], itemID) - Share(s[k], itemID) + Share(x, itemID) + Share(y, itemID)
  {
    TotalUpdate(s, j, x, itemID);
    TotalUpdate(s[j := x], k, y, itemID);
  }

  /** Two different slots never hold more than the total. */
  lemma TwoShares(s: seq<Slot>, j: nat, k: nat, itemID: int)
    requires j < |s| && k < |s| && j != k
    ensures Share(s[j], itemID) + Share(s[k], itemID) <= Total(s, itemID)
  {
    var none := EMPTY.(quantity := 0);
    TotalUpdateTwo(s, j, k, none, none, itemID);
  }

  lemma OneShare(s: seq<Slot>, k: nat, itemID: int)
    requires k < |s|
    ensures Share(s[k], itemID) <= Total(s, itemID)
  {
    TotalUpdate(s, k, EMPTY.(quantity := 0), itemID);
  }

  // ---------------------------------------------------------------- ReplaceItem

  /** The extra check between two pet-equipment slots, which dereferences both item rows. */
  predicate KindChecked(where: int, to: int) {
    (IsPetSlot(where) && IsPetSlot(to)) || (where == 10 && to == 10)
  }

  function ReplaceOutcome(c: Context, s: seq<Slot>, where: int, to: int): Outcome
    requires |s| == SLOT_COUNT
  {
    if c.onSale || c.onTrade then Refused
    else if !InRange(where) then Panicked
    else if s[where].itemID == 0 then Ignored
    else if !InRange(to) then Panicked
    else
      var w, t := s[where].itemID, s[to].itemID;
      if KindChecked(where, to) && (w !in c.items || t !in c.items) then Panicked
      else if KindChecked(where, to) && c.items[w].slot != c.items[t].slot then Refused
      else if t != 0 then Ignored
      else if IsBank(where) || !IsBank(to) then Done
      else if s[where].activated || s[where].inUse then Ignored
      else if w !in c.items then Panicked
      else if c.items[w].tradable == 2 then Ignored
      else Done
  }

  /** Bank items belong to the user, not to a character. */
  function MovedOwner(c: Context, x: Slot, where: int, to: int): Option<int> {
    if IsBank(where) == IsBank(to) then x.owner
    else if IsBank(to) then None
    else Some(c.charID)
  }

  function Moved(c: Context, s: seq<Slot>, itemID: int, where: int, to: int): (r: seq<Slot>)
    requires |s| == SLOT_COUNT && InRange(where) && InRange(to)
    ensures |r| == |s|
  {
    var x := s[where];
    var inUse :=
      if !Timed(c, itemID) then x.inUse
      else if AffectsStats(to) then true
      else if AffectsStats(where) then false
      else x.inUse;
    s[to := x.(slotID := to, owner := MovedOwner(c, x, where, to), inUse := inUse)][where := EMPTY]
  }

  // ---------------------------------------------------------------- SwapItems

  function SwapOutcome(c: Context, s: seq<Slot>, where: int, to: int): Outcome
    requires |s| == SLOT_COUNT
  {
    if c.onSale || c.onTrade then Refused
    else if !InRange(where) || !InRange(to) then Panicked
    else
      var x, y := s[where], s[to];
      if x.itemID == 0 || y.itemID == 0 then Ignored
      else if IsBank(where) && IsBank(to) then Done
      else if IsBank(where) then (if y.activated || y.inUse then Ignored else Done)
      else if IsBank(to) then (if x.activated || x.inUse then Ignored else Done)
      else if x.itemID != y.itemID then Done
      else if x.itemID !in c.items then Panicked
      else if c.items[x.itemID].tradable != 2 && (x.activated || x.inUse || y.activated || y.inUse) then Ignored
      else Done
  }

  function Swapped(c: Context, s: seq<Slot>, where: int, to: int): (r: seq<Slot>)
    requires |s| == SLOT_COUNT && InRange(where) && InRange(to)
    ensures |r| == |s|
  {
    var x, y := s[to], s[where];  // x arrives at `where`, y arrives at `to`
    var xInUse :=
      if Timed(c, x.itemID) && AffectsStats(to) then false
      else if Timed(c, x.itemID) && AffectsStats(where) then true
      else x.inUse;
    var yInUse :=
      if Timed(c, y.itemID) && AffectsStats(to) then true
      else if Timed(c, y.itemID) && AffectsStats(where) then false
      else y.inUse;
    s[where := x.(slotID := where, inUse := xInUse)][to := y.(slotID := to, inUse := yInUse)]
  }

  // ---------------------------------------------------------------- SplitItem

  function SplitOutcome(c: Context, s: seq<Slot>, where: int, to: int, quantity: nat): Outcome
    requires |s| == SLOT_COUNT
  {
    if c.onSale || c.onTrade then Refused
    else if !InRange(where) || !InRange(to) then Panicked
    else if s[to].itemID != 0 || s[where].activated || s[where].inUse then Ignored
    else if s[where].itemID !in c.items then Panicked
    else if c.items[s[where].itemID].timer > 0 then Ignored
    else if 0 < quantity <= s[where].quantity then Done
    else Ignored
  }

  /** A slot with part of its stack taken; an emptied one becomes a new slot. */
  function Reduced(x: Slot, amount: nat): Slot
    requires amount <= x.quantity
  {
    if x.quantity == amount then EMPTY else x.(quantity := x.quantity - amount)
  }

  function SplitBag(b: Bag, where: int, to: int, quantity: nat): (r: Bag)
    requires |b.slots| == SLOT_COUNT && InRange(where) && InRange(to) && quantity <= b.slots[where].quantity
    ensures |r.slots| == SLOT_COUNT
  {
    var x := b.slots[where];
    Bag(b.slots[where := Reduced(x, quantity)][to := x.(id := b.nextID, slotID := to, quantity := quantity)],
        b.nextID + 1)
  }

  // ---------------------------------------------------------------- CombineItems

  function CombineOutcome(c: Context, s: seq<Slot>, where: int, to: int): Outcome
    requires |s| == SLOT_COUNT
  {
    if !InRange(where) || !InRange(to) then Panicked
    else if s[to].itemID != s[where].itemID then Ignored
    else if s[to].itemID !in c.items then Panicked
    else if c.items[s[to].itemID].stackable && s[where].plus == s[to].plus then Done
    else Refused
  }

  function Combined(s: seq<Slot>, where: int, to: int): (r: seq<Slot>)
    requires |s| == SLOT_COUNT && InRange(where) && InRange(to)
    ensures |r| == |s|
  {
    s[to := s[to].(quantity := (s[to].quantity + s[where].quantity) % TWO_64)][where := EMPTY]
  }

  // ---------------------------------------------------------------- free slots

  function FreeFrom(s: seq<Slot>, lo: int, hi: int): seq<int>
    requires |s| == SLOT_COUNT && 0 <= lo && hi < SLOT_COUNT
    decreases |s|, hi - lo
  {
    if lo > hi then []
    else (if s[lo].itemID == 0 then [lo] else []) + FreeFrom(s, lo + 1, hi)
  }

  /** The free slots in the order they are handed out: 11 to 66, then, if the bag is
      expanded, 341 to 396. */
  function FreeSlots(c: Context, s: seq<Slot>): seq<int>
    requires |s| == SLOT_COUNT
  {
    FreeFrom(s, 11, 66) + (if c.expanded then FreeFrom(s, 341, 396) else [])
  }

  function FirstFree(c: Context, s: seq<Slot>): int
    requires |s| == SLOT_COUNT
  {
    if FreeSlots(c, s) == [] then -1 else FreeSlots(c, s)[0]
  }

  /** Meaningful for a positive count.  Zero succeeds, with no slot, only when slot 11 is taken. */
  function Reservation(c: Context, s: seq<Slot>, count: int): Option<seq<int>>
    requires |s| == SLOT_COUNT
  {
    if count > 0 then
      if |FreeSlots(c, s)| >= count then Some(FreeSlots(c, s)[..count]) else None
    else if count == 0 && s[11].itemID != 0 then Some([])
    else None
  }

  // ---------------------------------------------------------------- AddItem

  /** Socket, precious pendant and ghost dagger stones stack only at equal level. */
  predicate StacksByPlus(itemID: int) {
    itemID == 235 || itemID == 242 || itemID == 254
  }

  predicate Matches(x: Slot, item: Slot) {
    x.itemID == item.itemID && (StacksByPlus(item.itemID) ==> x.plus == item.plus)
  }

  /** The first matching slot outside the bank, or -1. */
  function FindItem(s: seq<Slot>, item: Slot, i: nat): (k: int)
    requires i <= |s|
    ensures k == -1 || (i <= k < |s| && !IsBank(k) && Matches(s[k], item))
    ensures k == -1 ==> forall j :: i <= j < |s| ==> IsBank(j) || !Matches(s[j], item)
    ensures k >= 0 ==> forall j :: i <= j < k ==> IsBank(j) || !Matches(s[j], item)
    decreases |s| - i
  {
    if i == |s| then -1
    else if !IsBank(i) && Matches(s[i], item) then i
    else FindItem(s, item, i + 1)
  }

  /** Where a new item goes and whether it joins a stack. */
  function Placement(c: Context, s: seq<Slot>, item: Slot, slotID: int): (int, bool)
    requires |s| == SLOT_COUNT && item.itemID in c.items
  {
    if slotID != -1 then (slotID, false)
    else if c.items[item.itemID].stackable && FindItem(s, item, 0) != -1 then (FindItem(s, item, 0), true)
    else (FirstFree(c, s), false)
  }

  function AddOutcome(c: Context, s: seq<Slot>, item: Slot, slotID: int): Outcome
    requires |s| == SLOT_COUNT
  {
    if item.itemID !in c.items then Panicked
    else
      var k := Placement(c, s, item, slotID).0;
      if k == -1 then Ignored else if InRange(k) then Done else Panicked
  }

  function Added(c: Context, b: Bag, item: Slot, k: int, stacking: bool): (r: Bag)
    requires |b.slots| == SLOT_COUNT && InRange(k)
    ensures |r.slots| == SLOT_COUNT
  {
    var prior := b.slots[k];
    var quantity := if stacking then (item.quantity + prior.quantity) % TWO_64 else item.quantity;
    var id := if prior.id > 0 then prior.id else b.nextID;
    Bag(b.slots[k := item.(id := id, owner := Some(c.charID), slotID := k, quantity := quantity)],
        if prior.id > 0 then b.nextID else b.nextID + 1)
  }

  // ---------------------------------------------------------------- DecrementItem

  predicate CanDecrement(s: seq<Slot>, slotID: int, amount: nat)
    requires |s| == SLOT_COUNT && InRange(slotID)
  {
    s[slotID].itemID != 0 && amount <= s[slotID].quantity
  }
}
