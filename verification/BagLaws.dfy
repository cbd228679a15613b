/** The inventory requests in plain terms: when each takes effect, what it leaves in the two slots,
    and which of them keep owners and timers right. */
module BagLaws {
  import opened Prelude
  import opened Slots
  import opened Bags
  import BagRuns

  /** An item apart from its slot, its owner and its timer. */
  function Wares(x: Slot): Slot {
    x.(slotID := 0, owner := None, inUse := false)
  }

  // ---------------------------------------------------------------- when

  predicate Running(x: Slot) {
    x.activated || x.inUse
  }

  /** Who trades moves nothing.  Otherwise a move takes effect exactly when the target is empty, the
      two are not both pet-equipment slots, and what goes from the bags into the bank is unbound and
      not running. */
  lemma MovesIff(c: Context, s: seq<Slot>, where: int, to: int)
    requires |s| == SLOT_COUNT
    ensures ReplaceOutcome(c, s, where, to) == Done <==>
            && !c.onSale && !c.onTrade && 0 <= where < 450 && 0 <= to < 450
            && s[where].itemID != 0 && s[to].itemID == 0
            && !(317 <= where <= 319 && 317 <= to <= 319)
            && (67 <= to <= 306 && !(67 <= where <= 306) ==>
                  && !Running(s[where])
                  && s[where].itemID in c.items && c.items[s[where].itemID].tradable != 2)
  {
  }

  /** A swap takes effect exactly when both slots hold something, nothing running leaves the bags for
      the bank, and of two items alike inside the bags, unless they are bound, neither runs. */
  lemma SwapsIff(c: Context, s: seq<Slot>, where: int, to: int)
    requires |s| == SLOT_COUNT
    ensures SwapOutcome(c, s, where, to) == Done <==>
            && !c.onSale && !c.onTrade && 0 <= where < 450 && 0 <= to < 450
            && s[where].itemID != 0 && s[to].itemID != 0
            && (67 <= where <= 306 && !(67 <= to <= 306) ==> !Running(s[to]))
            && (67 <= to <= 306 && !(67 <= where <= 306) ==> !Running(s[where]))
            && (!(67 <= where <= 306) && !(67 <= to <= 306) && s[where].itemID == s[to].itemID ==>
                  && s[where].itemID in c.items
                  && (c.items[s[where].itemID].tradable == 2 || (!Running(s[where]) && !Running(s[to]))))
  {
  }

  /** A split takes effect exactly for one item up to all of an idle, untimed stack, into an empty slot. */
  lemma SplitsIff(c: Context, s: seq<Slot>, where: int, to: int, quantity: nat)
    requires |s| == SLOT_COUNT
    ensures SplitOutcome(c, s, where, to, quantity) == Done <==>
            && !c.onSale && !c.onTrade && 0 <= where < 450 && 0 <= to < 450
            && s[to].itemID == 0 && !Running(s[where])
            && s[where].itemID in c.items && c.items[s[where].itemID].timer <= 0
            && 1 <= quantity <= s[where].quantity
  {
  }

  /** A combine takes effect exactly between two stacks of one stackable item at the same level, and is
      the only request that a trade does not stop. */
  lemma CombinesIff(c: Context, s: seq<Slot>, where: int, to: int)
    requires |s| == SLOT_COUNT
    ensures CombineOutcome(c, s, where, to) == Done <==>
            && 0 <= where < 450 && 0 <= to < 450
            && s[where].itemID == s[to].itemID && s[to].itemID in c.items
            && c.items[s[to].itemID].stackable && s[where].plus == s[to].plus
  {
  }

  // ---------------------------------------------------------------- what

  /** The item arrives whole, the slot it left is new, and nothing else moves. */
  lemma MoveCarries(c: Context, s: seq<Slot>, itemID: int, where: int, to: int)
    requires |s| == SLOT_COUNT && ReplaceOutcome(c, s, where, to) == Done
    ensures var r := Moved(c, s, itemID, where, to);
            && Wares(r[to]) == Wares(s[where]) && r[to].slotID == to && r[where] == EMPTY
            && forall k :: 0 <= k < SLOT_COUNT && k != where && k != to ==> r[k] == s[k]
  {
  }

  lemma SwapCarries(c: Context, s: seq<Slot>, where: int, to: int)
    requires |s| == SLOT_COUNT && SwapOutcome(c, s, where, to) == Done
    ensures var r := Swapped(c, s, where, to);
            && Wares(r[to]) == Wares(s[where]) && Wares(r[where]) == Wares(s[to])
            && r[to].slotID == to && r[where].slotID == where
            && r[to].owner == s[where].owner && r[where].owner == s[to].owner
            && forall k :: 0 <= k < SLOT_COUNT && k != where && k != to ==> r[k] == s[k]
  {
  }

  /** The two parts add up and are alike but for the row id of the new one. */
  lemma SplitDivides(c: Context, b: Bag, where: int, to: int, quantity: nat)
    requires |b.slots| == SLOT_COUNT && SplitOutcome(c, b.slots, where, to, quantity) == Done
    ensures var s, r := b.slots, SplitBag(b, where, to, quantity);
            && r.slots[to].quantity == quantity && r.slots[to].id == b.nextID && r.nextID == b.nextID + 1
            && Wares(r.slots[to].(id := s[where].id, quantity := s[where].quantity)) == Wares(s[where])
            && r.slots[to].slotID == to && r.slots[to].owner == s[where].owner && !r.slots[to].inUse
            && (if s[where].quantity > quantity
                then r.slots[where] == s[where].(quantity := r.slots[where].quantity)
                     && r.slots[where].quantity + quantity == s[where].quantity
                else r.slots[where] == EMPTY)
            && forall k :: 0 <= k < SLOT_COUNT && k != where && k != to ==> r.slots[k] == s[k]
  {
  }

  /** The stack combined into keeps everything of its own, codes included, and grows by the other. */
  lemma CombineJoins(c: Context, s: seq<Slot>, where: int, to: int)
    requires |s| == SLOT_COUNT && CombineOutcome(c, s, where, to) == Done && where != to
    ensures var r, sum := Combined(s, where, to), s[where].quantity + s[to].quantity;
            && r[to] == s[to].(quantity := r[to].quantity)
            && (sum < TWO_64 ==> r[to].quantity == sum)
            && r[where] == EMPTY
            && forall k :: 0 <= k < SLOT_COUNT && k != where && k != to ==> r[k] == s[k]
  {
  }

  /** A new item lies in one slot, labelled as this character's; if it joins a stack of its like the
      quantities add up, and all else, level and codes included, is the newcomer's. */
  lemma AddPlaces(c: Context, b: Bag, item: Slot)
    requires |b.slots| == SLOT_COUNT && AddOutcome(c, b.slots, item, -1) == Done
    ensures var (k, stacking) := Placement(c, b.slots, item, -1);
            && InRange(k) && !IsBank(k)
            && (stacking <==>
                  && c.items[item.itemID].stackable
                  && exists j :: 0 <= j < SLOT_COUNT && !IsBank(j) && Matches(b.slots[j], item))
            && (if stacking then Matches(b.slots[k], item) else b.slots[k].itemID == 0)
            && var r := Added(c, b, item, k, stacking);
               && r.slots[k].owner == Some(c.charID) && r.slots[k].slotID == k
               && (!stacking ==> r.slots[k].quantity == item.quantity)
               && (stacking && item.quantity + b.slots[k].quantity < TWO_64 ==>
                     r.slots[k].quantity == item.quantity + b.slots[k].quantity)
               && r.slots[k].id == (if b.slots[k].id > 0 then b.slots[k].id else b.nextID)
               && Wares(r.slots[k].(id := item.id, quantity := item.quantity, inUse := item.inUse)) == Wares(item)
               && forall j :: 0 <= j < SLOT_COUNT && j != k ==> r.slots[j] == b.slots[j]
  {
    BagRuns.FirstFreeSound(c, b.slots);
    var k := FindItem(b.slots, item, 0);
    if k != -1 {
      assert !IsBank(k) && Matches(b.slots[k], item);
    }
  }

  // ---------------------------------------------------------------- owners

  /** The bank belongs to nobody in particular, the bags to this character. */
  ghost predicate Owned(c: Context, s: seq<Slot>) {
    forall k :: 0 <= k < |s| && s[k].itemID != 0 ==> s[k].owner == if IsBank(k) then None else Some(c.charID)
  }

  /** Moves keep every owner right, in all four directions. */
  lemma MoveKeepsOwners(c: Context, s: seq<Slot>, itemID: int, where: int, to: int)
    requires |s| == SLOT_COUNT && Owned(c, s) && ReplaceOutcome(c, s, where, to) == Done
    ensures Owned(c, Moved(c, s, itemID, where, to))
  {
  }

  /** Swaps carry owners along, so they keep them right exactly inside the bank or inside the bags. */
  lemma SwapKeepsOwnersIff(c: Context, s: seq<Slot>, where: int, to: int)
    requires |s| == SLOT_COUNT && Owned(c, s) && SwapOutcome(c, s, where, to) == Done
    ensures Owned(c, Swapped(c, s, where, to)) <==> IsBank(where) == IsBank(to)
  {
    var r := Swapped(c, s, where, to);
    assert r[to].itemID != 0 && r[to].owner == s[where].owner;
  }

  /** So do splits. */
  lemma SplitKeepsOwnersIff(c: Context, b: Bag, where: int, to: int, quantity: nat)
    requires |b.slots| == SLOT_COUNT && Owned(c, b.slots) && SplitOutcome(c, b.slots, where, to, quantity) == Done
    ensures Owned(c, SplitBag(b, where, to, quantity).slots) <==> IsBank(where) == IsBank(to)
  {
    var r := SplitBag(b, where, to, quantity).slots;
    assert r[to].itemID != 0 && r[to].owner == b.slots[where].owner;
  }

  lemma CombineKeepsOwners(c: Context, s: seq<Slot>, where: int, to: int)
    requires |s| == SLOT_COUNT && Owned(c, s) && CombineOutcome(c, s, where, to) == Done
    ensures Owned(c, Combined(s, where, to))
  {
  }

  // ---------------------------------------------------------------- timers

  /** A timed item runs exactly while it lies where it counts. */
  ghost predicate Ticking(c: Context, s: seq<Slot>) {
    forall k :: 0 <= k < |s| && Timed(c, s[k].itemID) ==> (s[k].inUse <==> AffectsStats(k))
  }

  /** A move consults the item id the client sent.  It keeps timers right exactly unless a timed item
      goes on or off under the id of something untimed. */
  lemma MoveKeepsTimersIff(c: Context, s: seq<Slot>, itemID: int, where: int, to: int)
    requires |s| == SLOT_COUNT && Ticking(c, s) && ReplaceOutcome(c, s, where, to) == Done
    ensures Ticking(c, Moved(c, s, itemID, where, to)) <==>
            !(Timed(c, s[where].itemID) && AffectsStats(where) != AffectsStats(to) && !Timed(c, itemID))
  {
    var r := Moved(c, s, itemID, where, to);
    assert r[to].itemID == s[where].itemID && r[where] == EMPTY && where != to;
  }

  /** A swap stops what leaves a counting slot last, so between two of them the item that arrives at
      `where` is left stopped: timers stay right exactly unless that item is timed. */
  lemma SwapKeepsTimersIff(c: Context, s: seq<Slot>, where: int, to: int)
    requires |s| == SLOT_COUNT && Ticking(c, s) && SwapOutcome(c, s, where, to) == Done
    ensures Ticking(c, Swapped(c, s, where, to)) <==>
            !(where != to && AffectsStats(where) && AffectsStats(to) && Timed(c, s[to].itemID))
  {
    var r := Swapped(c, s, where, to);
    assert r[to].itemID == s[where].itemID && (where != to ==> r[where].itemID == s[to].itemID);
  }

  /** Splits and combines start and stop nothing. */
  lemma SplitKeepsTimers(c: Context, b: Bag, where: int, to: int, quantity: nat)
    requires |b.slots| == SLOT_COUNT && Ticking(c, b.slots) && SplitOutcome(c, b.slots, where, to, quantity) == Done
    ensures Ticking(c, SplitBag(b, where, to, quantity).slots)
  {
  }

  lemma CombineKeepsTimers(c: Context, s: seq<Slot>, where: int, to: int)
    requires |s| == SLOT_COUNT && Ticking(c, s) && CombineOutcome(c, s, where, to) == Done
    ensures Ticking(c, Combined(s, where, to))
  {
  }

  // ---------------------------------------------------------------- runs

  /** A request that crosses no border: no swap or split between bank and bags. */
  predicate Inland(e: BagRuns.Event) {
    match e.request
    case Replace(_, _, _) => true
    case Swap(where, to) => IsBank(where) == IsBank(to)
    case Split(where, to, _) => IsBank(where) == IsBank(to)
    case Combine(_, _) => true
  }

  /** One character's requests that cross no border keep all owners right over any run. */
  lemma {:induction false} RunKeepsOwners(c: Context, b: Bag, es: seq<BagRuns.Event>)
    requires |b.slots| == SLOT_COUNT && Owned(c, b.slots)
    requires forall i :: 0 <= i < |es| ==> Inland(es[i]) && es[i].context.charID == c.charID
    ensures Owned(c, BagRuns.Run(b, es).slots)
    decreases |es|
  {
    if es != [] {
      StepKeepsOwners(c, b, es[0]);
      RunKeepsOwners(c, BagRuns.Step(b, es[0]), es[1..]);
    }
  }

  lemma StepKeepsOwners(c: Context, b: Bag, e: BagRuns.Event)
    requires |b.slots| == SLOT_COUNT && Owned(c, b.slots) && Inland(e) && e.context.charID == c.charID
    ensures Owned(c, BagRuns.Step(b, e).slots)
  {
    var d, s := e.context, b.slots;
    assert Owned(d, s);
    match e.request
    case Replace(itemID, where, to) =>
      if ReplaceOutcome(d, s, where, to) == Done { MoveKeepsOwners(d, s, itemID, where, to); }
    case Swap(where, to) =>
      if SwapOutcome(d, s, where, to) == Done { SwapKeepsOwnersIff(d, s, where, to); }
    case Split(where, to, quantity) =>
      if SplitOutcome(d, s, where, to, quantity) == Done { SplitKeepsOwnersIff(d, b, where, to, quantity); }
    case Combine(where, to) =>
      if CombineOutcome(d, s, where, to) == Done { CombineKeepsOwners(d, s, where, to); }
  }
}
