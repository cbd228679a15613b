/** Conservation over whole runs of inventory requests, and soundness of slot reservation. */
module BagRuns {
  import opened Prelude
  import opened Slots
  import opened Bags

  // ---------------------------------------------------------------- runs

  datatype Request =
    | Replace(itemID: int, where: int, to: int)
    | Swap(where: int, to: int)
    | Split(where: int, to: int, quantity: nat)
    | Combine(where: int, to: int)

  /** One request, in whatever surroundings it arrives. */
  datatype Event = Event(context: Context, request: Request)

  function Step(b: Bag, e: Event): (r: Bag)
    requires |b.slots| == SLOT_COUNT
    ensures |r.slots| == SLOT_COUNT
  {
    var c := e.context;
    match e.request
    case Replace(itemID, where, to) =>
      if ReplaceOutcome(c, b.slots, where, to) == Done
      then b.(slots := Moved(c, b.slots, itemID, where, to)) else b
    case Swap(where, to) =>
      if SwapOutcome(c, b.slots, where, to) == Done
      then b.(slots := Swapped(c, b.slots, where, to)) else b
    case Split(where, to, quantity) =>
      if SplitOutcome(c, b.slots, where, to, quantity) == Done
      then SplitBag(b, where, to, quantity) else b
    case Combine(where, to) =>
      if CombineOutcome(c, b.slots, where, to) == Done
      then b.(slots := Combined(b.slots, where, to)) else b
  }

  function Run(b: Bag, es: seq<Event>): (r: Bag)
    requires |b.slots| == SLOT_COUNT
    ensures |r.slots| == SLOT_COUNT
    decreases |es|
  {
    if es == [] then b else Run(Step(b, es[0]), es[1..])
  }

  /** No stack is combined with itself. */
  predicate Proper(e: Event) {
    e.request.Combine? ==> e.request.where != e.request.to
  }

  /** No item's total exceeds what one slot can count. */
  ghost predicate Bounded(s: seq<Slot>) {
    forall itemID :: itemID != 0 ==> Total(s, itemID) < TWO_64
  }

  lemma MoveKeeps(c: Context, b: Bag, itemID: int, where: int, to: int)
    requires WellFormed(b) && ReplaceOutcome(c, b.slots, where, to) == Done
    ensures WellFormed(b.(slots := Moved(c, b.slots, itemID, where, to)))
    ensures forall id :: id != 0 ==> Total(Moved(c, b.slots, itemID, where, to), id) == Total(b.slots, id)
  {
    var s, r := b.slots, Moved(c, b.slots, itemID, where, to);
    forall id | id != 0 ensures Total(r, id) == Total(s, id) {
      TotalUpdateTwo(s, to, where, r[to], EMPTY, id);
    }
  }

  lemma SwapKeeps(c: Context, b: Bag, where: int, to: int)
    requires WellFormed(b) && SwapOutcome(c, b.slots, where, to) == Done
    ensures WellFormed(b.(slots := Swapped(c, b.slots, where, to)))
    ensures forall id :: id != 0 ==> Total(Swapped(c, b.slots, where, to), id) == Total(b.slots, id)
  {
    var s, r := b.slots, Swapped(c, b.slots, where, to);
    forall id | id != 0 ensures Total(r, id) == Total(s, id) {
      if where == to {
        TotalUpdate(s, to, r[to], id);
        assert r == s[to := r[to]];
      } else {
        TotalUpdateTwo(s, where, to, r[where], r[to], id);
      }
    }
  }

  lemma SplitKeeps(c: Context, b: Bag, where: int, to: int, quantity: nat)
    requires WellFormed(b) && SplitOutcome(c, b.slots, where, to, quantity) == Done
    ensures WellFormed(SplitBag(b, where, to, quantity))
    ensures forall id :: id != 0 ==> Total(SplitBag(b, where, to, quantity).slots, id) == Total(b.slots, id)
  {
    var s, r := b.slots, SplitBag(b, where, to, quantity).slots;
    forall id | id != 0 ensures Total(r, id) == Total(s, id) {
      TotalUpdateTwo(s, where, to, r[where], r[to], id);
    }
  }

  lemma CombineKeeps(c: Context, b: Bag, where: int, to: int)
    requires WellFormed(b) && Bounded(b.slots)
    requires CombineOutcome(c, b.slots, where, to) == Done && where != to
    ensures WellFormed(b.(slots := Combined(b.slots, where, to)))
    ensures forall id :: id != 0 ==> Total(Combined(b.slots, where, to), id) == Total(b.slots, id)
  {
    var s, r := b.slots, Combined(b.slots, where, to);
    TwoShares(s, where, to, s[to].itemID);
    forall id | id != 0 ensures Total(r, id) == Total(s, id) {
      TotalUpdateTwo(s, to, where, r[to], EMPTY, id);
    }
  }

  /** Combining a stack with itself loses it: a combine conserves the total exactly when the
      two slots differ or the stack holds nothing. */
  lemma SelfCombineLoses(c: Context, b: Bag, where: int, to: int)
    requires WellFormed(b) && Bounded(b.slots) && CombineOutcome(c, b.slots, where, to) == Done
    ensures Total(Combined(b.slots, where, to), b.slots[to].itemID) == Total(b.slots, b.slots[to].itemID)
            <==> where != to || b.slots[to].quantity == 0
  {
    if where != to {
      CombineKeeps(c, b, where, to);
    } else {
      TotalUpdate(b.slots, to, EMPTY, b.slots[to].itemID);
      assert Combined(b.slots, where, to) == b.slots[to := EMPTY];
    }
  }

  lemma StepKeeps(b: Bag, e: Event)
    requires WellFormed(b) && Bounded(b.slots) && Proper(e)
    ensures WellFormed(Step(b, e)) && Bounded(Step(b, e).slots)
    ensures forall id :: id != 0 ==> Total(Step(b, e).slots, id) == Total(b.slots, id)
  {
    var c := e.context;
    match e.request
    case Replace(itemID, where, to) =>
      if ReplaceOutcome(c, b.slots, where, to) == Done { MoveKeeps(c, b, itemID, where, to); }
    case Swap(where, to) =>
      if SwapOutcome(c, b.slots, where, to) == Done { SwapKeeps(c, b, where, to); }
    case Split(where, to, quantity) =>
      if SplitOutcome(c, b.slots, where, to, quantity) == Done { SplitKeeps(c, b, where, to, quantity); }
    case Combine(where, to) =>
      if CombineOutcome(c, b.slots, where, to) == Done { CombineKeeps(c, b, where, to); }
  }

  /** Over every run, in changing surroundings, no quantity is created or lost, ids stay
      unique and every occupied slot knows its own index. */
  lemma {:induction false} RunKeeps(b: Bag, es: seq<Event>)
    requires WellFormed(b) && Bounded(b.slots)
    requires forall i :: 0 <= i < |es| ==> Proper(es[i])
    ensures WellFormed(Run(b, es))
    ensures forall id :: id != 0 ==> Total(Run(b, es).slots, id) == Total(b.slots, id)
    decreases |es|
  {
    if es != [] {
      StepKeeps(b, es[0]);
      RunKeeps(Step(b, es[0]), es[1..]);
    }
  }

  // ---------------------------------------------------------------- undoing

  /** Between pet-equipment slots nothing ever moves, and an empty target panics: it has no item row. */
  lemma PetSlotsNeverMove(c: Context, s: seq<Slot>, where: int, to: int)
    requires |s| == SLOT_COUNT && KindChecked(where, to)
    ensures ReplaceOutcome(c, s, where, to) != Done
    ensures !c.onSale && !c.onTrade && s[where].itemID != 0 && s[to].itemID == 0 ==>
              ReplaceOutcome(c, s, where, to) == Panicked
  {
  }

  /** Moving an inventory item away and back restores every slot, timed items apart. */
  lemma MoveBack(c: Context, b: Bag, itemID: int, where: int, to: int)
    requires WellFormed(b) && !IsBank(where) && !IsBank(to) && !Timed(c, itemID)
    requires ReplaceOutcome(c, b.slots, where, to) == Done
    ensures ReplaceOutcome(c, Moved(c, b.slots, itemID, where, to), to, where) == Done
    ensures Moved(c, Moved(c, b.slots, itemID, where, to), itemID, to, where) == b.slots
  {
    var r := Moved(c, b.slots, itemID, where, to);
    assert !KindChecked(where, to);
    assert Moved(c, r, itemID, to, where)[where] == b.slots[where];
  }

  /** Splitting part of a stack off and combining it back restores every slot. */
  lemma SplitThenCombine(c: Context, b: Bag, where: int, to: int, quantity: nat)
    requires WellFormed(b) && Bounded(b.slots)
    requires SplitOutcome(c, b.slots, where, to, quantity) == Done && quantity < b.slots[where].quantity
    requires c.items[b.slots[where].itemID].stackable
    ensures CombineOutcome(c, SplitBag(b, where, to, quantity).slots, to, where) == Done
    ensures Combined(SplitBag(b, where, to, quantity).slots, to, where) == b.slots
  {
    OneShare(b.slots, where, b.slots[where].itemID);
    var r := SplitBag(b, where, to, quantity).slots;
    assert Combined(r, to, where)[where] == b.slots[where];
  }

  // ---------------------------------------------------------------- reservation

  /** The list holds exactly the free slots of the range. */
  lemma {:induction false} FreeFromExact(s: seq<Slot>, lo: int, hi: int)
    requires |s| == SLOT_COUNT && 0 <= lo && hi < SLOT_COUNT
    ensures forall k :: k in FreeFrom(s, lo, hi) <==> lo <= k <= hi && s[k].itemID == 0
    decreases hi - lo
  {
    if lo <= hi {
      FreeFromExact(s, lo + 1, hi);
    }
  }

  lemma FirstFreeSound(c: Context, s: seq<Slot>)
    requires |s| == SLOT_COUNT
    ensures var k := FirstFree(c, s);
            if FreeSlots(c, s) == [] then k == -1
            else InRange(k) && s[k].itemID == 0 && k == FreeSlots(c, s)[0] && !IsBank(k)
  {
    FreeFromExact(s, 11, 66);
    FreeFromExact(s, 341, 396);
    if FreeSlots(c, s) != [] {
      assert FreeSlots(c, s)[0] in FreeSlots(c, s);
    }
  }

  lemma {:induction false} FreeFromUntouched(s: seq<Slot>, k: nat, x: Slot, lo: int, hi: int)
    requires |s| == SLOT_COUNT && 0 <= lo && hi < SLOT_COUNT && k < SLOT_COUNT
    requires k < lo || k > hi || (s[k].itemID == 0) == (x.itemID == 0)
    ensures FreeFrom(s[k := x], lo, hi) == FreeFrom(s, lo, hi)
    decreases hi - lo
  {
    if lo <= hi {
      FreeFromUntouched(s, k, x, lo + 1, hi);
    }
  }

  lemma {:induction false} FreeFromFilled(s: seq<Slot>, x: Slot, lo: int, hi: int)
    requires |s| == SLOT_COUNT && 0 <= lo && hi < SLOT_COUNT
    requires FreeFrom(s, lo, hi) != [] && x.itemID != 0
    ensures lo <= FreeFrom(s, lo, hi)[0] <= hi
    ensures FreeFrom(s[FreeFrom(s, lo, hi)[0] := x], lo, hi) == FreeFrom(s, lo, hi)[1..]
    decreases hi - lo
  {
    if s[lo].itemID == 0 {
      FreeFromUntouched(s, lo, x, lo + 1, hi);
    } else {
      FreeFromFilled(s, x, lo + 1, hi);
    }
  }

  /** Two disjoint ranges, the first one handed out first. */
  lemma FillFirstOfTwo(s: seq<Slot>, x: Slot, lo: int, mid: int, lo2: int, hi: int)
    requires |s| == SLOT_COUNT && x.itemID != 0
    requires 0 <= lo && mid < lo2 && mid < SLOT_COUNT && 0 <= lo2 && hi < SLOT_COUNT
    requires FreeFrom(s, lo, mid) + FreeFrom(s, lo2, hi) != []
    ensures var f := FreeFrom(s, lo, mid) + FreeFrom(s, lo2, hi);
            && 0 <= f[0] < SLOT_COUNT
            && FreeFrom(s[f[0] := x], lo, mid) + FreeFrom(s[f[0] := x], lo2, hi) == f[1..]
  {
    var f, g := FreeFrom(s, lo, mid), FreeFrom(s, lo2, hi);
    if f != [] {
      FreeFromFilled(s, x, lo, mid);
      FreeFromUntouched(s, f[0], x, lo2, hi);
      assert (f + g)[0] == f[0] && (f + g)[1..] == f[1..] + g;
    } else {
      assert f + g == g;
      FreeFromFilled(s, x, lo2, hi);
      FreeFromUntouched(s, g[0], x, lo, mid);
    }
  }

  /** Filling the first free slot takes exactly that slot off the list. */
  lemma FillFirst(c: Context, s: seq<Slot>, x: Slot)
    requires |s| == SLOT_COUNT && FreeSlots(c, s) != [] && x.itemID != 0
    ensures FirstFree(c, s) == FreeSlots(c, s)[0] && InRange(FirstFree(c, s))
    ensures FreeSlots(c, s[FirstFree(c, s) := x]) == FreeSlots(c, s)[1..]
  {
    if c.expanded {
      FillFirstOfTwo(s, x, 11, 66, 341, 396);
    } else {
      FreeFromFilled(s, x, 11, 66);
    }
  }

  /** `k` rounds of taking the first free slot and filling it. */
  function FillRounds(c: Context, s: seq<Slot>, xs: seq<Slot>): seq<int>
    requires |s| == SLOT_COUNT
    decreases |xs|
  {
    var k := FirstFree(c, s);
    if xs == [] || !InRange(k) then []
    else [k] + FillRounds(c, s[k := xs[0]], xs[1..])
  }

  /** The rounds walk down the list of free slots, whatever they put there. */
  lemma {:induction false} RoundsAreFreeSlots(c: Context, s: seq<Slot>, xs: seq<Slot>)
    requires |s| == SLOT_COUNT
    requires forall i :: 0 <= i < |xs| ==> xs[i].itemID != 0
    ensures FillRounds(c, s, xs) == FreeSlots(c, s)[..Min(|xs|, |FreeSlots(c, s)|)]
    decreases |xs|
  {
    var f := FreeSlots(c, s);
    if xs != [] && f != [] {
      var k := FirstFree(c, s);
      FillFirst(c, s, xs[0]);
      RoundsAreFreeSlots(c, s[k := xs[0]], xs[1..]);
      var n := Min(|xs|, |f|);
      assert f[..n] == [f[0]] + f[1..][..n - 1];
    }
  }

  /** A reservation is exactly what that many rounds would take. */
  lemma ReservationIsRounds(c: Context, s: seq<Slot>, xs: seq<Slot>)
    requires |s| == SLOT_COUNT && xs != []
    requires forall i :: 0 <= i < |xs| ==> xs[i].itemID != 0
    ensures Reservation(c, s, |xs|) ==
            (if |FillRounds(c, s, xs)| == |xs| then Some(FillRounds(c, s, xs)) else None)
  {
    RoundsAreFreeSlots(c, s, xs);
  }

  /** A reservation for no items succeeds exactly when slot 11 would not be handed out first. */
  lemma ReserveNothing(c: Context, s: seq<Slot>)
    requires |s| == SLOT_COUNT
    ensures Reservation(c, s, 0) == None <==> FirstFree(c, s) == 11
  {
    FirstFreeSound(c, s);
    FreeFromExact(s, 11, 66);
    assert s[11].itemID == 0 ==> FreeFrom(s, 11, 66) == [11] + FreeFrom(s, 12, 66);
  }

  /** Adding an item without naming a slot uses at most the first free slot, and keeps the invariant. */
  lemma AddKeeps(c: Context, b: Bag, item: Slot)
    requires WellFormed(b) && AddOutcome(c, b.slots, item, -1) == Done
    requires Total(b.slots, item.itemID) + item.quantity < TWO_64
    ensures var (k, stacking) := Placement(c, b.slots, item, -1);
            var r := Added(c, b, item, k, stacking);
            && WellFormed(r)
            && FreeSlots(c, r.slots) == (if stacking then FreeSlots(c, b.slots) else FreeSlots(c, b.slots)[1..])
            && forall id :: id != 0 ==>
                 Total(r.slots, id) == Total(b.slots, id) + Share(item, id)
  {
    var (k, stacking) := Placement(c, b.slots, item, -1);
    var r := Added(c, b, item, k, stacking);
    var s, x := b.slots, r.slots[k];
    assert r.slots == s[k := x];
    if stacking {
      FreeFromUntouched(s, k, x, 11, 66);
      FreeFromUntouched(s, k, x, 341, 396);
      OneShare(s, k, item.itemID);
    } else {
      FirstFreeSound(c, s);
      FillFirst(c, s, x);
    }
    forall id | id != 0 ensures Total(r.slots, id) == Total(s, id) + Share(item, id) {
      TotalUpdate(s, k, x, id);
    }
  }

  /** Adding to a named slot: the invariant survives, and the totals change by just the new item
      exactly when the slot held nothing, for whatever it held is overwritten. */
  lemma AddAtSlot(c: Context, b: Bag, item: Slot, k: int)
    requires WellFormed(b) && k != -1 && AddOutcome(c, b.slots, item, k) == Done
    ensures Placement(c, b.slots, item, k) == (k, false) && InRange(k)
    ensures var r := Added(c, b, item, k, false);
            && WellFormed(r)
            && ((forall id :: id != 0 ==> Total(r.slots, id) == Total(b.slots, id) + Share(item, id))
                <==> b.slots[k].itemID == 0 || b.slots[k].quantity == 0)
  {
    var r, was := Added(c, b, item, k, false), b.slots[k];
    assert r.slots == b.slots[k := r.slots[k]];
    forall id | id != 0
      ensures Total(r.slots, id) == Total(b.slots, id) - Share(was, id) + Share(item, id)
    {
      TotalUpdate(b.slots, k, r.slots[k], id);
    }
    if was.itemID != 0 && was.quantity != 0 {
      assert Total(r.slots, was.itemID) != Total(b.slots, was.itemID) + Share(item, was.itemID);
    }
  }

  // ---------------------------------------------------------------- opening a box

  /** Total quantity of one item among the rewards of a box. */
  function RewardTotal(rewards: seq<Slot>, itemID: int): nat {
    if rewards == [] then 0 else Share(rewards[0], itemID) + RewardTotal(rewards[1..], itemID)
  }

  /** The reward loop: every reward but the blanks is added to the first place found; `None`
      when one of them finds none and the loop indexes slot -1. */
  function Opened(c: Context, b: Bag, rewards: seq<Slot>): (r: Option<Bag>)
    requires |b.slots| == SLOT_COUNT
    ensures r.Some? ==> |r.value.slots| == SLOT_COUNT
    decreases |rewards|
  {
    if rewards == [] then Some(b)
    else if rewards[0].itemID == 0 then Opened(c, b, rewards[1..])
    else if AddOutcome(c, b.slots, rewards[0], -1) != Done then None
    else
      var (k, stacking) := Placement(c, b.slots, rewards[0], -1);
      Opened(c, Added(c, b, rewards[0], k, stacking), rewards[1..])
  }

  ghost predicate KnownRewards(c: Context, rewards: seq<Slot>) {
    forall i :: 0 <= i < |rewards| ==> rewards[i].itemID == 0 || rewards[i].itemID in c.items
  }

  ghost predicate Fits(s: seq<Slot>, rewards: seq<Slot>) {
    forall id :: id != 0 ==> Total(s, id) + RewardTotal(rewards, id) < TWO_64
  }

  /** With as many free slots as rewards, every reward lands, whatever mix of stackable and
      unstackable items they are, and each total rises by exactly the rewarded quantity. */
  lemma {:induction false} EnoughSlotsSuffice(c: Context, b: Bag, rewards: seq<Slot>)
    requires WellFormed(b) && KnownRewards(c, rewards) && Fits(b.slots, rewards)
    requires |rewards| <= |FreeSlots(c, b.slots)|
    ensures Opened(c, b, rewards).Some? && WellFormed(Opened(c, b, rewards).value)
    ensures forall id :: id != 0 ==>
              Total(Opened(c, b, rewards).value.slots, id) == Total(b.slots, id) + RewardTotal(rewards, id)
    decreases |rewards|
  {
    if rewards != [] {
      var x, rest := rewards[0], rewards[1..];
      assert KnownRewards(c, rest);
      if x.itemID == 0 {
        assert Fits(b.slots, rest);
        EnoughSlotsSuffice(c, b, rest);
      } else {
        FirstFreeSound(c, b.slots);
        var (k, stacking) := Placement(c, b.slots, x, -1);
        assert Total(b.slots, x.itemID) + RewardTotal(rewards, x.itemID) < TWO_64;
        AddKeeps(c, b, x);
        assert Fits(Added(c, b, x, k, stacking).slots, rest);
        EnoughSlotsSuffice(c, Added(c, b, x, k, stacking), rest);
      }
    }
  }

  /** A reservation of one slot per entry, blanks included, makes the whole reward loop safe. */
  lemma ReservationSuffices(c: Context, b: Bag, rewards: seq<Slot>)
    requires WellFormed(b) && KnownRewards(c, rewards) && Fits(b.slots, rewards)
    requires rewards != [] && Reservation(c, b.slots, |rewards|).Some?
    ensures Opened(c, b, rewards).Some? && WellFormed(Opened(c, b, rewards).value)
    ensures forall id :: id != 0 ==>
              Total(Opened(c, b, rewards).value.slots, id) == Total(b.slots, id) + RewardTotal(rewards, id)
  {
    EnoughSlotsSuffice(c, b, rewards);
  }

  /** Rewards never displace or shrink what an occupied slot already holds. */
  lemma {:induction false} OpeningKeepsSlot(c: Context, b: Bag, rewards: seq<Slot>, j: nat)
    requires WellFormed(b) && KnownRewards(c, rewards) && Fits(b.slots, rewards)
    requires j < SLOT_COUNT && b.slots[j].itemID != 0
    requires Opened(c, b, rewards).Some?
    ensures var x := Opened(c, b, rewards).value.slots[j];
            x.itemID == b.slots[j].itemID && x.quantity >= b.slots[j].quantity
    decreases |rewards|
  {
    if rewards != [] {
      var x, rest := rewards[0], rewards[1..];
      assert KnownRewards(c, rest);
      if x.itemID == 0 {
        assert Fits(b.slots, rest);
        OpeningKeepsSlot(c, b, rest, j);
      } else {
        FirstFreeSound(c, b.slots);
        var (k, stacking) := Placement(c, b.slots, x, -1);
        assert Total(b.slots, x.itemID) + RewardTotal(rewards, x.itemID) < TWO_64;
        AddKeeps(c, b, x);
        OneShare(b.slots, k, x.itemID);
        assert Fits(Added(c, b, x, k, stacking).slots, rest);
        OpeningKeepsSlot(c, Added(c, b, x, k, stacking), rest, j);
      }
    }
  }

  /** Without stackable rewards the reservation is also necessary: the loop survives exactly
      when there is a free slot for each reward that is not a blank. */
  lemma {:induction false} UnstackableNeedSlots(c: Context, b: Bag, rewards: seq<Slot>)
    requires WellFormed(b) && KnownRewards(c, rewards) && Fits(b.slots, rewards)
    requires forall i :: 0 <= i < |rewards| ==>
               rewards[i].itemID != 0 && !c.items[rewards[i].itemID].stackable
    ensures Opened(c, b, rewards).Some? <==> |rewards| <= |FreeSlots(c, b.slots)|
    decreases |rewards|
  {
    if rewards != [] {
      var x, rest := rewards[0], rewards[1..];
      FirstFreeSound(c, b.slots);
      if FreeSlots(c, b.slots) != [] {
        var (k, stacking) := Placement(c, b.slots, x, -1);
        assert Total(b.slots, x.itemID) + RewardTotal(rewards, x.itemID) < TWO_64;
        AddKeeps(c, b, x);
        assert KnownRewards(c, rest) && Fits(Added(c, b, x, k, stacking).slots, rest);
        UnstackableNeedSlots(c, Added(c, b, x, k, stacking), rest);
      }
    }
  }
}
