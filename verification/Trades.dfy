/** Gold, the consignment house and player stalls, as functions of the parties' states. */
module Trades {
  import opened Prelude
  import opened Slots
  import opened Bags

  /** One consigned item, keyed in the market by the item's id. */
  datatype Listing = Listing(seller: int, price: U64, isSold: bool, item: Slot)

  type Market = map<int, Listing>

  /** One position of a player stall: a slot of the seller with a price on it. */
  datatype SaleItem = SaleItem(slotID: int, price: U64, isSold: bool)

  datatype Trader = Trader(gold: U64, slots: seq<Slot>)

  const MAX_LISTINGS: nat := 10

  // ---------------------------------------------------------------- uint64 gold

  /** `c.Gold += amount`. */
  function Credit(gold: U64, amount: U64): U64 {
    (gold + amount) % TWO_64
  }

  /** `c.LootGold(-amount)`. */
  function Debit(gold: U64, amount: U64): U64 {
    Credit(gold, Negate64(amount))
  }

  /** Adding the negated price is subtraction exactly when the gold covers it. */
  lemma DebitSubtracts(gold: U64, amount: U64)
    ensures Debit(gold, amount) == gold - amount <==> amount <= gold
  {
  }

  lemma CreditAdds(gold: U64, amount: U64)
    ensures Credit(gold, amount) == gold + amount <==> gold + amount < TWO_64
  {
  }

  // ---------------------------------------------------------------- consignment

  /** One percent of the price, capped; both are taken in whole coins. */
  function Commission(price: U64): U64 {
    Min(price / 100, 50_000_000)
  }

  function ListingsOf(m: Market, seller: int): set<int> {
    set id | id in m && m[id].seller == seller
  }

  function RegisterOutcome(c: Context, t: Trader, m: Market, k: int, price: U64): Outcome
    requires |t.slots| == SLOT_COUNT
  {
    if c.onTrade then Ignored
    else if !InRange(k) then Panicked
    else
      var x := t.slots[k];
      if k == 0 || x.activated || x.inUse then Ignored
      else if |ListingsOf(m, c.charID)| >= MAX_LISTINGS || t.gold < Commission(price) then Ignored
      else if x.itemID !in c.items || c.items[x.itemID].tradable == 2 then Ignored
      else if x.id in m then Refused  // the consignment row is keyed by the item id
      else Done
  }

  function Consigned(c: Context, x: Slot, price: U64): Listing {
    Listing(c.charID, price, false, x.(slotID := -1, consignment := true))
  }

  function Registered(c: Context, t: Trader, m: Market, k: int, price: U64): (Trader, Market)
    requires |t.slots| == SLOT_COUNT && InRange(k)
  {
    (Trader(Debit(t.gold, Commission(price)), t.slots[k := EMPTY]),
     m[t.slots[k].id := Consigned(c, t.slots[k], price)])
  }

  function BuyOutcome(c: Context, t: Trader, m: Market, id: int): Outcome
    requires |t.slots| == SLOT_COUNT
  {
    if c.onTrade || id !in m || m[id].isSold || t.gold < m[id].price then Ignored
    else if m[id].item.owner == None then Panicked  // no seller is found for a bank item
    else if m[id].item.owner == Some(c.charID) then Ignored
    else if FirstFree(c, t.slots) == -1 then Panicked  // slot -1
    else Done
  }

  function Bought(c: Context, t: Trader, m: Market, id: int): (Trader, Market)
    requires |t.slots| == SLOT_COUNT && id in m
    requires InRange(FirstFree(c, t.slots))
  {
    var k := FirstFree(c, t.slots);
    (Trader(Debit(t.gold, m[id].price),
            t.slots[k := m[id].item.(consignment := false, owner := Some(c.charID), slotID := k)]),
     m[id := m[id].(isSold := true)])
  }

  /** Anybody may ask; the row's own seller is not compared with the caller. */
  function ClaimOutcome(c: Context, t: Trader, m: Market, id: int, isCancel: bool): Outcome
    requires |t.slots| == SLOT_COUNT
  {
    if c.onTrade || id !in m || m[id].isSold == isCancel then Ignored
    else if isCancel && FirstFree(c, t.slots) == -1 then Panicked
    else Done
  }

  function Claimed(c: Context, t: Trader, m: Market, id: int, isCancel: bool): (Trader, Market)
    requires |t.slots| == SLOT_COUNT && id in m
    requires isCancel ==> InRange(FirstFree(c, t.slots))
  {
    if isCancel then
      var k := FirstFree(c, t.slots);
      (t.(slots := t.slots[k := m[id].item.(consignment := false, slotID := k)]), m - {id})
    else
      (t.(gold := Credit(t.gold, m[id].price)), m - {id})
  }

  // ---------------------------------------------------------------- stalls

  predicate Offerable(c: Context, slots: seq<Slot>, slotID: int, price: U64)
    requires |slots| == SLOT_COUNT
  {
    && InRange(slotID) && slotID != 0 && price != 0 && slots[slotID].itemID in c.items
    && c.items[slots[slotID].itemID].tradable != 2
  }

  /** An offer that stops `OpenSale`: a slot index out of range, or an item without a row that no
      earlier test skips. */
  predicate OfferPanics(c: Context, slots: seq<Slot>, slotID: int, price: U64)
    requires |slots| == SLOT_COUNT
  {
    !InRange(slotID)
    || (slotID != 0 && price != 0 && slots[slotID].itemID != 0 && slots[slotID].itemID !in c.items)
  }

  predicate AnyOfferPanics(c: Context, slots: seq<Slot>, offers: seq<(int, U64)>)
    requires |slots| == SLOT_COUNT
  {
    exists i :: 0 <= i < |offers| && OfferPanics(c, slots, offers[i].0, offers[i].1)
  }

  /** The positions `OpenSale` keeps, in order. */
  function Stocked(c: Context, slots: seq<Slot>, offers: seq<(int, U64)>): seq<SaleItem>
    requires |slots| == SLOT_COUNT
  {
    if offers == [] then []
    else
      var (slotID, price) := offers[0];
      (if Offerable(c, slots, slotID, price) then [SaleItem(slotID, price, false)] else [])
      + Stocked(c, slots, offers[1..])
  }

  /** Whatever was offered, a stall's positions lie inside the inventory, off slot 0, with a price. */
  ghost predicate StallOk(items: seq<SaleItem>) {
    forall i :: 0 <= i < |items| ==> 0 < items[i].slotID < SLOT_COUNT && 0 < items[i].price
  }

  lemma {:induction false} StockedOk(c: Context, slots: seq<Slot>, offers: seq<(int, U64)>)
    requires |slots| == SLOT_COUNT
    ensures StallOk(Stocked(c, slots, offers))
    ensures forall i :: 0 <= i < |Stocked(c, slots, offers)| ==>
              slots[Stocked(c, slots, offers)[i].slotID].itemID != 0
  {
    if offers != [] {
      StockedOk(c, slots, offers[1..]);
    }
  }

  /** What writing the stall packet does to the seller's slots. */
  function Cleared(slots: seq<Slot>, items: seq<SaleItem>): (r: seq<Slot>)
    requires |slots| == SLOT_COUNT
    requires forall x :: x in items ==> 0 <= x.slotID < SLOT_COUNT
    ensures |r| == SLOT_COUNT
    decreases |items|
  {
    if items == [] then slots
    else
      var k := items[0].slotID;
      if k == 0 || items[0].price == 0 || slots[k].itemID == 0
      then Cleared(slots[k := EMPTY], items[1..])
      else Cleared(slots, items[1..])
  }

  /** Slots an `OpenSale` stall points at are never wiped: only empty ones are rewritten. */
  lemma {:induction false} ClearingIsHarmless(slots: seq<Slot>, items: seq<SaleItem>)
    requires |slots| == SLOT_COUNT && StallOk(items)
    requires forall i :: 0 <= i < SLOT_COUNT && slots[i].itemID == 0 ==> slots[i] == EMPTY
    ensures Cleared(slots, items) == slots
  {
    if items != [] {
      var k := items[0].slotID;
      assert slots[k].itemID == 0 ==> slots[k := EMPTY] == slots;
      assert StallOk(items[1..]);
      ClearingIsHarmless(slots, items[1..]);
    }
  }

  datatype Purchase = Purchase(outcome: Outcome, buyer: Trader, seller: Trader, items: seq<SaleItem>)

  /** The gold changes hands before the buyer's slot index is used. */
  function StallPurchase(c: Context, buyer: Trader, seller: Trader, items: seq<SaleItem>,
                         index: int, slotID: int): Purchase
    requires |buyer.slots| == SLOT_COUNT && |seller.slots| == SLOT_COUNT
    requires StallOk(items)
  {
    if !(0 <= index < |items|) then Purchase(Panicked, buyer, seller, items)
    else
      var s := items[index];
      var x := seller.slots[s.slotID];
      if s.isSold || x.itemID == 0 || buyer.gold < s.price then Purchase(Ignored, buyer, seller, items)
      else
        var b, g := Debit(buyer.gold, s.price), Credit(seller.gold, s.price);
        if !InRange(slotID) then Purchase(Panicked, buyer.(gold := b), seller.(gold := g), items)
        else
          Purchase(Done,
                   Trader(b, buyer.slots[slotID := x.(owner := Some(c.charID), slotID := slotID)]),
                   Trader(g, seller.slots[s.slotID := EMPTY]),
                   items[index := s.(isSold := true)])
  }

  /** When money moves in a stall purchase, and how much: never without enough in hand, and the
      same amount leaves the buyer and reaches the seller. */
  lemma StallGold(c: Context, buyer: Trader, seller: Trader, items: seq<SaleItem>, index: int, slotID: int)
    requires |buyer.slots| == SLOT_COUNT && |seller.slots| == SLOT_COUNT && StallOk(items)
    requires buyer.gold + seller.gold < TWO_64
    ensures var p := StallPurchase(c, buyer, seller, items, index, slotID);
            var due := if 0 <= index < |items| && !items[index].isSold
                          && seller.slots[items[index].slotID].itemID != 0 && buyer.gold >= items[index].price
                       then items[index].price as int else 0;
            p.buyer.gold == buyer.gold - due && p.seller.gold == seller.gold + due
  {
    if 0 <= index < |items| && buyer.gold >= items[index].price {
      DebitSubtracts(buyer.gold, items[index].price);
      CreditAdds(seller.gold, items[index].price);
    }
  }
}
