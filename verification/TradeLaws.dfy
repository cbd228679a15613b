/** The market and the stalls in plain terms: what each request asks for and leaves behind, that a
    sold position stays sold, that nobody lists more than ten items, and whose label an item wears. */
module TradeLaws {
  import opened Prelude
  import opened Slots
  import opened Bags
  import BagRuns
  import opened Trades
  import opened Ledger

  // ---------------------------------------------------------------- sold once

  /** A purchase that takes effect marks its position sold, at the slot and price it had, and touches
      no other position of any stall; the item lies in the slot the buyer named, labelled as the
      buyer's, and the seller's slot is empty. */
  lemma SaleMarksSold(items: Catalog, w: World, e: Event)
    requires Sane(w) && Sells(w, e)
    ensures var b, i, w' := e.deed.seller, e.deed.index, Step(items, w, e);
            && w'.stalls.Keys == w.stalls.Keys && |w'.stalls[b]| == |w.stalls[b]|
            && w'.stalls[b][i] == SaleItem(w.stalls[b][i].slotID, w.stalls[b][i].price, true)
            && (forall j :: 0 <= j < |w.stalls[b]| && j != i ==> w'.stalls[b][j] == w.stalls[b][j])
            && (forall d :: d in w.stalls && d != b ==> w'.stalls[d] == w.stalls[d])
    ensures var a, b, k, w' := e.actor, e.deed.seller, e.deed.slot, Step(items, w, e);
            var s := w.stalls[b][e.deed.index].slotID;
            var x := w.traders[b].slots[s];
            && a in w'.traders && b in w'.traders && |w'.traders[a].slots| == |w'.traders[b].slots| == SLOT_COUNT
            && w'.traders[a].slots[k] == x.(owner := Some(a), slotID := k)
            && w'.traders[b].slots[s] == EMPTY
            && (forall j :: 0 <= j < SLOT_COUNT && j != k ==> w'.traders[a].slots[j] == w.traders[a].slots[j])
            && (forall j :: 0 <= j < SLOT_COUNT && j != s ==> w'.traders[b].slots[j] == w.traders[b].slots[j])
  {
  }

  /** The position is sold, or the seller has no stall at all. */
  predicate Spent(w: World, seller: int, index: int) {
    seller in w.stalls ==> 0 <= index < |w.stalls[seller]| && w.stalls[seller][index].isSold
  }

  /** Any request naming a sold position changes nothing. */
  lemma SpentSellsNothing(items: Catalog, w: World, e: Event)
    requires Sane(w) && e.deed.Shop? && Spent(w, e.deed.seller, e.deed.index)
    ensures e.actor in w.traders ==> !Pays(w, e.actor, e.deed.seller, e.deed.index)
    ensures Step(items, w, e) == w
  {
    if e.actor in w.traders && e.actor !in w.stalls && e.deed.seller in w.stalls {
      assert w.traders[e.actor := w.traders[e.actor]][e.deed.seller := w.traders[e.deed.seller]] == w.traders;
      assert w.stalls[e.deed.seller := w.stalls[e.deed.seller]] == w.stalls;
    }
  }

  lemma StepKeepsSpent(items: Catalog, w: World, e: Event, seller: int, index: int)
    requires Sane(w) && Spent(w, seller, index)
    requires !(e.actor == seller && e.deed.OpenStall?)
    ensures Spent(Step(items, w, e), seller, index)
  {
    if e.actor in w.traders && e.deed.Shop? && Sells(w, e) {
      SaleMarksSold(items, w, e);
    }
  }

  lemma {:induction false} RunKeepsSpent(items: Catalog, w: World, es: seq<Event>, seller: int, index: int)
    requires Sane(w) && Spent(w, seller, index)
    requires forall i :: 0 <= i < |es| ==> !(es[i].actor == seller && es[i].deed.OpenStall?)
    ensures Sane(Run(items, w, es)) && Spent(Run(items, w, es), seller, index)
    decreases |es|
  {
    if es != [] {
      StepSane(items, w, es[0]);
      StepKeepsSpent(items, w, es[0], seller, index);
      RunKeepsSpent(items, Step(items, w, es[0]), es[1..], seller, index);
    }
  }

  /** Once a position has been sold, whatever everybody does, until its seller opens a stall anew:
      nobody pays for it again, and a request that names it changes nothing. */
  lemma SoldOnce(items: Catalog, w: World, sale: Event, es: seq<Event>, again: Event)
    requires Sane(w) && Sells(w, sale)
    requires forall i :: 0 <= i < |es| ==> !(es[i].actor == sale.deed.seller && es[i].deed.OpenStall?)
    requires again.deed.Shop? && again.deed.seller == sale.deed.seller && again.deed.index == sale.deed.index
    ensures Sane(Run(items, w, [sale] + es))
    ensures var now := Run(items, w, [sale] + es);
            && (again.actor in now.traders ==> !Pays(now, again.actor, again.deed.seller, again.deed.index))
            && Step(items, now, again) == now
  {
    var after := Step(items, w, sale);
    StepSane(items, w, sale);
    SaleMarksSold(items, w, sale);
    RunKeepsSpent(items, after, es, sale.deed.seller, sale.deed.index);
    assert ([sale] + es)[1..] == es;
    SpentSellsNothing(items, Run(items, after, es), again);
  }

  /** A stall offers, in the order given, exactly the offers of an item in a slot other than 0, at a
      price, that the catalogue knows and does not bar from trade; all of them unsold. */
  lemma {:induction false} StockedIs(c: Context, slots: seq<Slot>, offers: seq<(int, U64)>) returns (at: seq<nat>)
    requires |slots| == SLOT_COUNT
    ensures |at| == |Stocked(c, slots, offers)|
    ensures forall i, j :: 0 <= i < j < |at| ==> at[i] < at[j]
    ensures forall n: nat :: n in at <==>
              && n < |offers| && 0 < offers[n].0 < SLOT_COUNT && offers[n].1 != 0
              && slots[offers[n].0].itemID in c.items && c.items[slots[offers[n].0].itemID].tradable != 2
    ensures forall i :: 0 <= i < |at| ==>
              at[i] < |offers| && Stocked(c, slots, offers)[i] == SaleItem(offers[at[i]].0, offers[at[i]].1, false)
    decreases |offers|
  {
    if offers == [] {
      at := [];
    } else {
      var rest := StockedIs(c, slots, offers[1..]);
      var later := seq(|rest|, i requires 0 <= i < |rest| => rest[i] + 1);
      at := (if Offerable(c, slots, offers[0].0, offers[0].1) then [0] else []) + later;
      forall n: nat
        ensures n in at <==>
          && n < |offers| && 0 < offers[n].0 < SLOT_COUNT && offers[n].1 != 0
          && slots[offers[n].0].itemID in c.items && c.items[slots[offers[n].0].itemID].tradable != 2
      {
        if n > 0 {
          Shifted(rest, n);
          assert n in at <==> n in later;
        } else {
          assert 0 !in later;
        }
      }
    }
  }

  lemma Shifted(rest: seq<nat>, n: nat)
    requires n > 0
    ensures n in seq(|rest|, i requires 0 <= i < |rest| => rest[i] + 1) <==> n - 1 in rest
  {
    var later := seq(|rest|, i requires 0 <= i < |rest| => rest[i] + 1);
    if n - 1 in rest {
      var i :| 0 <= i < |rest| && rest[i] == n - 1;
      assert later[i] == n;
    }
  }

  // ---------------------------------------------------------------- the market

  /** One coin in a hundred, rounded down, and never more than fifty million. */
  lemma CommissionIs(price: U64)
    ensures price < 5_000_000_000 ==> 100 * Commission(price) <= price < 100 * Commission(price) + 100
    ensures price >= 5_000_000_000 ==> Commission(price) == 50_000_000
  {
  }

  /** A registration takes effect exactly when the item is there to trade, unbound and not running, the
      seller has fewer than ten listings and the commission in hand, and no row has the item's id. */
  lemma RegistersIff(c: Context, t: Trader, m: Market, k: int, price: U64)
    requires |t.slots| == SLOT_COUNT
    ensures RegisterOutcome(c, t, m, k, price) == Done <==>
            && !c.onTrade && 0 < k < 450 && !t.slots[k].activated && !t.slots[k].inUse
            && |set id | id in m && m[id].seller == c.charID| < 10
            && t.gold >= (if price < 5_000_000_000 then price / 100 else 50_000_000)
            && t.slots[k].itemID in c.items && c.items[t.slots[k].itemID].tradable != 2
            && t.slots[k].id !in m
  {
    assert ListingsOf(m, c.charID) == set id | id in m && m[id].seller == c.charID;
  }

  /** What a registration leaves: the whole item in a row of its own, unsold, at the asked price and
      under the seller's name; the slot empty; the commission paid. */
  lemma RegisteredIs(c: Context, t: Trader, m: Market, k: int, price: U64)
    requires |t.slots| == SLOT_COUNT && RegisterOutcome(c, t, m, k, price) == Done
    ensures var (t', m') := Registered(c, t, m, k, price);
            var x := t.slots[k];
            && t'.gold == t.gold - Commission(price) && |t'.slots| == SLOT_COUNT
            && (forall j :: 0 <= j < SLOT_COUNT ==> t'.slots[j] == if j == k then EMPTY else t.slots[j])
            && m'.Keys == m.Keys + {x.id} && (forall id :: id in m ==> m'[id] == m[id])
            && m'[x.id].seller == c.charID && m'[x.id].price == price && !m'[x.id].isSold
            && m'[x.id].item == x.(slotID := -1, consignment := true)
  {
    DebitSubtracts(t.gold, Commission(price));
  }

  /** A purchase takes effect exactly when the row is unsold, the price is in hand, the item belongs to
      somebody else, and there is a free slot. */
  lemma BuysIff(c: Context, t: Trader, m: Market, id: int)
    requires |t.slots| == SLOT_COUNT
    ensures BuyOutcome(c, t, m, id) == Done <==>
            && !c.onTrade && id in m && !m[id].isSold && t.gold >= m[id].price
            && m[id].item.owner.Some? && m[id].item.owner.value != c.charID
            && exists k :: (11 <= k <= 66 || (c.expanded && 341 <= k <= 396)) && t.slots[k].itemID == 0
  {
    SomeFree(c, t.slots);
  }

  lemma SomeFree(c: Context, s: seq<Slot>)
    requires |s| == SLOT_COUNT
    ensures FirstFree(c, s) != -1 <==>
            exists k :: (11 <= k <= 66 || (c.expanded && 341 <= k <= 396)) && s[k].itemID == 0
  {
    BagRuns.FreeFromExact(s, 11, 66);
    BagRuns.FreeFromExact(s, 341, 396);
    BagRuns.FirstFreeSound(c, s);
    forall k | (11 <= k <= 66 || (c.expanded && 341 <= k <= 396)) && s[k].itemID == 0
      ensures k in FreeSlots(c, s)
    {
      assert 11 <= k <= 66 ==> k in FreeFrom(s, 11, 66);
      assert k > 66 ==> k in FreeFrom(s, 341, 396);
    }
    if FreeSlots(c, s) != [] {
      assert FreeSlots(c, s)[0] in FreeSlots(c, s);
    }
  }

  /** What a purchase leaves: the item, labelled as the buyer's, in a slot that was empty; the price
      paid; the row marked sold and otherwise as it was, so that the seller can collect. */
  lemma BoughtIs(c: Context, t: Trader, m: Market, id: int)
    requires |t.slots| == SLOT_COUNT && BuyOutcome(c, t, m, id) == Done
    ensures InRange(FirstFree(c, t.slots)) && t.slots[FirstFree(c, t.slots)].itemID == 0
    ensures var k, (t', m') := FirstFree(c, t.slots), Bought(c, t, m, id);
            && t'.gold == t.gold - m[id].price && |t'.slots| == SLOT_COUNT
            && t'.slots[k] == m[id].item.(consignment := false, owner := Some(c.charID), slotID := k)
            && (forall j :: 0 <= j < SLOT_COUNT && j != k ==> t'.slots[j] == t.slots[j])
            && m'.Keys == m.Keys && (forall other :: other in m && other != id ==> m'[other] == m[other])
            && m'[id] == Listing(m[id].seller, m[id].price, true, m[id].item)
  {
    BagRuns.FirstFreeSound(c, t.slots);
    DebitSubtracts(t.gold, m[id].price);
  }

  /** The price can be collected exactly when the row is sold, the item taken back exactly when it is
      not and there is a free slot. */
  lemma ClaimsIff(c: Context, t: Trader, m: Market, id: int, isCancel: bool)
    requires |t.slots| == SLOT_COUNT
    ensures ClaimOutcome(c, t, m, id, isCancel) == Done <==>
            && !c.onTrade && id in m
            && if isCancel then
                 && !m[id].isSold
                 && exists k :: (11 <= k <= 66 || (c.expanded && 341 <= k <= 396)) && t.slots[k].itemID == 0
               else m[id].isSold
  {
    SomeFree(c, t.slots);
  }

  /** What a claim leaves: the row gone, and either the price in hand or the item in a free slot. */
  lemma ClaimedIs(c: Context, t: Trader, m: Market, id: int, isCancel: bool)
    requires |t.slots| == SLOT_COUNT && ClaimOutcome(c, t, m, id, isCancel) == Done
    ensures isCancel ==> InRange(FirstFree(c, t.slots)) && t.slots[FirstFree(c, t.slots)].itemID == 0
    ensures var (t', m') := Claimed(c, t, m, id, isCancel);
            && m' == m - {id}
            && (!isCancel ==>
                  t'.slots == t.slots && (t.gold + m[id].price < TWO_64 ==> t'.gold == t.gold + m[id].price))
            && (isCancel ==>
                  var k := FirstFree(c, t.slots);
                  && t'.gold == t.gold && |t'.slots| == SLOT_COUNT
                  && t'.slots[k] == m[id].item.(consignment := false, slotID := k)
                  && forall j :: 0 <= j < SLOT_COUNT && j != k ==> t'.slots[j] == t.slots[j])
  {
    BagRuns.FirstFreeSound(c, t.slots);
    CreditAdds(t.gold, m[id].price);
  }

  // ---------------------------------------------------------------- ten listings

  ghost predicate AtMostTen(w: World) {
    forall c :: |ListingsOf(w.market, c)| <= 10
  }

  lemma OneMoreListing(m: Market, id: int, l: Listing, c: int)
    requires id !in m
    ensures |ListingsOf(m[id := l], c)| == |ListingsOf(m, c)| + (if c == l.seller then 1 else 0)
  {
    assert ListingsOf(m[id := l], c) == if c == l.seller then ListingsOf(m, c) + {id} else ListingsOf(m, c);
  }

  lemma RegisterKeepsTen(items: Catalog, w: World, e: Event)
    requires Sane(w) && AtMostTen(w) && e.actor in w.traders && e.deed.Register?
    ensures AtMostTen(Step(items, w, e))
  {
    var w', c, t := Step(items, w, e), Surroundings(items, w, e), w.traders[e.actor];
    if RegisterOutcome(c, t, w.market, e.deed.slot, e.deed.price) == Done {
      forall d ensures |ListingsOf(w'.market, d)| <= 10 {
        OneMoreListing(w.market, t.slots[e.deed.slot].id, Consigned(c, t.slots[e.deed.slot], e.deed.price), d);
      }
    }
  }

  lemma StepKeepsTen(items: Catalog, w: World, e: Event)
    requires Sane(w) && AtMostTen(w)
    ensures AtMostTen(Step(items, w, e))
  {
    var w' := Step(items, w, e);
    if e.actor in w.traders {
      if e.deed.Register? {
        RegisterKeepsTen(items, w, e);
      } else {
        SameSellers(items, w, e);
        forall c ensures |ListingsOf(w'.market, c)| <= 10 {
          Within(ListingsOf(w'.market, c), ListingsOf(w.market, c));
        }
      }
    }
  }

  lemma SameSellers(items: Catalog, w: World, e: Event)
    requires Sane(w) && !e.deed.Register?
    ensures forall id :: id in Step(items, w, e).market ==>
              id in w.market && Step(items, w, e).market[id].seller == w.market[id].seller
  {
  }

  /** Whatever everybody does, nobody ever has more than ten items in the house. */
  lemma {:induction false} RunKeepsTen(items: Catalog, w: World, es: seq<Event>)
    requires Sane(w) && AtMostTen(w)
    ensures AtMostTen(Run(items, w, es))
    decreases |es|
  {
    if es != [] {
      StepSane(items, w, es[0]);
      StepKeepsTen(items, w, es[0]);
      RunKeepsTen(items, Step(items, w, es[0]), es[1..]);
    }
  }

  // ---------------------------------------------------------------- labels

  /** An item in a bag knows its slot, is not marked as consigned, and names nobody else as its owner. */
  predicate LabelOk(x: Slot, c: int, k: int) {
    x.itemID != 0 ==> x.slotID == k && !x.consignment && (x.owner == None || x.owner == Some(c))
  }

  /** A consigned item is marked so, lies in no slot, and names nobody but its seller as its owner. */
  predicate RowOk(l: Listing) {
    l.item.slotID == -1 && l.item.consignment && (l.item.owner == None || l.item.owner == Some(l.seller))
  }

  ghost predicate Labelled(w: World) {
    && (forall c, k :: c in w.traders && 0 <= k < |w.traders[c].slots| ==> LabelOk(w.traders[c].slots[k], c, k))
    && (forall id :: id in w.market ==> RowOk(w.market[id]))
  }

  /** Somebody takes back a listing that names another as its owner. */
  predicate TakesAnothers(items: Catalog, w: World, e: Event)
    requires Sane(w)
  {
    && e.deed.Claim? && e.deed.isCancel && e.actor in w.traders
    && ClaimOutcome(Surroundings(items, w, e), w.traders[e.actor], w.market, e.deed.id, true) == Done
    && w.market[e.deed.id].item.owner != None && w.market[e.deed.id].item.owner != Some(e.actor)
  }

  /** One bag changes in one slot. */
  lemma Relabels(w: World, w': World, a: int, k: int)
    requires Labelled(w) && a in w.traders && w'.traders.Keys == w.traders.Keys
    requires forall c :: c in w.traders && c != a ==> w'.traders[c].slots == w.traders[c].slots
    requires |w'.traders[a].slots| == |w.traders[a].slots| && 0 <= k < |w.traders[a].slots|
    requires forall j :: 0 <= j < |w.traders[a].slots| && j != k ==> w'.traders[a].slots[j] == w.traders[a].slots[j]
    requires forall id :: id in w'.market ==> RowOk(w'.market[id])
    ensures Labelled(w') <==> LabelOk(w'.traders[a].slots[k], a, k)
  {
    forall c, j | c in w'.traders && 0 <= j < |w'.traders[c].slots| && (c != a || j != k)
      ensures LabelOk(w'.traders[c].slots[j], c, j)
    {
      assert LabelOk(w.traders[c].slots[j], c, j);
    }
  }

  lemma MarketKeepsLabels(items: Catalog, w: World, e: Event)
    requires Sane(w) && Labelled(w) && e.actor in w.traders
    requires e.deed.Register? || e.deed.Buy? || e.deed.Claim?
    ensures Labelled(Step(items, w, e)) <==> !TakesAnothers(items, w, e)
  {
    var w', a, c, t := Step(items, w, e), e.actor, Surroundings(items, w, e), w.traders[e.actor];
    BagRuns.FirstFreeSound(c, t.slots);
    match e.deed
    case Register(slot, price) =>
      if RegisterOutcome(c, t, w.market, slot, price) == Done {
        assert LabelOk(t.slots[slot], a, slot);
        Relabels(w, w', a, slot);
      }
    case Buy(id) =>
      if BuyOutcome(c, t, w.market, id) == Done {
        Relabels(w, w', a, FirstFree(c, t.slots));
      }
    case Claim(id, isCancel) =>
      if ClaimOutcome(c, t, w.market, id, isCancel) == Done {
        assert RowOk(w.market[id]);
        Relabels(w, w', a, if isCancel then FirstFree(c, t.slots) else 0);
        assert LabelOk(t.slots[0], a, 0);
      }
  }

  lemma ShopKeepsLabels(items: Catalog, w: World, e: Event)
    requires Sane(w) && Labelled(w) && Sells(w, e)
    ensures Labelled(Step(items, w, e))
  {
    var w', a, b := Step(items, w, e), e.actor, e.deed.seller;
    var s := w.stalls[b][e.deed.index].slotID;
    SaleMarksSold(items, w, e);
    assert LabelOk(w.traders[b].slots[s], b, s);
    var mid := w'.(traders := w'.traders[b := w.traders[b]]);
    Relabels(w, mid, a, e.deed.slot);
    Relabels(mid, w', b, s);
  }

  lemma ShopLeavesBags(items: Catalog, w: World, e: Event)
    requires Sane(w) && Labelled(w) && e.deed.Shop? && !Sells(w, e)
    ensures Labelled(Step(items, w, e))
  {
    var w' := Step(items, w, e);
    forall c | c in w'.traders ensures c in w.traders && w'.traders[c].slots == w.traders[c].slots {
    }
    forall c, k | c in w'.traders && 0 <= k < |w'.traders[c].slots| ensures LabelOk(w'.traders[c].slots[k], c, k) {
      assert LabelOk(w.traders[c].slots[k], c, k);
    }
  }

  /** Every trade keeps all labels right, except exactly one: whoever cancels another's listing holds
      an item that goes on naming the seller. */
  lemma StepKeepsLabels(items: Catalog, w: World, e: Event)
    requires Sane(w) && Labelled(w)
    ensures Labelled(Step(items, w, e)) <==> !TakesAnothers(items, w, e)
  {
    if e.actor in w.traders {
      if e.deed.Shop? {
        if Sells(w, e) {
          ShopKeepsLabels(items, w, e);
        } else {
          ShopLeavesBags(items, w, e);
        }
      } else if !e.deed.OpenStall? && !e.deed.CloseStall? {
        MarketKeepsLabels(items, w, e);
      }
    }
  }
}
