/** Where every traded item is: one inventory slot or one unsold listing, never two, never none. */
module Places {
  import opened Prelude
  import opened Slots
  import opened Bags
  import BagRuns
  import opened Trades
  import opened Ledger

  datatype Place = InBag(c: int, k: int) | OnMarket(id: int)

  /** An item apart from who holds it and where. */
  function Goods(x: Slot): Slot {
    x.(owner := None, slotID := 0, consignment := false)
  }

  predicate Holds(w: World, p: Place, g: Slot) {
    match p
    case InBag(c, k) =>
      && c in w.traders && 0 <= k < |w.traders[c].slots|
      && w.traders[c].slots[k].itemID != 0 && Goods(w.traders[c].slots[k]) == g
    case OnMarket(id) =>
      id in w.market && !w.market[id].isSold && Goods(w.market[id].item) == g
  }

  /** No two places hold items with the same id. */
  ghost predicate Unique(w: World) {
    forall p, q, g, h :: Holds(w, p, g) && Holds(w, q, h) && g.id == h.id ==> p == q
  }

  ghost predicate Held(w: World, g: Slot) {
    exists p :: Holds(w, p, g)
  }

  ghost predicate SameGoods(w: World, w': World) {
    forall g :: Held(w, g) <==> Held(w', g)
  }

  /** `w'` differs from `w` by one item going from `p` to `q`. */
  ghost predicate Carries(w: World, w': World, p: Place, q: Place, g: Slot) {
    && p != q
    && Holds(w, p, g)
    && forall r, h :: Holds(w', r, h) <==> (if r == q then h == g else r != p && Holds(w, r, h))
  }

  ghost predicate Vacant(w: World, p: Place) {
    forall g :: !Holds(w, p, g)
  }

  lemma CarryUnique(w: World, w': World, p: Place, q: Place, g: Slot)
    requires Unique(w) && Carries(w, w', p, q, g)
    ensures Unique(w')
  {
  }

  lemma CarriedOnlyThere(w: World, w': World, p: Place, q: Place, g: Slot, r: Place)
    requires Unique(w) && Carries(w, w', p, q, g) && Holds(w', r, g)
    ensures r == q
  {
  }

  lemma CarryConserves(w: World, w': World, p: Place, q: Place, g: Slot)
    requires Carries(w, w', p, q, g) && Vacant(w, q)
    ensures SameGoods(w, w')
  {
    forall h | Held(w, h) ensures Held(w', h) {
      var r :| Holds(w, r, h);
      assert Holds(w', if r == p then q else r, h);
    }
    forall h | Held(w', h) ensures Held(w, h) {
      var r :| Holds(w', r, h);
      assert Holds(w, if r == q then p else r, h);
    }
  }

  /** An occupied target is overwritten: what lay there is then held nowhere. */
  lemma CarryOverwrites(w: World, w': World, p: Place, q: Place, g: Slot, h: Slot)
    requires Unique(w) && Carries(w, w', p, q, g) && Holds(w, q, h)
    ensures Held(w, h) && !Held(w', h)
  {
    assert g.id != h.id;
    forall r ensures !Holds(w', r, h) {
      assert Holds(w, r, h) ==> r == q;
    }
  }

  // ---------------------------------------------------------------- the steps

  lemma RegisterCarries(items: Catalog, w: World, e: Event)
    requires Sane(w) && e.actor in w.traders && e.deed.Register?
    requires RegisterOutcome(Surroundings(items, w, e), w.traders[e.actor], w.market, e.deed.slot, e.deed.price) == Done
    ensures var x := w.traders[e.actor].slots[e.deed.slot];
            && Carries(w, Step(items, w, e), InBag(e.actor, e.deed.slot), OnMarket(x.id), Goods(x))
            && Vacant(w, OnMarket(x.id))
  {
  }

  lemma BuyCarries(items: Catalog, w: World, e: Event)
    requires Sane(w) && e.actor in w.traders && e.deed.Buy?
    requires BuyOutcome(Surroundings(items, w, e), w.traders[e.actor], w.market, e.deed.id) == Done
    ensures var k := FirstFree(Surroundings(items, w, e), w.traders[e.actor].slots);
            && Carries(w, Step(items, w, e), OnMarket(e.deed.id), InBag(e.actor, k), Goods(w.market[e.deed.id].item))
            && Vacant(w, InBag(e.actor, k))
  {
    BagRuns.FirstFreeSound(Surroundings(items, w, e), w.traders[e.actor].slots);
  }

  lemma CancelCarries(items: Catalog, w: World, e: Event)
    requires Sane(w) && e.actor in w.traders && e.deed.Claim? && e.deed.isCancel
    requires ClaimOutcome(Surroundings(items, w, e), w.traders[e.actor], w.market, e.deed.id, true) == Done
    ensures var k := FirstFree(Surroundings(items, w, e), w.traders[e.actor].slots);
            && Carries(w, Step(items, w, e), OnMarket(e.deed.id), InBag(e.actor, k), Goods(w.market[e.deed.id].item))
            && Vacant(w, InBag(e.actor, k))
  {
    BagRuns.FirstFreeSound(Surroundings(items, w, e), w.traders[e.actor].slots);
  }

  lemma ShopCarries(items: Catalog, w: World, e: Event)
    requires Sane(w) && Sells(w, e)
    ensures var s := w.stalls[e.deed.seller][e.deed.index].slotID;
            Carries(w, Step(items, w, e), InBag(e.deed.seller, s), InBag(e.actor, e.deed.slot),
                    Goods(w.traders[e.deed.seller].slots[s]))
  {
  }

  /** Steps that move no item. */
  lemma StepStill(items: Catalog, w: World, e: Event)
    requires Sane(w)
    requires e.actor in w.traders ==>
      var c, t := Surroundings(items, w, e), w.traders[e.actor];
      match e.deed
      case Register(slot, price) => RegisterOutcome(c, t, w.market, slot, price) != Done
      case Buy(id) => BuyOutcome(c, t, w.market, id) != Done
      case Claim(id, isCancel) => !isCancel || ClaimOutcome(c, t, w.market, id, isCancel) != Done
      case OpenStall(_) => true
      case CloseStall => true
      case Shop(_, _, _) => !Sells(w, e)
    ensures forall p, g :: Holds(Step(items, w, e), p, g) <==> Holds(w, p, g)
  {
  }

  /** The one thing a request can lose: what lies in the slot a stall buyer names. */
  ghost predicate Careful(w: World, e: Event)
    requires Sane(w)
  {
    Sells(w, e) ==> w.traders[e.actor].slots[e.deed.slot].itemID == 0
  }

  lemma StillKeeps(w: World, w': World)
    requires forall p, g :: Holds(w', p, g) <==> Holds(w, p, g)
    ensures Unique(w) ==> Unique(w')
    ensures SameGoods(w, w')
  {
    forall g ensures Held(w, g) <==> Held(w', g) {
      if Held(w, g) { var p :| Holds(w, p, g); assert Holds(w', p, g); }
      if Held(w', g) { var p :| Holds(w', p, g); assert Holds(w, p, g); }
    }
  }

  /** Ids stay in one place on every step, and no item is lost exactly when the step is careful. */
  lemma StepKeepsPlaces(items: Catalog, w: World, e: Event)
    requires Sane(w) && Unique(w)
    ensures Unique(Step(items, w, e))
    ensures SameGoods(w, Step(items, w, e)) <==> Careful(w, e)
  {
    var w', a := Step(items, w, e), e.actor;
    if Sells(w, e) {
      var s := w.stalls[e.deed.seller][e.deed.index].slotID;
      var p, q, g := InBag(e.deed.seller, s), InBag(a, e.deed.slot), Goods(w.traders[e.deed.seller].slots[s]);
      ShopCarries(items, w, e);
      CarryUnique(w, w', p, q, g);
      if Careful(w, e) {
        CarryConserves(w, w', p, q, g);
      } else {
        CarryOverwrites(w, w', p, q, g, Goods(w.traders[a].slots[e.deed.slot]));
      }
    } else if a in w.traders && e.deed.Register?
      && RegisterOutcome(Surroundings(items, w, e), w.traders[a], w.market, e.deed.slot, e.deed.price) == Done {
      var x := w.traders[a].slots[e.deed.slot];
      RegisterCarries(items, w, e);
      CarryUnique(w, w', InBag(a, e.deed.slot), OnMarket(x.id), Goods(x));
      CarryConserves(w, w', InBag(a, e.deed.slot), OnMarket(x.id), Goods(x));
    } else if a in w.traders && e.deed.Buy?
      && BuyOutcome(Surroundings(items, w, e), w.traders[a], w.market, e.deed.id) == Done {
      var k, g := FirstFree(Surroundings(items, w, e), w.traders[a].slots), Goods(w.market[e.deed.id].item);
      BuyCarries(items, w, e);
      CarryUnique(w, w', OnMarket(e.deed.id), InBag(a, k), g);
      CarryConserves(w, w', OnMarket(e.deed.id), InBag(a, k), g);
    } else if a in w.traders && e.deed.Claim? && e.deed.isCancel
      && ClaimOutcome(Surroundings(items, w, e), w.traders[a], w.market, e.deed.id, true) == Done {
      var k, g := FirstFree(Surroundings(items, w, e), w.traders[a].slots), Goods(w.market[e.deed.id].item);
      CancelCarries(items, w, e);
      CarryUnique(w, w', OnMarket(e.deed.id), InBag(a, k), g);
      CarryConserves(w, w', OnMarket(e.deed.id), InBag(a, k), g);
    } else {
      StepStill(items, w, e);
      StillKeeps(w, w');
    }
  }

  ghost predicate CarefulRun(items: Catalog, w: World, es: seq<Event>)
    requires Sane(w)
    decreases |es|
  {
    es != [] ==>
      && Careful(w, es[0])
      && Sane(Step(items, w, es[0]))
      && CarefulRun(items, Step(items, w, es[0]), es[1..])
  }

  /** Over any run no id is ever in two places. */
  lemma {:induction false} RunUnique(items: Catalog, w: World, es: seq<Event>)
    requires Sane(w) && Unique(w)
    ensures Unique(Run(items, w, es))
    decreases |es|
  {
    if es != [] {
      StepSane(items, w, es[0]);
      StepKeepsPlaces(items, w, es[0]);
      RunUnique(items, Step(items, w, es[0]), es[1..]);
    }
  }

  /** Over any run whose stall buyers name empty slots, every item, with its quantity, level and
      codes, is still held, and nothing else is. */
  lemma {:induction false} RunConserves(items: Catalog, w: World, es: seq<Event>)
    requires Sane(w) && Unique(w) && CarefulRun(items, w, es)
    ensures Unique(Run(items, w, es)) && SameGoods(w, Run(items, w, es))
    decreases |es|
  {
    if es != [] {
      StepSane(items, w, es[0]);
      StepKeepsPlaces(items, w, es[0]);
      RunConserves(items, Step(items, w, es[0]), es[1..]);
    }
  }

  /** With no free slot, buying from the market and taking a listing back change nothing. */
  lemma NoRoomNoTrade(items: Catalog, w: World, e: Event)
    requires Sane(w) && e.actor in w.traders
    requires FirstFree(Surroundings(items, w, e), w.traders[e.actor].slots) == -1
    requires e.deed.Buy? || (e.deed.Claim? && e.deed.isCancel)
    ensures Step(items, w, e) == w
  {
  }

  /** A cancelled listing goes back to its seller exactly when the seller cancels it. */
  lemma CancelReturnsIff(items: Catalog, w: World, e: Event)
    requires Sane(w) && Unique(w) && e.actor in w.traders && e.deed.Claim? && e.deed.isCancel
    requires ClaimOutcome(Surroundings(items, w, e), w.traders[e.actor], w.market, e.deed.id, true) == Done
    ensures var l, w' := w.market[e.deed.id], Step(items, w, e);
            (exists k :: Holds(w', InBag(l.seller, k), Goods(l.item))) <==> e.actor == l.seller
  {
    var l, w' := w.market[e.deed.id], Step(items, w, e);
    var p, q := OnMarket(e.deed.id), InBag(e.actor, FirstFree(Surroundings(items, w, e), w.traders[e.actor].slots));
    CancelCarries(items, w, e);
    assert Holds(w', q, Goods(l.item));
    forall k | Holds(w', InBag(l.seller, k), Goods(l.item)) ensures e.actor == l.seller {
      CarriedOnlyThere(w, w', p, q, Goods(l.item), InBag(l.seller, k));
    }
  }

  /** A passer-by who cancels takes the item home. */
  lemma StrangerTakesBack(items: Catalog, id: nat, itemID: int)
    requires itemID != 0
    ensures var w := OneListing(id, itemID, false);
            && Sane(w)
            && var w' := Step(items, w, Event(2, false, false, Claim(id, true)));
               w'.market == map[] && w'.traders[2].slots[11].itemID == itemID && w'.traders[1] == w.traders[1]
  {
    var w := OneListing(id, itemID, false);
    var e := Event(2, false, false, Claim(id, true));
    var s := w.traders[2].slots;
    assert FreeFrom(s, 11, 66) == [11] + FreeFrom(s, 12, 66);
    assert FirstFree(Surroundings(items, w, e), s) == 11;
    assert Step(items, w, e).market == w.market - {id};
  }

  // ---------------------------------------------------------------- what a stall sells

  /** The three requests that change an occupied slot: its owner registers it, a buyer takes it
      from the owner's stall, or its owner names it when buying from another stall. */
  predicate Touches(w: World, e: Event, c: int, k: int) {
    || (e.deed.Register? && e.actor == c && e.deed.slot == k)
    || (e.deed.Shop? && e.actor == c && e.deed.slot == k)
    || (e.deed.Shop? && e.deed.seller == c && c in w.stalls && 0 <= e.deed.index < |w.stalls[c]|
        && w.stalls[c][e.deed.index].slotID == k)
  }

  lemma SlotStays(items: Catalog, w: World, e: Event, c: int, k: int)
    requires Sane(w) && c in w.traders && InRange(k) && w.traders[c].slots[k].itemID != 0
    requires !Touches(w, e, c, k)
    ensures c in Step(items, w, e).traders && |Step(items, w, e).traders[c].slots| == SLOT_COUNT
    ensures Step(items, w, e).traders[c].slots[k] == w.traders[c].slots[k]
  {
    StepSane(items, w, e);
    if e.actor in w.traders && (e.deed.Buy? || e.deed.Claim?) {
      BagRuns.FirstFreeSound(Surroundings(items, w, e), w.traders[e.actor].slots);
    }
  }

  ghost predicate Untouched(items: Catalog, w: World, es: seq<Event>, c: int, k: int)
    requires Sane(w)
    decreases |es|
  {
    es != [] ==>
      && !Touches(w, es[0], c, k)
      && Sane(Step(items, w, es[0]))
      && Untouched(items, Step(items, w, es[0]), es[1..], c, k)
  }

  /** Until one of those requests comes, an occupied slot, and with it what a stall offers there,
      stays as it is over any run. */
  lemma {:induction false} RunSlotStays(items: Catalog, w: World, es: seq<Event>, c: int, k: int)
    requires Sane(w) && c in w.traders && InRange(k) && w.traders[c].slots[k].itemID != 0
    requires Untouched(items, w, es, c, k)
    ensures c in Run(items, w, es).traders && |Run(items, w, es).traders[c].slots| == SLOT_COUNT
    ensures Run(items, w, es).traders[c].slots[k] == w.traders[c].slots[k]
    decreases |es|
  {
    if es != [] {
      StepSane(items, w, es[0]);
      SlotStays(items, w, es[0], c, k);
      RunSlotStays(items, Step(items, w, es[0]), es[1..], c, k);
    }
  }

  /** Seller 1 has item `a` in slot 11 and item `b` in the market; buyer 2 has 100 coins. */
  predicate Bazaar(w: World, itemID: int, a: nat, b: nat)
    requires Sane(w)
  {
    && w.traders.Keys == {1, 2} && w.stalls == map[] && w.market.Keys == {b} && !w.market[b].isSold
    && w.traders[1].gold == 0 && w.traders[2].gold == 100
    && var x := w.traders[1].slots[11];
       x.id == a && x.itemID == itemID && !x.activated && !x.inUse
  }

  lemma SomeBazaar(itemID: int, a: nat, b: nat) returns (w: World)
    requires itemID != 0
    ensures Sane(w) && Bazaar(w, itemID, a, b)
  {
    var empty := seq(SLOT_COUNT, i => EMPTY);
    var goods := EMPTY.(itemID := itemID, quantity := 1, owner := Some(1));
    w := World(map[1 := Trader(0, empty[11 := goods.(id := a, slotID := 11)]), 2 := Trader(100, empty)],
               map[b := Listing(1, 50, false, goods.(id := b, slotID := -1, consignment := true))], map[], 0);
  }

  /** A stall need not sell what it offered: the seller opens it on `a`, registers `a`, takes `b`
      back into the slot that has become free, and the buyer pays the price of `a` for `b`. */
  lemma StallSellsAnother(items: Catalog, w: World, itemID: int, a: nat, b: nat)
    returns (w1: World, w2: World, w3: World, w4: World)
    requires itemID in items && items[itemID].tradable != 2 && a != b
    requires Sane(w) && Bazaar(w, itemID, a, b)
    ensures Sane(w1) && Sane(w2) && Sane(w3)
    ensures w1 == Step(items, w, Event(1, false, false, OpenStall([(11, 100)])))
    ensures w2 == Step(items, w1, Event(1, false, false, Register(11, 0)))
    ensures w3 == Step(items, w2, Event(1, false, false, Claim(b, true)))
    ensures w4 == Step(items, w3, Event(2, false, false, Shop(1, 0, 11)))
    ensures 1 in w1.stalls && w1.stalls[1] == [SaleItem(11, 100, false)]
    ensures {1, 2} <= w4.traders.Keys && w4.traders[1].gold == 100 && w4.traders[2].gold == 0
    ensures |w4.traders[2].slots| == SLOT_COUNT && w4.traders[2].slots[11].id == b
  {
    w1 := OpensStall(items, w);
    w2 := GivesAway(items, w1, itemID, b);
    w3 := TakesBack(items, w2, b);
    w4 := Sells100(items, w3);
  }

  lemma Sells100(items: Catalog, w3: World) returns (w4: World)
    requires Sane(w3) && {1, 2} <= w3.traders.Keys && w3.stalls == map[1 := [SaleItem(11, 100, false)]]
    requires w3.traders[1].gold == 0 && w3.traders[2].gold == 100 && w3.traders[1].slots[11].itemID != 0
    ensures w4 == Step(items, w3, Event(2, false, false, Shop(1, 0, 11)))
    ensures {1, 2} <= w4.traders.Keys && w4.traders[1].gold == 100 && w4.traders[2].gold == 0
    ensures |w4.traders[2].slots| == SLOT_COUNT && w4.traders[2].slots[11].id == w3.traders[1].slots[11].id
  {
    w4 := Step(items, w3, Event(2, false, false, Shop(1, 0, 11)));
  }

  lemma OpensStall(items: Catalog, w: World) returns (w1: World)
    requires Sane(w) && 1 in w.traders && w.stalls == map[]
    requires Offerable(Surroundings(items, w, Event(1, false, false, CloseStall)), w.traders[1].slots, 11, 100)
    ensures w1 == Step(items, w, Event(1, false, false, OpenStall([(11, 100)]))) && Sane(w1)
    ensures w1 == w.(stalls := map[1 := [SaleItem(11, 100, false)]])
  {
    var e := Event(1, false, false, OpenStall([(11, 100)]));
    StepSane(items, w, e);
    w1 := Step(items, w, e);
    assert Stocked(Surroundings(items, w, e), w.traders[1].slots, [(11, 100)]) == [SaleItem(11, 100, false)];
  }

  lemma GivesAway(items: Catalog, w1: World, itemID: int, b: nat) returns (w2: World)
    requires Sane(w1) && 1 in w1.traders && w1.market.Keys == {b}
    requires w1.traders[1].slots[11].itemID == itemID && w1.traders[1].slots[11].id != b
    requires !w1.traders[1].slots[11].activated && !w1.traders[1].slots[11].inUse
    requires itemID in items && items[itemID].tradable != 2
    ensures w2 == Step(items, w1, Event(1, false, false, Register(11, 0))) && Sane(w2)
    ensures w2.traders == w1.traders[1 := Trader(w1.traders[1].gold, w1.traders[1].slots[11 := EMPTY])]
    ensures w2.stalls == w1.stalls && b in w2.market && w2.market[b] == w1.market[b]
  {
    var e := Event(1, false, false, Register(11, 0));
    StepSane(items, w1, e);
    w2 := Step(items, w1, e);
    Within(ListingsOf(w1.market, 1), {b});
    DebitSubtracts(w1.traders[1].gold, 0);
  }

  lemma TakesBack(items: Catalog, w2: World, b: nat) returns (w3: World)
    requires Sane(w2) && 1 in w2.traders && b in w2.market && !w2.market[b].isSold
    requires w2.traders[1].slots[11] == EMPTY
    ensures w3 == Step(items, w2, Event(1, false, false, Claim(b, true))) && Sane(w3)
    ensures w3.traders.Keys == w2.traders.Keys && w3.stalls == w2.stalls
    ensures w3.traders == w2.traders[1 := w3.traders[1]] && w3.traders[1].gold == w2.traders[1].gold
    ensures w3.traders[1].slots[11].id == b && w3.traders[1].slots[11].itemID == w2.market[b].item.itemID != 0
  {
    var e := Event(1, false, false, Claim(b, true));
    var s := w2.traders[1].slots;
    assert FreeFrom(s, 11, 66) == [11] + FreeFrom(s, 12, 66);
    assert FirstFree(Surroundings(items, w2, e), s) == 11;
    StepSane(items, w2, e);
    w3 := Step(items, w2, e);
  }
}
