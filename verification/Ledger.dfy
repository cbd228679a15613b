/** Consignment house and stalls as one transition system over all characters: gold is
    conserved without ever wrapping, and every item stays in exactly one place. */
module Ledger {
  import opened Prelude
  import opened Slots
  import opened Bags
  import BagRuns
  import opened Trades

  /** `burned` counts the commissions paid so far. */
  datatype World = World(
    traders: map<int, Trader>, market: Market, stalls: map<int, seq<SaleItem>>, burned: nat)

  datatype Deed =
    | Register(slot: int, price: U64)
    | Buy(id: int)
    | Claim(id: int, isCancel: bool)
    | OpenStall(offers: seq<(int, U64)>)
    | CloseStall
    | Shop(seller: int, index: int, slot: int)

  datatype Event = Event(actor: int, expanded: bool, trading: bool, deed: Deed)

  ghost predicate Canonical(s: seq<Slot>) {
    && |s| == SLOT_COUNT
    && forall i :: 0 <= i < SLOT_COUNT && s[i].itemID == 0 ==> s[i] == EMPTY
  }

  ghost predicate Sane(w: World) {
    && (forall c :: c in w.traders ==> Canonical(w.traders[c].slots))
    && (forall id :: id in w.market ==> w.market[id].item.itemID != 0 && w.market[id].item.id == id)
    && (forall c :: c in w.stalls ==> c in w.traders && StallOk(w.stalls[c]))
  }

  function Surroundings(items: Catalog, w: World, e: Event): Context {
    Context(items, e.actor, e.expanded, e.actor in w.stalls, e.trading)
  }

  function Step(items: Catalog, w: World, e: Event): World
    requires Sane(w)
  {
    if e.actor !in w.traders then w
    else
      var a, t, c := e.actor, w.traders[e.actor], Surroundings(items, w, e);
      match e.deed
      case Register(slot, price) =>
        if RegisterOutcome(c, t, w.market, slot, price) != Done then w
        else
          var (t', m') := Registered(c, t, w.market, slot, price);
          w.(traders := w.traders[a := t'], market := m', burned := w.burned + Commission(price))
      case Buy(id) =>
        if BuyOutcome(c, t, w.market, id) != Done then w
        else
          BagRuns.FirstFreeSound(c, t.slots);
          var (t', m') := Bought(c, t, w.market, id);
          w.(traders := w.traders[a := t'], market := m')
      case Claim(id, isCancel) =>
        if ClaimOutcome(c, t, w.market, id, isCancel) != Done then w
        else
          BagRuns.FirstFreeSound(c, t.slots);
          var (t', m') := Claimed(c, t, w.market, id, isCancel);
          w.(traders := w.traders[a := t'], market := m')
      case OpenStall(offers) =>
        if a in w.stalls || AnyOfferPanics(c, t.slots, offers) then w
        else w.(stalls := w.stalls[a := Stocked(c, t.slots, offers)])
      case CloseStall =>
        w.(stalls := w.stalls - {a})
      case Shop(seller, index, slot) =>
        if a in w.stalls || seller !in w.stalls then w
        else
          var p := StallPurchase(c, t, w.traders[seller], w.stalls[seller], index, slot);
          w.(traders := w.traders[a := p.buyer][seller := p.seller], stalls := w.stalls[seller := p.items])
  }

  ghost function Run(items: Catalog, w: World, es: seq<Event>): World
    requires Sane(w)
    decreases |es|
  {
    if es == [] then w
    else
      StepSane(items, w, es[0]);
      Run(items, Step(items, w, es[0]), es[1..])
  }

  ghost predicate SaneMarket(m: Market) {
    forall id :: id in m ==> m[id].item.itemID != 0 && m[id].item.id == id
  }

  lemma SetTrader(w: World, a: int, t: Trader, m: Market, burned: nat)
    requires Sane(w) && a in w.traders && Canonical(t.slots) && SaneMarket(m)
    ensures Sane(w.(traders := w.traders[a := t], market := m, burned := burned))
  {
    var w' := w.(traders := w.traders[a := t], market := m, burned := burned);
    forall c | c in w'.traders ensures Canonical(w'.traders[c].slots) {
      assert c == a || Canonical(w.traders[c].slots);
    }
  }

  lemma RegisterSane(items: Catalog, w: World, e: Event)
    requires Sane(w) && e.actor in w.traders && e.deed.Register?
    ensures Sane(Step(items, w, e))
  {
    var c, t := Surroundings(items, w, e), w.traders[e.actor];
    if RegisterOutcome(c, t, w.market, e.deed.slot, e.deed.price) == Done {
      var (t', m') := Registered(c, t, w.market, e.deed.slot, e.deed.price);
      SetTrader(w, e.actor, t', m', w.burned + Commission(e.deed.price));
    }
  }

  lemma BuySane(items: Catalog, w: World, e: Event)
    requires Sane(w) && e.actor in w.traders && e.deed.Buy?
    ensures Sane(Step(items, w, e))
  {
    var c, t := Surroundings(items, w, e), w.traders[e.actor];
    if BuyOutcome(c, t, w.market, e.deed.id) == Done {
      BagRuns.FirstFreeSound(c, t.slots);
      var (t', m') := Bought(c, t, w.market, e.deed.id);
      SetTrader(w, e.actor, t', m', w.burned);
    }
  }

  lemma ClaimSane(items: Catalog, w: World, e: Event)
    requires Sane(w) && e.actor in w.traders && e.deed.Claim?
    ensures Sane(Step(items, w, e))
  {
    var c, t := Surroundings(items, w, e), w.traders[e.actor];
    if ClaimOutcome(c, t, w.market, e.deed.id, e.deed.isCancel) == Done {
      BagRuns.FirstFreeSound(c, t.slots);
      var (t', m') := Claimed(c, t, w.market, e.deed.id, e.deed.isCancel);
      SetTrader(w, e.actor, t', m', w.burned);
    }
  }

  lemma ShopSane(items: Catalog, w: World, e: Event)
    requires Sane(w) && e.actor in w.traders && e.deed.Shop?
    ensures Sane(Step(items, w, e))
  {
    var a, b := e.actor, e.deed.seller;
    if a !in w.stalls && b in w.stalls {
      var p := StallPurchase(Surroundings(items, w, e), w.traders[a], w.traders[b], w.stalls[b],
                             e.deed.index, e.deed.slot);
      SetTrader(w, a, p.buyer, w.market, w.burned);
      SetTrader(w.(traders := w.traders[a := p.buyer]), b, p.seller, w.market, w.burned);
    }
  }

  lemma StepSane(items: Catalog, w: World, e: Event)
    requires Sane(w)
    ensures Sane(Step(items, w, e))
  {
    if e.actor in w.traders {
      match e.deed
      case Register(_, _) => RegisterSane(items, w, e);
      case Buy(_) => BuySane(items, w, e);
      case Claim(_, _) => ClaimSane(items, w, e);
      case OpenStall(offers) =>
        StockedOk(Surroundings(items, w, e), w.traders[e.actor].slots, offers);
      case CloseStall =>
      case Shop(_, _, _) => ShopSane(items, w, e);
    }
  }

  // ---------------------------------------------------------------- gold

  function Golds(w: World): map<int, int> {
    map c | c in w.traders :: w.traders[c].gold as int
  }

  /** The price of every listing that is sold and not yet claimed. */
  function Pending(w: World): map<int, int> {
    map id | id in w.market :: if w.market[id].isSold then w.market[id].price as int else 0
  }

  ghost function Worth(w: World): int {
    MapSum(Golds(w)) + MapSum(Pending(w)) + w.burned
  }

  /** What a step owes each character, in whole coins. */
  function Due(items: Catalog, w: World, e: Event, who: int): int
    requires Sane(w)
  {
    if e.actor !in w.traders then 0
    else
      var t, c := w.traders[e.actor], Surroundings(items, w, e);
      match e.deed
      case Register(slot, price) =>
        if who == e.actor && RegisterOutcome(c, t, w.market, slot, price) == Done then 0 - Commission(price) else 0
      case Buy(id) =>
        if who == e.actor && BuyOutcome(c, t, w.market, id) == Done then 0 - w.market[id].price else 0
      case Claim(id, isCancel) =>
        if who == e.actor && ClaimOutcome(c, t, w.market, id, isCancel) == Done && !isCancel
        then w.market[id].price else 0
      case OpenStall(_) => 0
      case CloseStall => 0
      case Shop(seller, index, slot) =>
        if !Pays(w, e.actor, seller, index) then 0
        else if who == seller then w.stalls[seller][index].price
        else if who == e.actor then 0 - w.stalls[seller][index].price
        else 0
  }

  /** The gold of a stall purchase changes hands. */
  predicate Pays(w: World, buyer: int, seller: int, index: int)
    requires Sane(w) && buyer in w.traders
  {
    && buyer !in w.stalls && seller in w.stalls && 0 <= index < |w.stalls[seller]|
    && var s := w.stalls[seller][index];
       !s.isSold && w.traders[seller].slots[s.slotID].itemID != 0 && w.traders[buyer].gold >= s.price
  }

  /** A stall purchase that goes through. */
  predicate Sells(w: World, e: Event)
    requires Sane(w)
  {
    && e.deed.Shop? && e.actor in w.traders && Pays(w, e.actor, e.deed.seller, e.deed.index)
    && InRange(e.deed.slot)
  }

  lemma SumsNonNegative(w: World)
    ensures NonNegative(Golds(w)) && NonNegative(Pending(w))
    ensures 0 <= MapSum(Golds(w)) && 0 <= MapSum(Pending(w))
  {
    forall c | c in Golds(w) ensures 0 <= Golds(w)[c] {
      var g: U64 := w.traders[c].gold;
    }
    forall id | id in Pending(w) ensures 0 <= Pending(w)[id] {
      var p: U64 := w.market[id].price;
    }
    MapSumNonNegative(Golds(w));
    MapSumNonNegative(Pending(w));
  }

  lemma TwoEntriesAtMostSum(m: map<int, int>, j: int, k: int)
    requires j in m && k in m && j != k && NonNegative(m)
    ensures m[j] + m[k] <= MapSum(m)
  {
    MapSumRemove(m, j);
    MapSumAtLeast(m - {j}, k);
  }

  /** No balance, and no balance plus one open claim or plus another balance, exceeds the worth. */
  lemma WorthBounds(w: World, c: int)
    requires c in w.traders
    ensures w.traders[c].gold <= Worth(w)
    ensures forall id :: id in w.market && w.market[id].isSold ==> w.traders[c].gold + w.market[id].price <= Worth(w)
    ensures forall d :: d in w.traders && d != c ==> w.traders[c].gold + w.traders[d].gold <= Worth(w)
  {
    SumsNonNegative(w);
    MapSumAtLeast(Golds(w), c);
    forall id | id in w.market && w.market[id].isSold
      ensures w.traders[c].gold + w.market[id].price <= Worth(w)
    {
      MapSumAtLeast(Pending(w), id);
    }
    forall d | d in w.traders && d != c ensures w.traders[c].gold + w.traders[d].gold <= Worth(w) {
      TwoEntriesAtMostSum(Golds(w), c, d);
    }
  }

  lemma SoloExact(items: Catalog, w: World, e: Event, who: int)
    requires Sane(w) && Worth(w) < TWO_64 && who in w.traders && e.actor in w.traders
    requires e.deed.Register? || e.deed.Buy? || e.deed.Claim?
    ensures who in Step(items, w, e).traders
    ensures Step(items, w, e).traders[who].gold == w.traders[who].gold + Due(items, w, e, who)
  {
    var c, t := Surroundings(items, w, e), w.traders[e.actor];
    WorthBounds(w, e.actor);
    match e.deed
    case Register(slot, price) =>
      if RegisterOutcome(c, t, w.market, slot, price) == Done {
        DebitSubtracts(t.gold, Commission(price));
      }
    case Buy(id) =>
      if BuyOutcome(c, t, w.market, id) == Done {
        DebitSubtracts(t.gold, w.market[id].price);
      }
    case Claim(id, isCancel) =>
      if ClaimOutcome(c, t, w.market, id, isCancel) == Done && !isCancel {
        CreditAdds(t.gold, w.market[id].price);
      }
  }

  lemma ShopExact(items: Catalog, w: World, e: Event, who: int)
    requires Sane(w) && Worth(w) < TWO_64 && who in w.traders && e.actor in w.traders && e.deed.Shop?
    ensures who in Step(items, w, e).traders
    ensures Step(items, w, e).traders[who].gold == w.traders[who].gold + Due(items, w, e, who)
  {
    WorthBounds(w, e.actor);
    var a, b := e.actor, e.deed.seller;
    if a !in w.stalls && b in w.stalls {
      StallGold(Surroundings(items, w, e), w.traders[a], w.traders[b], w.stalls[b], e.deed.index, e.deed.slot);
    }
  }

  /** While the whole worth fits a uint64, wrapping arithmetic is exact: every balance moves
      by precisely what the step owes. */
  lemma StepExact(items: Catalog, w: World, e: Event, who: int)
    requires Sane(w) && Worth(w) < TWO_64 && who in w.traders
    ensures who in Step(items, w, e).traders
    ensures Step(items, w, e).traders[who].gold == w.traders[who].gold + Due(items, w, e, who)
  {
    if e.actor in w.traders {
      if e.deed.Shop? {
        ShopExact(items, w, e, who);
      } else if !e.deed.OpenStall? && !e.deed.CloseStall? {
        SoloExact(items, w, e, who);
      }
    }
  }

  lemma GoldsAfter(w: World, c: int, t: Trader, w': World)
    requires c in w.traders && w'.traders == w.traders[c := t]
    ensures MapSum(Golds(w')) == MapSum(Golds(w)) + t.gold - w.traders[c].gold
  {
    assert Golds(w') == Golds(w)[c := t.gold as int];
    MapSumUpdate(Golds(w), c, t.gold as int);
  }

  lemma RegisterWorth(items: Catalog, w: World, e: Event)
    requires Sane(w) && Worth(w) < TWO_64 && e.actor in w.traders && e.deed.Register?
    ensures Worth(Step(items, w, e)) == Worth(w)
  {
    var a, c, t := e.actor, Surroundings(items, w, e), w.traders[e.actor];
    var slot, price := e.deed.slot, e.deed.price;
    if RegisterOutcome(c, t, w.market, slot, price) == Done {
      var w' := Step(items, w, e);
      DebitSubtracts(t.gold, Commission(price));
      GoldsAfter(w, a, Registered(c, t, w.market, slot, price).0, w');
      assert Pending(w') == Pending(w)[t.slots[slot].id := 0];
      MapSumUpdate(Pending(w), t.slots[slot].id, 0);
    }
  }

  lemma BuyWorth(items: Catalog, w: World, e: Event)
    requires Sane(w) && Worth(w) < TWO_64 && e.actor in w.traders && e.deed.Buy?
    ensures Worth(Step(items, w, e)) == Worth(w)
  {
    var a, c, t, id := e.actor, Surroundings(items, w, e), w.traders[e.actor], e.deed.id;
    if BuyOutcome(c, t, w.market, id) == Done {
      var w', price := Step(items, w, e), w.market[id].price;
      BagRuns.FirstFreeSound(c, t.slots);
      DebitSubtracts(t.gold, price);
      GoldsAfter(w, a, Bought(c, t, w.market, id).0, w');
      assert Pending(w') == Pending(w)[id := price as int];
      MapSumUpdate(Pending(w), id, price as int);
    }
  }

  lemma ClaimWorth(items: Catalog, w: World, e: Event)
    requires Sane(w) && Worth(w) < TWO_64 && e.actor in w.traders && e.deed.Claim?
    ensures Worth(Step(items, w, e)) == Worth(w)
  {
    var a, c, t := e.actor, Surroundings(items, w, e), w.traders[e.actor];
    var id, isCancel := e.deed.id, e.deed.isCancel;
    if ClaimOutcome(c, t, w.market, id, isCancel) == Done {
      var w' := Step(items, w, e);
      BagRuns.FirstFreeSound(c, t.slots);
      WorthBounds(w, a);
      CreditAdds(t.gold, w.market[id].price);
      GoldsAfter(w, a, Claimed(c, t, w.market, id, isCancel).0, w');
      assert Pending(w') == Pending(w) - {id};
      MapSumRemove(Pending(w), id);
    }
  }

  lemma ShopWorth(items: Catalog, w: World, e: Event)
    requires Sane(w) && Worth(w) < TWO_64 && e.actor in w.traders && e.deed.Shop?
    ensures Worth(Step(items, w, e)) == Worth(w)
  {
    var a, b := e.actor, e.deed.seller;
    if a !in w.stalls && b in w.stalls {
      var p := StallPurchase(Surroundings(items, w, e), w.traders[a], w.traders[b], w.stalls[b],
                             e.deed.index, e.deed.slot);
      var w1 := w.(traders := w.traders[a := p.buyer]);
      var w' := Step(items, w, e);
      GoldsAfter(w, a, p.buyer, w1);
      GoldsAfter(w1, b, p.seller, w');
      ShopExact(items, w, e, a);
      ShopExact(items, w, e, b);
      assert Pending(w') == Pending(w);
    }
  }

  lemma StepWorth(items: Catalog, w: World, e: Event)
    requires Sane(w) && Worth(w) < TWO_64
    ensures Worth(Step(items, w, e)) == Worth(w)
  {
    var w' := Step(items, w, e);
    if e.actor in w.traders {
      if e.deed.Shop? {
        ShopWorth(items, w, e);
      } else if e.deed.OpenStall? || e.deed.CloseStall? {
        assert Golds(w') == Golds(w) && Pending(w') == Pending(w);
      } else if e.deed.Register? {
        RegisterWorth(items, w, e);
      } else if e.deed.Buy? {
        BuyWorth(items, w, e);
      } else {
        ClaimWorth(items, w, e);
      }
    }
  }

  /** Gold in hand, prices awaiting collection and commissions always add up to the same. */
  lemma {:induction false} RunWorth(items: Catalog, w: World, es: seq<Event>)
    requires Sane(w) && Worth(w) < TWO_64
    ensures Sane(Run(items, w, es)) && Worth(Run(items, w, es)) == Worth(w)
    decreases |es|
  {
    if es != [] {
      StepSane(items, w, es[0]);
      StepWorth(items, w, es[0]);
      RunWorth(items, Step(items, w, es[0]), es[1..]);
    }
  }

  /** What a whole run owes one character. */
  ghost function DueOver(items: Catalog, w: World, es: seq<Event>, who: int): int
    requires Sane(w)
    decreases |es|
  {
    if es == [] then 0
    else
      StepSane(items, w, es[0]);
      Due(items, w, es[0], who) + DueOver(items, Step(items, w, es[0]), es[1..], who)
  }

  /** Over any run a balance is its start plus the whole-coin dues: nothing ever wraps. */
  lemma {:induction false} RunExact(items: Catalog, w: World, es: seq<Event>, who: int)
    requires Sane(w) && Worth(w) < TWO_64 && who in w.traders
    ensures who in Run(items, w, es).traders
    ensures Run(items, w, es).traders[who].gold == w.traders[who].gold + DueOver(items, w, es, who)
    decreases |es|
  {
    if es != [] {
      StepSane(items, w, es[0]);
      StepWorth(items, w, es[0]);
      StepExact(items, w, es[0], who);
      RunExact(items, Step(items, w, es[0]), es[1..], who);
    }
  }

  // ---------------------------------------------------------------- whose claim

  /** A price goes to the listing's seller exactly when the seller is the one who claims it. */
  lemma ClaimPaysSellerIff(items: Catalog, w: World, e: Event)
    requires Sane(w) && Worth(w) < TWO_64 && e.actor in w.traders && e.deed.Claim? && !e.deed.isCancel
    requires ClaimOutcome(Surroundings(items, w, e), w.traders[e.actor], w.market, e.deed.id, false) == Done
    requires w.market[e.deed.id].seller in w.traders && w.market[e.deed.id].price > 0
    ensures var l, w' := w.market[e.deed.id], Step(items, w, e);
            && l.seller in w'.traders && e.deed.id !in w'.market
            && (w'.traders[l.seller].gold == w.traders[l.seller].gold + l.price <==> e.actor == l.seller)
  {
    StepExact(items, w, e, w.market[e.deed.id].seller);
  }

  /** A seller without gold whose item `id` is listed at 100, and a passer-by. */
  function OneListing(id: nat, itemID: int, isSold: bool): World {
    var empty := Trader(0, seq(SLOT_COUNT, i => EMPTY));
    World(map[1 := empty, 2 := empty],
          map[id := Listing(1, 100, isSold, EMPTY.(id := id, itemID := itemID, owner := Some(1)))], map[], 0)
  }

  /** The passer-by collects the seller's price. */
  lemma StrangerCollects(items: Catalog, id: nat, itemID: int)
    requires itemID != 0
    ensures var w := OneListing(id, itemID, true);
            && Sane(w)
            && var w' := Step(items, w, Event(2, false, false, Claim(id, false)));
               w'.market == map[] && w'.traders[2].gold == 100 && w'.traders[1].gold == 0
  {
    var w := OneListing(id, itemID, true);
    assert Step(items, w, Event(2, false, false, Claim(id, false))).market == w.market - {id};
  }

  // ---------------------------------------------------------------- listing again

  /** A character who could list the item in slot `k`, were it not for the market's keys. */
  predicate Listable(c: Context, t: Trader, m: Market, k: int, price: U64)
    requires |t.slots| == SLOT_COUNT
  {
    && !c.onTrade && InRange(k) && k != 0 && !t.slots[k].activated && !t.slots[k].inUse
    && |ListingsOf(m, c.charID)| < MAX_LISTINGS && t.gold >= Commission(price)
    && t.slots[k].itemID in c.items && c.items[t.slots[k].itemID].tradable != 2
  }

  /** A bought item sits in the buyer's bag while its row stays in the market, so listing it again
      is refused; once anybody has claimed the price it works. */
  lemma BoughtBlocksUntilClaimed(items: Catalog, w: World, e: Event, w2: World, k: int, price: U64, c: Context)
    requires Sane(w) && e.actor in w.traders && e.deed.Buy?
    requires BuyOutcome(Surroundings(items, w, e), w.traders[e.actor], w.market, e.deed.id) == Done
    requires k == FirstFree(Surroundings(items, w, e), w.traders[e.actor].slots)
    requires w2 == Step(items, w, e) && Sane(w2) && Listable(c, w2.traders[e.actor], w2.market, k, price)
    ensures w2.traders[e.actor].slots[k].id == e.deed.id && e.deed.id in w2.market && w2.market[e.deed.id].isSold
    ensures RegisterOutcome(c, w2.traders[e.actor], w2.market, k, price) == Refused
    ensures RegisterOutcome(c, w2.traders[e.actor], w2.market - {e.deed.id}, k, price) == Done
  {
    BagRuns.FirstFreeSound(Surroundings(items, w, e), w.traders[e.actor].slots);
    var m := w2.market;
    Within(ListingsOf(m - {e.deed.id}, c.charID), ListingsOf(m, c.charID));
  }

  /** In general: a listable item is listed exactly when no row carries its id, and refused otherwise. */
  lemma ListedIff(c: Context, t: Trader, m: Market, k: int, price: U64)
    requires |t.slots| == SLOT_COUNT && Listable(c, t, m, k, price)
    ensures RegisterOutcome(c, t, m, k, price) == if t.slots[k].id in m then Refused else Done
  {
  }
}
