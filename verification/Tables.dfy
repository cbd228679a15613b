/** Drop tables, shop item lists and shops: objects that keep their lists as brace text. */
module Tables {
  import opened Prelude
  import opened ListCodec

  /** A slice of Go `int`s, as the callers of `New` pass them. */
  ghost predicate GoInts(xs: seq<int>) {
    forall i :: 0 <= i < |xs| ==> -MAX_INT64 - 1 <= xs[i] <= MAX_INT64
  }

  /** What comes back after storing `xs`: its positive members in order, or `[0]`. */
  function ReadBack(xs: seq<int>): (r: seq<int>)
    ensures r != []
    ensures forall x :: x in r && x != 0 ==> x in xs && x > 0
  {
    if Positive(xs) == [] then [0] else Positive(xs)
  }

  lemma {:induction false} PositiveInRange(xs: seq<int>)
    requires GoInts(xs)
    ensures GoInts(Positive(xs))
  {
    var ps := Positive(xs);
    forall i | 0 <= i < |ps| ensures 0 < ps[i] <= MAX_INT64 {
      assert ps[i] in ps;
    }
  }

  /** `New` then `GetItems`, for any list a caller may pass. */
  lemma StoredThenRead(xs: seq<int>)
    requires GoInts(xs)
    ensures ParseInts(Format(Positive(xs))) == ReadBack(xs)
  {
    PositiveInRange(xs);
    RoundTrip(Positive(xs));
  }

  /** The loop shared by `GetItems`, `GetProbabilities` and `GetTypes`. */
  method ReadList(text: string) returns (arr: seq<int>)
    ensures arr == ParseInts(text)
  {
    var pieces := Pieces(text);
    arr := [];
    for i := 0 to |pieces|
      invariant arr == MapAtoi(pieces)[..i]
    {
      arr := arr + [Atoi(pieces[i])];
    }
  }

  method FilterPositive(xs: seq<int>) returns (r: seq<int>)
    ensures r == Positive(xs)
  {
    r := [];
    for i := 0 to |xs|
      invariant r + Positive(xs[i..]) == Positive(xs)
    {
      if xs[i] > 0 {
        r := r + [xs[i]];
      }
    }
  }

  class DropInfo {
    var id: int
    var items: string
    var probabilities: string

    constructor () {
      id, items, probabilities := 0, "", "";
    }

    method New(id: int, items: seq<int>, probabilities: seq<int>)
      requires GoInts(items) && GoInts(probabilities)
      modifies this
      ensures this.id == id
      ensures ParseInts(this.items) == ReadBack(items)
      ensures ParseInts(this.probabilities) == ReadBack(probabilities)
    {
      this.id := id;
      var its := FilterPositive(items);
      var probs := FilterPositive(probabilities);
      this.items := Format(its);
      this.probabilities := Format(probs);
      StoredThenRead(items);
      StoredThenRead(probabilities);
    }

    method GetItems() returns (arr: seq<int>)
      ensures arr == ParseInts(items)
    {
      arr := ReadList(items);
    }

    method GetProbabilities() returns (arr: seq<int>)
      ensures arr == ParseInts(probabilities)
    {
      arr := ReadList(probabilities);
    }
  }

  /** Shop type to the stored item text of that type. */
  type ShopItems = map<int, string>

  /** The first listed type at which the search stops: it has no item row, the nil dereference, or
      it sells the item. */
  ghost predicate StopsAt(types: seq<int>, shopItems: ShopItems, itemID: int, k: nat) {
    && k < |types|
    && (types[k] !in shopItems || itemID in ParseInts(shopItems[types[k]]))
    && forall j :: 0 <= j < k ==> types[j] in shopItems && itemID !in ParseInts(shopItems[types[j]])
  }

  class Shop {
    var id: int
    var types: string

    constructor () {
      id, types := 0, "";
    }

    method New(id: int, types: seq<int>)
      requires GoInts(types)
      modifies this
      ensures this.id == id
      ensures ParseInts(this.types) == ReadBack(types)
    {
      this.id := id;
      var ts := FilterPositive(types);
      this.types := Format(ts);
      StoredThenRead(types);
    }

    /** `None` when a listed type has no item row and the lookup dereferences nil. */
    method IsPurchasable(shopItems: ShopItems, itemID: int) returns (r: Option<bool>)
      ensures r == Some(false) <==>
              forall t :: t in ParseInts(types) ==> t in shopItems && itemID !in ParseInts(shopItems[t])
      ensures r == Some(true) <==>
              exists k: nat :: StopsAt(ParseInts(types), shopItems, itemID, k) && ParseInts(types)[k] in shopItems
      ensures r == None <==>
              exists k: nat :: StopsAt(ParseInts(types), shopItems, itemID, k) && ParseInts(types)[k] !in shopItems
    {
      var ts := ReadList(types);
      for i := 0 to |ts|
        invariant forall j :: 0 <= j < i ==> ts[j] in shopItems && itemID !in ParseInts(shopItems[ts[j]])
      {
        if ts[i] !in shopItems {
          assert StopsAt(ts, shopItems, itemID, i);
          return None;
        }
        var items := ReadList(shopItems[ts[i]]);
        if itemID in items {
          assert StopsAt(ts, shopItems, itemID, i);
          return Some(true);
        }
      }
      return Some(false);
    }
  }

  /** End to end: a shop and its item lists, all written by `New`, sell exactly the positive
      items of their positive types. */
  lemma StoredShopSells(types: seq<int>, stock: map<int, seq<int>>, shopItems: ShopItems, itemID: int)
    requires GoInts(types) && Positive(types) != [] && itemID > 0
    requires shopItems.Keys == stock.Keys
    requires forall t :: t in stock ==> GoInts(stock[t]) && shopItems[t] == Format(Positive(stock[t]))
    ensures (exists t :: t in ParseInts(Format(Positive(types))) && t in shopItems && itemID in ParseInts(shopItems[t]))
       <==> (exists t :: t in types && t > 0 && t in stock && itemID in stock[t])
  {
    StoredThenRead(types);
    forall t | t in stock ensures itemID in ParseInts(shopItems[t]) <==> itemID in stock[t] {
      StoredThenRead(stock[t]);
    }
  }

  /** A shop stored with no positive type answers from type 0, which is normally absent. */
  lemma EmptyShopLooksUpZero(types: seq<int>)
    requires GoInts(types)
    ensures ParseInts(Format(Positive(types))) == [0] <==> Positive(types) == []
  {
    StoredThenRead(types);
    assert 0 !in Positive(types);
  }
}
