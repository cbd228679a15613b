/** The upgrade level of an item and its fifteen upgrade codes, kept as text in the slot. */
module UpgradeCodes {
  import opened Prelude
  import opened ListCodec
  import opened Slots

  const MAX_PLUS: nat := 15

  function MapBytes(ws: seq<string>): seq<int> {
    seq(|ws|, i requires 0 <= i < |ws| => ParseByte(ws[i]))
  }

  function ParseBytes(text: string): seq<int> {
    MapBytes(Pieces(text))
  }

  function GetUpgrades(s: Slot): seq<int> {
    ParseBytes(s.upgradeArr)
  }

  function GetSockets(s: Slot): seq<int> {
    ParseBytes(s.socketArr)
  }

  function SetUpgrades(s: Slot, codes: seq<int>): Slot {
    if |codes| == 15 then s.(upgradeArr := Format(codes)) else s
  }

  predicate Bytes(codes: seq<int>) {
    forall i :: 0 <= i < |codes| ==> 0 <= codes[i] < 256
  }

  predicate Nonzero(codes: seq<int>) {
    forall i :: 0 <= i < |codes| ==> codes[i] != 0
  }

  /** Reading undoes writing for every fifteen bytes. */
  lemma GetUndoesSet(s: Slot, codes: seq<int>)
    requires |codes| == 15 && Bytes(codes)
    ensures GetUpgrades(SetUpgrades(s, codes)) == codes
  {
    PiecesOfFormat(codes);
    WordsOf(codes);
    forall i | 0 <= i < 15 ensures ParseByte(Words(codes)[i]) == codes[i] {
      ParseUintOfDigits(codes[i], 255);
    }
  }

  /** Sets of other lengths are dropped without a trace. */
  lemma SetNeedsFifteen(s: Slot, codes: seq<int>)
    requires Bytes(codes) && |GetUpgrades(s)| == 15
    ensures GetUpgrades(SetUpgrades(s, codes)) == codes || SetUpgrades(s, codes) == s
    ensures GetUpgrades(SetUpgrades(s, codes)) == codes <==> |codes| == 15
  {
    if |codes| == 15 {
      GetUndoesSet(s, codes);
    }
  }

  function ZeroText(n: nat): string {
    if n == 0 then "" else if n == 1 then "0" else "0," + ZeroText(n - 1)
  }

  function Zeros(n: nat): (r: seq<int>)
    ensures |r| == n && forall i :: 0 <= i < n ==> r[i] == 0
  {
    seq(n, i => 0)
  }

  lemma {:induction false} JoinZeros(n: nat)
    ensures Join(Words(Zeros(n)), ',') == ZeroText(n)
  {
    if n > 0 {
      JoinZeros(n - 1);
      assert Zeros(n)[1..] == Zeros(n - 1);
      WordsOf(Zeros(n - 1));
    }
  }

  lemma TwoZeros(n: nat)
    requires n > 0
    ensures ZeroText(n + 2) == "0,0," + ZeroText(n)
  {
  }

  lemma FourZeros(text: string)
    ensures "0,0," + ("0,0," + text) == "0,0,0,0," + text
  {
  }

  lemma FiveZeros(n: nat)
    requires n > 0
    ensures ZeroText(n + 5) == "0,0,0,0,0," + ZeroText(n)
  {
    TwoZeros(n + 3);
    TwoZeros(n + 1);
    FourZeros(ZeroText(n + 1));
  }

  lemma ZeroText15()
    ensures "{" + ZeroText(15) + "}" == ZERO_CODES
  {
    FiveZeros(10);
    FiveZeros(5);
    assert ZeroText(5) == "0,0," + ZeroText(3);
  }

  /** A fresh slot holds fifteen zero codes and fifteen zero sockets. */
  lemma NewSlotCodes()
    ensures GetUpgrades(EMPTY) == Zeros(15) && GetSockets(EMPTY) == Zeros(15)
  {
    JoinZeros(15);
    ZeroText15();
    FormatIs(Zeros(15));
    GetUndoesSet(EMPTY, Zeros(15));
  }

  // ---------------------------------------------------------------- the invariant

  /** Exactly the first `plus` of the fifteen codes are nonzero. */
  ghost predicate Shape(codes: seq<int>, plus: nat) {
    && |codes| == 15
    && plus <= MAX_PLUS
    && forall i :: 0 <= i < 15 ==> (codes[i] != 0 <==> i < plus)
  }

  /** `plus` is at most 15 and counts exactly the nonzero codes, which come first. */
  ghost predicate Rep(s: Slot) {
    Shape(GetUpgrades(s), s.plus)
  }

  lemma EmptyRep()
    ensures Rep(EMPTY)
  {
    NewSlotCodes();
  }

  // ---------------------------------------------------------------- writers

  method SetUpgrade(slots: array<Slot>, k: nat, i: int, code: int)
    requires k < slots.Length && |GetUpgrades(slots[k])| == 15
    requires 0 <= i < 15 && 0 <= code < 256
    modifies slots
    ensures slots[..] == old(slots[..])[k := old(slots[k]).(upgradeArr := slots[k].upgradeArr)]
    ensures GetUpgrades(slots[k]) == GetUpgrades(old(slots[k]))[i := code]
  {
    var upgs := GetUpgrades(slots[k]);
    upgs := upgs[i := code];
    GetUndoesSet(slots[k], upgs);
    slots[k] := SetUpgrades(slots[k], upgs);
  }

  /** The codes after writing as many new codes as fit behind the present ones. */
  function Appended(codes: seq<int>, plus: nat, more: seq<int>): (r: seq<int>)
    requires |codes| == 15 && plus <= 15
    ensures |r| == 15
    ensures forall i :: 0 <= i < 15 ==> r[i] == if plus <= i < plus + |more| then more[i - plus] else codes[i]
  {
    var n := Min(|more|, 15 - plus);
    codes[..plus] + more[..n] + codes[plus + n..]
  }

  method AppendCode(slots: array<Slot>, k: nat, code: int)
    requires k < slots.Length && |GetUpgrades(slots[k])| == 15 && slots[k].plus < 15
    requires 0 <= code < 256
    modifies slots
    ensures forall j :: 0 <= j < slots.Length && j != k ==> slots[j] == old(slots[j])
    ensures slots[k] == old(slots[k]).(plus := old(slots[k]).plus + 1, upgradeArr := slots[k].upgradeArr)
    ensures GetUpgrades(slots[k]) == GetUpgrades(old(slots[k]))[old(slots[k]).plus := code]
  {
    SetUpgrade(slots, k, slots[k].plus, code);
    slots[k] := slots[k].(plus := slots[k].plus + 1);
  }

  lemma AppendedNext(codes: seq<int>, plus: nat, more: seq<int>, i: nat)
    requires |codes| == 15 && i < |more| && plus + i < 15
    ensures Appended(codes, plus, more[..i])[plus + i := more[i]] == Appended(codes, plus, more[..i + 1])
  {
  }

  /** Writes codes at the level and raises it, stopping at level 15. */
  method Upgrade(slots: array<Slot>, k: nat, codes: seq<int>) returns (done: bool)
    requires k < slots.Length && |GetUpgrades(slots[k])| == 15
    requires Bytes(codes)
    modifies slots
    ensures forall j :: 0 <= j < slots.Length && j != k ==> slots[j] == old(slots[j])
    ensures done == (old(slots[k]).itemID != 0 && old(slots[k]).plus < 15)
    ensures !done ==> slots[k] == old(slots[k])
    ensures done ==>
      && slots[k].plus == Min(old(slots[k]).plus + |codes|, 15)
      && GetUpgrades(slots[k]) == Appended(GetUpgrades(old(slots[k])), old(slots[k]).plus, codes)
      && slots[k] == old(slots[k]).(plus := slots[k].plus, upgradeArr := slots[k].upgradeArr)
  {
    if slots[k].itemID == 0 || slots[k].plus >= 15 {
      return false;
    }
    ghost var before := slots[k];
    ghost var upgs := GetUpgrades(before);
    var i := 0;
    while i < |codes|
      invariant 0 <= i <= |codes|
      invariant before.plus + i < 15
      invariant forall j :: 0 <= j < slots.Length && j != k ==> slots[j] == old(slots[j])
      invariant slots[k].plus == before.plus + i
      invariant slots[k] == before.(plus := slots[k].plus, upgradeArr := slots[k].upgradeArr)
      invariant GetUpgrades(slots[k]) == Appended(upgs, before.plus, codes[..i])
    {
      AppendedNext(upgs, before.plus, codes, i);
      AppendCode(slots, k, codes[i]);
      i := i + 1;
      if slots[k].plus == 15 {
        assert Appended(upgs, before.plus, codes[..i]) == Appended(upgs, before.plus, codes);
        break;
      }
    }
    assert i == |codes| ==> codes[..i] == codes;
    return true;
  }

  /** However many codes are asked for, the shape holds afterwards. */
  lemma AppendedShape(codes: seq<int>, plus: nat, more: seq<int>)
    requires Shape(codes, plus) && Nonzero(more)
    ensures Shape(Appended(codes, plus, more), Min(plus + |more|, 15))
  {
    var n := Min(|more|, 15 - plus);
    var r := Appended(codes, plus, more);
    forall i | 0 <= i < 15 ensures r[i] != 0 <==> i < Min(plus + |more|, 15) {
      if plus <= i < plus + n {
        assert r[i] == more[i - plus];
      }
    }
  }

  /** The same code `n` times. */
  function Repeat(code: int, n: nat): (r: seq<int>)
    ensures |r| == n && forall i :: 0 <= i < n ==> r[i] == code
  {
    seq(n, i => code)
  }

  lemma AppendedRepeat(codes: seq<int>, plus: nat, code: int, n: nat)
    requires |codes| == 15 && plus <= 15
    ensures Appended(codes, plus, Repeat(code, n)) ==
            codes[..plus] + Repeat(code, Min(n, 15 - plus)) + codes[plus + Min(n, 15 - plus)..]
  {
    assert Repeat(code, n)[..Min(n, 15 - plus)] == Repeat(code, Min(n, 15 - plus));
  }

  /** `codes` with every entry from `plus` on set to zero. */
  function Cut(codes: seq<int>, plus: nat): (r: seq<int>)
    requires |codes| == 15 && plus <= 15
    ensures |r| == 15 && forall i :: 0 <= i < 15 ==> r[i] == if i < plus then codes[i] else 0
  {
    codes[..plus] + Zeros(15 - plus)
  }

  /** A failed but protected upgrade: the level drops, never below 0, and the codes above are cleared. */
  method Soften(slots: array<Slot>, k: nat, loss: nat)
    requires k < slots.Length && |GetUpgrades(slots[k])| == 15
    requires loss < 256 && slots[k].plus <= 15
    modifies slots
    ensures forall j :: 0 <= j < slots.Length && j != k ==> slots[j] == old(slots[j])
    ensures slots[k].plus == Max(old(slots[k]).plus - loss, 0)
    ensures GetUpgrades(slots[k]) == Cut(GetUpgrades(old(slots[k])), slots[k].plus)
    ensures slots[k] == old(slots[k]).(plus := slots[k].plus, upgradeArr := slots[k].upgradeArr)
  {
    ghost var before := slots[k];
    ghost var upgs := GetUpgrades(before);
    if slots[k].plus < loss {
      slots[k] := slots[k].(plus := 0);
    } else {
      slots[k] := slots[k].(plus := slots[k].plus - loss);
    }
    var p := slots[k].plus;
    for i := p to 15
      invariant forall j :: 0 <= j < slots.Length && j != k ==> slots[j] == old(slots[j])
      invariant slots[k] == before.(plus := p, upgradeArr := slots[k].upgradeArr)
      invariant |GetUpgrades(slots[k])| == 15
      invariant forall j :: 0 <= j < 15 ==>
                  GetUpgrades(slots[k])[j] == if p <= j < i then 0 else upgs[j]
    {
      SetUpgrade(slots, k, i, 0);
    }
    assert GetUpgrades(slots[k]) == Cut(upgs, p);
  }

  lemma CutShape(codes: seq<int>, plus: nat, less: nat)
    requires Shape(codes, plus) && less <= plus
    ensures Shape(Cut(codes, less), less)
  {
  }

  /** Replacing one held code keeps the shape exactly when the new byte is nonzero. */
  lemma RewriteShape(codes: seq<int>, plus: nat, i: nat, code: int)
    requires Shape(codes, plus) && i < plus
    ensures Shape(codes[i := code], plus) <==> code != 0
  {
    assert codes[i := code][i] == code;
  }

  // ---------------------------------------------------------------- readers

  /** The longest prefix without a zero. */
  function UntilZero(codes: seq<int>): (r: seq<int>)
    ensures |r| <= |codes| && r == codes[..|r|]
    ensures Nonzero(r)
    ensures |r| < |codes| ==> codes[|r|] == 0
  {
    if codes == [] || codes[0] == 0 then [] else [codes[0]] + UntilZero(codes[1..])
  }

  /** The scan of the combat stats: stops at the first zero. */
  method ScanUpgrades(s: Slot) returns (ids: seq<int>)
    ensures ids == UntilZero(GetUpgrades(s))
  {
    ids := ScanCodes(GetUpgrades(s));
  }

  method ScanCodes(upgs: seq<int>) returns (ids: seq<int>)
    ensures ids == UntilZero(upgs)
  {
    ids := [];
    for i := 0 to |upgs|
      invariant ids == upgs[..i] && Nonzero(ids)
    {
      if upgs[i] == 0 {
        UntilZeroIs(upgs, i);
        return;
      }
      ids := ids + [upgs[i]];
    }
    UntilZeroIs(upgs, |upgs|);
  }

  method ScanSockets(s: Slot) returns (ids: seq<int>)
    ensures ids == UntilZero(GetSockets(s))
  {
    ids := ScanCodes(GetSockets(s));
  }

  /** The scan of the pet stats: counts up to the level. */
  method CountUpgrades(s: Slot) returns (ids: seq<int>)
    requires s.plus <= |GetUpgrades(s)|
    ensures ids == GetUpgrades(s)[..s.plus]
  {
    var upgs := GetUpgrades(s);
    ids := [];
    for i := 0 to s.plus
      invariant ids == upgs[..i]
    {
      ids := ids + [upgs[i]];
    }
  }

  lemma {:induction false} UntilZeroIs(codes: seq<int>, p: nat)
    requires p <= |codes| && Nonzero(codes[..p])
    requires p < |codes| ==> codes[p] == 0
    ensures UntilZero(codes) == codes[..p]
  {
    if p > 0 {
      assert codes[..p][0] == codes[0];
      assert codes[1..][..p - 1] == codes[..p][1..];
      UntilZeroIs(codes[1..], p - 1);
    }
  }

  /** The two readers agree on every slot that satisfies the invariant. */
  lemma ReadersAgree(s: Slot)
    requires Rep(s)
    ensures UntilZero(GetUpgrades(s)) == GetUpgrades(s)[..s.plus]
  {
    UntilZeroIs(GetUpgrades(s), s.plus);
  }

  /** Exactly when they agree: the first `plus` codes are nonzero and the next one is not. */
  lemma ReadersAgreeIff(s: Slot)
    requires |GetUpgrades(s)| == 15 && s.plus <= 15
    ensures UntilZero(GetUpgrades(s)) == GetUpgrades(s)[..s.plus] <==>
            Nonzero(GetUpgrades(s)[..s.plus]) && (s.plus < 15 ==> GetUpgrades(s)[s.plus] == 0)
  {
    var codes := GetUpgrades(s);
    if Nonzero(codes[..s.plus]) && (s.plus < 15 ==> codes[s.plus] == 0) {
      UntilZeroIs(codes, s.plus);
    }
  }
}
