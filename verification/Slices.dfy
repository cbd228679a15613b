/** `utils.Contains`, which sees the dynamic types of its arguments. */
module Slices {

  /** The slices it is handed: only the first kind is searched. */
  datatype AnySlice = Int64s(xs: seq<int>) | Ints(xs: seq<int>)

  /** The item as an interface value; values of different types are never equal. */
  datatype AnyInt = Int64(v: int) | Int(v: int)

  predicate Member(slice: AnySlice, item: AnyInt) {
    slice.Int64s? && item.Int64? && item.v in slice.xs
  }

  method Contains(slice: AnySlice, item: AnyInt) returns (found: bool, index: int)
    ensures found <==> Member(slice, item)
    ensures found ==> 0 <= index < |slice.xs| && slice.xs[index] == item.v && item.v !in slice.xs[..index]
    ensures !found ==> index == -1
  {
    if slice.Int64s? {
      for i := 0 to |slice.xs|
        invariant item.Int64? ==> item.v !in slice.xs[..i]
      {
        if Int64(slice.xs[i]) == item {
          return true, i;
        }
      }
    }
    return false, -1;
  }

  /** What a handler answers behind a check that applies to equipped slots only.  The list of
      equipped slots is an `[]int` and the slot an `int`. */
  function IfEquipped<T>(equipped: seq<int>, slot: int, checked: T, unchecked: T): T {
    if Member(Ints(equipped), Int(slot)) then checked else unchecked
  }

  /** So the check never applies, whatever it would answer: it would only if both the list and
      the slot were int64. */
  lemma EquipmentCheckIdle<T>(equipped: seq<int>, slot: int, checked: T, unchecked: T)
    ensures IfEquipped(equipped, slot, checked, unchecked) == unchecked
    ensures forall slice: AnySlice, item: AnyInt ::
              slice.xs == equipped && item.v == slot && slot in equipped ==>
                (Member(slice, item) <==> slice == Int64s(equipped) && item == Int64(slot))
  {
  }
}
