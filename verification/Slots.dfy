/** Inventory slots and the static item catalogue. */
module Slots {
  import opened Prelude

  const ZERO_CODES: string := "{" + ("0,0,0,0,0," + ("0,0,0,0,0," + "0,0,0,0,0")) + "}"

  /** One entry of a character's inventory.  `owner` is the nullable character id, `quantity`
      a uint64, `plus` a uint8; `upgradeArr` and `socketArr` are brace lists of 15 bytes. */
  datatype Slot = Slot(
    id: nat, owner: Option<int>, itemID: int, slotID: int, quantity: nat, plus: nat,
    upgradeArr: string, socketArr: string, activated: bool, inUse: bool, consignment: bool)

  /** `NewSlot()`. */
  const EMPTY: Slot := Slot(0, None, 0, 0, 0, 0, ZERO_CODES, ZERO_CODES, false, false, false)

  /** The columns of the item table that slot handling consults. */
  datatype ItemInfo = ItemInfo(
    slot: int, minLevel: int, maxLevel: int, tradable: int, timer: int, stackable: bool)

  /** Item id to its row.  Id 0 marks an empty slot and has no row. */
  type Catalog = m: map<int, ItemInfo> | 0 !in m witness map[]

  const SLOT_COUNT: nat := 450

  /** The bank shares the array with the bags: indexes 0x43 to 0x132. */
  predicate IsBank(k: int) {
    0x43 <= k <= 0x132
  }

  /** Equipment and effect positions, where timed items run. */
  predicate AffectsStats(k: int) {
    k < 0x0B || 0x133 <= k <= 0x13B || 0x18D <= k <= 0x192
  }

  predicate IsPetSlot(k: int) {
    317 <= k <= 319
  }
}
