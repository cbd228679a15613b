# A model of the game server's state engine

The server keeps all game state in memory and changes it step by step as packets, timers and
scans arrive. This project models the stateful core in Dafny and proves what the core is meant
to guarantee: nothing is duplicated or lost in an inventory, gold is conserved between players,
levelling does not depend on how experience arrives, derived stats are a function of what a
character wears, capture stones and movement chains behave over whole runs, and an incrementally
maintained view equals a recomputed one.

Objects the server mutates are classes whose methods do what the Go methods do, in the same
order and with the same early exits. Each such method is proved against a function of its old
state, and the theorems over runs are about those functions.

| module | models |
|---|---|
| `Prelude`, `Slices` | options, handler outcomes, uint64 and int64 bounds, sums over maps; `utils.Contains` |
| `Slots`, `Bags` | one slot; what the inventory handlers compute on the 450 slots |
| `BagRuns`, `BagLaws` | runs of inventory requests; slot reservation and box opening; owners and timers |
| `ListCodec`, `Tables` | the brace-list text format down to characters; drop tables and shops |
| `UpgradeCodes` | the level and the fifteen upgrade codes of an item |
| `Trades`, `Ledger`, `Places`, `TradeLaws` | consignment house and stalls; gold over runs; where each item is; what each trade leaves behind |
| `Characters` | the character object with its slots overwritten in place |
| `Search`, `Experience`, `ExpLaws` | bisection; levelling; what one grant brings |
| `SkillLedger`, `SkillLaws` | skill points over runs; what levels cost |
| `Folds`, `Stats`, `StatLaws` | sums of bonuses; the stat rebuild; every published field in plain arithmetic |
| `Fighters`, `BuffRuns` | the stat row and buff rows changed in place; buff expiry over runs |
| `War`, `Movement`, `Sight` | capture stones and score; walking; visibility |
| `Drops`, `FortuneBox` | picks from drop tables; the walk through nested tables |

A handler ends `Done`, `Ignored` (an empty answer), `Refused` (an error answer) or `Panicked` (a
nil dereference or an index out of range). Gold and quantities are uint64 and wrap; experience is
int64 and wraps; Go's `/` and float-to-int conversions truncate toward zero.

`dafny verify dfyconfig.toml` checks everything.

## Where the code differs from what one would expect

These are consequences of the code. The member named with each says exactly when it happens.

- `utils.Contains` finds only an int64 in an `[]int64` (`Slices.Contains`). The lists of equipped slots and
  of war crowds are `[]int`, so it always answers false there: the equipment checks of move, swap and
  combine never apply (`Slices.EquipmentCheckIdle`), and war crowds only grow (`War.CrowdsCountAppearances`).
- Combining a slot with itself loses the stack (`BagRuns.SelfCombineLoses`).
- Adding an item to a named slot overwrites what it holds (`BagRuns.AddAtSlot`).
- The wrapper box takes the gold before it looks for room and does not give it back
  (`Characters.Character.OpenWrapperBox`).
- Moving between two pet-equipment slots looks up the item of the empty target and panics
  (`BagRuns.PetSlotsNeverMove`).
- Reserving zero slots succeeds exactly when slot 11 is not the first free slot (`BagRuns.ReserveNothing`).
- A stall purchase overwrites the slot the buyer names (`Places.StepKeepsPlaces`), and moves the gold
  even if that slot is out of range (`Trades.StallGold`).
- A stall sells whatever lies in the offered slot by then (`Places.StallSellsAnother`); only three kinds of
  request change that (`Places.RunSlotStays`).
- A consignment row is keyed by the item's id, so an item that was bought and put up again is refused
  until its price has been claimed (`Ledger.BoughtBlocksUntilClaimed`).
- A swap or split between bank and bags leaves the owner of what it moved as it was (`BagLaws.SwapKeepsOwnersIff`,
  `BagLaws.SplitKeepsOwnersIff`), and a swap between two slots that count leaves a timed item stopped
  (`BagLaws.SwapKeepsTimersIff`). A move believes the item id it is sent (`BagLaws.MoveKeepsTimersIff`).
- An item whose listing a passer-by cancels goes on naming its seller (`TradeLaws.StepKeepsLabels`).
- Claiming does not compare the seller with the caller: the price, or the cancelled item, goes to whoever
  asks (`Ledger.ClaimPaysSellerIff`, `Places.CancelReturnsIff`). The theorems over runs hold for any claimant.
- A reset gives too few stat points when the level ends in nine (`Experience.ResetAgreesIff`).
- Beyond level 100 a split grant can miss four nature points (`Experience.SecondGrantTwice`), and across
  level 100 it can end with more experience (`Experience.CrossingIff`).
- Stepping down darkness skills and passive slots 6 and 7 does not refund what was paid, and a passive
  request from any other button reaches the first combat skill (`SkillLedger.StepConservesIff`), which it can
  raise past its maximum (`SkillLedger.StepBoundedIff`).
- A rebuild starts from zero everywhere except in the two recovery rates, which drift
  (`Stats.RebuildTwice`).
- The second bag range ends on the first marble, which may therefore count twice (`StatLaws.OneItem`).
- A rebuild deletes rows of zero duration that can expire, so one tick may remove several rows
  (`BuffRuns.TickTakes`), though never an unexpired one (`BuffRuns.RunTakesOnlyExpired`).
- A movement token that only differs from the current one can revive an old chain
  (`Movement.LaunchSingleIff`, `Movement.OldChainRevives`).
- A mob that dies in sight leaves it without a message of the scan (`Sight.Watcher.ExploreMobs`).
- Text for an empty list reads back as one zero (`ListCodec.RoundTrip`).
- The fortune box can end on the id of a table instead of an item (`FortuneBox.EndsOnTableIff`), and when
  draws can come back to a table it need not end at all (`FortuneBox.EndsIff`).

## Model

| member | source | states |
|---|---|---|
| `BagRuns.RunKeeps` | database/characters.go:1681-2055 | Over every run of move, swap, split and combine requests, in changing surroundings and with no stack combined with itself, the total of each item id is unchanged, ids of occupied slots stay distinct and every occupied slot knows its own index |
| `BagRuns.MoveKeeps` | database/characters.go:1681-1813 | A move that takes effect, bank and inventory in any direction, keeps the invariant and every total |
| `BagRuns.SwapKeeps` | database/characters.go:1815-1992 | A swap that takes effect keeps the invariant and every total, also when a slot is swapped with itself |
| `BagRuns.SplitKeeps` | database/characters.go:1994-2055 | A split that takes effect keeps the invariant and every total, also when the whole stack is split off and the source becomes a new slot; the new stack gets an id nobody has |
| `BagRuns.CombineKeeps` | database/characters.go:3369-3429 | Combining two different slots keeps the invariant and every total |
| `BagRuns.SelfCombineLoses` | database/characters.go:3378-3425 | Exactly when a combine conserves the stack: the two slots differ, or the stack holds nothing |
| `BagRuns.MoveBack` | database/characters.go:1731-1756 | Moving an untimed item away inside the inventory and back restores all slots |
| `BagRuns.PetSlotsNeverMove` | database/characters.go:1726-1730 | Between pet-equipment slots no move ever takes effect, and with an empty target it panics |
| `Slices.Contains` | utils/slice.go:36-47 | The loop finds an item exactly in an int64 slice when the item is an int64 too, and then its first position |
| `Slices.EquipmentCheckIdle` | database/characters.go:1705-1724 | The checks behind membership in the list of equipped slots never apply, whatever they would answer, because that list and the slot are not int64 |
| `BagRuns.SplitThenCombine` | database/characters.go:1994-2055 | Combining a split-off part back restores all slots |
| `BagRuns.FreeFromExact` | database/characters.go:1463-1489 | The search list holds exactly the empty slots of its range |
| `BagRuns.RoundsAreFreeSlots` | database/characters.go:1463-1489 | Repeatedly finding a free slot and filling it walks down the list of free slots |
| `BagRuns.ReservationIsRounds` | database/characters.go:1491-1522 | Reserving k slots answers exactly the k slots that k rounds of find-and-fill would take, or fails when the rounds run out |
| `BagRuns.ReserveNothing` | database/characters.go:1491-1522 | Reserving zero slots fails exactly when slot 11 is the first free one |
| `BagRuns.AddKeeps` | database/characters.go:1537-1679 | An item added without naming a slot keeps the invariant, uses no more than the first free slot, and raises only its own total, by its quantity |
| `BagRuns.AddAtSlot` | database/characters.go:1537-1679 | An item added to a named slot keeps the invariant; the totals change by just that item exactly when the slot was empty or held quantity zero |
| `BagRuns.EnoughSlotsSuffice` | database/characters.go:5942-6004 | With as many free slots as rewards, whatever mix of stackable and unstackable, every reward lands and each total rises by exactly the rewarded amount |
| `BagRuns.ReservationSuffices` | database/characters.go:5942-6004 | A successful reservation makes the whole reward loop safe and exact |
| `BagRuns.UnstackableNeedSlots` | database/characters.go:5942-6004 | For unstackable rewards the loop survives exactly when there is a free slot for each |
| `BagRuns.OpeningKeepsSlot` | database/characters.go:5942-6018 | No occupied slot is displaced or loses quantity while a box is opened, so the box itself can still be used up |
| `BagLaws.RunKeepsOwners` | database/characters.go:1681-2055 | Over any run of a character's requests whose swaps and splits cross no border, everything in the bank belongs to nobody and everything in the bags to this character |
| `BagLaws.MoveKeepsOwners` | database/characters.go:1731-1756 | Moves keep owners right in all four directions between bank and bags |
| `BagLaws.SwapKeepsOwnersIff` | database/characters.go:1865-1905 | Swaps carry owners along, so they keep them right exactly inside the bank or inside the bags |
| `BagLaws.SplitKeepsOwnersIff` | database/characters.go:2026-2034 | So do splits |
| `BagLaws.MoveKeepsTimersIff` | database/characters.go:1768-1782 | A move keeps timed items running exactly where they count, except exactly when a timed item goes on or off under the id of something untimed |
| `BagLaws.SwapKeepsTimersIff` | database/characters.go:1922-1955 | So does a swap, except exactly between two different counting slots when the item that leaves the second one is timed |
| `BagLaws.MovesIff` | database/characters.go:1681-1760 | Exactly when a move takes effect |
| `BagLaws.SwapsIff` | database/characters.go:1815-1910 | Exactly when a swap takes effect |
| `BagLaws.SplitsIff` | database/characters.go:1994-2038 | Exactly when a split takes effect |
| `BagLaws.CombinesIff` | database/characters.go:3369-3429 | Exactly when a combine takes effect; a trade does not stop it |
| `BagLaws.MoveCarries` | database/characters.go:1731-1756 | The item arrives whole, level and codes included, and nothing else moves |
| `BagLaws.SwapCarries` | database/characters.go:1865-1905 | Both items arrive whole in each other's place |
| `BagLaws.SplitDivides` | database/characters.go:2022-2040 | The two parts add up and are alike but for the row id of the new one |
| `BagLaws.CombineJoins` | database/characters.go:3412-3424 | The stack combined into keeps its level and codes and grows by the other |
| `BagLaws.AddPlaces` | database/characters.go:1537-1679 | A new item joins the first stack of its like or takes a free slot, labelled as this character's; joining, the quantities add up and all else is the newcomer's |
| `Bags.FindItem` | database/characters.go:1359-1405 | The first slot outside the bank that matches the item (and its level, for the three stone kinds), or -1 when there is none |
| `Characters.Character.FindItemInInventory` | database/characters.go:1359-1405 | The in-place scan answers the specified slot |
| `Characters.Character.FindFreeSlot` | database/characters.go:1463-1489 | The two loops answer the head of the free-slot list, or -1 |
| `Characters.Character.ScanPage` | database/characters.go:1491-1522 | One loop of the reservation in full, including a count that is already met on entry |
| `Characters.Character.FindFreeSlots` | database/characters.go:1491-1522 | The loops answer the reservation, for every count including zero and negative ones |
| `Characters.Character.DecrementItem` | database/characters.go:1407-1461 | Outcome and new slots of taking from a stack; an emptied slot becomes a new slot; other slots unchanged |
| `Characters.Character.AddItem` | database/characters.go:1537-1679 | Outcome, chosen slot and new state of the whole inventory and the id counter; unchanged unless it takes effect |
| `Characters.Character.ReplaceItem` | database/characters.go:1681-1813 | Outcome and all 450 slots after a move |
| `Characters.Character.SwapItems` | database/characters.go:1815-1992 | Outcome and all 450 slots after a swap |
| `Characters.Character.SplitItem` | database/characters.go:1994-2055 | Outcome, all slots and the id counter after a split |
| `Characters.Character.CombineItems` | database/characters.go:3369-3429 | Outcome and all slots after a combine, quantities added modulo 2^64 |
| `Characters.Character.OpenWrapperBox` | database/characters.go:5910-6018 | Opening a box: too little gold changes nothing; without room the gold is gone and nothing else changes; otherwise each total rises by exactly the rewards and one box is used up; it never panics |
| `UpgradeCodes.GetUndoesSet` | database/inventory.go:245-263 | Reading the fifteen codes back gives exactly the fifteen bytes that were set |
| `UpgradeCodes.SetNeedsFifteen` | database/inventory.go:259-263 | A list of any other length is dropped without a trace, and only then |
| `UpgradeCodes.NewSlotCodes` | database/inventory.go:96-111 | The text in a new slot reads as fifteen zero codes and fifteen zero sockets |
| `UpgradeCodes.SetUpgrade` | database/inventory.go:253-257 | Writing a code is the functional update at its index and touches nothing else of the slot |
| `UpgradeCodes.Upgrade` | database/inventory.go:285-317 | Level and codes after an upgrade: as many codes as fit below 15 are appended, other slots and fields unchanged |
| `UpgradeCodes.AppendedShape` | database/inventory.go:285-317 | Asked for any number of nonzero codes, an upgrade keeps the rule that exactly the first `plus` codes are nonzero and `plus` is at most 15 |
| `UpgradeCodes.Soften` | database/characters.go:4095-4115 | The protected failure: level lowered, not below zero, and every code from the new level on cleared |
| `UpgradeCodes.CutShape` | database/characters.go:4095-4115 | Clearing from a lower level on keeps the rule |
| `UpgradeCodes.RewriteShape` | database/characters.go:4719-4722 | Replacing a held code keeps the rule exactly when the new byte is nonzero |
| `Characters.Character.BSUpgrade` | database/characters.go:3931-4165 | Whatever the dice do, the rule survives; the new level and codes of success, softened failure and destruction are stated in full, all else of the slot unchanged, and the gold paid |
| `Characters.Character.Extraction` | database/characters.go:4410-4481 | The rule survives; the last code is taken out and the level drops by one; level 0 panics |
| `Characters.Character.HolyWaterUpgrade` | database/characters.go:4689-4760 | The rule survives exactly when nothing is written or the low byte of the code is nonzero |
| `UpgradeCodes.ReadersAgree` | database/inventory.go:499-512 | Under the rule, stopping at the first zero reads exactly the codes that counting up to the level reads |
| `UpgradeCodes.ReadersAgreeIff` | database/characters.go:2990-2995 | Exactly when the two readers agree |
| `UpgradeCodes.ScanUpgrades` | database/characters.go:2990-2995 | The stop-at-zero loop reads the longest zero-free prefix |
| `UpgradeCodes.CountUpgrades` | database/inventory.go:499-512 | The counting loop reads the first `plus` codes |
| `Trades.DebitSubtracts` | database/characters.go:3071-3081 | Adding the uint64 value of minus x subtracts x exactly when the balance covers it |
| `Trades.CreditAdds` | database/characters.go:3071-3081 | The wrapping addition is a true addition exactly when the sum fits |
| `Trades.StallGold` | database/characters.go:7420-7512 | A stall purchase takes from the buyer and gives to the seller the same amount: the price when there is something to sell and enough gold, otherwise nothing |
| `Ledger.RunWorth` | database/characters.go:4762-5093 | Over any run of register, buy, claim, cancel, open, close and stall-purchase steps by any characters, gold in hand plus prices of sold unclaimed listings plus commissions is constant |
| `Ledger.RunExact` | database/characters.go:7420-7512 | While that sum is below 2^64, every balance after any run is its start plus its whole-coin dues: nothing ever wraps |
| `Ledger.StepExact` | database/characters.go:4762-5093 | Each step moves each balance by exactly what it owes that character |
| `Ledger.StepWorth` | database/characters.go:4762-5093 | Each step keeps the sum |
| `Ledger.StepSane` | database/characters.go:4762-5093 | Each step keeps the listings keyed by their item id, empty slots new, and stalls inside the inventory |
| `Ledger.ClaimPaysSellerIff` | database/characters.go:5021-5093 | A claimed price goes to the seller of the listing exactly when the seller is the one who claims it |
| `Ledger.StrangerCollects` | database/characters.go:5069-5092 | A world in which a passer-by collects a price of 100 and the seller gets nothing |
| `Places.CancelReturnsIff` | database/characters.go:5036-5067 | A cancelled listing ends in a slot of its seller exactly when the seller is the one who cancels it |
| `Places.StrangerTakesBack` | database/characters.go:5036-5067 | A world in which a passer-by cancels and takes the item home |
| `Ledger.BoughtBlocksUntilClaimed` | database/characters.go:4944-5019 | A bought item lies in the buyer's bag while its row stays in the market, so putting it up again is refused; without the row it is accepted |
| `Ledger.ListedIff` | database/characters.go:4787-4802 | An item that passes the other tests is listed exactly when no row carries its id, and refused otherwise |
| `Places.RunUnique` | database/characters.go:4762-5093 | Over any run no item id is in two places, a place being an inventory slot or an unsold listing |
| `Places.RunConserves` | database/characters.go:4762-5093 | Over any run whose stall buyers name empty slots, exactly the same items, with quantity, level and codes, are held |
| `Places.StepKeepsPlaces` | database/characters.go:7420-7512 | On every step ids stay in one place, and no item is lost exactly when a stall buyer names an empty slot |
| `Places.CarryOverwrites` | database/characters.go:7447-7480 | An occupied target slot is overwritten: what lay there is then held nowhere |
| `Places.RunSlotStays` | database/characters.go:4762-5093 | Over any run an occupied slot, and so what a stall offers there, stays as it is until its owner registers it, a buyer takes it from the owner's stall, or its owner names it when buying |
| `TradeLaws.SoldOnce` | database/characters.go:7420-7512 | Once a position has been sold, whatever everybody does, until its seller opens a stall anew nobody pays for it again and a request that names it changes nothing |
| `TradeLaws.SaleMarksSold` | database/characters.go:7447-7480 | A purchase that takes effect marks its position sold at its slot and price and touches no other position of any stall; the item lies in the named slot, labelled as the buyer's, and the seller's slot is empty |
| `TradeLaws.StockedIs` | database/characters.go:7323-7386 | A stall offers, in order, exactly the offers of an item off slot 0, at a price, that the catalogue knows and does not bar from trade |
| `TradeLaws.StepKeepsLabels` | database/characters.go:4762-5093 | Every trade keeps the labels of items right, their slot, owner and consignment mark, except exactly when somebody takes back an item that names another as its owner |
| `TradeLaws.RunKeepsTen` | database/characters.go:4775-4785 | Over any run nobody ever has more than ten items in the house |
| `TradeLaws.RegistersIff` | database/characters.go:4762-4852 | Exactly when putting an item up takes effect |
| `TradeLaws.RegisteredIs` | database/characters.go:4762-4852 | What it leaves: the whole item in its own row, unsold, at the price asked, under the seller's name; the slot empty; the commission paid |
| `TradeLaws.CommissionIs` | database/characters.go:4777-4781 | One coin in a hundred, rounded down, and never more than fifty million |
| `TradeLaws.BuysIff` | database/characters.go:4944-5019 | Exactly when buying from the house takes effect |
| `TradeLaws.BoughtIs` | database/characters.go:4944-5019 | What it leaves: the item, labelled as the buyer's, in a slot that was empty; the price paid; the row marked sold and otherwise as it was |
| `TradeLaws.ClaimsIff` | database/characters.go:5021-5093 | Exactly when a price can be collected, and when an item can be taken back |
| `TradeLaws.ClaimedIs` | database/characters.go:5021-5093 | What it leaves: the row gone, and either the price in hand or the item in a free slot |
| `Places.StallSellsAnother` | database/characters.go:7420-7512 | A run in which a stall opened on one item ends up selling another one, which the seller took back from the market into the same slot |
| `Places.NoRoomNoTrade` | database/characters.go:4944-5093 | With no free slot, buying from the house and cancelling change nothing in memory |
| `Characters.Character.RegisterItem` | database/characters.go:4762-4852 | Outcome, inventory, gold and listings after putting an item up; unchanged unless it takes effect |
| `Characters.Character.BuyConsignmentItem` | database/characters.go:4944-5019 | Outcome, inventory, gold and listings after buying from the house |
| `Characters.Character.ClaimConsignmentItem` | database/characters.go:5021-5093 | Outcome, inventory, gold and listings after collecting the price or taking the item back |
| `Characters.Character.OpenSale` | database/characters.go:7323-7386 | Panics exactly when an offer names a slot out of range or an item without a row; otherwise the stall holds exactly the offers that may be sold, in order; the inventory stays as it was |
| `Characters.Character.BuySaleItem` | database/characters.go:7420-7512 | Both inventories, both balances and the stall after a stall purchase, including the gold that moves before a bad slot index panics; a purchase that takes effect found its position unsold and leaves it sold, the others as they were |
| `Characters.Stall.SaleData` | database/sales.go:47-136 | Which seller slots writing the stall packet overwrites |
| `Trades.ClearingIsHarmless` | database/sales.go:47-136 | On a stall from `OpenSale` the overwriting changes no slot |
| `Trades.StockedOk` | database/characters.go:7323-7386 | Whatever was offered, a stall points inside the inventory, off slot 0, at a price, at an occupied slot |
| `Experience.PathIndependence` | database/characters.go:3083-3228 | For a first-class character any split of a total into grants ends with the same experience, level, stat, nature and skill points, for every table |
| `Experience.GrantTwice` | database/characters.go:3083-3228 | Two grants equal one grant of their sum |
| `Experience.SecondGrantTwice` | database/characters.go:3083-3228 | From level 101 to 200 two grants equal one in experience, level, stat and skill points, and in nature points except exactly when the first part reaches level 200 below its threshold and the whole passes it: then one grant is worth four more |
| `Experience.SecondGrantIs` | database/characters.go:3083-3228 | One grant from level 101 to 200 in full |
| `Experience.CrossingIff` | database/characters.go:3083-3228 | Across level 100 splitting a total keeps the experience exactly when the second part is nothing, the total stays under the lower cap, or the first part stays below some threshold from the present level to level 100 |
| `ExpLaws.GrantedIs` | database/characters.go:3083-3228 | One grant for every kind of character: experience capped at 233,332,051,410 up to level 100 and at 544,951,059,310 up to 200; the first level whose threshold exceeds it, or the cap of the kind; the awards of the levels passed, four nature points for each above 100 up to 200 and four more for running into the cap of 200, and skill points by thresholds or by table |
| `ExpLaws.ClimbIs` | database/characters.go:3127-3183 | The levelling loop for every kind: level, stat, skill and nature points |
| `ExpLaws.AwardsAboveHundred` | database/characters.go:3135-3172 | Above level 100 each level brings three stat points, and one more beyond each of ten marks |
| `ExpLaws.AboveCap` | database/characters.go:3127-3134 | A character above the cap of its kind is put back to it by a grant that would have raised it |
| `Experience.GrantIs` | database/characters.go:3083-3228 | One grant in full: capped experience, level reached, awards of the levels passed, skill points of the thresholds passed |
| `Experience.ClimbFindsLevel` | database/characters.go:3127-3183 | The loop ends at the least level whose threshold exceeds the experience, capped at 100 |
| `Experience.SkillIndexCounts` | utils/slice.go:67-86 | The binary search counts the thresholds the experience has reached |
| `Experience.Player.AddExp` | database/characters.go:3083-3228 | The method computes the specified progress, wrapping and caps included, and answers whether the level rose; an inactive character is unchanged |
| `Experience.Player.LevelLoop` | database/characters.go:3127-3183 | The loop terminates and computes the specified climb |
| `Experience.Player.Reset` | database/stats.go:239-273 | Stat points after a reset, against the sum of all awards |
| `Experience.ClosedForm` | database/stats.go:248-250 | At every level the closed form is the sum of awards, less ten awards when the level ends in nine |
| `Experience.EarnedIsAwards` | database/stats.go:91-106 | The sum starts from the four points of creation and adds the award of each level |
| `Experience.ResetAgreesIff` | database/stats.go:239-273 | After any grants from creation on, a reset gives back the points earned exactly when the level does not end in nine |
| `SkillLedger.RunConserves` | database/characters.go:6281-6565 | Over any run of requests that each conserve, points plus the cost of all held levels is constant |
| `SkillLedger.StepConservesIff` | database/characters.go:6281-6565 | Exactly which requests conserve: all combat steps up; combat steps down, of darkness skills only where the table repeats a price; passive steps up in passive books; passive steps down in book 5, or aimed at a combat skill whose last level was free |
| `SkillLedger.RunLedger` | database/characters.go:6281-6565 | Over any run of any requests the ledger moves by the sum of their drifts |
| `SkillLedger.DriftIs` | database/skills.go:21-43 | The drift of every request that takes effect, from its own book and the price tables |
| `SkillLedger.RunNonNegative` | database/characters.go:6281-6565 | No run of any requests takes the points below zero |
| `SkillLedger.RunBounded` | database/characters.go:6281-6565 | Over any run whose passive steps up are aimed at passive books, every level stays between 0 and its maximum |
| `SkillLedger.StepBoundedIff` | database/characters.go:6466-6517 | A request that takes effect keeps all maxima exactly unless it is a passive step up aimed at a combat skill that already has its maximum |
| `SkillLedger.PassiveReachesCombat` | player/skills.go:77-98 | A passive request from any other button raises the first combat skill past its maximum for nothing and adds to the ledger |
| `SkillLedger.StepLedger` | database/characters.go:6281-6565 | Every request moves the ledger by exactly its drift |
| `SkillLedger.DarknessConservesIff` | database/characters.go:6335-6384 | A darkness step down conserves exactly on the flat parts of the price table |
| `SkillLedger.PassiveNeverConserves` | database/characters.go:6519-6565 | Stepping down passive slot 6 or 7 never conserves |
| `SkillLaws.UpThenDown` | database/characters.go:6281-6384 | A combat step up and down again leaves everything as it was, except that darkness skills give back the price of the next step |
| `SkillLaws.UpThenDownPassive` | database/characters.go:6466-6565 | A passive step up and down again is free for the first passive book only; the second gives nothing back, running the price of the next step |
| `SkillLaws.JobSkillCosts` | database/skills.go:21-43 | What all levels of a job skill up to each of the first nineteen have cost |
| `SkillLaws.HighCosts` | database/skills.go:21-43 | The same up to level 100; second-job skills cost nothing beyond level 50 |
| `SkillLaws.OrdinaryCosts` | database/characters.go:6281-6333 | Every other skill costs one point a level |
| `SkillLaws.PassiveCosts` | database/skills.go:21-43 | What all levels of the passive books have cost |
| `SkillLaws.UpIs` | database/characters.go:6281-6333 | Exactly when a combat step up takes effect, and that it changes one level, the points, and nothing else |
| `SkillLaws.DownIs` | database/characters.go:6335-6384 | The same for a combat step down |
| `SkillLaws.UpPassiveIs` | database/characters.go:6466-6517 | The same for a passive step up |
| `SkillLaws.DownPassiveIs` | database/characters.go:6519-6565 | The same for a passive step down |
| `SkillLedger.SkillBooks.UpgradeSkill` | database/characters.go:6281-6333 | The books and points after an upgrade request, a refused one included |
| `SkillLedger.SkillBooks.DowngradeSkill` | database/characters.go:6335-6384 | The books and points after a downgrade request |
| `SkillLedger.SkillBooks.UpgradePassiveSkill` | database/characters.go:6466-6517 | The books and points after a passive upgrade |
| `SkillLedger.SkillBooks.DowngradePassiveSkill` | database/characters.go:6519-6565 | The books and points after a passive downgrade |
| `Stats.RebuildTwice` | database/stats.go:126-237 | A second rebuild moves only the two recovery rates, each by its own gain, so it changes nothing exactly when both gains are zero |
| `Stats.RebuildForgets` | database/stats.go:126-237 | Whatever the derived fields held, a rebuild gives the same stats up to the recovery rates |
| `Stats.RatesPassThrough` | database/stats.go:126-237 | The recovery rates come out as they went in, plus a gain that does not depend on them |
| `Stats.PublishedIsRebuild` | database/characters.go:2637-2750 | The stats published after an expiry are a rebuild without the expired buff, whatever the field-by-field subtraction did; the trace it leaves in the two rates is stated |
| `Stats.ExpiredAddsNothing` | database/characters.go:7714-7775 | An expired row can be dropped without changing any bonus |
| `Stats.SurvivingBonus` | database/characters.go:7714-7775 | Deleting zero-length rows during a rebuild changes no bonus |
| `Stats.OrderIrrelevant` | database/characters_buffs.go:71-88 | Rows in any order give the same stats, so ties in the sort cannot matter |
| `Stats.AfterExpiryRows` | database/characters.go:2637-2750 | Exactly which rows are left after an expiry |
| `Fighters.Fighter.BuffEffects` | database/characters.go:7714-7775 | The loop adds the sum of the active rows and deletes the zero-length ones |
| `Fighters.Fighter.ItemEffects` | database/characters.go:2947-3054 | The loop adds the bonuses of the items, codes and sockets of a slot range |
| `Fighters.Fighter.AddSlot` | database/characters.go:2985-3010 | One item with its codes and sockets, each list up to its first zero |
| `Fighters.Fighter.Calculate` | database/stats.go:126-237 | Every published field as plain arithmetic in the base points and in what buffs, passives and items add, injuries at their bands; for a character that has nothing on, in the six base points alone; and the remaining rows |
| `StatLaws.FieldsAre` | database/stats.go:126-237 | Each published field as a formula: each defence raised by its own rate, each attack by its own, from which points and elements at which weight, with the last two marbles after the defences and injuries last |
| `StatLaws.BareIs` | database/stats.go:126-237 | With no active buff, no item and no passive, unhurt, every published field in the six base points and the starting values |
| `StatLaws.HurtIs` | database/stats.go:215-235 | Up to 70 an injury costs nothing; above 70, 80 and 90 eight fields are left at seven, five and three tenths, and the arts defence rate is spared |
| `StatLaws.RaisedIs` | database/stats.go:190-212 | A percentage is the exact share, cut toward zero |
| `StatLaws.RatesRow` | database/characters.go:7714-7775 | One more active row with only the four rates moves those rates and the six fields they are percentages of, each by its own, and nothing else |
| `StatLaws.ElementsRow` | database/characters.go:7714-7775 | One more active row with only wind, water and fire: wind counts twice for defence, water twice for arts defence, fire twice for attack; arts attack moves only through attack |
| `StatLaws.PointsRow` | database/characters.go:7714-7775 | One more active row with only strength, dexterity and intelligence moves exactly the fields named, by exactly so much |
| `StatLaws.AmountsRow` | database/characters.go:7714-7775 | One more active row with outright amounts: both ends of an attack range move, resistances count twice, the paralysis attack takes the poison damage |
| `StatLaws.OneMoreRow` | database/characters.go:7714-7775 | A running row is simply added to all that was gained before |
| `StatLaws.ContributionIs` | database/characters.go:7714-7775 | A row that runs adds its columns field by field; any other adds nothing |
| `StatLaws.OneItem` | database/stats.go:178-194 | An item counts once in a worn slot if it fits there and once in a bag slot if it is switched on, so the first marble, which is in both ranges, may count twice; the last two marbles come after the defences; elsewhere it counts never |
| `StatLaws.SlotBonusIs` | database/characters.go:2985-3010 | A slot adds its item, its codes up to the first zero and its sockets up to theirs |
| `Fighters.Fighter.HandleBuffs` | database/characters.go:2637-2750 | One tick: nothing before the earliest deadline; otherwise stats and rows after the expiry |
| `BuffRuns.HandlerTick` | database/characters_buffs.go:71-88 | A tick on any listing sorted by expiry is the step of the runs |
| `BuffRuns.TickTakes` | database/characters.go:2637-2750 | What a tick takes: nothing before the earliest deadline; then the earliest row together with the zero-length rows that can expire, so at most one row exactly when no other row is such |
| `BuffRuns.TakesExpiredIff` | database/characters.go:7722-7728 | A tick that takes something takes only expired rows exactly when every zero-length row has started |
| `BuffRuns.RunTakesOnlyExpired` | database/characters.go:2637-2750 | Over every run of new, rewritten and dispelled rows, rebuilds and ticks, with rows starting no later than they are written and epochs never going back, no tick and no rebuild takes an unexpired row |
| `BuffRuns.TwoAtOnce` | player/attack.go:511-534 | A run in which a hit cuts two invisibility buffs short and the next tick takes both |
| `BuffRuns.EarliestFirst` | database/characters.go:2637-2750 | What expires is due no later than everything left |
| `BuffRuns.DueRowsCleared` | database/characters.go:2637-2750 | k due rows are gone after k ticks, whatever later-expiring buffs are created between them |
| `BuffRuns.OneRowPerTick` | database/characters.go:2637-2750 | If rows are only created and ticked and none has zero length, exactly k ticks are needed |
| `War.StoneStaysOk` | database/wartimer.go:201-221 | Under any majorities the value stays in 0..200, an owner 1 means a value below 170, an owner 2 a value above 30 |
| `War.ZhuangTakes` | database/wartimer.go:201-221 | A lasting Zhuang majority owns a stone of value v after exactly max(1, v - 30) seconds |
| `War.ShaoTakes` | database/wartimer.go:201-221 | A lasting Shao majority owns it after exactly max(1, 170 - v) seconds |
| `War.ZhuangCrowdWins` | database/wartimer.go:201-221 | While more Zhuang than Shao stand at a stone for n seconds of the war, its value falls by n, not below 0, and it is theirs exactly from second max(1, v - 30) on |
| `War.ShaoCrowdWins` | database/wartimer.go:201-221 | While more Shao than Zhuang stand there the value rises by n, not above 200, and it is theirs exactly from second max(1, 170 - v) on |
| `War.EqualCrowdsRest` | database/wartimer.go:201-221 | Equal crowds leave value and owner alone |
| `War.SecondCharges` | database/wartimer.go:128-136 | A second costs each side two points for every stone the other owns |
| `War.OwnerKeeps` | database/wartimer.go:201-221 | An owner keeps the stone while its majority lasts |
| `War.LosesOwner` | database/wartimer.go:201-221 | Exactly when a second of the other side takes the stone away |
| `War.CrowdsCountAppearances` | auth/start_game.go:562-575 | A crowd is as long as the number of appearances since the reset, because the membership test never answers true on these lists |
| `War.ScoreBounds` | database/wartimer.go:110-136 | Without kills no score ends below 1 - 2 x (number of stones), and stones stay valid |
| `War.SteadyOwnerWins` | database/wartimer.go:110-136 | If Zhuang always owns a stone the loop ends within half the Shao score, rounded up |
| `War.SteadyShaoWins` | database/wartimer.go:110-136 | The same for Shao |
| `War.Battle.Charge` | database/wartimer.go:128-136 | One second takes exactly twice the owned stones off the two scores together, each side paying for the other side's stones |
| `War.Battle.TurnStones` | database/wartimer.go:201-221 | Every stone moves one point toward the side with the larger crowd, within 0 and 200, with the owner that its new value gives; equal crowds change nothing |
| `War.Battle.StartInWarTimer` | database/wartimer.go:101-223 | The loop terminates within the given seconds and plays exactly the specified seconds |
| `War.Battle.Reset` | database/startwar.go:200-216 | Scores 10000, and all values, owners and crowds cleared |
| `War.Battle.RemoveZhuang` | database/startwar.go:182-189 | Removes the first entry from the named stone's crowd only |
| `War.Battle.RemoveShao` | database/startwar.go:191-198 | The same for the other crowd |
| `Movement.StepShortens` | database/ai.go:548-588 | A far step shortens the Euclidean distance by exactly the speed |
| `Movement.ArrivesInTime` | database/ai.go:548-588 | From a launch the mover is exactly at its target after the computed number of live calls, and that number is at most ceiling(d / s) + 1, however stale callbacks interleave |
| `Movement.Arrives` | database/inventory.go:575-611 | The live chain is called that often and no more |
| `Movement.WhereItStands` | database/ai.go:548-588 | After a launch and k live callbacks, stale ones interleaved, a mover that keeps its own coordinate stands exactly k steps along the segment, one that shares it k + 1 steps or on the target, and that much nearer; after the last call both are on the target |
| `Movement.CallsBound` | database/ai.go:548-588 | The bound on the number of calls |
| `Movement.StaleChangesNothing` | database/ai.go:548-588 | A callback whose token is no longer current only leaves the timer queue |
| `Movement.RetreatStops` | database/ai.go:1312-1317 | After a retreat the mover stays where it was through all callbacks still scheduled, none of which runs |
| `Movement.RunKeepsSingle` | database/ai.go:1293-1298 | With fresh tokens at most one chain stays live in any interleaving of launches, retreats and callbacks |
| `Movement.StepKeepsSingle` | database/ai.go:1165-1423 | Each step keeps at most one live chain |
| `Movement.LaunchSingleIff` | database/ai.go:1293-1298 | A token that merely differs from the current one is enough exactly when no scheduled callback carries it |
| `Movement.OldChainRevives` | database/ai.go:1293-1298 | Launch, retreat and launch with the same token again leave two live chains |
| `Movement.Walker.MovementHandler` | database/ai.go:548-588 | Position, token, moving flag and timer queue after one call |
| `Movement.Walker.FireCallback` | database/inventory.go:575-611 | A callback compares tokens first; state after it |
| `Movement.Walker.LaunchMovement` | database/ai.go:1293-1298 | State after a launch |
| `Sight.Watcher.ExplorePlayers` | auth/start_game.go:374-445 | After a scan the players in sight are exactly those nearby; a greeting is sent exactly for those near that were out of sight or are mounted, a farewell exactly for those no longer near, nothing else, and nothing twice when no character is listed twice; replaying the messages gives the same set |
| `Sight.Watcher.ExploreNPCs` | auth/start_game.go:777-860 | After a scan the NPCs in sight are exactly those nearby; a message is sent for each difference, once, and nothing else |
| `Sight.Watcher.ExploreDrops` | auth/start_game.go:862-940 | The same for drops, less new ids whose drop has vanished before it is looked up |
| `Sight.Watcher.ExploreMobs` | auth/start_game.go:470-648 | After a scan the mobs in sight are exactly the living ones nearby, the watcher is in exactly their lists and other entries are unchanged; each new mob is greeted once and each out of range dismissed once; the messages replay to what the client showed plus the new mobs less those out of range, which is the sight exactly when no mob that was in sight lies dead nearby |
| `Sight.Watcher.Watch` | auth/start_game.go:177-187 | Over any series of scans each scan tells exactly what changed since the one before; replaying all that was sent gives the players, NPCs and drops in sight, and these are the sets of the last scan |
| `Sight.ScanCounts` | auth/start_game.go:374-445 | A scan sends as many messages as there are arrivals, mounted neighbours and departures, when no character is listed twice |
| `Sight.ScanOnce` | auth/start_game.go:470-648 | One mob scan of the objects is the step of the runs |
| `Sight.PlayOut` | auth/start_game.go:470-648 | Scans by any characters in any order, with mobs dying and returning, take the objects through exactly the run, and the mirror holds throughout |
| `Sight.RunKeepsMirror` | auth/start_game.go:470-648 | Over any run of scans by any characters, with mobs dying and returning, a mob lists a character exactly when the character has it in sight |
| `Sight.ScanSeesLiving` | auth/start_game.go:470-648 | After any run that ends with a scan the scanner sees exactly the living nearby mobs, and is listed by exactly those |
| `ListCodec.RoundTrip` | database/drops_info.go:23-59 | Parsing what is printed gives the list back, and the empty list gives one zero; down to characters |
| `ListCodec.FormatInjective` | database/drops_info.go:23-35 | Different lists are stored as different text |
| `ListCodec.AtoiOfItoa` | database/drops_info.go:53-57 | Printing and parsing an integer, sign and range included |
| `ListCodec.SplitOfJoin` | database/drops_info.go:49-59 | Splitting joined numerals at the commas gives them back |
| `ListCodec.FieldsOfJoin` | database/drops_info.go:31-34 | Splitting at the spaces recovers the printed words |
| `Tables.StoredThenRead` | database/shop_items.go:25-45 | A stored list reads back as its positive members in order, or as one zero when there are none |
| `Tables.DropInfo.New` | database/drops_info.go:23-35 | Both stored texts read back as the positive members |
| `Tables.Shop.New` | database/shop_table.go:26-34 | The stored types read back as the positive ones |
| `Tables.Shop.IsPurchasable` | database/shop_table.go:66-78 | When the loop answers true, false, or dereferences a missing item row |
| `Tables.StoredShopSells` | database/shop_table.go:66-78 | A shop and its lists, all stored and read back, sell exactly the positive items of their positive types |
| `Tables.EmptyShopLooksUpZero` | database/shop_table.go:26-46 | A shop stored without positive types looks up type 0, and only then |
| `Search.BinarySearch` | utils/slice.go:71-86 | The loop settles on the specified bisection |
| `Search.BisectFindsFirst` | utils/slice.go:67-86 | On a monotone test the bisection finds the first index that passes |
| `Drops.SearchIsScan` | database/ai.go:872 | On every sorted table and seed the binary search picks what the linear scan picks |
| `Drops.ScaledSorted` | database/ai.go:849-854 | Scaling by a positive rate with truncation keeps a table sorted |
| `Drops.Draw` | database/ai.go:844-872 | The pick of one draw: on a sorted table, while the last entry times the rate is below 900, the first entry whose product with the rate the seed does not exceed; from there on, the first entry that the stretched seed does not exceed by one or more |
| `Drops.FactorsAre` | database/ai.go:844-850 | The rate divides the chance of finding nothing, and the seed is stretched to match |
| `Drops.RateRaisesChance` | database/ai.go:844-872 | Exactly which seeds find something: on a poor table those up to the last entry times the rate; on a rich one those that stretch to less than one past the last entry, among them all up to 1000 less the failing share divided by the rate |
| `FortuneBox.FortuneWalk` | database/characters.go:5325-5346 | The loop, cut off after a number of draws, answers the specified walk; when no chain of draws comes back to a table it is never cut off once that number is the number of tables |
| `FortuneBox.EndsIff` | database/characters.go:5325-5346 | On all starts and all rolls from 0 to 999 the walk ends within as many draws as there are tables, exactly when some ranking falls along every link that a roll can draw; otherwise some start and some rolls keep it going for any number of draws |
| `FortuneBox.WalkEndsWithinTables` | database/characters.go:5325-5346 | When no chain of draws comes back to a table, a walk on any rolls ends within as many draws as there are tables |
| `FortuneBox.PathNeverEnds` | database/characters.go:5325-5346 | Rolls that lead along an unending path keep the walk going for any number of draws |
| `FortuneBox.TwoTables` | database/characters.go:5325-5346 | Two tables that list each other, on which rolls of zero never end |
| `FortuneBox.EndsOnTableIff` | database/characters.go:5340-5346 | Id 0 being no table, the walk can end on the id of a table exactly when some table that a roll leads to has a gap that a roll falls into |
| `FortuneBox.StopsProperly` | database/characters.go:5325-5346 | A walk that lands is on no table; one that runs past the end holds the id of that table, or what it started with if it was the first |
| `FortuneBox.WalkSettles` | database/characters.go:5325-5346 | Allowing more draws does not change where a walk ends |

## Left out

- Packet layout, sockets, message broadcasting, logging, announcements and gRPC: input and output only.
- SQL and its error branches: an insert hands out the next id, updates and deletes succeed. The row that `BuyConsignmentItem` and the cancel branch write before they panic for lack of a slot is not modelled; the in-memory state is.
- Mutexes and the throttles on swapping and on the consignment house (`CanSwap`, `UsedConsig`): each handler is one atomic step, and a `go` launch of a movement is one step with the launch.
- The bodies of the equipment checks of move, swap and combine: their condition is always false (`Slices.EquipmentCheckIdle`).
- `Characters.Character.OpenWrapperBox`: the contents, levels and codes of the rewards are parameters, and the table of which items a character may use (`CanUse`) is not modelled. It requires known items and totals below 2^64.
- `Characters.Character.BSUpgrade`: cost and success rate formulas and the consumption of stones, luck and protection are not modelled; the dice and the cost are parameters, a drawn stone has a nonzero low byte, and stone levels above 240, whose sum with the item's level could wrap a uint8, are excluded.
- `Characters.Character.Extraction`: the stone handed back for the code is not modelled.
- `Characters.Character.HolyWaterUpgrade`: the success roll is not modelled; the drawn index and code are parameters. The used-up water is not modelled.
- `Characters.Character.BuySaleItem`: requires that buyer and seller differ and that no slot without an item holds leftovers, both kept by all modelled steps.
- `Characters.Character.OpenSale`: requires that no slot without an item holds leftovers, kept by all modelled steps.
- Trading windows, guild bank, quests, sockets, production, fusion and dismantling: they would only add more handlers of the same kinds.
- `Experience.Player.AddExp`: experience multipliers are not modelled; gains arrive scaled.
- Path independence across level 100: the experience cap that applies depends on the level before the grant, so it is stated for the experience only (`Experience.CrossingIff`); what a single grant brings there is `ExpLaws.GrantedIs`.
- Skill storage as JSON, learning and removing skills, and divine books: the ledger covers stepping up and down.
- `SkillLedger.RunConserves`: assumes that passive books hold item ids, which have no skill row; requests that do not conserve are covered by `SkillLedger.RunLedger` and `SkillLedger.DriftIs`.
- `Fighters.Fighter.Calculate`: the float factors for accuracy, damage share and injury are fixed integer functions, and the job passives are one fixed vector; so is what an item id adds, whose columns are not named one by one.
- `Fighters.Fighter.HandleBuffs`: the multipliers for experience, drops and running speed, and the invisibility and detection flags, are not modelled. The listing is any permutation of the rows sorted by expiry, which is what the query and `sort.Slice` deliver.
- `Fighters.Fighter.BuffEffects`: the running speed it adds is not modelled.
- `Fighters.Fighter.ItemEffects`: the experience, drop and speed multipliers of items are not modelled.
- `War.Battle.StartInWarTimer`: one tick is one second, kills are not counted, and the delayed reset after the war is the separate `War.Battle.Reset`.
- `BuffRuns.RunTakesOnlyExpired`: an epoch that falls back to an older stored value after a crash is not modelled.
- `Movement.Walker.MovementHandler`: distances are real numbers, and the rounding of a stored coordinate to one decimal is not modelled.
- `Sight.Watcher.ExplorePlayers`: session ids belong to one character each and do not change during a run; map changes and the pruning of sight lists by the mob handler are not modelled, nor are pets.
- `Sight.Watcher.ExploreMobs`: the stone messages of a war stand for the ordinary appearance message.
- `Drops.Draw`: the retry loop around a draw, the random seed, and how the rate is put together are not modelled; arithmetic is over real numbers.
- `FortuneBox.FortuneWalk`: the source has no limit on the draws; where it may run forever is what `FortuneBox.EndsIff` states.
- Combat damage, mob targeting, dungeon timers, NPC dialogue, admin commands and login.
