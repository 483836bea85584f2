# Verified model of RestaurantPOS

This project models the parts of the point of sale where a mistake would lose data or money, and proves
what they are for. `dafny verify dfyconfig.toml` checks all of it.

| file | what it models |
|---|---|
| `Results.dfy` | absent values and thrown errors |
| `Json.dfy`, `JsonStrings.dfy` | JSON values and the two serialisers, injective up to key order; how strings are printed, read back and ordered |
| `MenuVersion.dfy`, `MenuOrder.dfy` | the order of two versions of a menu record, and what it means for their timestamps |
| `MenuMerge.dfy` | menus as the latest of the versions they have seen, and their join |
| `MenuReplica.dfy` | one menu store: snapshots, batches, incoming events, the worker's menu round |
| `MenuSyncProtocol.dfy`, `MenuProgress.dfy` | two stores, their queues and a network that loses, repeats and reorders; that they can always finish |
| `Apportionment.dfy` | largest-remainder division of cents |
| `BillPricing.dfy`, `BillAmounts.dfy` | line discounts, promotions, tax, service charge and the states of splits and bills; what each amount means |
| `PaymentLedger.dfy`, `BillActions.dfy` | payments, refunds, voids, edits and transfers on stored bills, and when they succeed |
| `OrderBook.dfy`, `OrderEdits.dfy` | orders with version checks, their log, and the kitchen index; what updates make of them and when they go through |
| `TableFloor.dfy`, `FloorBills.dfy`, `FloorSafety.dfy` | sessions, orders and bills as one state, and what every run of it keeps |
| `FloorActions.dfy`, `FloorCharges.dfy` | when the operations on that state succeed, and what they charge |
| `StockDeduction.dfy`, `StockNeeds.dfy` | taking an order's ingredients from stock, and what it needs of each |
| `OperationalWrite.dfy` | the promise chain that serialises writes and rolls them back |
| `IdempotentRequest.dfy` | the retrying client and the server's lock and replay for each key |
| `BulkImport.dfy`, `ImportNames.dfy`, `ImportCells.dfy` | validation, preview and execution of a menu import; when names are the same, what price cells mean, what happens to items that were there |
| `ReportCsv.dfy` | the CSV export, read back by RFC 4180 |

Most modules have the same plan. Functions say what an operation makes of its input or of the stored
state, classes and methods carry it out step by step as the source does and are proved to have that
effect, and lemmas prove what the source promises about the functions: for one call, for every step of a
state machine, and by induction for every run.

Conventions. Money is whole cents and stock is thousandths of a unit; quantities, rates and amounts that
callers pass are reals, rounded by `Round` (halves upwards) where the code rounds. An operation that throws
is an `Err`, and leaves the stored state as it was because every caller runs it in a transaction. Ids that
the code draws at random are parameters, and statements about runs assume that they are new (`Fresh`,
`FreshIds`, `FreshRun`, `RegularRun`). Whether a payment terminal agrees, whether stock could be deducted and whether a
user has manager rights are parameters too.

## What turned out false, and when it holds

* `stableStringify` prints an array of a single `undefined` like the empty array
  (`Json.StableStringifyCollision`) and tells everything else apart (`Json.StableStringifyIff`), so on parsed
  JSON and absent bodies it is injective (`Json.StableInjective`).
* The order of delivery of two menu versions matters exactly when both are new and neither has a timestamp
  that Date.parse reads although the audit column does, such as "infinity"
  (`MenuMerge.DeliveryOrderMattersIff`, `MenuMerge.InfiniteVersionsCollide`).
* An edit stamped earlier than the record it replaces can lose a version (`MenuSyncProtocol.BackdatedEditLoses`);
  `MenuSyncProtocol.EditLosesNothingIff` gives the exact condition.
* Drained queues do not make stores equal that started apart (`MenuSyncProtocol.DrainedApart`); they do exactly
  when each store accounts for what the other started with (`MenuSyncProtocol.DrainedConvergesIff`). A snapshot
  round repairs any two stores, as long as neither menu has more than 5000 records (`MenuReplica.SendableSnapshot`).
* Tax and service charge are dropped when no split has a positive amount and the charges, which are then
  negative, are not zero; this takes credit lines (`BillPricing.SplitConservedIff`, `BillPricing.CreditLosesTax`).
* A split that is a credit stays open when nothing of it is unpaid, and so does its bill
  (`PaymentLedger.CreditStaysOpen`). A bill is paid exactly when every split is settled, which for a credit
  takes a payment (`BillPricing.BillStateSumsUp`, `PaymentLedger.StateOfRun`); without credits that is when
  every balance is zero (`BillPricing.SoundBillState`).
* The amounts that the splits show of a promotion need not add up to it (`BillPricing.ShownOneCentMore`), and
  below 1.00 show too little (`BillPricing.OnlyPromotionShownIff`); `BillPricing.ShownAddUp` bounds the error.
* A client takes two writes for the same whose bodies differ in arrays that are empty or a single `undefined`,
  although it would send `[]` for one and `[null]` for the other (`IdempotentRequest.OthersMistaken`); for no
  other bodies (`IdempotentRequest.PlainCallsAnswered`, `Json.TextFixesWireIff`).
* The stock check before a deduction is not sufficient for fractions of thousandths
  (`StockDeduction.FractionsBreakDeduction`) nor for a recipe below half a thousandth, which is stored as zero
  (`StockDeduction.TinyRecipeBreaksDeduction`). `StockDeduction.DeductionSucceedsIff` says for any quantities when
  the deduction succeeds, and `StockDeduction.DeductionCompletesIff` that in whole thousandths zero and unknown
  requirements are all that can go wrong.
* Fractions of thousandths can also make a balance negative under "prevent" (`StockDeduction.HalvesGoNegative`),
  but never below minus one thousandth (`StockDeduction.RunBounded`). `StockDeduction.ReportedRunIff` and
  `StockDeduction.RunStaysIff` say exactly when no balance of a run is negative, as reported or exactly; runs in
  whole thousandths always are such runs (`StockDeduction.RunSolvent`).
* Importing the same rows again does not settle a row whose station id is cut off behind a dash
  (`BulkImport.StationIdNotStable`, `BulkImport.ImportSettles`).
* A workbook row with a blank price is reported as an error and accepted at price zero all the same
  (`BulkImport.ValidatedRows`); a workbook with errors gets no token to import it.
* A report without columns cannot be read back (`ReportCsv.ReportRoundTripIff`).

## Model

| member | source | states |
|---|---|---|
| Json.CanonicalInjective | backend/sync/service.ts:15-19 | Two JSON values have the same canonical text exactly when they are equal, so the order of keys is the only thing the text forgets |
| Json.StableInjective | backend/network-idempotency.ts:18-24 | The same for the serialiser of request bodies: parsed JSON values, or no body, have equal texts exactly when they are equal |
| Json.StableStringifyIff | frontend/api/client.ts:129-135 | On all values, undefined parts included, equal texts mean values that differ only in arrays of a single undefined value, which are printed like empty ones |
| Json.StableStringifyCollision | frontend/api/client.ts:129-135 | Two values that the client's copy of the serialiser does not tell apart: an array holding one undefined value prints like the empty array |
| Json.SameTextSameWireIff | frontend/api/client.ts:403-422 | Of two bodies that the client takes for the same write, the same goes over the wire exactly when they are equal |
| Json.TextFixesWireIff | frontend/api/client.ts:403-422 | The text by which a client compares bodies determines what it sends exactly for bodies without an array that is empty or a single undefined value |
| JsonStrings.StringRoundTrip | backend/sync/service.ts:15-19 | Reading by section 7 of RFC 8259 gives every printed string back and finds its end |
| JsonStrings.EscapedOnlyIfSpecial | backend/network-idempotency.ts:18-24 | Exactly control characters, quotes and backslashes are escaped, in two characters if a short form stands for them |
| JsonStrings.StringLessIsUnits | backend/network-idempotency.ts:22-23 | The order of keys and texts is that of their UTF-16 code units, surrogate pairs included |
| MenuVersion.CompareTrichotomy | backend/sync/service.ts:21-37 | On records with readable timestamps the verdict is EQUAL exactly for the same record, and of two different records exactly one is newer, with the opposite verdict the other way round |
| MenuVersion.SupersedesTransitive | backend/sync/service.ts:21-37 | Newer than is transitive across all three levels of the comparison (time, source priority, canonical text) |
| MenuVersion.DecideTrichotomy | backend/sync/service.ts:26-36 | The three levels alone decide exactly one way, and swapping the sides swaps newer and stale |
| MenuVersion.DecideTransitive | backend/sync/service.ts:26-36 | The three levels compose: newer by any level followed by newer by any level is newer |
| MenuVersion.UnstampedVerdict | backend/sync/service.ts:22-26 | A record without a readable timestamp is accepted only where nothing is stored, throws otherwise, and any readable one replaces it |
| MenuOrder.InstantOrder | backend/sync/service.ts:23-27 | Of two timestamps that can be read, the smaller text is the earlier instant, and only equal texts are the same instant |
| MenuOrder.ReadsMoment | backend/sync/service.ts:23-25 | A timestamp is read exactly if it has the form that toISOString writes and names a date and a time of day that exist |
| MenuOrder.MonthsAddUp | backend/sync/service.ts:23-24 | Months and years follow one another without gap or overlap, leap years included |
| MenuOrder.EpochIsZero | backend/sync/service.ts:23-24 | Instants are counted from the start of 1970 |
| MenuOrder.NewerMeans | backend/sync/service.ts:21-37 | A version is newer exactly if its timestamp is the larger text; at equal timestamps if it is from the cloud manager and the other is not, or from the local system and the other from neither; and else if its canonical text is larger |
| MenuMerge.ApplyIsMerge | backend/sync/service.ts:45-62 | For a record of this store with a readable timestamp, identity check, scope check, comparison, upsert and audit row never fail, store the later of the two records, and report applied, stale or processed accordingly |
| MenuMerge.LatestUnique | backend/sync/service.ts:45-62 | A menu is determined by the set of versions it is the latest of |
| MenuMerge.MergeLatest | backend/sync/service.ts:45-62 | Applying one more version keeps the menu the latest of all versions seen, for every key |
| MenuMerge.DeliveryOrderIrrelevant | backend/sync/service.ts:45-62 | Two stores that between what they hold and what is delivered have the same set of versions end with the same menu, whatever order, grouping or repetition |
| MenuMerge.DeliveryOrderMattersIff | backend/sync/service.ts:45-62 | The order in which two versions arrive matters if and only if both are of a record that is not stored yet and neither carries a timestamp that Date.parse reads, while the audit column does; then the first is stored and the second fails |
| MenuMerge.InfiniteVersionsCollide | schema/migrations/20260923100000_bidirectional_menu.sql:28 | Two such versions, stamped at infinity, which the audit column accepts |
| MenuMerge.JoinLaws | backend/sync/service.ts:92-104 | Joining menus is idempotent, commutative and associative |
| MenuMerge.JoinLatest | backend/sync/service.ts:92-104 | The join of two menus is the latest of the versions of both |
| MenuMerge.MergeAllIsJoin | backend/sync/service.ts:92-104 | Delivering all records of one menu to another, in any order, gives their join |
| MenuMerge.NoRevival | backend/sync/service.ts:45-62 | A stored record, a tombstone included, survives any deliveries that are not newer than it |
| MenuOrder.AcceptedIff | backend/sync/service.ts:45-62 | A version is accepted exactly if it names its key and store and has a readable timestamp, or has none and nothing is stored (and the audit column reads its text); it is stored if nothing is, or what is stored has no timestamp or loses |
| MenuReplica.ValidateMenuSnapshot | backend/sync/service.ts:64-76 | The loop over a Set accepts exactly the snapshots of at most 5000 records that belong to the store, are readable and have distinct identities |
| MenuReplica.SortRecords | backend/sync/service.ts:97 | Sorting by identity text keeps the records and leaves them ascending |
| MenuReplica.IdentityTextNames | backend/sync/service.ts:72-97 | Two records have the same identity text exactly if they are of the same table and id |
| MenuReplica.SnapshotMapPermutation | backend/sync/service.ts:97-98 | The order in which a snapshot is visited does not change the menu it describes |
| MenuReplica.UnclaimedIds | backend/sync/service.ts:142-145 | Of a batch exactly the event ids that were not claimed before are applied |
| MenuReplica.DeleteIsTombstone | backend/sync/service.ts:146 | A physical delete is stored as a record that was deleted and updated when it occurred, by the local system, and otherwise as it was sent |
| MenuReplica.ReceiveMerges | backend/sync/service.ts:136-162 | A batch of well made events never fails, merges each event that was not processed before exactly once, and claims all their ids |
| MenuReplica.ReceiveClaimed | backend/sync/service.ts:142-145 | A batch whose ids are all claimed changes nothing |
| MenuReplica.Replica.ApplyMenuVersion | backend/sync/service.ts:45-62 | A well made version is merged; one that is applied is what is stored afterwards; an error, that of the audit row included, leaves the menu untouched |
| MenuReplica.Replica.ReadMenuSnapshot | backend/sync/service.ts:78-85 | The records read back describe exactly the stored menu, one record for each key |
| MenuReplica.Replica.ReconcileMenuSnapshot | backend/sync/service.ts:92-104 | Succeeds exactly on valid snapshots; the menu becomes the join with the snapshot, and the applied count is the number of keys on which the snapshot was later |
| MenuReplica.Replica.ReceiveOutgoingBatch | backend/sync/service.ts:136-162 | A batch of menu versions and of rows of other mirrored tables is one transaction: all of it or nothing, accepted ids in order, with the outcomes of the specification |
| MenuReplica.OutcomesOfBatch | backend/sync/service.ts:137-161 | A batch claims all its ids; menu events and events processed before have an outcome, the latter always the one that says so |
| MenuReplica.BatchMerges | backend/sync/service.ts:136-162 | A batch of well formed events never fails; it merges the menu versions and copies the rows of exactly the events that were not processed before, each once and in order |
| MenuReplica.LastDecides | backend/sync/service.ts:149-156 | Of the events of a batch about one row the last decides whether it is there and what it holds |
| MenuReplica.MenuBatch | backend/sync/service.ts:136-162 | A batch of menu events alone has the effect that the protocol between two stores builds on |
| MenuReplica.Replica.ApplyIncomingLocally | backend/sync/service.ts:185-203 | A first delivery of a well made event claims it and merges its version; a second delivery changes nothing; an error claims nothing |
| MenuReplica.FindMenuMismatches | backend/sync/worker.ts:76-89 | Reports exactly the keys on which two snapshots differ, so none means equal menus |
| MenuReplica.SendableSnapshot | backend/sync/service.ts:64-85 | Reading a menu gives a snapshot that a peer accepts exactly when it has at most 5000 records, each with an id and a readable timestamp |
| MenuReplica.SyncMenu | backend/sync/worker.ts:140-176 | One round over a network that may lose request or response: what each side ends with, and no mismatch exactly when the two menus are equal; on well made menus both end with the join |
| MenuReplica.RoundConverges | backend/sync/worker.ts:140-176 | Joining the joined menu back adds nothing, so one round makes both stores equal |
| MenuSyncProtocol.InitInv | backend/sync/service.ts:92-203 | Any two well made menus with empty queues satisfy the protocol invariant |
| MenuSyncProtocol.NextInv | backend/sync/worker.ts:100-176 | Every step (edit, push, pull, acknowledgement, snapshot round, with any message delivered late or again) keeps the invariant, and only edits make versions |
| MenuSyncProtocol.RunInv | backend/sync/worker.ts:100-176 | The invariant holds in every state of every run |
| MenuSyncProtocol.NoVersionLost | backend/sync/service.ts:45-203 | In every reachable state the two stores together hold the latest of all versions ever made |
| MenuSyncProtocol.DrainedConvergesIff | backend/sync/worker.ts:100-132 | Once both queues are drained, the stores are equal if and only if each accounts for what the other started with, and equal stores hold the latest versions |
| MenuSyncProtocol.DrainedApart | backend/sync/worker.ts:100-132 | Drained stores that differ: one starts with a dish, the other empty, and nothing happens |
| MenuSyncProtocol.QuietRun | backend/sync/worker.ts:100-176 | Between edits menus only grow towards the versions already made |
| MenuSyncProtocol.RoundRepairs | backend/sync/worker.ts:140-176 | One snapshot round without an interleaved edit makes any two diverged stores equal to the latest of all versions |
| MenuProgress.QueuesCanDrain | backend/sync/worker.ts:100-132 | Whatever was lost, repeated or edited in a run, from each of its states both queues can be drained without another edit |
| MenuProgress.StoresCanConverge | backend/sync/worker.ts:100-176 | From each state of a run, as long as all versions fit into one snapshot, steps without edits lead to drained queues and two equal stores that hold the latest of everything |
| MenuSyncProtocol.EditLosesNothingIff | backend/sync/service.ts:21-62 | An edit keeps every version accounted for if and only if it is stamped at least as late as what it replaces or the other store already accounts for the replaced record |
| MenuSyncProtocol.BackdatedEditLoses | backend/sync/service.ts:26-27 | An edit that loses a version: it is stamped a year before what it replaces, which the other store does not have |
| Apportionment.AllocateIsApportionment | backend/billing/service.ts:221-231 | The parts sum to the total, each is its whole share or one cent more, and the extra cents go to larger remainders first, ties to the lower position |
| Apportionment.ApportionmentUnique | backend/billing/service.ts:221-231 | There is only one such division, so these properties determine every cent |
| Apportionment.Leftover | backend/billing/service.ts:226-228 | The cents left after the whole shares are the sum of the remainders, at least none and fewer than there are bases |
| Apportionment.AllocateSums | backend/billing/service.ts:221-231 | The parts add up to the total, unless no base is positive and nothing is handed out |
| Apportionment.ExtraNeedsRemainder | backend/billing/service.ts:226-229 | An extra cent never goes to a share that is already exact |
| Apportionment.ZeroBaseGetsNothing | backend/billing/service.ts:221-231 | A base that is zero or negative gets nothing |
| Apportionment.PartWithinBase | backend/billing/service.ts:221-231 | No part is negative, and a total that the bases can carry never exceeds one of them |
| Apportionment.LargerBaseGetsMore | backend/billing/service.ts:221-231 | A larger base never gets less |
| Apportionment.AllocateAmount | backend/billing/service.ts:221-231 | The in-place loop over an array of cents computes this division |
| BillPricing.DiscountPrecedence | backend/billing/service.ts:86-99 | The three line discounts together take what was asked for but no more than the line is worth, item level first, then combo, then happy hour |
| BillAmounts.GrossNearest | backend/billing/service.ts:154-192 | A line keeps the quantity and price of its item and charges their product to the nearest cent |
| BillAmounts.ItemDiscountFirst | backend/billing/service.ts:86-99 | The discount of an item is its own; only without one its line discount, and without either nothing |
| BillPricing.PromotionAmount | backend/billing/service.ts:101-121 | A promotion takes between nothing and the remaining base, never more than its own maximum; a negative value, a negative maximum or an unknown type is an error |
| BillAmounts.PromotionFailsIff | backend/billing/service.ts:101-104 | A promotion fails exactly on an unknown type, a negative value or a negative maximum |
| BillAmounts.PercentageTakes | backend/billing/service.ts:106-109 | A percentage takes that part of the base to the nearest cent, or from one hundred percent on the whole base |
| BillAmounts.FixedAmountTakes | backend/billing/service.ts:106-109 | A fixed amount takes its value but no more than the base |
| BillAmounts.MaximumCaps | backend/billing/service.ts:107-109 | A maximum caps what the promotion takes without it, and nothing is taken off a base that is not positive |
| BillPricing.PromotionAmounts | backend/billing/service.ts:242-248 | All promotions together never take more than the base |
| BillPricing.ApplyPromotions | backend/billing/service.ts:240-246 | The loop over the promotions with a running base finds the amounts of the specification, errors included, and leaves the base less their sum |
| BillPricing.ApplyBillLevelPricing | backend/billing/service.ts:233-311 | The promotions followed by the three apportionments compute the specification, errors and the amounts shown for each promotion included |
| BillPricing.ShownAddUp | backend/billing/service.ts:280-283 | What the splits show of a promotion adds up to its amount to within half a cent for each split if all promotions together come to at least 1.00, and otherwise to the product of its amount and their total, to within as much |
| BillPricing.OnlyPromotionShownIff | backend/billing/service.ts:280-283 | A bill on one split shows its only promotion right exactly when it is nothing or at least 1.00 |
| BillPricing.ShownOneCentMore | backend/billing/service.ts:280-283 | Two promotions of 0.50 that three equal splits show as 0.51 each |
| BillPricing.SplitConservedIff | backend/billing/service.ts:233-342 | Merging the priced splits gives exactly the bill priced as a whole if and only if some split has a positive amount before bill-level discounts, or tax and service charge on the whole amount are zero; otherwise these two charges are dropped and nothing else changes |
| BillPricing.CreditLosesTax | backend/billing/service.ts:221-257 | A bill of one credit line that loses its tax |
| BillPricing.SplittingConserves | backend/billing/service.ts:233-342 | Without credit lines, dividing a bill changes neither its totals nor its errors, and no split is left with a negative amount |
| BillPricing.AssignmentIrrelevant | backend/billing/service.ts:194-342 | Two bills of the same lines have the same errors, and the same totals if and only if both or neither have a split that can carry the charges |
| BillPricing.SoundAssignment | backend/billing/service.ts:194-342 | Without credit lines there is always such a split or no charge, so order and assignment of the lines never matter |
| BillPricing.ChargesRounded | backend/billing/service.ts:254-256 | Tax and service charge are the given percentages of the discounted amount to the nearest cent, and zero when they are switched off |
| BillPricing.TallyMultiset | backend/billing/service.ts:194-219 | The sums of the lines do not depend on their order |
| BillPricing.RepriceIdempotent | backend/billing/service.ts:344-352 | Repricing a repriced bill changes nothing, states included |
| BillAmounts.BooksBalance | backend/billing/service.ts:194-342 | The books of a repriced bill balance: on every split the headings are the sums of what its lines say, the discounts add up, what is taxed is what they leave and what is due is that with tax and service charge; so on the bill |
| BillPricing.SplitStates | backend/billing/service.ts:285-293 | Whatever its lines, a split is paid exactly when nothing is unpaid and it is not a credit without payments, in debt exactly when it was in debt and something is unpaid, partially paid exactly in between |
| BillPricing.BillStateSumsUp | backend/billing/service.ts:344-352 | A bill is paid exactly when every split is settled (nothing unpaid, and not a credit without payments), in debt exactly when some split is and all others are settled or in debt, and open exactly when some split is not settled and none is in debt or partly paid |
| BillPricing.SoundBillState | backend/billing/service.ts:344-352 | Without credit lines a bill is paid exactly when every balance is zero, and in debt exactly when some split is and every other balance is zero |
| PaymentLedger.StateOfRun | backend/billing/service.ts:344-352 | In every run the state of a bill that was not voided says exactly which of its splits are settled, in debt or under way |
| PaymentLedger.CreditStaysOpen | backend/billing/service.ts:284-293 | Billing one credit gives a bill that is open although every balance is zero |
| PaymentLedger.PaymentBalances | backend/billing/service.ts:719-790 | A captured payment with a new id keeps the ledger of a split balanced |
| PaymentLedger.RefundBalances | backend/billing/service.ts:870-943 | A refund of at most what is left of its payment keeps the ledger balanced |
| PaymentLedger.VoidBalances | backend/billing/service.ts:994-1058 | Voiding an unrefunded payment keeps the ledger balanced |
| PaymentLedger.RecordPaymentEffect | backend/billing/service.ts:709-860 | A payment raises what is paid by its rounded amount, changes no line and may leave its split in debt |
| PaymentLedger.RefundPaymentEffect | backend/billing/service.ts:862-984 | A refund lowers what is paid by its rounded amount, which is never more than what was paid |
| PaymentLedger.VoidPaymentEffect | backend/billing/service.ts:986-1081 | A void takes back the whole payment |
| PaymentLedger.OnBillKeeps | backend/billing/service.ts:438-1191 | Every operation on a stored bill keeps the ledger invariant and, once there are payments, every line in its split |
| PaymentLedger.TransferInv | backend/billing/service.ts:1169-1191 | Transferring a bill keeps the invariant of both |
| PaymentLedger.RunInv | backend/billing/service.ts:404-1191 | In every run of all billing operations with new payment ids the ledger of every split balances |
| PaymentLedger.LedgerOfRun | backend/billing/service.ts:56-62 | What is paid is the sum of what is left of the payments and never negative, the balance is what is due beyond it, no payment is refunded beyond its amount, and a voided one has no refund |
| PaymentLedger.LinesFrozen | backend/billing/service.ts:1136-1141 | After the first payment of a bill no operation of any run changes or moves a line of it |
| PaymentLedger.MergePreservesTotals | backend/billing/service.ts:579-599 | Merging the splits of a priced bill succeeds exactly on a valid target without payments; it changes no total, with credit lines exactly if before and after alike a split, or neither, can carry the charges |
| BillActions.PaySucceedsIff | backend/billing/service.ts:709-860 | A payment is taken exactly on a split of the bill, for a positive amount, in cash or with the terminal's consent, and is recorded as captured for its amount to the nearest cent |
| BillActions.RefundSucceedsIff | backend/billing/service.ts:862-984 | A refund is made exactly for a positive amount with a reason, of a payment of the split of which that much is left, in cash or with the terminal's consent, and is recorded as a refund of that payment |
| BillActions.VoidSucceedsIff | backend/billing/service.ts:986-1081 | A payment is voided exactly with a reason, if it was not refunded or voided, in cash or with the terminal's consent; it is marked and its reversal recorded |
| BillActions.EditableIff | backend/billing/service.ts:1136-1141 | A stored bill may be changed exactly when nothing was paid on it, nothing of it is a debt and it is not void; the other checks follow |
| BillActions.GenerateSucceedsIff | backend/billing/service.ts:393-465 | A bill is generated exactly on three splits with rates in range and valid promotions, and starts with the lines of its items and no payments |
| BillActions.AssignSucceedsIff | backend/billing/service.ts:545-577 | Items are assigned exactly to all splits of an untouched bill, each of which then has the lines of its items |
| BillActions.PricingSucceedsIff | backend/billing/service.ts:467-543 | Tax and charges change exactly on an untouched bill, promotions on any, with values in range; lines and payments stay |
| BillActions.RemoveSucceedsIff | backend/billing/service.ts:1159-1167 | An item leaves exactly an untouched bill, which loses the lines of it and no other |
| BillActions.VoidBillSucceedsIff | backend/billing/service.ts:601-643 | A bill is voided exactly with a reason and unless it is paid |
| BillActions.TransferSucceedsIff | backend/billing/service.ts:1169-1191 | Bills are transferred exactly between two sessions whose bills, as far as there are any, are untouched |
| PaymentLedger.UpdateBillStateAndBreakdown | backend/billing/service.ts:344-352 | Repricing keeps every line and payment, brings what is paid and unpaid on every split up to date, and is done after one time |
| PaymentLedger.BillDesk.RecordSplitPayment | backend/billing/service.ts:709-860 | A payment raises what is paid on its split by its rounded amount, keeps all lines and leaves a balanced bill; an error changes nothing |
| PaymentLedger.BillDesk.RefundSplitPayment | backend/billing/service.ts:862-984 | A refund lowers what is paid on its split by its rounded amount and never below zero; an error changes nothing |
| PaymentLedger.BillDesk.VoidSplitPayment | backend/billing/service.ts:986-1081 | A void takes the whole amount of the named payment back from what is paid on its split; an error changes nothing |
| PaymentLedger.BillDesk.VoidBill | backend/billing/service.ts:601-643 | The loop waives every split and the stored bills become those of the specification |
| PaymentLedger.BillDesk.MergeBillSplits | backend/billing/service.ts:579-599 | The loop gathers the lines on the target split |
| PaymentLedger.BillDesk.RemoveVoidedBillItem | backend/billing/service.ts:1159-1166 | The loop drops the withdrawn item's lines from every split |
| PaymentLedger.BillDesk.TransferUnpaidBill | backend/billing/service.ts:1169-1191 | Pushing lines split by split and adding new ones carries out the transfer of both bills |
| OrderBook.EditDraft | backend/orders/service.ts:222-252 | The loops that push, change and filter items compute the specification of an edit, errors included |
| OrderBook.MutateKeeps | backend/orders/service.ts:208-454 | Every kind of update keeps items well formed and the subtotal their sum, only appends to the log, only moves the status on, and logs every item that comes or goes |
| OrderEdits.EditMeans | backend/orders/service.ts:208-275 | A successful edit leaves exactly the old and the added items that it does not remove, each in the quantity last asked for, and those it says nothing about as they were |
| OrderEdits.EditSucceedsIff | backend/orders/service.ts:208-275 | An edit succeeds exactly on an order that is not delivered, if every change is of an item that is there or added, to a positive quantity |
| OrderEdits.EditGoesThroughIff | backend/orders/service.ts:208-275 | The service lets an edit through exactly on the version the caller has seen, if what is added is positive and nothing is taken from a completed order or from an item that the kitchen has prepared |
| OrderEdits.PreparedStay | backend/orders/service.ts:208-275 | So an item that the kitchen has prepared stays on the order in at least its quantity |
| OrderEdits.EditLogged | backend/orders/service.ts:208-275 | An edit logs, in this order, one entry for each item it adds, for each change and for each item it removes |
| OrderEdits.CancelGoesThroughIff | backend/orders/service.ts:277-318 | An order is cancelled exactly with a reason, and by a manager or else before it is completed and before the kitchen has prepared any of it |
| OrderEdits.VoidGoesThroughIff | backend/orders/service.ts:426-454 | An item is voided exactly with a reason, off an order that has it and is not cancelled |
| OrderEdits.CancelledOrVoided | backend/orders/service.ts:277-454 | Cancelling leaves the items; voiding removes the one item and cancels an order that is left without any |
| OrderEdits.TransitionIff | backend/orders/service.ts:69-86 | The status moves exactly to the next one, by the front of house, or by the kitchen from preparation to completion |
| OrderEdits.ChargesOfRun | backend/orders/service.ts:88-94 | In every reachable store each item of each order charges its quantity times its price to the nearest cent, and the subtotal is the sum of those charges |
| OrderBook.SyncOrderIntoKds | backend/kds/service.ts:49-83 | Removing stale rows and upserting the items computes the specification |
| OrderBook.SyncShows | backend/kds/service.ts:49-83 | After a sync the kitchen index has exactly one row for each item of the order, with its quantity and session, and the rows of other orders are untouched |
| OrderEdits.SyncProgress | backend/kds/service.ts:42-83 | A row that the kitchen has keeps its progress through a sync, and a new one starts where the order stands |
| OrderBook.UpdateKeeps | backend/orders/repository.ts:77-114 | A successful update needs the expected version and takes the order to the next one |
| OrderBook.NextInv | backend/orders/service.ts:173-454 | Every operation keeps orders well formed and the kitchen index in step with them |
| OrderBook.NextApart | backend/orders/service.ts:173-454 | No operation lets two orders share an item id |
| OrderBook.RunKeeps | backend/orders/service.ts:173-454 | Over any run logs only grow, statuses only move on, and the version counts the successful updates |
| OrderBook.OrderHistory | backend/orders/repository.ts:77-114 | Since its creation an order has seen exactly its live items and those logged as removed, and its version is one more than its successful updates |
| OrderBook.ExpectedVersionOnce | backend/orders/repository.ts:103-107 | Of two updates naming the same expected version at most one ever succeeds, whatever happens in between |
| OrderBook.OrderRepository.UpdateOrderWithVersionCheck | backend/orders/repository.ts:77-114 | The stored orders and the kitchen index become those of the specification; an error changes nothing |
| OrderBook.OrderRepository.CreateOrder | backend/orders/service.ts:173-206 | Accepts exactly positive quantities; the stored order has version one and the sum of its lines as subtotal, and the kitchen index shows it |
| TableFloor.Floor.OpenTableSession | backend/tables/service.ts:141-162 | Opens a session exactly at an active table where none is open, for at least one guest; an error changes nothing |
| TableFloor.Floor.CloseTableSession | backend/tables/service.ts:168-191 | Closes a session only when its orders are all delivered or cancelled and its bill is complete, or it had no orders and no bill; an error changes nothing |
| TableFloor.Floor.MoveLinkedOrders | backend/tables/service.ts:238-249 | The loop over the orders moves every order of the source, each under its next version, and syncs the kitchen |
| TableFloor.Floor.TransferTableSession | backend/tables/service.ts:208-252 | The transfer step by step: sessions, orders with kitchen, and bills become those of the specification |
| FloorActions.OpenSucceedsIff | backend/tables/service.ts:141-166 | A session is opened exactly at an active table that is free, for at least one guest |
| FloorActions.CloseSucceedsIff | backend/tables/service.ts:168-191 | A session is closed exactly if it is open, all its orders are finished, and it has a complete bill, or no bill and no orders |
| FloorActions.MoveSucceedsIff | backend/tables/service.ts:208-252 | A session is moved exactly if it is open, to another active table of its branch, with the caller's confirmation if that is in use, and if the bills of both are untouched |
| FloorActions.CreateOrderSucceedsIff | backend/orders/service.ts:173-206 | Orders are taken exactly for no session or an open one, of positive quantities |
| FloorActions.UpdateSucceedsIff | backend/orders/service.ts:208-454 | An update of an order goes through exactly if the bill of its session is untouched (unless only the status changes), an item is voided only while the session is open, stock could be deducted for a new status, and the order accepts it |
| FloorActions.UpdateEffect | backend/orders/service.ts:208-454 | After an update exactly the lines of the items that it takes off are gone from the bill of the order's session, split by split, and every other bill is as it was |
| FloorActions.AssignSucceedsIff | backend/billing/service.ts:545-577 | Items are assigned exactly on an untouched bill, if the assignment matches the orders of the session |
| FloorActions.BillingEffect | backend/billing/service.ts:393-577 | Billing leaves sessions, tables and orders as they are and makes of the bills what the ledger makes of them |
| FloorActions.PrepareStored | backend/kds/service.ts:123-140 | What the kitchen reports is stored in the row of the order's item, if there is one, and nothing else changes |
| FloorActions.MovedAsUpdated | backend/tables/service.ts:238-249 | A transfer takes an order along exactly as the order's own versioned update to the new session would |
| FloorSafety.OneEnd | backend/tables/service.ts:246 | A session reaches at most one end through its chain of transfers |
| FloorSafety.MoveKeeps | backend/tables/service.ts:208-252 | A transfer closes the source, sends it on to an open end, and leaves at most one open session at each table; chains that ended at the source end at the target |
| FloorSafety.MoveConservesGuests | backend/tables/service.ts:229-233 | A transfer seats the same number of guests as before, in every reachable state |
| FloorSafety.GuestsOfRun | backend/tables/service.ts:141-252 | Over any run guests come only with an opened session and go only with a closed one |
| FloorSafety.MoveKeepsOrders | backend/tables/service.ts:226-243 | A transfer loses no order; exactly the orders of the source move, and each goes where its chain leads |
| FloorSafety.CloseLeavesNothing | backend/tables/service.ts:168-191 | A closed session leaves no unfinished order, has a bill if it had orders, and unless the bill is void no balance outside debt |
| FloorSafety.BillingKeepsBills | backend/billing/service.ts:139-152 | Billing operations put on an order-backed bill only items of live orders of its session |
| FloorCharges.AssignmentCovers | backend/billing/service.ts:139-152 | An accepted assignment of a session with orders is for live items at their prices and gives each live item out in its ordered quantity: exactly in whole hundredths, else to within half a hundredth for the order and for each part |
| FloorCharges.HundredthsAcceptedIff | backend/billing/service.ts:139-152 | In whole hundredths an assignment of a session with orders is accepted exactly if it is for live items at their prices and gives out each live item in its ordered quantity |
| FloorSafety.ChangeKeepsBills | backend/orders/service.ts:272-318 | Editing, cancelling and voiding withdraw from the bill what they take from the order |
| FloorSafety.UpdateKeepsLive | backend/orders/service.ts:208-454 | An item that an update does not withdraw is still live after it |
| FloorSafety.MoveKeepsBills | backend/tables/service.ts:235-247 | A transfer keeps every line of an order-backed bill on an item of a live order of its session |
| FloorSafety.MoveBillsEverything | backend/billing/service.ts:1169-1191 | After a transfer the target bill has every line of both bills in its split, every item has as many lines as it had on both, and each live item without one has exactly one; the source bill is void and empty |
| FloorCharges.MoveChargesOrders | backend/tables/service.ts:233-246 | The new line of each live item that had none charges it as its order does: in its quantity, at its price, for the order's total of it |
| FloorBills.TransferLines | backend/billing/service.ts:1169-1191 | The lines of each split after a transfer are the target's, then the source's, then in split A one new line for each item without one, in order |
| FloorBills.UnbilledOnce | backend/billing/service.ts:1180-1181 | Of items with distinct ids each without a line gets exactly one new line, and each with a line none |
| FloorSafety.MovedDistinct | backend/tables/service.ts:234-240 | In a reachable state the items that a transfer bills have distinct ids |
| FloorBills.TransferCounts | backend/billing/service.ts:1169-1191 | How many lines each item has after a transfer of two bills |
| FloorBills.OnBillLines | backend/billing/service.ts:438-1166 | Only assigning items brings lines to a stored bill, and removing an item takes all its lines |
| FloorSafety.NextInv | backend/tables/service.ts:141-252 | Every operation keeps sessions, orders and bills in agreement |
| FloorSafety.NextListed | backend/tables/service.ts:141-252 | Every operation keeps sessions and orders listed once and item ids unique across orders |
| FloorSafety.RunInv | backend/tables/service.ts:141-252 | The agreement holds in every reachable state, and no order is lost |
| FloorSafety.FloorOfRun | backend/tables/service.ts:141-252 | At every moment of a run: one open session for each table, no cyclic transfers, finished orders in closed sessions, live items behind every line of an order-backed bill |
| FloorSafety.OrderFollowsSession | backend/tables/service.ts:208-252 | Wherever an order starts, it is later found at the end of its session's chain of transfers |
| StockDeduction.WholeTakeable | backend/inventory/service.ts:184-198 | In whole thousandths a requirement can be taken exactly when it is not zero, its item is known and the exact balance covers it after the earlier ones, or negative stock is allowed |
| StockDeduction.PrecheckCovers | backend/orders/service.ts:346-363 | In whole thousandths the precheck passes exactly when every item covers all that the pending order items need of it |
| StockDeduction.DeductionSucceedsIff | backend/orders/service.ts:365-388 | For any quantities the deduction succeeds if and only if each requirement is of a known item, not zero, and covered by the balance rounded after the earlier ones; then every item falls by exactly what the order items without a guard need of it, and all are guarded |
| StockNeeds.RequirementsMean | backend/orders/service.ts:326-344 | With stock linking an order item needs of each ingredient the size of its quantity times what its dish's recipe takes of it, or without a recipe one whole unit of its linked item for each portion; without either it is an error, and without linking it needs nothing |
| StockNeeds.OneRowEach | backend/orders/service.ts:331-337 | With one recipe row for an ingredient, a portion takes what that row says |
| StockNeeds.DeductionTakes | backend/orders/service.ts:365-388 | After a deduction every ingredient has fallen by exactly what the order's pending items take of it |
| StockNeeds.SavedRecipe | backend/inventory/service.ts:270-286 | A recipe row is saved exactly for a positive quantity of a known ingredient, rounded to whole thousandths, in place of the row for the same dish and ingredient |
| StockDeduction.DeductionCompletesIff | backend/orders/service.ts:346-388 | In whole thousandths, after a passed precheck, the deduction succeeds exactly when no requirement is zero or for an unknown item, and no drawn item goes below zero under "prevent" |
| StockDeduction.FractionsBreakDeduction | backend/inventory/service.ts:192-198 | With fractions of thousandths it can fail after a passed precheck: one thousandth, and needs of 0.55 and 0.6 |
| StockDeduction.DeductedOnce | backend/orders/service.ts:366-369 | Over any run the sales of an order item that was deducted for a trigger stay what they are, and an item without a guard has none |
| StockDeduction.TinyRecipeBreaksDeduction | backend/inventory/service.ts:270-286 | A recipe that rounds to zero is accepted, passes the precheck and breaks the deduction |
| StockDeduction.NextStaysIff | backend/inventory/service.ts:184-198 | From balances at or above a floor an operation stays there exactly when it does not overdraw: when it passes every check, no exact balance plus the recorded quantity, or less all that an order draws, is below the floor |
| StockDeduction.RunStaysIff | backend/inventory/service.ts:184-238 | Over a whole run balances stay at or above a floor exactly when none of its operations overdraws |
| StockDeduction.ReportedRunIff | backend/inventory/service.ts:184-238 | No balance is ever reported negative exactly when no operation of the run is accepted and takes an exact balance below minus half a thousandth |
| StockDeduction.NextSolvent | backend/inventory/service.ts:190-198 | In whole thousandths no movement and no deduction makes a balance negative under "prevent" |
| StockDeduction.RunSolvent | backend/inventory/service.ts:184-238 | Nor does any run of them |
| StockDeduction.RunBounded | backend/inventory/service.ts:184-238 | Whatever the quantities, no run under "prevent" takes an exact balance below minus one thousandth |
| StockDeduction.HalvesGoNegative | backend/inventory/service.ts:190-198 | The bound is reached by taking half a thousandth twice from nothing |
| StockDeduction.RunInv | backend/inventory/service.ts:292-317 | Over any run movement ids are used once, sales are only of guarded order items, and a recipe names an ingredient once |
| StockDeduction.AssertInventoryDeductionCanComplete | backend/orders/service.ts:346-363 | The loop that adds up requirements by item decides as the specification does |
| StockDeduction.SumByItem | backend/orders/service.ts:347-354 | The map it fills holds exactly the total requirement of each item that is required |
| StockDeduction.Stockroom.AppendStockMovement | backend/inventory/service.ts:184-215 | A movement with a new id moves the total of its item by its quantity and no other; an error changes nothing |
| StockDeduction.Stockroom.DeductInventoryForOrder | backend/orders/service.ts:365-388 | The nested loops succeed exactly when the specification does, with its result |
| OperationalWrite.ExecuteMeaning | backend/db/operationalWrite.ts:20-36 | Each step of a running call, nested calls and caught errors included, leaves the call's outcome as it is or is its end |
| OperationalWrite.StepInv | backend/db/operationalWrite.ts:20-36 | Every step of any call keeps the queue in order and the stores on the way of the serial run |
| OperationalWrite.RunInv | backend/db/operationalWrite.ts:20-36 | So does every interleaving |
| OperationalWrite.WritesSerialised | backend/db/operationalWrite.ts:20-36 | At most one outer call runs at a time, and when all are over the stores are those of the successful ones run one after another in the order of arrival; each call returns or throws as in that order |
| OperationalWrite.NoDeadlock | backend/db/operationalWrite.ts:22-25 | As long as a call is not over some call can go on, so the lock is never lost |
| OperationalWrite.RunsEnd | backend/db/operationalWrite.ts:20-36 | No run is longer than the work there was, so every call ends |
| OperationalWrite.Rollback | backend/db/operationalWrite.ts:9-17 | Emptying and refilling every registered store puts back exactly its copy |
| IdempotentRequest.PrintInjective | backend/network-idempotency.ts:30-56 | Requests with parsed bodies, or none, have the same fingerprint exactly when they are equal |
| IdempotentRequest.MutualExclusion | backend/server.ts:71-87 | Two visits past the lock of one key are the same visit |
| IdempotentRequest.AnswerLock | backend/server.ts:83-86 | Answering releases the lock and takes the key out of the map exactly when nobody queued behind, without disturbing the order of the others |
| IdempotentRequest.NothingExecuted | backend/server.ts:118-129 | Past the lock, a key without a record has no earlier successful execution |
| IdempotentRequest.AtMostOnce | backend/server.ts:109-146 | For any number of clients, and any losses, repetitions and delays: the handler succeeds at most once for each key, and every operation that ends in success has the result of that one execution, which was of exactly the request the operation sends |
| IdempotentRequest.SameKeySameAnswer | backend/server.ts:109-146 | Two operations under one key that both end in success sent the same request and got the same result |
| IdempotentRequest.WritesDeduplicated | frontend/api/client.ts:421-457 | A client that repeats a write it is still waiting for is given the operation it is waiting for, for good: nothing new is sent and both calls have one answer |
| IdempotentRequest.WritesApart | frontend/api/client.ts:421-457 | A write that equals none the client is still waiting for starts an operation of its own, even if an equal one was answered before |
| IdempotentRequest.CallsAnswered | frontend/api/client.ts:403-457 | Every answered call has the answer given to the last attempt of its operation, and every call answered with success the result of one execution, which was of the method, path and body text it asked for; it was of the body the call would have sent exactly when the operation was started with an equal one |
| IdempotentRequest.PlainCallsAnswered | frontend/api/client.ts:403-457 | A call whose body has no array that is empty or a single undefined value only ever shares an operation that was started with its own body |
| IdempotentRequest.OthersMistaken | frontend/api/client.ts:403-457 | For any other body there is a pending write, of something else over the wire, whose answer the call is given |
| IdempotentRequest.ConflictNeverRuns | backend/server.ts:118-129 | In every run a visit whose request differs from the one executed under its key is never in the handler, stores nothing and is never answered with success |
| IdempotentRequest.LockNotLost | backend/server.ts:71-87 | The earliest unanswered visit of a key can always go on |
| IdempotentRequest.RetriesEnd | frontend/api/client.ts:425-458 | An operation makes exactly two steps (send and outcome) for each attempt, and at most six attempts, whatever the network does |
| IdempotentRequest.AttemptDecides | frontend/api/client.ts:425-448 | An attempt is followed by another exactly if the network failed or the status is one of 408, 425, 429, 500, 502, 503 and 504, and it was not the last: of one for unsafe writes, of six otherwise |
| IdempotentRequest.FirstAnswerDecides | frontend/api/client.ts:425-448 | The first outcome that is not to be retried, or the last attempt, decides: five failures and then a 200 is success |
| IdempotentRequest.RequestLoop | frontend/api/client.ts:425-448 | The retry loop ends with the first outcome that is not to be retried, or with the last attempt allowed |
| BulkImport.ValidateBulkUploadRows | backend/menu/bulkImport/validator.ts:18-44 | The loop with its set of identities computes the accepted rows and the list of errors, row by row |
| BulkImport.ValidatedRows | backend/menu/bulkImport/validator.ts:18-44 | Accepted rows have identities of their own and prices in range, and there is no error exactly when every row of the workbook is accepted and no price is a blank text |
| ImportCells.PriceMeans | backend/menu/bulkImport/validator.ts:26-38 | A price is accepted exactly if it is a whole number of cents up to 999999.99, or blank, and every other cell has one error of its own |
| BulkImport.ImportMatchesPreview | backend/menu/bulkImport/service.ts:44-152 | An import that succeeds creates, updates and leaves alone exactly as many items, and creates exactly as many categories, as its preview announced |
| ImportCells.PreviewSucceedsIff | backend/menu/bulkImport/service.ts:44-77 | A preview succeeds exactly if every row names a station, and counts every row once |
| BulkImport.ImportSucceedsIff | backend/menu/bulkImport/service.ts:91-156 | An import succeeds if and only if each row finds its category or a free name for it, names a station, and, if it changes something, has a price in range, a station that is enabled or configured by the import, and a name |
| ImportCells.ImportKeepsItems | backend/menu/bulkImport/service.ts:91-152 | An import deletes no item, renames none and moves none to another category, and the items it adds have new ids |
| BulkImport.ImportSettles | backend/menu/bulkImport/service.ts:44-77 | After an import a row is planned as unchanged exactly when it was unchanged before or its station id is its own id |
| BulkImport.StationIdNotStable | backend/menu/bulkImport/service.ts:106-141 | A row imported into an empty menu that is planned as an update again: the id of its station name is cut off behind a dash |
| BulkImport.SecondImportWritesNothing | backend/menu/bulkImport/service.ts:91-152 | A second confirmation of the same rows succeeds and leaves the menu as it is; it reports no row as updated exactly when every row was unchanged from the start or has a station id that is its own id |
| BulkImport.ImportRowEffect | backend/menu/bulkImport/service.ts:128-141 | Importing a row does what its classification says, settles its item and affects no other name in any category |
| ImportNames.SameNameIff | backend/menu/bulkImport/service.ts:38 | Two names are one identity exactly when they differ in nothing but letter case and outer blanks |
| ImportNames.SpellingIrrelevant | backend/menu/bulkImport/service.ts:47-60 | A row finds the same item under every spelling of its name and category, so importing "Burger" updates "burger" |
| ImportNames.SlugMeans | backend/config/posSettings.ts:65-72 | A station id has at most 48 small letters, digits and single dashes, none of them at the start; it has the letters and digits of the name in order, all of them unless it is cut off |
| BulkImport.MenuStore.ImportRows | backend/menu/bulkImport/service.ts:91-156 | The menu becomes that of the specification; a failed import leaves it as it was |
| ReportCsv.PrintReport | frontend/reports/export.ts:19-23 | The loop that pushes lines prints the byte order mark and the lines of the table |
| ReportCsv.FieldRoundTrip | frontend/reports/export.ts:13-16 | A printed cell is read back whole, whatever it contains |
| ReportCsv.TableMeans | frontend/reports/export.ts:19-23 | Under each heading a row shows the value it has for that column, or nothing |
| ReportCsv.FileRoundTrip | frontend/reports/export.ts:19-23 | Reading printed lines by section 2 of RFC 4180 gives every record back |
| ReportCsv.ReportRoundTripIff | frontend/reports/export.ts:19-23 | Reading a printed report gives its header and cells back exactly when it has at least one column |
| ReportCsv.PrintInjective | frontend/reports/export.ts:19-23 | Reports with columns print alike exactly when their tables are equal |

## Left out

- MenuVersion.CompareTrichotomy: `localeCompare` on keys is replaced by one fixed order (UTF-16 code units), `Date.parse` reads the form that `toISOString` writes, for days of the calendar from year 1 on, and any other text counts as unreadable; `updatedAt` is taken to be a text or absent.
- MenuSyncProtocol.NoVersionLost: hypothesis that edits are stamped later than what they replace and carry ids of their own; retry delays and attempt counts of the outbox are not modelled, a row may be marked failed at any time.
- MenuReplica.ReceiveMerges: events of other mirrored tables are part of `BatchMerges` only; a physical delete of a menu row is modelled on receipt, as the tombstone it stands for.
- MenuReplica.BatchMerges: a copied row is taken as a whole, and whether the database refuses it is a parameter; that deferred retries can overtake later changes of a row is not part of the model.
- MenuReplica.SyncMenu: the check that the configured store owns the local menu, diagnostics and counters are not part of the model.
- MenuReplica.Replica.ReconcileMenuSnapshot: advisory locks are not part of the model; a transaction is atomic. Of the audit table only the timestamp column, which can refuse a row, is modelled.
- Apportionment.AllocateIsApportionment: exact integers instead of floating point; `1e-9` and `Number.EPSILON` only repair floating-point noise. Bases are cents, as every caller passes them.
- BillPricing.ApplyBillLevelPricing: receipts and line tax (always zero where a bill is priced) are not part of the model; the shown amounts of promotions with equal ids, which the bill adds together, are kept apart.
- BillPricing.SplittingConserves: hypothesis that no line is a credit; `SplitConservedIff` covers all lines.
- PaymentLedger.RunInv: payment terminals are an outcome parameter; an external payment always keeps its capture reference; the debt ledger, whose entries repeat the full remainder, drawers and audit entries are not part of the model.
- PaymentLedger.BillDesk.RecordSplitPayment: a void bill accepts payments, as in the code, and is then priced like any other.
- PaymentLedger.OnBillKeeps: promotions may change after payment, as in the code; only lines are frozen.
- OrderBook.NextInv: notes, modifiers, roles other than in the status flow, and the kitchen's progress history are not part of the model; menu availability decides beforehand which items are added.
- OrderBook.SyncShows: the kitchen's key, order id and item id joined by a colon, is taken to be injective.
- FloorSafety.FloorOfRun: a bill that took lines while its session had no orders is noted in `standalone` and exempt from the statement about lines; quantities on a bill do not follow later edits of an order, as in the code.
- TableFloor.Floor.OpenTableSession: the lock for each table is not modelled apart from the serialisation of all writes, which `OperationalWrite` proves.
- FloorSafety.CloseLeavesNothing: concerns the moment of closing; later payments, refunds and voids on the bill are covered by the ledger only.
- StockDeduction.DeductionCompletesIff: hypothesis of whole thousandths; `DeductionSucceedsIff` covers all quantities. Stable ids are taken to be injective.
- StockDeduction.DeductedOnce: once for each trigger; a change of the trigger policy deducts again, as in the code. Movements other than sales are taken to have ids of their own, or to repeat a movement unchanged.
- OperationalWrite.WritesSerialised: in-memory stores only, all of whose writers use the wrapper; callbacks that start concurrent work of their own are not part of the model.
- IdempotentRequest.AtMostOnce: in-memory records, no crash between handler and save, non-empty keys and replayable methods; hashes are compared through the text they are taken of, a client's fingerprint through method, path and body text; the server reads the body that `JSON.stringify` wrote.
- IdempotentRequest.RetriesEnd: idempotent writes only; delays between attempts are not modelled.
- BulkImport.ImportMatchesPreview: station counts, which preview and import compute differently, and linked inventory items are not part of the model; lower case and trimming cover ASCII letters and the common blanks.
- BulkImport.ImportSucceedsIff: the import also fails where saving the settings itself fails, which is not part of the model.
- BulkImport.ImportSettles: stored station ids are taken to be their own ids.
- BulkImport.ValidateBulkUploadRows: lists the kind of each error instead of its text; reading workbook cells is not part of the model.
- ReportCsv.ReportRoundTripIff: cell values are the texts `String` gives; the download and the HTML print are not part of the model.
- Business-day ranges, reports, settings normalisers, permission tables, session tokens, printing, hardware and HTTP routing: mostly formatting, configuration or single decisions that would only add easy members.
- SQL storage, its row locks and its triggers: a transaction is taken to be atomic, and queueing an outgoing event is part of the edit that causes it.
