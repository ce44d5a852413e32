# School ERP: ledger, standing, outbox and catalogue, verified

A Dafny model of four parts of a school ERP, with proofs of what they promise.

**The fee ledger** (`Books`, `Upkeep`, `Balances`, `Waterfall`, `Posting`,
`Withdrawal`, `Undo`, `Growth`, `Register`, `RegisterPosts`, `Reload`, `Renumber`, `Arrears`, `TermRun`,
`BillingChild`, `BillingRun`, `TermBills`, `BillingAccounts`, `AppFee`, `AppFeeRun`, `FeeBills`,
`Transport`, `TransportRun`, `AnnualDiscount`, `History`, `YearWork`, `Strays`,
`CarriedBills`, `Cases`, `LedgerDesk`).
Bills with lines, receipts, allocations of receipts to bills, and the record of
debt carried from one year's bill to a later one. `Books` holds the rows, what
each SQL statement does to them (the two allocation triggers, cascading and
refused deletions, unique numbers), and `Valid`: headers are the sums of their
lines, discounts lie within charges, paid and allocated are the sums of
allocations and stay within net and amount, and every carry is backed by one
adjustment that pays nothing else. The programs are specified as functions on
`Books`, where `None` is a run the database refuses and rolls back; a dry run is
a run whose result is not kept. `LedgerDesk.Ledger` is the mutable ledger: its
methods are the programs' own loops and counters, each proved to leave the
tables exactly as the specification says, or as they were. `History` runs the
programs, and the work at the activities desk, one after another over one
school.

**Activities** (`Activities`, `ActivityRuns`, `ClubDesk`, `Capacity`). Joining a
club raises a bill, leaving it cancels the bill; and clerks filling the last
place at the same time. Each enrolment says which fee head its bill's line
names: the handler as written names none.

**Standing inside another school** (`Acting`). The middleware amends the
request's identity in place while the permissions under it are shared with the
session cache.

**The desktop outbox** (`Outbox`, `OutboxRuns`, `Bridge`). A background flusher,
a page that rewrites the same file, a network that loses requests and replies,
and a server that keeps one receipt for each idempotency key, interleaved at
every wait.

**The catalogue scripts** (`JsonText`, `JsonReader`, `WorkerFile`,
`CatalogBuild`, `Sheet`, `RoleMerge`, `SheetPasses`, `Registry`, `Regroup`,
`CrossFile`). Printing the
catalogue as JSON and finding it again, and the passes that move, merge and drop
rows while rewriting a second file's keys to match.

`Tables` is the little the rest needs of rows in order: sums, filters, updates
and a stable sort. Check everything with `dafny verify dfyconfig.toml`.

Amounts are whole paise in unbounded integers; the source's are 64-bit and its
sums stay far below that. Days are integers passed in, and so is whatever comes
from outside: the resolved rows of a register, the caller's permission to edit a
child, the fee structures and concessions.

Where the code does not do what it says, the code is modelled and the gap is a
result:

- A receipt of the loader's series that paid part of a bill later carried onward
  goes with the withdrawal, and the carried bill then owes that part again
  (`CarriedBills.SettledAfterWithdrawal`, and `Cases.CarriedOwesAgain` for a
  ledger where it does).
- A year is withdrawn only if none of its bills was itself carried onward; the
  record of a carry forbids deleting the bill it came from
  (`Withdrawal.WithdrawRefused`, `Cases.FirstYearRefused`).
- The adjustments of undone carries are recognised by a remark that begins
  `Carried forward to INV/`, while the school's invoice prefix can be changed;
  under another prefix they stay behind as credit
  (`Withdrawal.AdjustmentUndone`, `Cases.AdjustmentLeftBehind`).
- The same remark typed at the counter, on an adjustment that pays a bill of the
  year, makes a second load differ from the first: the first leaves the receipt
  paying nothing and the second deletes it (`Reload.LoadAgainExactly` gives the
  exact condition, `Reload.HandWrittenLost` a ledger). No program writes such a
  receipt (`Strays.NeverStray`).
- Joining an activity that costs anything is refused: the line of its bill names
  no fee head (internal/api/activities.go:271-276), and the column may not be
  null (migrations/00001_baseline.sql:786). `ActivityRuns.JoiningAsWritten` says
  exactly who is let in, and `NobodyCharged` that nobody is ever charged. The
  results about charged places are the stated intention, with a head on the
  line.
- The application fee and the bus fare number their bills from 1 on every run,
  and bill numbers are unique: a later run that finds anybody new is refused
  whole (`AppFeeRun.OneRunOnly`, `TransportRun.LaterRiderRefused`).
- The annual discount says the remainder rides on the first term; it is dropped
  (`AnnualDiscount.YearFallsShort`). Re-lining can take a part-paid bill below
  what was paid (`AnnualDiscount.RunDiscountsKeeps` gives the exact condition,
  `Cases.OverDiscounted` a ledger); over runs, that is the only thing that ever
  breaks validity (`History.AlwaysValid`).
- The places taken are counted in the statement that locks the activity's row,
  so the count is as old as the wait for the lock: `Capacity.CrowdLetIn`. The
  stated intention is safe: `Capacity.NeverOverfull`.
- The flusher writes its own remaining rows over whatever the page has put in
  the file meanwhile (`OutboxRuns.WhatTheFileLoses`, `OutboxRuns.RewriteLost`),
  and drops a row told that it is still being processed
  (`OutboxRuns.DroppedUnsettled`). At most one effect per key rests on four
  habits of the server, and fails without any one of them
  (`OutboxRuns.FailedButDone`, `DoneNotRecorded`, `PurgedTooSoon`,
  `SweptAtWork`).
- A rewired registry is the simple set form only without chains
  (`Registry.SetFormWhenNoChain`), and a removed key is sent to a kept one only
  when its survivor is not itself removed (`SheetPasses.SentToKept`).
- A concession in percent is ignored as soon as any concession in rupees applies
  to the line (`TermRun.DiscountIs`).

## Model

| member | source | states |
|---|---|---|
| `Upkeep.TriggersTally` | migrations/00001_baseline.sql:54-95 | after allocations change in any way and both triggers fire, every bill's paid and every receipt's allocated amount is again the sum of its allocations |
| `Upkeep.StatusesFollow` | migrations/00001_baseline.sql:54-95 | a live bill whose allocations change is paid, part paid, overdue or unpaid exactly as its money and its due day say; a cancelled one stays cancelled |
| `Upkeep.AllocateKeeps` | migrations/00001_baseline.sql:1055-1095 | an allocation that joins one family's receipt and live bill and exceeds neither keeps the ledger valid |
| `Upkeep.DeleteAllocationsKeeps` | migrations/00001_baseline.sql:54-95 | deleting any allocations but those of a recorded carry keeps the ledger valid, headers still open included |
| `Upkeep.DeleteInvoicesKeeps` | migrations/00001_baseline.sql:2763-2767 | deleting bills takes lines, allocations and carries into them along and keeps the ledger valid |
| `Upkeep.DeletePaymentsKeeps` | migrations/00001_baseline.sql:2769-2770 | deleting receipts takes their allocations along, re-opens the bills they paid and keeps the ledger valid |
| `Upkeep.RecomputeHeadersKeeps` | cmd/raiseterm/main.go:223-229 | recomputing the headers of bills still open makes the whole ledger valid |
| `Upkeep.InsertInvoiceKeeps` | cmd/raiseterm/main.go:177-186 | a new bill under a free number keeps the ledger valid but for the bill still open |
| `Upkeep.InsertPaymentKeeps` | cmd/loadregister/main.go:441-446 | a receipt of a positive amount under a free number keeps the ledger valid |
| `Balances.CountedOnce` | migrations/00001_baseline.sql:54-95 | the triggers write each bill's paid and each receipt's allocated amount as a sum over its own allocations; added over distinct keyed rows these sums count every allocation that has a row exactly once |
| `Balances.BalanceLaw` | internal/api/fee_arrears.go:29-36 | owed on live bills less unallocated credit is charged less received, for every family, in every ledger whose keys are distinct, whose paid and drawn amounts are sums, and whose cancelled bills are unpaid: every valid one, and one with an over-discounted bill |
| `History.AlwaysValid` | cmd/loadregister/main.go:296-712 | through any sequence of withdrawals, register loads, term runs, application fees, bus fares, discount runs and desk work (saving, joining, leaving and paying an activity), refused ones included, the ledger is valid at every point if and only if each discount run finds room when its turn comes |
| `History.MoneyIsConserved` | cmd/raiseterm/main.go:324-353 | after any such sequence from any valid ledger, its last program even a discount run without room, the balance law holds for every family |
| `YearWork.WithdrawalUndoesTheYear` | cmd/loadregister/main.go:296-349 | whatever register loads, withdrawals, term runs, application fees, bus fares, discounts and club bills a year has seen, in any order and number, withdrawing it is accepted and gives back lines, receipts, allocations and carries exactly, and every bill but for a status read off again |
| `YearWork.DiscountGrows` | cmd/loadconcessions/main.go:179-213 | a discount run over a year touches no line and no bill of another year |
| `Strays.NeverStray` | cmd/raiseterm/main.go:324-353 | no sequence of programs leaves an adjustment that says it was carried forward and settles no recorded carry, unless one is typed at the counter |
| `Strays.LoadedTwiceIsOnceAlways` | cmd/loadregister/main.go:330-349 | in every ledger such a sequence reaches, loading a register twice is loading it once, row for row, under row ids moved up |
| `Waterfall.Charges` | cmd/loadregister/main.go:591-604 | the loop's net fee and charges are those of the waterfall, for any fees and any concession |
| `Waterfall.LeftClosed` | cmd/loadregister/main.go:591-604 | what is left after some terms is the net fee less their fees, never below nothing |
| `Waterfall.ChargeClosed` | cmd/loadregister/main.go:591-604 | each charge is clamp(net - earlier fees, 0, fee) |
| `Waterfall.ChargeWithinFee` | cmd/loadregister/main.go:597-604 | each charge lies between nothing and its term's fee |
| `Waterfall.WholeYear` | cmd/loadregister/main.go:577-604 | the charges come to max(0, total - concession) |
| `Waterfall.AllCharge` | cmd/loadappfee/main.go:161-182 | taking from a list in order what is asked takes min(asked, total) |
| `Waterfall.FromTheBack` | cmd/loadregister/main.go:577-590 | a term with any discount is followed only by terms charged nothing |
| `Waterfall.SmallConcession` | cmd/loadregister/main.go:585-590 | a concession no larger than the last term falls wholly on it |
| `Posting.RaiseBillKeeps` | cmd/loadregister/main.go:420-437 | raising a bill with one line keeps the ledger valid and leaves the bill as it was given |
| `Posting.RaiseBillCharges` | cmd/loadregister/main.go:420-437 | raising a bill charges its own family its net and nobody else |
| `Posting.PostReceiptKeeps` | cmd/loadregister/main.go:439-470 | posting a receipt keeps the ledger valid |
| `Posting.SurplusIsCredit` | cmd/loadregister/main.go:454-462 | the bill is left owing max(0, owed - amount) and the receipt holding max(0, amount - owed) as credit |
| `Posting.HandWrittenAgrees` | cmd/loadregister/main.go:463-469 | the allocated amount written by hand after the allocation is what the trigger has already written |
| `Posting.PostReceiptReceives` | cmd/loadregister/main.go:439-470 | a receipt changes its own family's account by exactly its amount |
| `Register.EntriesSound` | cmd/loadregister/main.go:606-617 | every line the register raises is discounted within its charge, whatever the fees and the concession |
| `Register.LoadKeeps` | cmd/loadregister/main.go:296-712 | a load that is accepted keeps the ledger valid |
| `Register.PostChildrenKeeps` | cmd/loadregister/main.go:476-712 | posting a whole register keeps the ledger valid and is work on the year alone |
| `Register.PostChildrenAccounts` | cmd/loadregister/main.go:619-711 | a register charges each family what its children's charges come to (ChildYear) and receives from it what their cells come to (ChildReceived) |
| `Register.ChildYear` | cmd/loadregister/main.go:577-683 | a child's bills come to max(0, fee - concession) and the extras in full |
| `RegisterPosts.ChildReceived` | cmd/loadregister/main.go:631-638 | what is received for a child is every positive amount in the cell of a term that is charged, and every positive amount against an extra that is charged; a date typed where the amount goes counts for nothing |
| `RegisterPosts.LoadPosts` | cmd/loadregister/main.go:619-711 | for every charge of every child there is a bill of its amount and discount, due in a fortnight, and against that bill and no other a receipt for the amount in its cell on the cell's day, or none when the cell pays nothing |
| `RegisterPosts.LoadNumbersFromOne` | cmd/loadregister/main.go:408-446 | every load numbers its bills, and its receipts, from 1 on in the order it writes them, after the rows the withdrawal has left |
| `Reload.LoadAgain` | cmd/loadregister/main.go:322-349 | a second load is the second register loaded alone, when the first withdrawal left no stray adjustment |
| `Reload.LoadTwice` | cmd/loadregister/main.go:322-349 | the same for every ledger whose forwarding adjustments all settle recorded carries |
| `Reload.LoadAgainDiffers` | cmd/loadregister/main.go:314-321 | where the first withdrawal leaves an adjustment that says it was carried forward and pays nothing, the second load deletes it: the ledgers differ |
| `Reload.LoadAgainExactly` | cmd/loadregister/main.go:314-349 | for any two registers accepted in turn, the second load is the second register loaded alone if and only if the ledger holds no adjustment that says it was carried forward, settles no carry into the year and pays only bills of the year |
| `Reload.HandWrittenDiffers` | cmd/loadregister/main.go:314-321 | a ledger with such an adjustment, its remark typed by hand: whatever registers follow, the second load is not the second register alone |
| `Reload.HandWrittenLost` | cmd/loadregister/main.go:314-321 | there the second of two empty registers deletes the receipt the first has kept |
| `Renumber.LoadedTwiceIsOnce` | cmd/loadregister/main.go:330-349 | loading a register twice gives the ledger of loading it once, row for row, under row ids moved up: nothing duplicated, no money counted twice |
| `Renumber.PostChildrenUp` | cmd/loadregister/main.go:408-712 | a load does not depend on the row ids it draws |
| `Withdrawal.WithdrawKeeps` | cmd/loadregister/main.go:296-349 | a withdrawal keeps the ledger valid |
| `Withdrawal.WithdrawRefused` | migrations/00281_invoice_carry_forwards.sql:17-33 | the withdrawal is refused exactly when a bill of the year has itself been carried onward |
| `Cases.FirstYearRefused` | migrations/00281_invoice_carry_forwards.sql:17-33 | a valid ledger whose first year, its bill carried onward, cannot be withdrawn |
| `Withdrawal.WithdrawLeaves` | cmd/loadregister/main.go:302-349 | exactly which bills, lines, receipts, allocations and carries a withdrawal leaves, in their order |
| `Withdrawal.WithdrawalMeans` | cmd/loadregister/main.go:302-349 | read off the rows: bills, lines and carries stay unless of the year, and an allocation stays unless its bill is of the year, its receipt is numbered RCT/2026-27/, or its receipt settled a carry into the year |
| `Withdrawal.EarlierBillsRestored` | cmd/loadregister/main.go:298-313 | every bill of another year is back to what was paid on it otherwise, and is otherwise as it was |
| `Withdrawal.YearIsGone` | cmd/loadregister/main.go:322-349 | no bill of the year, no receipt of the loader's series and no carry into the year is left; the other carries are |
| `Withdrawal.ReceiptsKept` | cmd/loadregister/main.go:314-348 | a receipt survives, with its amount, exactly when it is neither in the loader's series nor an adjustment stranded by an undone carry |
| `Withdrawal.WhichReceiptsGo` | cmd/loadregister/main.go:314-348 | read off the rows: the receipts that go are those numbered RCT/2026-27/ and the adjustments whose remark begins Carried forward to INV/ that settle a carry into the year or pay nothing |
| `Withdrawal.AdjustmentUndone` | cmd/loadregister/main.go:314-321 | the adjustment of an undone carry goes with it exactly when the new bill's number begins INV/; otherwise it stays as credit for the whole amount |
| `Cases.AdjustmentLeftBehind` | cmd/loadregister/main.go:314-321 | a valid ledger in which, under another prefix, the adjustment stays and the family holds 60 as credit |
| `Undo.WithdrawalUndoes` | cmd/loadregister/main.go:296-349 | after any work on a year alone its withdrawal is accepted and gives the ledger back |
| `Arrears.CarryConserves` | cmd/raiseterm/main.go:290-355 | every selected old bill ends with balance nothing, the new bill gains exactly the total moved, no other bill changes, and nothing is left to carry |
| `Arrears.CarryArrearsMeans` | cmd/raiseterm/main.go:297-355 | read off the rows: every bill of the child of an earlier year that is neither draft, paid nor cancelled, still owes and was never carried ends with balance nothing and a record of its whole balance carried onto the bill; every other bill is as it was; the amount moved is the sum of those balances |
| `Arrears.EarliestDueFirst` | cmd/raiseterm/main.go:308 | the bills are taken in the order they fell due, or were issued where no day is set |
| `Arrears.CarryAgain` | cmd/raiseterm/main.go:297-309 | a second carry moves nothing |
| `Arrears.ArrearsMayCarry` | cmd/raiseterm/main.go:297-323 | the selection is of bills that may be carried, each once, onto a bill of a later year of the same child |
| `Arrears.ArrearsRows` | cmd/raiseterm/main.go:297-309 | the list holds exactly the rows the WHERE clause selects, which ArrearsAreOwed reads off the columns one by one |
| `Arrears.ArrearsAreOwed` | cmd/raiseterm/main.go:297-309 | the list is the child's bills of earlier years, neither draft, paid nor cancelled, that owe and were never carried, and it comes to the sum of their balances |
| `Arrears.AllocateKeepsSettled` | migrations/00281_invoice_carry_forwards.sql:28-33 | a bill that was carried stays with balance nothing whatever is allocated later |
| `CarriedBills.CarriedOweNothing` | cmd/raiseterm/main.go:297-309 | over any number of years of billing, settling, discounting with room, joining, leaving and paying, a bill that was ever carried owes nothing: a debt is open in one place only |
| `CarriedBills.SettledAfterWithdrawal` | cmd/loadregister/main.go:302-349 | after a withdrawal carried bills owe nothing if and only if no receipt of the loader's series had paid on one |
| `Cases.CarriedOwesAgain` | cmd/loadregister/main.go:302-349 | a valid ledger, a debt carried from a first year to a third, in which withdrawing the second leaves the carried bill owing again |
| `TermRun.DiscountIs` | cmd/raiseterm/main.go:190-212 | the discount on a line is the largest stated amount, capped at the charge; a percentage counts only when no amount is stated |
| `BillingChild.BillChildKeeps` | cmd/raiseterm/main.go:168-247 | billing a child keeps the ledger valid |
| `BillingChild.BillStands` | cmd/raiseterm/main.go:188-229 | a bill that comes to any line stands, with the child's own lines and its arrears, its header their sums |
| `BillingChild.EmptyBillWithdrawn` | cmd/raiseterm/main.go:231-247 | a bill that comes to no line is withdrawn and only its number is spent |
| `BillingRun.RunBillsEveryone` | cmd/raiseterm/main.go:114-260 | a run keeps the ledger valid and carried bills settled, and leaves every child a structure prices billed for the instalment or with nothing to bill |
| `TermBills.RunRaises` | cmd/raiseterm/main.go:114-229 | read off the rows: every bill a run raises is for a child enrolled in the year without a live bill for the instalment, and has in order one line for each item of a structure for its class that is of the instalment and whose head is not optional or was opted for, each of the item's charge less the largest approved amount, or else the largest approved share to the nearest paisa; then a line for each balance carried; and no other |
| `TermBills.RunMissesNobody` | cmd/raiseterm/main.go:121-157 | afterwards every active child of a class that a structure prices for the instalment has a live bill for it, or nothing due and nothing owed from before |
| `TermBills.RunAccepted` | cmd/raiseterm/main.go:107-109 | while the numbers of the series are behind the counter a run is accepted if and only if there are thirteen structures, and leaves them behind it |
| `BillingRun.OneBillEach` | cmd/raiseterm/main.go:142-157 | no child has two live bills for the instalment |
| `BillingRun.RunAgain` | cmd/raiseterm/main.go:142-247 | a second run changes no bill, line, receipt, allocation or carry; it only draws numbers |
| `BillingAccounts.BillChildAccounts` | cmd/raiseterm/main.go:168-247 | billing a child raises its family's true balance by its own charges only: carrying arrears changes nobody's |
| `BillingAccounts.RunThenWithdraw` | cmd/loadregister/main.go:296-349 | withdrawing the year after a billing run undoes the run, arrears and all |
| `AppFee.CreditsAre` | cmd/loadappfee/main.go:138-159 | the credits are exactly the family's receipts with something left, oldest first, each once |
| `AppFee.SettlesExactly` | cmd/loadappfee/main.go:161-182 | settling pays min(owed, credit) on the bill and takes exactly that off the credit; no other bill moves |
| `AppFee.OldestFirst` | cmd/loadappfee/main.go:133-182 | a receipt is drawn on only when every older one is exhausted |
| `AppFee.SettleToMoves` | cmd/loadappfee/main.go:161-182 | settling changes no family's account |
| `AppFeeRun.ChargeFeeOwes` | cmd/loadappfee/main.go:109-187 | a new fee bill is left owing max(0, fee - credit) |
| `AppFeeRun.RunFeesDoes` | cmd/loadappfee/main.go:71-187 | everybody admitted is billed afterwards, and each family's account rises by the fee of its children not billed before |
| `FeeBills.FeesRaise` | cmd/loadappfee/main.go:71-128 | read off the rows: every bill there was is as it was, a bill of a thousand rupees on one line is raised only for an admitted child without one, and no admitted child is left without |
| `AppFeeRun.RunFeesAgain` | cmd/loadappfee/main.go:81-86 | a second run over the same children changes nothing |
| `AppFeeRun.OneRunOnly` | cmd/loadappfee/main.go:105-128 | after a run that billed anybody, a run over any list is accepted exactly when it finds nobody new: the counter starts at 1 again and numbers are unique |
| `Transport.PostNotesDo` | cmd/loadtransport/main.go:342-399 | after a child's notes each instalment is down by its own notes' money, never below nothing |
| `TransportRun.RiderBilled` | cmd/loadtransport/main.go:307-399 | a child on the bus has both instalments of its slab raised, each down by its own notes |
| `TransportRun.RiderOwes` | cmd/loadtransport/main.go:312-399 | a child not billed for the bus is billed 8,000 and 7,000 rupees, or 15,000 and 10,000 when a first-term note is above 8,000, each down by the notes of its own term |
| `TransportRun.RiderBills` | cmd/loadtransport/main.go:317-345 | that child's two bills, instalments 30 and 31, take the next two numbers of the bus series, are due in a fortnight, and hold one line each under the head for the whole instalment |
| `Transport.NotesHaveReceipts` | cmd/loadtransport/main.go:350-399 | every note that names an amount has a receipt of its own for it, on its day, paying nothing but the instalment it was for |
| `TransportRun.RowOfIs` | cmd/loadtransport/main.go:277-293 | the row that counts for a child is the first that names it with a note |
| `TransportRun.RidersAccount` | cmd/loadtransport/main.go:277-400 | however many rows name a child it is charged one slab, the first row's, and credited with what that row says was paid |
| `TransportRun.RunTransportDoes` | cmd/loadtransport/main.go:185-400 | a run keeps the ledger valid, bills exactly the children a row puts on the bus, and moves each family's account by fare less payment |
| `TransportRun.RunTransportAgain` | cmd/loadtransport/main.go:284-293 | running the same register again changes nothing |
| `TransportRun.LaterRiderRefused` | cmd/loadtransport/main.go:199-336 | once number 1 of the series exists, a run is refused exactly when it finds a child to put on the bus |
| `AnnualDiscount.GiveAllCame` | cmd/loadconcessions/main.go:154-203 | every line of an open bill of a newly granted child is discounted by min(charge, annual / terms), every other line is as it was, and each child is granted once |
| `AnnualDiscount.LinesComeTo` | cmd/loadconcessions/main.go:154-203 | read off the rows: a line loses the child's first annual amount divided by the terms, or its whole charge when that is less, exactly when its bill is of the year, neither cancelled nor paid off, the line is on the head and not discounted yet, and the child is on the sheet and had no concession on the head |
| `AnnualDiscount.TermsAre` | cmd/loadconcessions/main.go:90-104 | the terms are the last in which any structure bills the head, or one when none does |
| `AnnualDiscount.ConcessionsWritten` | cmd/loadconcessions/main.go:154-178 | the concessions gain, for each child on the sheet that had none on the head, the one its first row writes, and nothing else |
| `AnnualDiscount.RunDiscountsKeeps` | cmd/loadconcessions/main.go:179-213 | the run keeps the ledger valid if and only if no part-paid bill is discounted by more than it still owes |
| `AnnualDiscount.RunDiscountsReckoned` | cmd/loadconcessions/main.go:179-213 | with or without room the run moves no receipt, allocation or carry, and money can still be counted |
| `Cases.OverDiscounted` | cmd/loadconcessions/main.go:179-213 | a valid ledger whose part-paid bill the run leaves 60 below what was paid |
| `AnnualDiscount.HeadersFollow` | cmd/loadconcessions/main.go:205-213 | each bill's discount rises by what its re-lined lines came to; charge, payments and status stay |
| `AnnualDiscount.OffWithinNet` | cmd/loadconcessions/main.go:179-195 | a bill is never discounted beyond its net, so one with nothing paid on it always has room |
| `AnnualDiscount.RunDiscountsAgain` | cmd/loadconcessions/main.go:154-164 | a second run of the same sheet applies nothing |
| `AnnualDiscount.YearFallsShort` | cmd/loadconcessions/main.go:12-18 | as written, the year falls short of the promise by exactly annual mod terms, less than a paisa a term |
| `AnnualDiscount.IntendedAddsBack` | cmd/loadconcessions/main.go:16-18 | with the remainder on the first term, as the comment says, the year adds back exactly |
| `LedgerDesk.Ledger.Raise` | cmd/loadregister/main.go:420-437 | raises the bill and its line, or refuses and changes nothing |
| `LedgerDesk.Ledger.Pay` | cmd/loadregister/main.go:439-470 | posts the receipt and allocates what the bill still owes, or refuses and changes nothing |
| `LedgerDesk.Ledger.WithdrawYear` | cmd/loadregister/main.go:296-349 | the withdrawal as specified, or nothing; the ledger stays valid |
| `LedgerDesk.Ledger.EnterTerms` | cmd/loadregister/main.go:591-664 | the terms' bills and receipts with the running remainder of the net fee |
| `LedgerDesk.Ledger.LoadRegister` | cmd/loadregister/main.go:296-712 | the load as specified, or nothing; the ledger stays valid |
| `LedgerDesk.Ledger.BringArrears` | cmd/raiseterm/main.go:290-355 | the carry as specified, returning exactly what was moved |
| `LedgerDesk.Ledger.BillForTerm` | cmd/raiseterm/main.go:168-247 | one child's bill as specified: numbered, lined, brought forward, totalled, or withdrawn |
| `LedgerDesk.Ledger.RaiseTerm` | cmd/raiseterm/main.go:100-260 | the billing run as specified, or nothing; the ledger stays valid |
| `LedgerDesk.Ledger.SettleFromCredit` | cmd/loadappfee/main.go:131-187 | settles as specified and returns max(0, asked - credit) |
| `LedgerDesk.Ledger.ChargeApplicationFees` | cmd/loadappfee/main.go:71-187 | the fee run as specified, or nothing; the ledger stays valid |
| `LedgerDesk.Ledger.PutOnBus` | cmd/loadtransport/main.go:277-399 | one row of the bus register as specified |
| `LedgerDesk.Ledger.LoadTransport` | cmd/loadtransport/main.go:185-400 | the fare run as specified, or nothing; the ledger stays valid |
| `LedgerDesk.Ledger.LoadConcessions` | cmd/loadconcessions/main.go:118-213 | the discount run as specified, or nothing; the ledger stays valid exactly when no part-paid bill is over-discounted |
| `ActivityRuns.RunKeeps` | internal/api/activities.go:99-425 | over any run of saving, enrolling, leaving and paying a place keeps child, activity, bill and fee; its bill's gross is that fee and is cancelled exactly when the child left with nothing paid; no bill loses money. Its charged places are the intention, with a head on the line |
| `ActivityRuns.FeeStaysFrozen` | internal/api/activities.go:141-153 | the fee on a place is what the activity cost on the day of joining, whatever follows; with a head on the line where there is something to charge |
| `ActivityRuns.EnrolCharges` | internal/api/activities.go:224-298 | joining, with a head on the line where there is something to charge, charges that day's fee, or nothing when waived, only into a running activity with room, and takes one place |
| `ActivityRuns.LeavingCancels` | internal/api/activities.go:388-419 | leaving cancels the place's bill, where it has one, if and only if nothing was paid on it; that place and no other is given up; no other bill, receipt or allocation moves |
| `ActivityRuns.LeavingAccepted` | internal/api/activities.go:368-390 | a place is given up exactly when it is the child's, still held, and the child may be edited |
| `ActivityRuns.SavingAccepted` | internal/api/activities.go:99-140 | saving is refused exactly for a fee below nothing or above a lakh, a capacity below nothing, or an activity that is not there |
| `ActivityRuns.SavingMeans` | internal/api/activities.go:128-165 | a saved activity costs the amount to the nearest paisa, and every other is as it was |
| `ActivityRuns.JoiningBills` | internal/api/activities.go:248-284 | with a head on the line, joining raises one bill for the fee of the day, due in a fortnight, under the next number |
| `ActivityRuns.JoiningAsWritten` | internal/api/activities.go:208-298 | as written, with no head on the line, joining is accepted if and only if the child may be edited, the activity's row is there and running, fewer places are held than its capacity, the child holds none, and it is waived or free |
| `ActivityRuns.FirstChargedJoinRefused` | internal/api/activities.go:271-276 | as written the first child to join an activity that costs anything is refused; with a head on the line it is let in |
| `ActivityRuns.NobodyCharged` | internal/api/activities.go:248-284 | as written no run ever charges anybody for an activity |
| `ActivityRuns.JoiningAsIntended` | internal/api/activities.go:208-298 | with a head on the line joining is accepted whether or not there is something to charge, unless the bill number is taken |
| `ClubDesk.Clubs.SaveActivity` | internal/api/activities.go:99-165 | saves or refuses as specified; the books and the places are untouched |
| `ClubDesk.Clubs.EnrolInActivity` | internal/api/activities.go:188-298 | enrols or refuses as specified, with or without a head on the line: without one a charged join is refused; what was frozen stays |
| `ClubDesk.Clubs.LeaveActivity` | internal/api/activities.go:368-425 | leaves or refuses as specified; what was frozen stays |
| `Capacity.NeverOverfull` | internal/api/activities.go:228-243 | with the count taken while the row is held, any number of clerks in any interleaving keeps within the capacity |
| `Capacity.NobodyLetInWhenFull` | internal/api/activities.go:239-243 | once the capacity is reached no clerk's enrolment commits, whoever was already waiting |
| `Capacity.CrowdLetIn` | internal/api/activities.go:228-234 | as the statement is written, any number of clerks who ask while one place is left are all let in |
| `Capacity.OneAtATimeIsSafe` | internal/api/activities.go:228-243 | as written it keeps to the capacity when nobody asks while another clerk is being served |
| `Capacity.OverfilledWhenStale` | internal/api/activities.go:241-243 | as written a decision overfills if and only if the clerk saw room and there is none left |
| `Acting.SchoolUsersStayWithinTheirGrants` | internal/api/acting.go:157-239 | a school user stays as it is, or stands in a school that is not suspended where it holds a role, and can do exactly what a role it holds there carries or what it was given there; it never becomes platform staff |
| `Acting.WhoGetsIn` | internal/api/acting.go:50-92 | the exact condition, over the rows, under which each kind of caller ends up in the school it names |
| `Acting.WhoIsTurnedAway` | internal/api/acting.go:83-240 | the exact condition, over the rows, for each answer; one turned away stays where it stood, and whoever is let in keeps its identity, a platform user also its permissions |
| `Acting.OutsidersLearnNothing` | internal/api/acting.go:170-211 | one who holds no role in a school gets the same answer whether or not it exists or is suspended |
| `Acting.OtherSchoolsDoNotCount` | internal/api/acting.go:183-217 | two installations that agree on the user's roles and grants at the school, on what those roles carry and on whether it is suspended give the same verdict, whatever the user holds elsewhere |
| `Acting.GrantsAre` | internal/api/acting.go:193-217 | what a school grants is what the roles held there carry and what is given there by name, and nothing of any other school |
| `Acting.ActAsBoardMember` | internal/api/acting.go:157-239 | decides as specified, writes only the identity, and gives it new permissions, never writing into the old |
| `Acting.ActingInstitution` | internal/api/acting.go:50-155 | decides as specified for every caller and header, writing nothing but the request's own identity |
| `Acting.OnlyMySchools` | internal/api/acting.go:248-303 | the switcher lists exactly the schools of the caller's roles and the one its identity names, which alone is flagged as home |
| `Acting.HomeComesFirst` | internal/api/acting.go:262-303 | the school named comes first and the others follow by name |
| `Acting.Server.Load` | internal/auth/session.go:259-276 | a loaded session is cached with what was read; everything else stands |
| `Acting.Server.Begin` | internal/auth/session.go:301-311 | a request begins on a copy that stands at home with home's permissions |
| `Acting.Server.Serve` | internal/api/acting.go:50-92 | one request is answered as specified; no other request changes and the cached permissions are what they were |
| `Acting.Server.HomeSeesHome` | internal/api/acting.go:229-238 | in every reachable state a request that stands at home sees exactly what was loaded for home |
| `Acting.Server.SchoolUsersStandRightly` | internal/api/acting.go:157-239 | in every reachable state a school user's request has not become platform staff, and stands at home with what was loaded for home or in a school that was not suspended when it passed, where its user held a role, with exactly what that school's rows gave it |
| `Outbox.AtMostOnce` | desktop/src/bridge.js:69-97 | in every interleaving, receipts purged once their rows are done with included, each key takes effect on the server at most once |
| `Outbox.OneOrderlyFlush` | desktop/src/bridge.js:69-97 | in every interleaving at most one flush runs, and the rows it dropped are the first it read, in order, each answered below 500 |
| `OutboxRuns.EachFlushEnds` | desktop/src/bridge.js:75-93 | a flush that read n rows takes at most 2n + 1 steps of its own, whatever the page, the server and the timer do meanwhile |
| `OutboxRuns.NeverStuck` | desktop/src/bridge.js:75-96 | between two requests a flush can always send or finish; otherwise it waits for nothing but the answer to the row in front |
| `OutboxRuns.WhatTheFileLoses` | desktop/src/bridge.js:89-92 | an answer takes only the answered row out of the file if and only if the file is still what the flush holds |
| `OutboxRuns.NothingIsLost` | desktop/src/bridge.js:69-97 | rows the page put aside while no flush ran stay in the file over any run until the page writes again, unless a flush was answered below 500 for them |
| `OutboxRuns.WhoWritesTheFile` | desktop/src/bridge.js:87-88 | a flush that ends, hears nothing or is answered 500 or more leaves the file as it was |
| `OutboxRuns.AskedAgain` | internal/api/idempotency.go:123-165 | a row with a settled answer is answered the same again and nothing is done for it; another request under its key is refused |
| `OutboxRuns.RewriteLost` | desktop/src/bridge.js:204-211 | a write the page put aside while the flush waited can be gone from the file once the answer comes |
| `OutboxRuns.DroppedUnsettled` | internal/api/idempotency.go:167-176 | a row answered as still being processed is dropped though that attempt may come to nothing |
| `OutboxRuns.SettledForGood` | internal/api/idempotency.go:178-221 | every settled answer has its receipt under its key, for as long as the key may be asked for |
| `OutboxRuns.FailedButDone` | internal/api/idempotency.go:206-213 | a handler that takes effect and answers 500 or more lets a retry take effect again |
| `OutboxRuns.DoneNotRecorded` | internal/api/idempotency.go:194-221 | so does one whose last word is not recorded, once its claim is swept |
| `OutboxRuns.PurgedTooSoon` | worker/src/services/background/housekeeping.ts:21-26 | so does a receipt purged while its row may still come |
| `OutboxRuns.SweptAtWork` | internal/api/idempotency.go:109-121 | so does a claim swept while the first attempt is at work |
| `OutboxRuns.PurgedInTime` | worker/src/services/background/housekeeping.ts:21-26 | a run the server can count on that deletes the receipt of a write that took effect |
| `Bridge.Shell.Tick` | desktop/src/bridge.js:213-219 | nothing while the window shows or a flush runs; otherwise a flush begins on the file as it is; the file stays |
| `Bridge.Shell.OutboxChanged` | desktop/src/bridge.js:204-211 | the page's rows replace the file |
| `Bridge.Shell.Loop` | desktop/src/bridge.js:75-86 | sends the row in front or ends the flush; the file stays |
| `Bridge.Shell.Answered` | desktop/src/bridge.js:88-92 | 500 or more ends the flush and leaves the file; anything else drops the row and writes what is left |
| `Bridge.Shell.Failed` | desktop/src/bridge.js:87-96 | no answer ends the flush and leaves the file |
| `JsonText.Literal` | scripts/gen_catalog.py:358-385 | finds the span from the first declaration to the bracket that closes it, or says there is none |
| `JsonText.ExtentMeans` | scripts/gen_catalog.py:358-385 | the scanner takes the text up to the first closing bracket outside strings by which as many have closed as opened, and nothing when there is none |
| `JsonText.ScanUndoesPrint` | scripts/gen_catalog.py:358-385 | before any text at all the scanner takes exactly the printed array or object, whatever quotes, backslashes or brackets its strings hold |
| `JsonText.QuotePasses` | scripts/gen_catalog.py:367-375 | a printed string opens and closes nothing, whatever it holds |
| `JsonReader.ReadUndoesPrint` | scripts/gen_catalog.py:440-448 | any value, however deep, is read back as it was printed |
| `JsonReader.ParseUndoesPrint` | scripts/gen_catalog.py:445-448 | an array of strings is read back as it was printed, surrogate pairs included |
| `WorkerFile.WriteWorker` | scripts/gen_catalog.py:438-450 | writes the file as specified, or stops exactly when it cannot be written |
| `WorkerFile.OutsideUnchanged` | scripts/gen_catalog.py:403-406 | text outside the two literals is unchanged, and the list becomes the features still live in their order |
| `WorkerFile.FindsTheList` | scripts/gen_catalog.py:443-444 | the run rewrites the file's own list if and only if the new catalogue nowhere spells the list's declaration |
| `WorkerFile.ListHidden` | scripts/gen_catalog.py:443-444 | a file and a catalogue with which the run loses the list |
| `WorkerFile.WrittenOnce` | scripts/gen_catalog.py:438-450 | what is written is determined by the file and the catalogue |
| `WorkerFile.Narrowed` | scripts/gen_catalog.py:407-410 | what is kept is exactly the implemented features still in the catalogue |
| `WorkerFile.SecondRunIsNoChange` | scripts/gen_catalog.py:438-450 | a second run writes what is already there |
| `CatalogBuild.ReadSheet` | scripts/gen_catalog.py:204-253 | the sheet is accepted exactly when every role and scope is known and no two rows share a role, a section and a feature; each row is then read with its own role, section, name and scope |
| `CatalogBuild.EveryRowOnce` | scripts/gen_catalog.py:236-262 | every row is one feature, whatever order the roles take |
| `CatalogBuild.SheetOrderKept` | scripts/gen_catalog.py:236-262 | within a role and section the features keep the order of the sheet |
| `CatalogBuild.CatalogInOrder` | scripts/gen_catalog.py:236-259 | the roles of the switcher come first in its order, the others after them as they first appear in the sheet, and the sections of a role stand as they first appear there |
| `RoleMerge.MergeRoles` | scripts/merge_roles.py:105-137 | merges as specified, or stops exactly when a row is to be folded into a role with no rows of its own |
| `RoleMerge.NothingLost` | scripts/merge_roles.py:105-137 | merged, covered and front-door counts make up the incoming rows; every other row's old key maps to a key of the output for the same feature; keys stay unique |
| `RoleMerge.KeysSent` | scripts/merge_roles.py:105-137 | a removed key is sent to the first row there is for its feature under the role it is folded into, and no other key is sent anywhere |
| `RoleMerge.FoldedAsPlanned` | scripts/merge_roles.py:105-137 | every row added is an incoming row under its target role, in the workspace it is forced into or its own, with its section and feature; and exactly the front doors of forced roles are dropped as such |
| `Registry.RewireRegistry` | scripts/consolidate_groups.py:123-139 | the pass over the registry as specified, every line accounted for |
| `Registry.RegistryComesTo` | scripts/dedupe_catalog.py:184-204 | each key is wired once again, and the keys wired are those that stay and the images nothing wired before |
| `Registry.LinesComeFrom` | scripts/consolidate_groups.py:123-139 | every line kept is a line there was, its text untouched, and a line whose key is not handled is kept |
| `Registry.SetFormWhenNoChain` | scripts/consolidate_groups.py:123-139 | the result is (old keys - moved) with the images, each once, if and only if no key is sent to one that is itself sent away |
| `Registry.ChainLosesAScreen` | scripts/consolidate_groups.py:129-134 | two keys in a chain: one screen is lost |
| `Registry.NoneLeft` | scripts/merge_roles.py:156-173 | no removed role's key is left, and the set form holds |
| `Registry.RekeyedApart` | scripts/split_categories.py:272-281 | after a split each key is wired once if and only if no two wired keys go to the same place |
| `CrossFile.ConsolidatedNamed` | scripts/consolidate_groups.py:81-143 | if every wired key names a row of the sheet, then after a consolidation every wired key names a row written |
| `CrossFile.SplitNamed` | scripts/split_categories.py:223-285 | the same after a split |
| `CrossFile.DeduplicatedNamed` | scripts/dedupe_catalog.py:150-204 | the same after a deduplication whose survivors are not themselves redundant and whose redundant names have one key each |
| `CrossFile.MergedNamed` | scripts/merge_roles.py:105-173 | the same after a role merge |
| `SheetPasses.Consolidate` | scripts/consolidate_groups.py:81-104 | keys are distinct afterwards, every row's key where it was folded is there, and each moved key is sent to the key of what the last row that had it became: the same feature of the same role |
| `SheetPasses.FirstIsKept` | scripts/consolidate_groups.py:81-104 | of the folded rows with one key the first is kept, as it was folded |
| `SheetPasses.CollisionsLoseNoKey` | scripts/consolidate_groups.py:96-104 | dropping collisions leaves every key, once |
| `SheetPasses.SplitSections` | scripts/split_categories.py:223-251 | every feature of the workspaces split stands under its category and each moved key is sent to its own row's new key, or nothing is written, exactly when a workspace is not there or a feature has no category |
| `SheetPasses.UnderItsCategory` | scripts/split_categories.py:223-251 | the last row for a feature of a workspace to be split stands under the feature's category, and every other row is as it was |
| `SheetPasses.Deduplicate` | scripts/dedupe_catalog.py:150-178 | the kept rows and rewrites as specified, or stops exactly when a row or survivor is missing |
| `SheetPasses.SentToKept` | scripts/dedupe_catalog.py:157-178 | every removed key is sent to a kept one if and only if no survivor is itself redundant |
| `SheetPasses.RemovedSurvivor` | scripts/dedupe_catalog.py:157-178 | a sheet in which a removed key is sent to a removed one |
| `Regroup.Emit` | scripts/consolidate_groups.py:107-116 | the nested dictionaries emit the grouping as specified |
| `Regroup.RegroupingSettles` | scripts/consolidate_groups.py:107-116 | regrouping is a permutation, and regrouping twice is regrouping once |
| `Regroup.RegroupingGathers` | scripts/split_categories.py:256-265 | rows of one role, workspace and section stand together |
| `Regroup.RegroupingKeepsOrder` | scripts/merge_roles.py:139-150 | within a role, workspace and section the rows keep their order |
| `Regroup.RegroupingInOrder` | scripts/consolidate_groups.py:107-116 | roles stand in the order they first appear in the sheet, in each role its workspaces do, and in each workspace its sections |

## Left out

- The transport header says every child is billed the near slab; the code reads the slab off the first payment, and the model follows the code.
- The remark on a register's receipt says that it comes from the register; the term, the label and the cell's own words that follow are not modelled.
- Bill and receipt numbers are a series and a serial; two numbers are equal when both are, and how a serial is padded with zeros is not modelled.
- `YearWork.WithdrawalUndoesTheYear`: leaving an activity and paying at the desk are not work of the year alone and are outside it; places joined and concessions granted are not part of the ledger given back.
- A receipt taken at the desk is posted against one bill; the counter's spreading of one receipt over all of a family's bills is not part of the model.
- Row ids are drawn in order from one counter rather than at random; `Renumber` proves a load does not depend on them.
- Among old bills due on the same day, and receipts of the same day, the order is that of the table, not of the number or the time of entry.
- Pending, failed, bounced and refunded receipts: every receipt in the model counts, as every receipt these programs write does.
- Names, phone numbers, dates and amounts read out of spreadsheets, the fee structures rewritten from the register, the rows recording a concession after a load, and the opt-in rows the bus fare writes: the model starts from resolved rows and does not change what a billing run reads.
- Notifications to families, names, categories, schedules and venues of activities, and the refusal of a name already used.
- `listMyInstitutions` is modelled by what it lists and flags; the collation of names is a given order.
- A request is told from others by its identity object; HTTP, cookies, idle timeouts and the reauthentication clock are not part of the model.
- `Outbox.AtMostOnce`: is about requests the middleware protects; a request without a key or with one over 200 characters, a read, a body that is not JSON, and a caller without an institution pass through unprotected (internal/api/idempotency.go:48-85).
- The worker's own copy of the idempotency middleware, which mirrors the one modelled, and answers to a key used by another sign-in.
- In the outbox a server killed in the middle of a write leaves no effect: the handler's transaction is rolled back.
- `JsonReader.ReadUndoesPrint`: reads JSON as `json.dumps` prints them without spaces; other spacing that `json.loads` accepts is not read.
- Floating-point numbers in JSON, which the catalogue does not hold, and lone surrogates, which a Dafny string cannot hold.
- `slug`, `go_str`, `ts_str` and the Go and TypeScript writers: rows enter the model with the names they have in keys.
- `SheetPasses.SplitSections`: each feature of a workspace is given one category; a feature listed under two, and rows that share a key, are not told apart by the order of the plan.
- A registry line is its key and the rest; `replace` on a line that names its key twice is not distinguished.
- One-off repair programs, printed reports, demo data and reference-table screens, which would only add easy members.
