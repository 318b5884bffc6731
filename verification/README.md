# Verification of the workshop back office

A Dafny model of a multi-tenant repair-shop system (stock, point of sale, returns, quotations,
purchases, cash registers, invoices, tickets) with proofs of what its server actions keep over every
run. `dafny verify dfyconfig.toml` checks the whole project.

## What is modelled

**The commerce ledger** (`Ledger`, `Inventory`, `Sums`). The rows that the sale, return, quotation,
purchase, ticket-part and cash-register actions touch form one state, `Ledger.Db`; each of the 26
actions is one atomic step that either yields the new rows or fails with the error of the branch that
stopped it and leaves every row alone. Database triggers are part of the steps: the decrement per
sale item, the restore on voiding, the refusal of negative stock on insert, the running balance of a
register, and the two triggers on ticket parts. `Database.Tables` is the same state as a class with
the actions that loop over rows; each is proved to do exactly its step. Actions that write a single
row are steps of `Ledger` only.

- `LedgerStock`: conservation of stock over every run.
- `LedgerGuards`: when a sale goes through, and which actions keep stock at or above zero.
- `LedgerReturns`: returned quantities, the return screen, and the refund status of a sale.
- `LedgerCash`: register balances and the cash booked for each sale.
- `LedgerQuotations`: the life of a quotation and of the sale made from it.
- `LedgerEffects`, `LedgerMovements`: exactly when an action is accepted and exactly which rows, stock
  and cash it leaves, in terms of its inputs: amounts as sums over the cart, stock by quantities, cash
  by signed movements; and which actions undo which.
- `LedgerWitnesses`: concrete runs that reach the states in which a promise fails.

**Around the ledger.** `Reservations` (conditional stock updates in any interleaving), `Templates`
(template parts, the stock pre-check, tickets created from a template), `Invoices` (settlement, together with the registers that cash payments are entered in),
`DocNumbers` (printing, parsing and continuing document numbers).

**Time windows.** `RateLimit` (the in-memory limiter), `Lockout` (failed logins), `Alerts` (expiry
alerts of quotations). Clock readings are parameters, in milliseconds, and never go backwards within
a run. `RateLimiter`, `Account` and `Reservations.Inventory` carry the run so far as ghost state, and
their methods promise the bound for it.

**Isolation and small cores.** `Tenancy` (the tenant wrapper over a filter language with AND, OR and
NOT), `Passwords` (Fisher-Yates and the policy), `Tickets` (transitions and permissions),
`VirtualWindow` (the visible slice of a list).

Money is exact (`real`). Ids are positions in a table; a deleted row leaves a `None`, so an id is
never reused. A failed step reports one `Error`; message texts are not modelled. The answer to "find an
open register" is a parameter that must name some open register, or none when none is open.

## Where the code and its promises differ

- The cancel branch of the ticket actions (`src/app/api/tickets/[id]/actions/route.ts:401-452`) gives
  back the quantity of every ticket part, approved or not, and keeps the rows; reopening and
  cancelling again gives it back again. `LedgerStock.StockConserved` states for every run that stock is
  conserved exactly when each such cancellation met a ticket without the part, and how much it is off
  otherwise; `LedgerWitnesses.CancellingCreatesStock` is a run that creates stock. Cancelling as a
  status update deletes the rows and is balanced.
- Two triggers on ticket parts survive all migrations: the unconditional one of
  `20260115202800_add_database_triggers` and the approval-aware one of
  `20260808120000_add_part_approval`. The comments at `service-template-actions.ts:648-652` and in
  `AddPartToTicketUseCase.ts:43-44`, and `scripts/verify-inventory-triggers.ts`, each describe one
  decrement. The model has both as switches; `LedgerStock.TicketPartsCountedOnce` states exactly when
  the stock still agrees with counting each ticket part once, and
  `LedgerWitnesses.ApprovedPartTakenTwice` is a run in which it does not.
- A return that names one part twice is checked line by line against the same availability
  (`LedgerWitnesses.RepeatedPartReturnsTooMuch`); `LedgerReturns.CreateNoteWithin` gives the exact
  condition under which an accepted return keeps the bound, `LedgerReturns.RunWithinExactly` the one
  for every run.
- Cancelling a credit note takes the goods out again without a check
  (`LedgerGuards.CancelNoteNonNegative`, `LedgerWitnesses.CancelledNoteGoesNegative`) and forgets that
  a sale was fully refunded (`LedgerReturns.CancelForgetsFullRefund`,
  `LedgerWitnesses.FullRefundForgotten`); `LedgerReturns.FullyRefundedExactly` says when a sale is
  marked so.
- A quotation's tax rate has no lower bound, so a note total can be negative and the refund status
  wrong (`LedgerWitnesses.NegativeRateDisagrees`); `LedgerReturns.RunAgreesExactly` gives the exact
  condition for every sale, rate and run.
- Converting a quotation books no cash, voiding the sale later does (`LedgerCash.CashOfSale`). A
  quotation can be set to CONVERTED by hand and then never gets a sale
  (`LedgerQuotations.ConvertedByHand`).
- The documented rate of `max` per minute is a fixed window: a closed minute can hold `2 max - 1`
  allowed requests and no more (`RateLimit.RateBound`, `RateLimit.RateBoundReached`).
- Taking the greatest text of a series and adding one stops at 100000 documents
  (`DocNumbers.CollidesExactly`).
- A caller's own top-level `tenantId` condition is overwritten by the wrapper
  (`Tenancy.ExcludedTenantIgnored`, `Tenancy.ExclusionReturnsRows`). An update or delete whose unique
  key is `tenantId` itself, as the settings have it, is looked up with the actor's tenant and then run
  with the caller's: naming another tenant changes that tenant's row (`Tenancy.ForeignUpdate`,
  `Tenancy.ForeignDelete`). `Tenancy.KeyedRefines` states exactly when such an operation is isolated.
- The transition table of tickets is not consulted by the ticket actions, which set the status they
  name from any status.
- START is permitted to three roles but is no transition, and APPROVE and REJECT are transitions
  that no role is permitted (`Tickets.DeadEntries`).

## Model

| member | source | states |
|---|---|---|
| LedgerStock.StockConserved | src/lib/credit-note-actions.ts:251-257 | in every run, each part's stock is opening stock, plus received orders, minus ticket parts, minus sales not voided, plus notes not cancelled, plus what ticket cancellations by action added; without the last term if and only if each of those met a ticket without the part |
| LedgerStock.StepBalance | src/lib/credit-note-actions.ts:459-476 | every action changes stock together with the rows that explain it, part by part, except for what a ticket cancellation by action adds |
| LedgerStock.CancelByActionBalance | src/app/api/tickets/[id]/actions/route.ts:401-452 | cancelling a ticket by action adds the quantity of all its ticket parts to the balance, and keeps the balance of a part if and only if the ticket has no ticket part of it |
| LedgerMovements.CancelledByActionExactly | src/app/api/tickets/[id]/actions/route.ts:410-452 | cancelling by action is accepted if and only if the ticket is not cancelled; it adds the quantity of every ticket part to stock and keeps all of them on record |
| LedgerWitnesses.CancellingCreatesStock | src/app/api/tickets/[id]/actions/route.ts:419-481 | a run that puts a part on a ticket, cancels, reopens and cancels it ends with twice the quantity too much, and the part still on record |
| LedgerStock.ReceivedAsOrdered | src/lib/purchase-actions.ts:55-145 | items added one by one to an order and received raise each part by exactly what was ordered, and the order takes no further item and no second reception |
| LedgerMovements.ReceptionExactly | src/lib/purchase-actions.ts:113-144 | an order is received if and only if it is pending; each part gains what was ordered of it and takes the unit cost of the last line that names it, and every other part and order stays |
| LedgerStock.CreateSaleBalance | src/lib/pos-actions.ts:228-241 | a sale takes out exactly what its lines record |
| LedgerStock.CreateNoteBalance | src/lib/credit-note-actions.ts:251-257 | a return puts back exactly what the note records |
| LedgerStock.CancelNoteBalance | src/lib/credit-note-actions.ts:459-476 | cancelling takes out again exactly what the note had put back |
| LedgerStock.ConvertBalance | src/lib/quotation-actions.ts:366-408 | a conversion takes out exactly what the new sale records |
| LedgerStock.OrderStepBalance | src/lib/purchase-actions.ts:104-145 | an order adds stock once, when it becomes received |
| LedgerStock.InsertBalance | prisma/migrations/20260808120000_add_part_approval/migration.sql:31-94 | whichever triggers are installed, inserting a ticket part moves stock by what they count for that row |
| LedgerStock.DeleteOneBalance | prisma/migrations/20260115202800_add_database_triggers/migration.sql:5-22 | deleting a ticket part gives back exactly what had been taken for it |
| LedgerStock.ApproveBalance | src/use-cases/tickets/ApproveTicketPartsUseCase.ts:46-52 | approving the pending parts one by one takes exactly what the approval-aware trigger then counts |
| LedgerMovements.ConsumptionRecorded | src/lib/service-template-actions.ts:659-673 | entering items adds one ticket part for each, in order, and takes out of stock what the installed triggers take for it |
| LedgerMovements.ConsumptionAccepted | src/lib/service-template-actions.ts:659-671 | items are accepted if and only if each, at its turn, finds its quantity beside what those before it have taken of its part |
| LedgerMovements.ApprovalExactly | src/use-cases/tickets/ApproveTicketPartsUseCase.ts:37-52 | an approval is accepted if and only if there are pending parts and, with the approval-aware trigger, the stock covers them part by part; it approves exactly these rows and takes exactly them out of stock |
| LedgerMovements.RejectionExactly | src/use-cases/tickets/RejectTicketPartsUseCase.ts:41-52 | a rejection is accepted if and only if there are pending parts, and removes exactly these, giving back what had been taken for each |
| LedgerMovements.TicketCancelledExactly | src/use-cases/tickets/UpdateTicketStatusUseCase.ts:35-57 | cancelling a ticket by status removes exactly its parts, approved or not, giving back what had been taken for each, the first time and nothing the second |
| LedgerMovements.RemovalUndoesEntry | prisma/migrations/20260115202800_add_database_triggers/migration.sql:5-22 | removing a ticket part just entered leaves stock as before its entry, whatever triggers are installed, and can be done once |
| LedgerStock.TicketPartsCountedOnce | scripts/verify-inventory-triggers.ts:88-170 | with both triggers installed, stock agrees with counting each ticket part once (and what cancellations by action added) if and only if no ticket part of that kind is approved |
| LedgerWitnesses.ApprovedPartTakenTwice | src/use-cases/tickets/create-ticket/CreateTicketUseCase.ts:112-146 | a run with one approved ticket part that lowers the stock by twice its quantity, even below zero |
| LedgerStock.RunConsistent | src/lib/pos-actions.ts:129-148 | references, distinct parts, positive quantities, and "a voided sale has no note" hold in every reachable state |
| Inventory.SellLinesAccepts | prisma/migrations/20260126020000_add_advanced_triggers/migration.sql:2-30 | the row triggers accept a document if and only if each part has stock for its whole quantity, however it is split over lines |
| Inventory.ReceiveLinesEffect | src/lib/purchase-actions.ts:118-134 | receiving adds each part's total quantity, keeps its price, and leaves the cost of the last line that names it |
| Inventory.MoveLinesEffect | prisma/migrations/20260129120000_fix_pos_triggers/migration.sql:22-42 | moving the lines of a document changes each part's stock by its total quantity and nothing else |
| Ledger.CartFound | src/lib/pos-actions.ts:129-136 | the length test passes if and only if all parts of the cart exist and are distinct |
| LedgerGuards.CheckedLinesSell | src/lib/pos-actions.ts:141-155 | for distinct parts the line-by-line check is as strict as the row triggers behind it, and no part of an accepted sale ends below zero |
| LedgerGuards.SaleAccepted | src/lib/pos-actions.ts:314-364 | a counter sale goes through if and only if its parts exist, are distinct and in stock, payments cover the total, and cash has an open register; the triggers never raise |
| LedgerEffects.AmountExactly | src/lib/pos-actions.ts:149-151 | an empty document is worth nothing, one line price times quantity, and two documents together what they are worth apart |
| LedgerEffects.SaleRecorded | src/lib/pos-actions.ts:138-163 | line i of an accepted sale is cart item i at the part's price, the subtotal is the sum over the cart of price times quantity, the total that less the discount with tax on it, the change what the payments exceed it by |
| LedgerEffects.SaleMoves | src/lib/pos-actions.ts:229-281 | an accepted sale takes exactly its cart out of stock and puts exactly its cash payments into the register found, and touches nothing else |
| LedgerEffects.VoidExactly | src/lib/pos-actions.ts:384-423 | a void is accepted if and only if the sale is completed and without notes and its cash finds an open register; it sets that sale VOIDED, puts exactly its lines back into stock and takes exactly its cash payments out of the register |
| LedgerEffects.VoidUndoesSale | src/lib/pos-actions.ts:370-432 | voiding a new sale at once is always accepted and leaves stock and the cash of every register as before the sale |
| LedgerGuards.ConversionNeverRaises | src/lib/quotation-actions.ts:335-340 | distinctness carries through creation, duplication and conversion, so the stock check of a conversion leaves every stock at or above zero |
| LedgerGuards.StepNonNegative | src/lib/purchase-actions.ts:118-134 | every action other than a note's cancellation and a doubly-triggered approved consumption keeps all stock at or above zero |
| LedgerGuards.StepNonNegativeExactly | src/lib/credit-note-actions.ts:459-465 | from stocks at or above zero any action leads to such stocks if and only if it is covered: a cancelled note finds its goods, doubly counted parts are there twice |
| LedgerGuards.RunNonNegative | src/lib/pos-actions.ts:129-148 | over every run: no state has a negative stock if and only if every action is covered in the state before it |
| LedgerGuards.CancelNoteNonNegative | src/lib/credit-note-actions.ts:459-465 | cancelling a note keeps stock at or above zero if and only if the returned goods are still there |
| LedgerWitnesses.CancelledNoteGoesNegative | src/lib/credit-note-actions.ts:459-465 | a run that sells, takes back, sells again and cancels the return ends at minus one |
| LedgerGuards.ApprovedNonNegative | src/use-cases/tickets/create-ticket/CreateTicketUseCase.ts:112-146 | with both triggers, entering approved parts keeps stock at or above zero if and only if twice each part's quantity is there |
| LedgerGuards.ApprovedTakenTwice | prisma/migrations/20260808120000_add_part_approval/migration.sql:31-94 | with both triggers, an approved item is taken out twice |
| LedgerReturns.RunWithinExactly | src/lib/credit-note-actions.ts:181-202 | over every run: no state has returned more of a part than its sale sold if and only if every accepted return fits, part by part, what is available before it |
| LedgerReturns.StepWithinExactly | src/lib/credit-note-actions.ts:189-202 | from a state within the bound any action leads to such a state if and only if it fits; a request with distinct parts always does |
| LedgerReturns.RunWithin | src/lib/credit-note-actions.ts:177-202 | in particular the bound holds in every reachable state when each request lists distinct parts; and in any run a voided sale has no note |
| LedgerReturns.CreateNoteWithin | src/lib/credit-note-actions.ts:189-202 | an accepted return keeps that bound if and only if its lines together, part by part, fit what is available |
| LedgerWitnesses.RepeatedPartReturnsTooMuch | src/lib/credit-note-actions.ts:190-202 | a run that sells one unit and returns two of it in one accepted request |
| LedgerReturns.ScreenIsTheBound | src/lib/credit-note-actions.ts:116-143 | the return check accepts a request if and only if the return screen offers each of its lines |
| LedgerEffects.ReturnAccepted | src/lib/credit-note-actions.ts:173-202 | a return is accepted if and only if it names something, in positive quantities at prices of zero or more, of a sale that is not voided, and no line asks for more than was sold of its part and not yet returned |
| LedgerEffects.ReturnRecorded | src/lib/credit-note-actions.ts:204-257 | an accepted return adds one pending note of its lines for their amount with the sale's tax, puts exactly the lines back into stock, and changes nothing else but the sale's status |
| LedgerEffects.ScreenExactly | src/lib/credit-note-actions.ts:116-143 | a row of the return screen offers exactly the quantities that a return of its part is accepted for; returned and available make up what was sold |
| LedgerEffects.ScreenMoves | src/lib/credit-note-actions.ts:107-128 | an accepted return moves its quantity of each part from available to returned |
| LedgerEffects.CancellationExactly | src/lib/credit-note-actions.ts:454-497 | a cancellation is accepted if and only if the note is pending; it marks that note, takes exactly its lines out of stock again, and the sale is PARTIALLY_REFUNDED if the other notes refund something and COMPLETED otherwise |
| LedgerEffects.CancellationUndoesReturn | src/lib/credit-note-actions.ts:437-504 | cancelling a new note at once is always accepted and leaves stock, returned quantities and refunded sums as before the return |
| LedgerReturns.RunAgreesExactly | src/lib/credit-note-actions.ts:259-283 | for every run, sale and tax rate: the status agrees with the notes throughout (COMPLETED and VOIDED nothing refunded, PARTIALLY_REFUNDED something, FULLY_REFUNDED the total to within a cent) if and only if each note action keeps it in the state before |
| LedgerReturns.CreateNoteAgreesExactly | src/lib/credit-note-actions.ts:204-275 | a new note leaves its sale in agreement if and only if the notes then add up to the total or to something positive, or to nothing on a COMPLETED sale |
| LedgerReturns.CancelNoteAgreesExactly | src/lib/credit-note-actions.ts:478-497 | a cancellation leaves its sale in agreement if and only if the other notes add up to no less than nothing |
| LedgerReturns.StepAgreesExactly | src/lib/credit-note-actions.ts:259-283 | where the status agreed before any action, it agrees after it if and only if the action keeps it |
| LedgerReturns.RunAgrees | src/lib/credit-note-actions.ts:259-283 | in particular every sale taxed at -100 % or more agrees with its notes in every reachable state |
| LedgerWitnesses.NegativeRateDisagrees | src/lib/quotation-actions.ts:19-29 | a run from a quotation at -200 % to a COMPLETED sale whose notes come to -10 |
| LedgerReturns.CancelForgetsFullRefund | src/lib/credit-note-actions.ts:478-497 | a cancellation never leaves FULLY_REFUNDED, though the notes add up to the total if and only if they did without the cancelled one before it |
| LedgerReturns.FullyRefundedExactly | src/lib/credit-note-actions.ts:259-283 | over every run a sale whose notes add up to its total is FULLY_REFUNDED if and only if the last note action on it was a new note; from -100 % up nothing else is FULLY_REFUNDED |
| LedgerWitnesses.FullRefundForgotten | src/lib/credit-note-actions.ts:488-497 | a run that refunds a sale in full, adds a free note and cancels it ends PARTIALLY_REFUNDED with notes that add up to the total |
| LedgerReturns.WholeSaleReturned | src/lib/credit-note-actions.ts:265-275 | in every reachable state, returning every line of a counter sale without notes is accepted if and only if no line has a negative price, and is then a full refund if and only if the taxed discount is below a cent |
| LedgerReturns.RunHistory | src/lib/pos-actions.ts:384-403 | over every run sales and notes keep their contents, a voided sale stays voided, and a processed or cancelled note never changes again |
| LedgerReturns.ProcessedForGood | src/lib/credit-note-actions.ts:411-428 | whatever follows a processed refund, its note keeps its row, can be neither cancelled nor processed again, and its goods stay returned |
| LedgerEffects.RefundProcessed | src/lib/credit-note-actions.ts:406-424 | a refund is processed if and only if its note is pending; only that note changes, and in every later state it is PROCESSED and can be neither cancelled nor processed again |
| LedgerCash.RunBooked | src/lib/cash-register-actions.ts:266-292 | in every reachable state each register's balance is opening plus signed movements, and each sale has exactly its own cash |
| LedgerCash.CashOfSale | src/lib/pos-actions.ts:405-423 | the signed cash of a counter sale over all registers is its cash payments, or zero once voided; a converted quotation has none until voided and then owes its cash payments |
| LedgerCash.StatsAgree | src/lib/cash-register-actions.ts:343-369 | open or closed, the statistics show the balance that closing computes, and their three totals account for every movement of the register |
| LedgerCash.ClosedForGood | src/lib/cash-register-actions.ts:209-223 | whatever happens later, a closed register's row and the sum of its movements never change |
| LedgerCash.PostCashEffect | prisma/migrations/20260115202800_add_database_triggers/migration.sql:25-60 | one movement keeps every register balanced and counts for exactly one sale |
| LedgerCash.OtherCashBooked | src/lib/cash-register-actions.ts:201-223 | a manual movement or an invoice payment keeps every register balanced and adds nothing to any sale's cash |
| LedgerCash.SplitByKind | src/lib/cash-register-actions.ts:269-277 | the two balance formulas, one filter for outgoing money and two, give the same sums |
| LedgerMovements.OpenedAndClosed | src/lib/cash-register-actions.ts:61-84 | a register opens if and only if no open one has its name; closed at once it expects the opening balance and shows as difference what was counted beyond it |
| LedgerMovements.CloseExactly | src/lib/cash-register-actions.ts:258-292 | closing is accepted if and only if the register is open and the count not negative; the row then holds the count, opening plus all signed movements as expected balance and what was counted beyond that as difference, and nothing else changes |
| LedgerMovements.MovementExactly | src/lib/cash-register-actions.ts:201-223 | a movement is accepted if and only if its amount is positive and the register open; the balance moves by the signed amount, in the statistics the total of its kind by the amount, and no other register is touched |
| LedgerQuotations.StepClimbs | src/lib/quotation-actions.ts:289-302 | every action leaves a quotation as it is, deletes a draft, or strictly raises its rank with its contents kept |
| LedgerEffects.DiscountedExactly | src/lib/quotation-actions.ts:111-116 | a quotation is worth nothing when empty, one line price times quantity less its percentage, and two together what they are worth apart |
| LedgerEffects.QuotationCreated | src/lib/quotation-actions.ts:96-160 | a quotation is created if and only if its parts exist and are distinct and its numbers are within bounds; it is a draft whose total is its lines' amount after both discounts and tax |
| LedgerEffects.StatusEnteredFrom | src/lib/quotation-actions.ts:289-297 | the inverse of the transition table: from which statuses each one is entered by hand |
| LedgerEffects.ConversionAccepted | src/lib/quotation-actions.ts:327-347 | a conversion is accepted if and only if the quotation is ACCEPTED, each line in stock, and the payments within a cent of the total |
| LedgerEffects.ConversionRecorded | src/lib/quotation-actions.ts:366-408 | an accepted conversion adds one sale with the quotation's lines, totals and rate, takes exactly its lines out of stock, sets it CONVERTED, and moves no cash |
| LedgerEffects.ExpiryExactly | src/lib/quotation-actions.ts:552-558 | exactly the drafts and sent quotations past their date expire, and a second run at that time or an earlier one changes nothing |
| LedgerQuotations.AtMostThreeChanges | src/lib/quotation-actions.ts:289-302 | no run changes one quotation more than three times |
| LedgerQuotations.RunOneSaleEach | src/lib/quotation-actions.ts:331-333 | over every run a quotation gives at most one sale, which has its lines and totals |
| LedgerQuotations.SoldQuotationStays | src/lib/quotation-actions.ts:485-491 | a quotation that has a sale cannot be deleted, change status or be converted again |
| LedgerQuotations.ConvertedByHand | src/lib/quotation-actions.ts:289-302 | a quotation set to CONVERTED by hand has no sale in any later state |
| LedgerQuotations.CopySells | src/lib/quotation-actions.ts:418-468 | a copy of any quotation, sent, accepted and converted, gives a sale of the same lines and totals if and only if they are in stock and the payments match; the original keeps its row |
| LedgerQuotations.DeletionUndoesCreation | src/lib/quotation-actions.ts:473-495 | deleting a new quotation, created or copied, leaves everything else as it was before, and can be done once |
| Database.Tables.GetPOSSaleForReturn | src/lib/credit-note-actions.ts:84-149 | the loop over notes and items yields the availability that `Returned` defines, or the right error |
| Database.Tables.ReturnedQuantities | src/lib/credit-note-actions.ts:181-187 | the map accumulated over notes and items holds, for every part, the sum of its non-cancelled returns |
| Database.Tables.CheckReturn | src/lib/credit-note-actions.ts:189-202 | the item loop stops at the first line that is not in the sale or exceeds what is available |
| Database.Tables.CreateCreditNote | src/lib/credit-note-actions.ts:154-288 | loops, stock updates and status update together do exactly the return step, errors included |
| Database.Tables.CancelCreditNote | src/lib/credit-note-actions.ts:437-504 | exactly the cancellation step |
| Database.Tables.UpdateSaleStatus | src/lib/credit-note-actions.ts:259-283 | the sale gets the status its non-cancelled notes call for |
| Database.Tables.BuildValidatedSaleTotals | src/lib/pos-actions.ts:123-163 | fails on the length test, else on the first item short of stock, else returns the priced lines and totals |
| Database.Tables.PriceCart | src/lib/pos-actions.ts:138-155 | the loop reports the first short item or accumulates all lines and the subtotal |
| Database.Tables.SumPayments | src/lib/pos-actions.ts:327-328 | the reduce over payments is their sum, of all or of the cash ones |
| Database.Tables.InsertSaleLines | src/lib/pos-actions.ts:229-241 | the item loop with its triggers, rolled back when one raises |
| Database.Tables.InsertPayments | src/lib/pos-actions.ts:244-281 | one income movement per cash payment, with the register's balance kept by the trigger |
| Database.Tables.CreatePOSSale | src/lib/pos-actions.ts:314-364 | exactly the sale step, errors included |
| Database.Tables.VoidPOSSale | src/lib/pos-actions.ts:370-432 | exactly the void step: restored stock and one expense of the cash payments |
| Database.Tables.AddQuotation | src/lib/quotation-actions.ts:90-165 | exactly the creation step |
| Database.Tables.ConvertQuotationToSale | src/lib/quotation-actions.ts:316-413 | exactly the conversion step, with its stock and payment checks |
| Database.Tables.MarkExpiredQuotations | src/lib/quotation-actions.ts:549-565 | exactly the expiry step over all quotations |
| Database.Tables.ReceivePurchaseOrder | src/lib/purchase-actions.ts:95-145 | the loop over items does exactly the reception step, once per order |
| Database.Tables.ConsumePartsAtomically | src/lib/service-template-actions.ts:654-682 | check and insert part by part; any failure leaves stock and ticket parts as before |
| Database.Tables.ApproveTicketParts | src/use-cases/tickets/ApproveTicketPartsUseCase.ts:37-52 | exactly the approval step, rolled back when the trigger raises |
| Database.Tables.RejectTicketParts | src/use-cases/tickets/RejectTicketPartsUseCase.ts:41-52 | exactly the rejection step: every pending part deleted |
| Database.Tables.DeleteTicketParts | src/use-cases/tickets/UpdateTicketStatusUseCase.ts:39-47 | deleting ticket parts row by row gives their stock back |
| Database.Tables.CancelTicket | src/use-cases/tickets/UpdateTicketStatusUseCase.ts:35-57 | exactly the cancellation as a status update, which deletes the ticket's parts once |
| Database.Tables.CancelTicketByAction | src/app/api/tickets/[id]/actions/route.ts:410-452 | the loop over ticket parts increments stock and keeps the rows, exactly as the cancellation step by action |
| Database.Tables.OpenCashRegister | src/lib/cash-register-actions.ts:43-89 | exactly the opening step; a name in use is refused |
| Database.Tables.CloseCashRegister | src/lib/cash-register-actions.ts:233-316 | the two sums over movements give exactly the closing step |
| Reservations.Inventory.ReserveForTenant | src/lib/inventory-atomic.ts:1-27 | after any requests every stock is what the granted ones have left and not negative; a reservation raises what was granted by exactly its quantity, a refusal by nothing |
| Reservations.NeverOversold | src/lib/inventory-atomic.ts:11-24 | in any interleaving stock stays at or above zero and exactly the granted quantities are gone |
| Reservations.ExactlyAsManyAsFit | src/lib/inventory-atomic.ts:11-24 | callers asking the same quantity succeed exactly as often as it fits into the stock |
| Reservations.OthersMakeNoDifference | src/lib/inventory-atomic.ts:11-20 | in any interleaving a part's row and the quantity granted of it are as after the requests of its own tenant for it alone |
| Templates.TemplatesStayWellFormed | src/lib/service-template-actions.ts:754-781 | over every run of additions, updates, removals and duplications a template's parts stay distinct with positive quantities |
| Templates.RemovalUndoesAddition | src/lib/service-template-actions.ts:754-776 | a part is added if and only if the template does not list it and the quantity is positive; removing it again restores the templates |
| Templates.ValidateTemplateStock | src/lib/service-template-actions.ts:52-68 | reports exactly the short required parts; valid if and only if there is none |
| Templates.MissingExactly | src/lib/service-template-actions.ts:54-63 | reported missing are exactly the required parts short of stock, with what they need and what there is |
| Templates.ConsumeExactly | src/lib/service-template-actions.ts:659-671 | for distinct parts, consuming one after the other succeeds if and only if the stock before covers each |
| Templates.PreCheckExact | src/lib/service-template-actions.ts:52-68 | the pre-check finds nothing missing if and only if consuming the required parts does not fail |
| Templates.RepeatedPartBreaksPreCheck | src/lib/service-template-actions.ts:754-764 | why distinctness is needed: a part listed twice passes the pre-check and fails the consumption |
| Templates.TicketCreatedExactly | src/lib/service-template-actions.ts:524-564 | a ticket is created if and only if the template is active and the stock covers all required and selected parts |
| Templates.TicketRecordsParts | src/lib/service-template-actions.ts:548-559 | a created ticket adds exactly the required and selected parts as ticket parts, each in its quantity and pending approval, none twice |
| Templates.CreateTicketFromTemplate | src/lib/service-template-actions.ts:548-559 | required parts, then selected optional ones; a failure in either leaves stock and ticket parts as before |
| Invoices.Billing.GenerateInvoiceFromTicket | src/lib/invoice-actions.ts:92-195 | the loop over approved parts gives the costs and total of the new pending invoice for the ticket as read, or the right error |
| Invoices.Billing.CostTicket | src/lib/invoice-actions.ts:104-126 | labour falls back to the template only without services; only approved parts count, at their proposed price |
| Invoices.Billing.RegisterPayment | src/lib/invoice-actions.ts:336-402 | exactly the payment step over invoices and registers: payment, status and cash entry together, or neither, with overpayment and a missing register refused |
| Invoices.Billing.GetFinancialStats | src/lib/invoice-actions.ts:481-510 | the folds are the sums of totals, payments, labor, parts and profit over invoices that are not cancelled, and the count is paid plus pending |
| Invoices.OneInvoiceMore | src/lib/invoice-actions.ts:463-498 | one more invoice counts for nothing when cancelled, and otherwise each of its amounts for the figure it belongs to |
| Invoices.RunSettled | src/lib/invoice-actions.ts:340-395 | in every reachable state payments never exceed the total, PAID means paid in full with at least one payment, CANCELLED means none |
| Invoices.RunBilled | src/lib/invoice-actions.ts:69-173 | in every reachable state each invoice bills the ticket as an action of the run read it, whatever became of the ticket, and no two bill one ticket |
| Invoices.GenerateExactly | src/lib/invoice-actions.ts:85-96 | an invoice is generated if and only if the ticket is ready and not invoiced; it is one pending invoice without payments, and without services and parts it bills the template's labor |
| Invoices.OnePartMore | src/lib/invoice-actions.ts:111-134 | one more part on the ticket changes nothing when not approved, and otherwise adds its quantity at price, the markup over cost, and the taxed price to the total |
| Invoices.OneServiceMore | src/lib/invoice-actions.ts:104-109 | the first service replaces the template's labor, each further one adds its own, and the total follows with tax |
| Invoices.PayExactly | src/lib/invoice-actions.ts:336-393 | a payment is accepted if and only if it is positive and within what a pending invoice has left and cash finds an open register; the invoice gains it and is PAID if and only if the payments then come to the total, cash is entered in the register found, and nothing else changes |
| Invoices.CashMatchesPayments | src/lib/invoice-actions.ts:397-402 | in every reachable state the income entered for an invoice is the sum of its CASH payments, plus what was entered for it on its own |
| Invoices.BooksAreALedgerRun | src/lib/cash-register-actions.ts:376-433 | the books of every such run are those of a run of the ledger, so that all its theorems hold of them |
| Invoices.RunKeepsInvoices | src/lib/invoice-actions.ts:425-444 | over every run an invoice keeps its amounts and gains payments only, never changes once PAID or CANCELLED, and is never CANCELLED once paid into |
| Invoices.PendingTotal | src/lib/invoice-actions.ts:481-488 | the pending total is the sum of the invoices' remainders, and not negative when no total is |
| DocNumbers.ParseUndoesPrint | src/lib/credit-note-actions.ts:68-76 | parsing undoes printing for every prefix, number and width |
| DocNumbers.OrderIsNumeric | src/lib/credit-note-actions.ts:60-66 | on digit texts of one length, text order is number order |
| DocNumbers.NumbersOrdered | src/lib/quotation-actions.ts:66-72 | up to 99999, printed numbers sort as numbers |
| DocNumbers.GeneratedIsFresh | src/lib/credit-note-actions.ts:56-77 | while all numbers of the year are at most 99999, the greatest text is the greatest number and its successor is new |
| DocNumbers.SeriesContinues | src/lib/quotation-actions.ts:62-83 | up to 99999 documents, the next one of an undeleted series is number k + 1 and new |
| DocNumbers.SeriesStops | src/lib/quotation-actions.ts:350-364 | with 100000 documents the next number is number 100000 a second time |
| DocNumbers.CollidesExactly | src/lib/quotation-actions.ts:350-364 | within the first 100000 documents the collision happens exactly there |
| DocNumbers.NextOfSequential | src/lib/invoice-actions.ts:39-48 | the successor of a printed invoice or payment number is the next one, whatever its width |
| DocNumbers.KthHasNumberK | src/lib/invoice-actions.ts:146-152 | the k-th invoice or payment has number k, with no limit |
| DocNumbers.NoTwoShareANumber | src/lib/invoice-actions.ts:361-368 | no two of them share a number |
| RateLimit.RateLimiter.CheckRateLimit | src/proxy.ts:64-78 | the answer is the next decision of the run, and the run stays within 2 max - 1 per closed 60 seconds for every key |
| RateLimit.RateLimiter.CleanupRateLimits | src/proxy.ts:80-85 | the loop removes exactly the expired windows and adds no decision |
| RateLimit.KeysDiffer | src/proxy.ts:66 | address and kind are recovered from the key: no two pairs share a window |
| RateLimit.RateBound | src/proxy.ts:65-78 | in any run a closed 60-second interval lets through at most 2 max - 1 requests per key |
| RateLimit.RateBoundReached | src/proxy.ts:69-77 | a run that lets through exactly 2 max - 1: the bound is tight |
| RateLimit.BurstExactly | src/proxy.ts:67-78 | of n requests at one time a new caller gets the first 10 through when signing in and the first 30 when searching |
| RateLimit.CleanedExactly | src/proxy.ts:80-85 | a cleanup keeps exactly the windows that are not over, and two are one at the later time |
| RateLimit.CleanupNeverChangesDecisions | src/proxy.ts:80-89 | cleanups anywhere in a run change no decision and no retry time |
| RateLimit.RetryAfterSuffices | src/proxy.ts:73-75 | a refused caller is told at most 60 seconds, is let in after that time, and would not be one second earlier |
| Lockout.Account.RecordFailedLogin | src/auth.ts:46-81 | counts the failure and locks from the fifth on |
| Lockout.Account.Authorize | src/auth.ts:140-160 | refused unseen if and only if five comparisons have failed and the last is less than 15 minutes ago; otherwise compared, and the failures stay within the bound |
| Lockout.LockoutBound | src/auth.ts:38-81 | with wrong passwords only, at most 5 + T / 15 min comparisons in time T, 15 minutes apart from the fifth on |
| Lockout.FailuresBound | src/auth.ts:140-160 | over every run, right passwords included, at most 5 + T / 15 min comparisons fail in time T, and five more for each success in between |
| Lockout.LockedExactly | src/auth.ts:38-41 | after any run of wrong passwords the account is locked if and only if there were five comparisons and the last is less than 15 minutes ago |
| Alerts.QuotationJob.AlertExpiringQuotations | src/lib/quotation-cron.ts:61-140 | one notification and one audit row per expiring quotation without a recent alert, counted |
| Alerts.QuotationJob.CheckExpiringQuotations | src/lib/quotation-cron.ts:16-59 | exactly the drafts and sent quotations past their date expire, each gets one audit row, and their number is returned |
| Alerts.ExpiredExactly | src/lib/quotation-cron.ts:19-56 | exactly the drafts and sent quotations past their date expire, and the audit log gains one row for each of them, in order, and no other |
| Alerts.NobodyMissed | src/lib/quotation-cron.ts:65-116 | after the alert job the creator of every draft or sent quotation with at most 48 hours left has been told within the last 24 hours |
| Alerts.NobodyElse | src/lib/quotation-cron.ts:90-134 | each new alert, with its one notification, is of such a quotation whose creator had not been told in the last 24 hours |
| Alerts.AtMostTwoAlerts | src/lib/quotation-cron.ts:65-101 | with no notification deleted, alerts of a quotation lie more than 24 hours apart and number at most two |
| Alerts.RunDeduplicates | src/lib/quotation-cron.ts:90-116 | over every run each alert fell in the last 48 hours and left its notification |
| Passwords.ShuffleInPlace | src/lib/password-utils.ts:82-86 | the in-place loop is the shuffle of the given draws |
| Passwords.ShuffleIsBijective | src/lib/password-utils.ts:82-86 | each order of distinct elements comes from exactly one sequence of draws |
| Passwords.ShuffleKeepsElements | src/lib/password-utils.ts:82-86 | shuffling repeats and loses nothing |
| Passwords.GenerateTemporaryPassword | src/lib/password-utils.ts:60-89 | picks one character per class, eight of any, and shuffles them |
| Passwords.TemporaryPasswordValid | src/lib/password-utils.ts:20-38 | whatever the random choices, the password has 12 characters and breaks no rule |
| Passwords.ValidExactly | src/lib/password-utils.ts:43-55 | no error is reported if and only if there are eight characters, an upper-case and a lower-case letter, a digit and a special character |
| Tenancy.WrapperRefines | src/lib/tenant-prisma.ts:42-161 | every wrapped operation on a tenanted model, by any unique key, answers as the plain one on the tenant's rows alone, leaves exactly its rows with the stamps, and leaves other tenants' rows unchanged |
| Tenancy.KeyedRefines | src/lib/tenant-prisma.ts:116-158 | update and delete by a unique key are so isolated for every key but tenantId, and for that if and only if it is the actor's own or the operation fails |
| Tenancy.FilteredRefines | src/lib/tenant-prisma.ts:45-88 | reads and operations on many rows are isolated if the filter admits the actor's tenant or selects none of its rows, and only then where the answer tells how many there were |
| Tenancy.ForeignUpdate | src/lib/tenant-prisma.ts:116-133 | an update keyed by another tenant's id succeeds and changes that tenant's settings |
| Tenancy.ForeignDelete | src/lib/tenant-prisma.ts:145-158 | a delete keyed by another tenant's id succeeds and removes that tenant's settings |
| Tenancy.RunsAreIsolated | src/lib/tenant-prisma.ts:34-162 | over every run of many tenants each gets the answers and rows of its own calls on a private table |
| Tenancy.OrdinaryRunsAreIsolated | src/lib/tenant-prisma.ts:34-162 | when updates and deletes are by id and filters admit the actor's tenant, isolation over every run needs only unique ids at the start and new ids for new rows |
| Tenancy.ScopedSearch | src/lib/tenant-prisma.ts:45-82 | a scoped search is a search of the private table with only the caller's own top-level tenantId condition dropped |
| Tenancy.ExcludedTenantIgnored | src/lib/tenant-prisma.ts:45-82 | for a filter that excludes its own tenant, wrapper and plain search agree if and only if nothing matches the rest |
| Tenancy.ExclusionReturnsRows | src/lib/tenant-prisma.ts:45-49 | a search that excludes the caller's own tenant returns that tenant's rows |
| Tenancy.KeyedLookup | src/lib/tenant-prisma.ts:116-127 | for any unique key, look-up in scope and the caller's own filter succeed together if and only if the private look-up does |
| Tenancy.CreatedRowsStamped | src/lib/tenant-prisma.ts:90-114 | created rows carry the actor's tenant, their values and, where the model records it, its user, and the rows before them stay |
| Tenancy.UpdatedRowsStamped | src/lib/tenant-prisma.ts:116-133 | an update succeeds if and only if an own row and some row match; it then writes the values and, where the model records it, the actor's user into every row that matches, keeps id and tenant, and leaves all other rows |
| Tenancy.UpdatedAllRowsStamped | src/lib/tenant-prisma.ts:135-143 | an update of many rows does so to exactly the own rows that match and tells their number |
| Tenancy.DeletedRowsGone | src/lib/tenant-prisma.ts:145-158 | a deletion succeeds if and only if an update would, and removes exactly the rows that match |
| Tenancy.DeletedAllRowsGone | src/lib/tenant-prisma.ts:84-88 | a deletion of many rows removes exactly the own rows that match and tells their number |
| Tenancy.ReadRowsExactly | src/lib/tenant-prisma.ts:45-70 | a read finds exactly the own rows that match, as many as a count tells; a search for one finds one of them, and none if and only if there is none |
| Tenancy.OtherModelsPassThrough | src/lib/tenant-prisma.ts:22-24 | on a model without tenants a read finds the rows of every tenant and an update stamps nothing |
| Tenancy.SharedTable.FindRows | src/lib/tenant-prisma.ts:45-82 | whatever the filter, the answer is that of the tenant's rows alone, without the caller's own top-level tenantId condition |
| Tenancy.SharedTable.CreateRows | src/lib/tenant-prisma.ts:90-114 | the loop that stamps and inserts rows adds exactly them to the tenant's rows and nothing to any other's |
| Tenancy.SharedTable.UpdateRow | src/lib/tenant-prisma.ts:116-133 | the two look-ups isolate the update if and only if the key is not another tenant's id or the update fails |
| Tenancy.SharedTable.UpdateRows | src/lib/tenant-prisma.ts:135-143 | whatever the filter, exactly the tenant's own matching rows change |
| Tenancy.SharedTable.DeleteRow | src/lib/tenant-prisma.ts:145-158 | the two look-ups isolate the deletion if and only if the key is not another tenant's id or the deletion fails |
| Tenancy.SharedTable.DeleteRows | src/lib/tenant-prisma.ts:84-88 | whatever the filter, exactly the tenant's own matching rows go |
| Tickets.DeliveriesAreResolved | src/lib/ticket-state-machine.ts:35-70 | at every point of a run from OPEN there are no more deliveries than resolutions and no more resumptions than waits |
| Tickets.TechnicianRuns | src/lib/auth-utils.ts:346-392 | technician actions never bring a ticket to CLOSED, CANCELLED or REJECTED and never move a resolved one |
| Tickets.TechnicianReach | src/lib/auth-utils.ts:104-144 | from OPEN a technician reaches exactly OPEN, IN_PROGRESS, WAITING_FOR_PARTS and RESOLVED |
| Tickets.EnteredOnlyBy | src/lib/ticket-state-machine.ts:35-70 | the inverse of the table: from where and by what each status is entered, and that nothing enters WAITING_APPROVAL |
| Tickets.DeadEntries | src/lib/ticket-state-machine.ts:35-100 | START is permitted to all roles but the viewer and is no transition; APPROVE and REJECT are transitions and permitted to nobody |
| Tickets.PermittedTo | src/lib/auth-utils.ts:21-178 | the permission tables read by action: work for all but the viewer, assignment and ends for administrators and managers, approval and rejection for nobody |
| VirtualWindow.NothingMissing | src/hooks/useVirtualWindow.ts:70-75 | with overscan of at least one, every item that intersects the viewport is rendered |
| VirtualWindow.LittleElse | src/hooks/useVirtualWindow.ts:70-75 | fewer items are rendered than the viewport holds plus one beside twice the overscan, and none further above it than the overscan |
| VirtualWindow.OverscanNeeded | src/hooks/useVirtualWindow.ts:70-75 | without overscan a visible item can be missing |
| VirtualWindow.HeightsAddUp | src/hooks/useVirtualWindow.ts:77-84 | paddings and rendered items add up to the list's height if and only if the window starts within it, which holds for every scroll position within the list |

## Left out

- Sessions, roles of the sale actions, schema parsing, e-mail, notifications other than quotation alerts, revalidation, PDF, React: input and output only. Bounds of the schemas are kept and reported as `InvalidInput`; the tenant's tax rate is bounded like its settings form.
- Rounding of Decimal columns and floating-point sums: money is exact.
- Races inside one action: checks read outside the transaction and cash written outside it are one atomic step here, and so is the conversion of a quotation, which the source does in two writes. `Reservations` is the exception.
- The Redis branch of the rate limiter: a remote service.
- Sale numbers assigned by the database trigger, and document numbers inside the ledger: numbers are proved apart, in `DocNumbers`.
- Editing parts, whose stock field can be overwritten, and deleting parts, registers and tickets (a ticket with parts on it cannot be deleted): they would only add easy actions.
- Tickets beyond the mark CANCELLED, which is all that stock depends on: any number names a ticket, and the status changes that come with proposing and approving parts are not modelled. `Tickets` covers the transition table alone.
- DRAFT and OVERDUE invoices: no action sets these statuses. Date filters of statistics and report grouping.
- Drawer balance net of change: cash payments are booked in full.
- `upsert`, raw SQL, row-level-security policies and models without a tenant: not intercepted by the wrapper.
- Leading signs and spaces that the source's integer parser accepts: printed numbers have none.
- A unique index over the whole table, such as the one on users' e-mail addresses, can make a write fail because of another tenant's row; writes that the database refuses are not modelled. Keys made of several fields are not part of the filter language.
- RateLimit.RateBound: a clock that goes backwards is not covered.
- Lockout.LockoutBound: for runs of wrong passwords; Lockout.FailuresBound covers runs with successful logins in between.
- Alerts.AtMostTwoAlerts: does not cover runs that delete notifications.
- LedgerReturns.RunWithin: the bound for requests with distinct parts; LedgerReturns.RunWithinExactly covers all requests.
- LedgerReturns.RunAgrees: for sales taxed at -100 % or more; LedgerReturns.RunAgreesExactly covers every sale.
- LedgerGuards.StepNonNegative: for the actions that need no condition; LedgerGuards.StepNonNegativeExactly covers all.
- Tenancy.WrapperRefines: update and delete name a unique field, and by tenantId their own tenant or nothing; update data does not assign the tenant; other filters admit their own tenant or select none of its rows.
- Tenancy.SharedTable.UpdateRow: `query` arguments other than filter and data (select, include, ordering) are not modelled.
- Invoices.CashMatchesPayments: manual movements whose free text reads like an invoice reference are told apart from invoice entries here.
- DocNumbers.CollidesExactly: series longer than 100000 cannot come about, because number 100000 is not unique.
