# ISP CRM: a verified model

The ISP CRM keeps stock, customer accounts, money and operations records in relational tables and changes them in
short transactions: one request checks, writes several tables and commits, or raises and rolls back. This project
models those transactions and proves what they keep together, over every run of requests. Beside the CRM it verifies
four small algorithms of the same repository: the RouterOS API codec, an SQL statement splitter, a comment and string
blanker, and the cycle guard of the reporting tree.

Money is in paisa, dates are day numbers with their billing month, table rows are maps keyed by serial ids that are
handed out once. Time (`today`), rights (`admin`, `manager`, `finance`, `trusted`) and typed field values are
parameters of a request.

## Layout

- `Table.dfy`, `CrmData.dfy`: tables, sums over them, and the rows the CRM keeps.
- `Stock.dfy`, `Recovery.dfy`, `Charges.dfy`, `Billing.dfy`, `Payments.dfy`, `Pricing.dfy`, `Ledger.dfy`,
  `Network.dfy`, `Records.dfy`: the rules of the transactions as functions on values, each group with its invariant.
- `RecordLaws.dfy`, `Accounts.dfy`, `IssueDesk.dfy`, `WarehouseDesk.dfy`, `CustomerDesk.dfy`, `RecordDesk.dfy`,
  `ExpenseDesk.dfy`: whole transactions over the database and the proof that each keeps `Invariant.Inv`.
- `Crm.dfy`: the state machine of all requests; `Conservation.dfy`, `History.dfy`, `Postings.dfy`, `AccountLife.dfy`,
  `Reachable.dfy`: what holds over whole runs; `Acceptance.dfy`, `Effects.dfy`, `RecordEffects.dfy`: exactly when
  requests are accepted and what they then write, told from the request and the tables before it; `Examples.dfy`: runs
  in which a promise fails.
- `CrmService.dfy`: the program in its own form, a class whose fields are the tables and whose methods follow the
  statements of the transactions, each proved to do what its rule says, with rollback.
- `RouterOsCodec.dfy`, `RouterOsReply.dfy`, `RouterOsSession.dfy`, `TextScan.dfy`, `SqlSplitter.dfy`, `Blanker.dfy`,
  `StaffHierarchy.dfy`: the algorithms.

`dafny verify dfyconfig.toml` checks the whole project.

## Model

| member | source | states |
|---|---|---|
| CrmMachine.StepKeepsInv | ai-engine/ai.example/ispcrm.py:509-542 | every one of 27 kinds of request, accepted or refused, keeps all ten groups of invariants |
| CrmMachine.RunKeepsInv | ai-engine/ai.example/ispcrm.py:509-523 | so does any sequence of requests |
| CrmMachine.ReachableStatesHold | ai-engine/ai.example/ispcrm.py:509-523 | every state reachable from empty tables satisfies them |
| CrmService.Crm.Handle | ai-engine/ai.example/ispcrm.py:509-542 | the imperative transaction of a request leaves exactly the state its rule gives, replies as the rule says, and goes from a valid state to a valid one |
| CrmService.Crm.Serve | ai-engine/ai.example/ispcrm.py:509-542 | serving a list of requests is running them |
| CrmService.Crm.Rollback | ai-engine/ai.example/ispcrm.py:449-461 | a refused transaction leaves every table as it was |
| ReachableFacts.UnitsAreCovered | ai-engine/ai.example/crm_warehouses.py:70-84 | in every reachable state the labelled devices on a shelf, counted, are at most the quantity of the row, an issued device is on exactly one outstanding one-unit issue of its row, serial numbers are unique in a row, every row stands in a known warehouse |
| ReachableFacts.RecoveryIsExact | ai-engine/ai.example/crm_termination.py:45-91 | a terminated account is pending exactly while a required item is out on an issue to it, no other account is, and pending rows belong to pending accounts, one each |
| ReachableFacts.EquipmentIsCharged | ai-engine/ai.example/crm_customer_ledger.py:61-70 | equipment charges exist exactly for customer issues at a positive price, one each, for quantity times price |
| ReachableFacts.NothingOverCollected | ai-engine/ai.example/crm_recharge.py:105-117 | no charge and no installation is paid beyond its amount, linked payments share customer, month and kind, every payment has its receipt, one renewal per customer and month |
| ReachableFacts.NetworkStaysInStep | ai-engine/ai.example/crm_operations.py:354-395 | in every reachable state a record has an issue of its own if and only if it is a device or a cable already laid and names an item; while out, that issue is for this item and installer, one device, the metres used, or the least whole metres that cover the route; outstanding record-made issues map one to one into records |
| ReachableFacts.RecordsStayConsistent | ai-engine/ai.example/crm_operations.py:191-197 | receipts never exceed their reseller invoice, references point to existing records of the right module, a record is Paid exactly when it has an expense id, no two have the same one, names are unique but for the case of letters, and nobody has two payroll records for a month |
| ReachableFacts.BillsReconcile | ai-engine/ai.example/crm_billing.py:41-51 | for the last billed month: ledger <= installation due + bill - receipts, with equality if and only if all subscription receipts match invoices and no earlier month was overpaid |
| ReachableFacts.PostsOnce | ai-engine/ai.example/crm_operations.py:439-474 | after any further run a received or paid record has the same form and expense; editing, archiving and deleting it are refused; receiving or paying again changes nothing |
| ReachableFacts.PaymentsAreFinal | ai-engine/ai.example/crm_recharge.py:73-96 | after any further run a payment is unchanged, edits and deletions are refused, and a request under its key changes nothing |
| Conservation.StepBalances | ai-engine/ai.example/ispcrm.py:1170-1262 | a step changes total stock by documents and hand-made adjustments only |
| Conservation.RunBalances | ai-engine/ai.example/crm_operations.py:354-395 | the same, summed over any run |
| Conservation.StockIsAccountedFor | ai-engine/ai.example/crm_inventory_qr.py:36-44 | total stock of a reachable state = devices registered as new + quantities of received bills, each once + adjustments of the run |
| History.RunRemembers | ai-engine/ai.example/crm_receipts.py:28-39 | over any run no payment, receipt, invoice, renewal or transfer is changed or lost, no expense id is given out twice, and postings of records stay |
| Postings.ExpensesAreAccountedFor | ai-engine/ai.example/crm_operations.py:405-411 | the expenses ever created, deleted ones too, are exactly one per paid record and those added by hand |
| Postings.PostedExpenseStands | ai-engine/ai.example/crm_operations.py:466-474 | after payment the record keeps form and expense id for good, and its expense is there with the total of the form if and only if nobody with the right deleted it and the last accepted edit, if any, wrote that amount |
| Postings.PaidRecordAgreesIff | ai-engine/ai.example/ispcrm.py:542 | the same for any record with an expense id, in any state with all invariants, over any further run |
| Postings.ExpenseStandsIff | ai-engine/ai.example/ispcrm.py:531-542 | over any run an expense row is there if and only if it was and nobody with the right deleted it, and it holds what the last accepted edit wrote |
| Postings.DroppedExpenseStaysPaid | ai-engine/ai.example/ispcrm.py:531-542 | the expense of a paid record can be deleted; the record stays paid and paying it again does nothing |
| ExpenseDesk.ExpenseFormKeepsInv | ai-engine/ai.example/ispcrm.py:542 | adding, editing and deleting expenses by hand keep every invariant |
| AccountLife.RenewalsBoundExpiry | ai-engine/ai.example/crm_recharge.py:14-37 | after k renewals without manual edit: initial + 30k <= expiry <= max(initial, latest day) + 30k |
| AccountLife.NoReactivation | ai-engine/ai.example/ispcrm.py:574-575 | no run reactivates a terminated account while a required item is out |
| AccountLife.StepLives | ai-engine/ai.example/crm_recharge.py:16-37 | no request but an edit of the account changes its expiry except by one renewal; terminated accounts are neither renewed nor revived |
| StockRules.PlaceKeepsStock | ai-engine/ai.example/ispcrm.py:1238-1262 | issuing checked stock keeps the stock invariant |
| StockRules.BringBackKeepsStock | ai-engine/ai.example/ispcrm.py:1197-1207 | a return keeps it |
| StockRules.BringBackTwice | ai-engine/ai.example/ispcrm.py:1200-1201 | reference form of the early return: a second return does nothing |
| StockRules.BackOnShelfIsOne | ai-engine/ai.example/crm_inventory_qr.py:63-66 | returned frees the one device issued on the issue, if any, and touches no other |
| StockRules.EraseKeepsStock | ai-engine/ai.example/ispcrm.py:1170-1188 | deleting an issue keeps it |
| StockRules.ShiftKeepsStock | ai-engine/ai.example/crm_warehouses.py:77-84 | moving quantity and surplus devices keeps it |
| StockRules.ShiftIsMinimal | ai-engine/ai.example/crm_warehouses.py:77-82 | exactly the devices the source can no longer cover move, lowest ids first, none issued |
| StockRules.LabelKeepsStock | ai-engine/ai.example/crm_inventory_qr.py:36-44 | labelling new or uncovered stock keeps it |
| StockRules.EditKeepsStock | ai-engine/ai.example/ispcrm.py:559-560 | an edit not below the labelled devices keeps it |
| IssueDesk.IssueKeepsInv | ai-engine/ai.example/ispcrm.py:1210-1262 | a new issue, with its charge and invoice, keeps every invariant |
| IssueDesk.IssueConserves | ai-engine/ai.example/ispcrm.py:1262 | issuing keeps total stock |
| IssueDesk.IssueReplayed | ai-engine/ai.example/ispcrm.py:1224-1233 | under the key of a saved issue nothing changes; it is accepted only with the same details |
| IssueDesk.ReturnKeepsInv | ai-engine/ai.example/ispcrm.py:1193-1207 | a return keeps every invariant |
| IssueDesk.ReturnConserves | ai-engine/ai.example/ispcrm.py:1200-1204 | a return keeps total stock and repeating it does nothing |
| IssueDesk.DeleteKeepsInv | ai-engine/ai.example/ispcrm.py:1170-1190 | deleting an issue keeps every invariant |
| IssueDesk.DeleteConserves | ai-engine/ai.example/ispcrm.py:1177-1188 | it keeps total stock, removes the issue and its charge and no other charge |
| Acceptance.IssueIff | ai-engine/ai.example/ispcrm.py:1234-1250 | exactly when a new issue is accepted, free stock counted as units without label |
| Acceptance.IssueEffects | ai-engine/ai.example/ispcrm.py:1251-1262 | everything an accepted issue writes: its row with the price quoted to a customer and none for others, the device, the quantity, a charge of price times quantity for a positive price and the invoice of its month; nothing else changes |
| Acceptance.ChargedAsAgreed | ai-engine/ai.example/ispcrm.py:1265-1290 | told from the request: nothing for a waived item, base times quantity at full price, a unit price within half a paisa of the base less the discount; nobody but a customer is charged |
| Effects.DeleteEffects | ai-engine/ai.example/ispcrm.py:1170-1190 | an administrator deletes an issue nobody paid for: stock still out comes back on its row, the issue, its mention on devices and its charge go, and a customer who owes nothing any more has recovered |
| Acceptance.TransferIff | ai-engine/ai.example/crm_warehouses.py:59-71 | exactly when a transfer is accepted; serial numbers are compared before the move |
| Acceptance.TransferEffects | ai-engine/ai.example/crm_warehouses.py:70-86 | what an accepted transfer does: the quantity leaves its row and arrives in one of the same goods at the target, made if there was none, the labelled devices no longer covered move, lowest labels first, the move is recorded under its key, nothing else changes |
| Acceptance.PaymentIff | ai-engine/ai.example/crm_recharge.py:40-124 | reference form of the guards of a new payment, spelled out on the tables |
| Acceptance.ReceiveIff | ai-engine/ai.example/crm_operations.py:457-463 | reference form of the guards for receiving a purchase bill, and its state afterwards |
| Acceptance.PayIff | ai-engine/ai.example/crm_operations.py:464-474 | exactly when a record is paid, right of finance, payroll employee, date and payment method included, and the expense it posts |
| Effects.ReturnEffects | ai-engine/ai.example/ispcrm.py:1193-1207 | a return puts the quantity on the row the issue came from, its device on the shelf, and settles the recovery of a customer who owes nothing any more |
| Effects.RegisterEffects | ai-engine/ai.example/crm_inventory_qr.py:36-44 | exactly when a label is registered under a fresh key, and the device row and quantity written |
| Effects.InspectEffects | ai-engine/ai.example/crm_inventory_qr.py:68-76 | the condition found is written, nothing else |
| Effects.BatchEffects | ai-engine/ai.example/ispcrm.py:552-565 | exactly when an inventory row is added, edited or removed, and what is written |
| Effects.TerminateEffects | ai-engine/ai.example/crm_termination.py:49-77 | exactly when an account is terminated; its status, pending or not by the items out, and the recovery row with the fee lost |
| Effects.EditCustomerEffects | ai-engine/ai.example/ispcrm.py:567-607 | exactly when an account is edited; the form is written but for the recovery status, and turning it Terminated opens the recovery at the old fee |
| Effects.BulkEffects | ai-engine/ai.example/crm_operations.py:655-663 | exactly when a bulk status change is made, and that it gives the status to the accounts named alone |
| Effects.ChangeEffects | ai-engine/ai.example/crm_operations.py:414-427 | exactly when an approved change is made, and the status or fee it writes |
| Effects.ChargeEffects | ai-engine/ai.example/crm_customer_ledger.py:12-26 | exactly when a service charge is added under a fresh key, and its row |
| Effects.InvoiceEffects | ai-engine/ai.example/crm_billing.py:13-27 | the invoice of the month if there is one, else a new one at the present fee with the arrears of earlier months |
| Effects.IssueReplayIff | ai-engine/ai.example/ispcrm.py:1224-1233 | under a used key an issue comes back if and only if details and the price quoted now agree; nothing changes |
| Effects.RegisterReplayIff | ai-engine/ai.example/crm_inventory_qr.py:28-35 | so for a registration |
| Effects.ChargeReplayIff | ai-engine/ai.example/crm_customer_ledger.py:16-24 | so for a service charge, once its fields are valid |
| RecordEffects.SaveIff | ai-engine/ai.example/crm_operations.py:288-351 | exactly when an edit, or a save under a fresh key, is accepted: version, state and module of the record, fields and references, name and period of its own, invoice covered, stock there |
| RecordEffects.SaveEffects | ai-engine/ai.example/crm_operations.py:336-395 | what it writes: the form at the next version or a new open record, the stock given back and taken row by row, and the rows of a renamed warehouse; nothing else |
| RecordEffects.ArchiveEffects | ai-engine/ai.example/crm_operations.py:439-444 | exactly when a record is archived; state and version change alone |
| RecordEffects.DeleteRecordEffects | ai-engine/ai.example/crm_operations.py:500-522 | exactly when a record is deleted; its linked issue comes back |
| RecordEffects.ReceiveEffects | ai-engine/ai.example/crm_operations.py:457-463 | receiving raises the row of the item of the bill by its quantity |
| RecordEffects.PayEffects | ai-engine/ai.example/crm_operations.py:464-474 | paying posts quantity times unit cost of a purchase, the amount of a bill, or the earnings of a payslip less its deductions |
| Pricing.QuoteIsFair | ai-engine/ai.example/ispcrm.py:1265-1290 | a price is quoted if and only if the base is in range and the item is waived or more than half a paisa remains after a discount in range; it is positive, at most the base, within half a paisa of the exact discount; waived items cost nothing |
| Pricing.RoundingIsNearest | ai-engine/ai.example/ispcrm.py:1287 | rounding gives the one nearest integer, ties to even |
| WarehouseDesk.TransferKeepsInv | ai-engine/ai.example/crm_warehouses.py:49-86 | a transfer keeps every invariant and total stock |
| WarehouseDesk.TransferIsExact | ai-engine/ai.example/crm_warehouses.py:70-84 | the quantity leaves one row and arrives in a row of the same goods at the target; no other row, device or issue changes |
| WarehouseDesk.TransferReplayed | ai-engine/ai.example/crm_warehouses.py:60-62 | a used transfer key changes nothing |
| WarehouseDesk.RegisterKeepsInv | ai-engine/ai.example/crm_inventory_qr.py:24-44 | registering a label keeps every invariant and adds one unit exactly when a new device is received |
| WarehouseDesk.RegisterReplayed | ai-engine/ai.example/crm_inventory_qr.py:28-35 | a used registration key changes nothing |
| WarehouseDesk.InspectKeepsInv | ai-engine/ai.example/crm_inventory_qr.py:68-76 | inspecting a device keeps every invariant |
| WarehouseDesk.AddBatchKeepsInv | ai-engine/ai.example/ispcrm.py:552-565 | a new inventory row keeps every invariant |
| WarehouseDesk.EditBatchKeepsInv | ai-engine/ai.example/ispcrm.py:552-565 | an edited inventory row keeps every invariant; total stock changes by the difference |
| WarehouseDesk.RemoveBatchKeepsInv | ai-engine/ai.example/ispcrm.py:542 | removing an unused row keeps every invariant |
| RecoveryRules.TerminateKeepsRecovery | ai-engine/ai.example/crm_termination.py:49-77 | terminating keeps the recovery invariant |
| RecoveryRules.RefreshKeepsRecovery | ai-engine/ai.example/crm_termination.py:80-87 | refreshing after items came back keeps it |
| RecoveryRules.TakingBackKeepsRecovery | ai-engine/ai.example/ispcrm.py:1205-1206 | a return or deletion with its refresh keeps it |
| CustomerDesk.EditCustomerKeepsInv | ai-engine/ai.example/ispcrm.py:567-607 | editing an account keeps every invariant: no early reactivation, installation not below receipts |
| CustomerDesk.AddCustomerKeepsInv | ai-engine/ai.example/ispcrm.py:572-573 | a new account keeps every invariant |
| CustomerDesk.RemoveCustomerKeepsInv | ai-engine/ai.example/ispcrm.py:542 | removing an account nothing refers to keeps every invariant |
| CustomerDesk.TerminateKeepsInv | ai-engine/ai.example/crm_termination.py:49-77 | terminating keeps every invariant |
| CustomerDesk.BulkKeepsInv | ai-engine/ai.example/crm_operations.py:655-663 | a bulk status change keeps every invariant |
| CustomerDesk.ChangeKeepsInv | ai-engine/ai.example/crm_operations.py:414-427 | an approved package or status change keeps every invariant |
| CustomerDesk.PayKeepsInv | ai-engine/ai.example/crm_recharge.py:40-126 | saving a payment keeps every invariant |
| AccountRules.AddChargeKeeps | ai-engine/ai.example/crm_customer_ledger.py:12-26 | a service charge keeps the charge and money invariants |
| AccountRules.BillingKeepsMoney | ai-engine/ai.example/crm_customer_ledger.py:61-70 | billing an issue keeps the money invariant |
| AccountRules.UnchargingKeepsMoney | ai-engine/ai.example/ispcrm.py:1178-1184 | dropping an unpaid charge keeps it |
| ChargeRules.BillKeepsCharges | ai-engine/ai.example/crm_customer_ledger.py:61-68 | billing keeps charges and issues in one-to-one correspondence |
| ChargeRules.UnbillKeepsCharges | ai-engine/ai.example/ispcrm.py:1177-1188 | so does deleting an issue with its charge |
| ChargeRules.ReturnKeepsCharges | ai-engine/ai.example/ispcrm.py:1202-1204 | a return keeps the charge |
| PaymentRules.SavingKeepsMoney | ai-engine/ai.example/crm_recharge.py:40-126 | a saved payment keeps the money invariant and touches customers only by renewal |
| PaymentRules.PaymentsArePermanent | ai-engine/ai.example/crm_recharge.py:73-81 | with a receipt for every payment each edit or deletion is refused |
| PaymentRules.ReplayChangesNothing | ai-engine/ai.example/crm_recharge.py:85-96 | a replayed key returns the same payment with nothing changed; other details are refused |
| PaymentRules.SavingAppends | ai-engine/ai.example/crm_recharge.py:118-126 | a save adds at most one payment and receipt and alters none |
| PaymentRules.RenewalIff | ai-engine/ai.example/crm_recharge.py:14-37 | exactly when apply_recharge renews the account, and for how long |
| PaymentRules.PaymentEffects | ai-engine/ai.example/crm_recharge.py:14-126 | what saving a new payment under a fresh key writes: it renews if and only if it is a subscription payment for the current month of a live account not renewed for it, the bill is positive, and partial activation was approved or the receipts of the month with this one cover bill and arrears; the renewal row, the expiry, the receipt, and an account left as it was otherwise |
| BillingRules.EnsureInvoiceRaisesOne | ai-engine/ai.example/crm_billing.py:13-27 | one invoice per customer and month, old snapshots unchanged, terminated accounts refused |
| BillingRules.GenerateBillsEachOnce | ai-engine/ai.example/crm_billing.py:30-38 | the monthly run bills exactly the active customers that joined, each once |
| BillingRules.GenerateTwice | ai-engine/ai.example/crm_billing.py:37 | running it again bills nobody |
| BillingRules.GenerateCarriesArrears | ai-engine/ai.example/crm_billing.py:30-38 | every invoice of the run is at the fee of its customer with the arrears from before the run, whoever else is billed |
| LedgerRules.LedgerIsAggregate | ai-engine/ai.example/crm_customer_ledger.py:35-58 | in any order of entries the ledger closes at the aggregate balance, debits minus credits |
| LedgerRules.SortOrders | ai-engine/ai.example/crm_customer_ledger.py:46 | sorting orders the entries, losing and adding none |
| LedgerRules.LedgerReads | ai-engine/ai.example/crm_customer_ledger.py:46 | in the sorted ledger days never go back and on one day debits stand before credits |
| LedgerRules.LedgerLists | ai-engine/ai.example/crm_customer_ledger.py:35-45 | the entries are exactly those of invoices, charges, installation, payments and cash sales, each under its date and reference |
| LedgerRules.BillReads | ai-engine/ai.example/crm_billing.py:43-50 | services of the month, arrears of subscription and services, payments booked for the month, and what remains, as sums over charges and payments |
| LedgerRules.NewestFirstOrders | ai-engine/ai.example/crm_billing.py:42 | the bill list holds every invoice, newest month first and the later id first within a month |
| LedgerRules.CashSaleNetsToZero | ai-engine/ai.example/crm_customer_ledger.py:43-45 | an unlinked sale leaves every balance as it was |
| LedgerRules.BillReconciles | ai-engine/ai.example/crm_billing.py:41-51 | bill and ledger of any state with the money invariant agree iff receipts are matched and nothing earlier was overpaid |
| LedgerRules.ArrearsCarryForward | ai-engine/ai.example/crm_billing.py:5-10 | previous balance of the next invoiced month <= what is rolled over, with equality in exactly the stated case |
| NetworkRules.SyncKeepsStock | ai-engine/ai.example/crm_operations.py:376-395 | synchronising a record keeps the stock invariant and total stock |
| NetworkRules.SyncIssues | ai-engine/ai.example/crm_operations.py:387-393 | reference form of synchronising: the old issue is returned unless it still serves, at most one new one is made |
| NetworkRules.SaveKeepsNetwork | ai-engine/ai.example/crm_operations.py:345-349 | saving and synchronising keeps records and issues in step |
| NetworkRules.DeleteKeepsNetwork | ai-engine/ai.example/crm_operations.py:517-519 | so does deleting a record |
| RecordLaws.SaveKeepsRecords | ai-engine/ai.example/crm_operations.py:288-351 | a save keeps references, receipts, unique names, periods and keys, states and expenses |
| RecordLaws.SavingKeepsReceipts | ai-engine/ai.example/crm_operations.py:329-332 | receipts stay within their invoice |
| RecordLaws.DeleteKeepsRecords | ai-engine/ai.example/crm_operations.py:500-519 | a deletion keeps them: nothing may refer to the record |
| RecordLaws.ArchiveKeepsRecords | ai-engine/ai.example/crm_operations.py:439-444 | archiving keeps them |
| RecordLaws.ReceiveKeepsRecords | ai-engine/ai.example/crm_operations.py:457-463 | receiving keeps them |
| RecordLaws.PayKeepsRecords | ai-engine/ai.example/crm_operations.py:464-474 | paying keeps them and posts one expense |
| RecordLaws.PostedIsFrozen | ai-engine/ai.example/crm_operations.py:293 | a posted record cannot be edited, archived or deleted, and posting again changes nothing |
| RecordLaws.SaveReplayed | ai-engine/ai.example/crm_operations.py:321-327 | a create request under a used key changes nothing; it is accepted only for the same module and form |
| RecordLaws.ReplayIff | ai-engine/ai.example/crm_operations.py:299-327 | a create request under a used key gives the record back if and only if it asks for the module and the form the record has now, unedited since, is not payroll, and still passes validate; otherwise it is refused |
| Examples.ReplayAfterArchive | ai-engine/ai.example/crm_operations.py:196-197 | a run after which that very request is refused: its zone was archived |
| Examples.ReplayAfterEdit | ai-engine/ai.example/crm_operations.py:325 | a run after which it is refused though it would pass validate: the record was edited |
| Examples.PaidWithoutExpense | ai-engine/ai.example/ispcrm.py:531-542 | a run after which a paid record names an expense that is gone |
| Examples.UnmatchedReceipt | ai-engine/ai.example/crm_billing.py:7-9 | a run after which bill and ledger differ: a receipt for a month never invoiced |
| Examples.OverpaidMonth | ai-engine/ai.example/crm_billing.py:10 | a run after which they differ: an overpaid month before |
| RecordDesk.SaveRecordKeepsInv | ai-engine/ai.example/crm_operations.py:336-349 | a save, with warehouse rename and stock synchronisation, keeps every invariant and total stock |
| RecordDesk.DeleteRecordKeepsInv | ai-engine/ai.example/crm_operations.py:504-519 | a deletion keeps every invariant and total stock |
| RecordDesk.ReceiveKeepsInv | ai-engine/ai.example/crm_operations.py:457-463 | receiving keeps every invariant and adds the quantity of the bill |
| RecordDesk.PayRecordKeepsInv | ai-engine/ai.example/crm_operations.py:464-474 | paying keeps every invariant and no stock changes |
| RecordDesk.ArchiveKeepsInv | ai-engine/ai.example/crm_operations.py:439-444 | archiving keeps every invariant |
| CrmService.Crm.SaveStockIssue | ai-engine/ai.example/ispcrm.py:1210-1262 | a new issue writes issue row, charge, invoice, unit and quantity in that order, or nothing |
| CrmService.Crm.ReturnStock | ai-engine/ai.example/ispcrm.py:1193-1207 | stock, status and unit go back and recovery is refreshed; a returned issue is left alone |
| CrmService.Crm.DeleteStockIssue | ai-engine/ai.example/ispcrm.py:1170-1190 | an unpaid issue goes with its charge and its stock comes back; a paid one stays |
| CrmService.Crm.RegisterUnit | ai-engine/ai.example/crm_inventory_qr.py:24-44 | a label is registered once per key; a serial already in the row rolls everything back |
| CrmService.Crm.SetCondition | ai-engine/ai.example/crm_inventory_qr.py:68-76 | only the condition of the scanned device changes |
| CrmService.Crm.Transfer | ai-engine/ai.example/crm_warehouses.py:49-86 | quantity and surplus units move to the target row, made if missing; a serial clash rolls everything back |
| CrmService.Crm.SaveBatch | ai-engine/ai.example/ispcrm.py:552-565 | a row is written only under an active category, its own inactive one excepted, and in a known warehouse, never below its labelled units, and never moved while it holds stock |
| CrmService.Crm.SaveAccount | ai-engine/ai.example/ispcrm.py:567-607 | an account is opened or rewritten; a change to Terminated opens the recovery |
| CrmService.Crm.TerminateAccount | ai-engine/ai.example/crm_termination.py:49-77 | one recovery row per termination; repeating gives the row there is |
| CrmService.Crm.RefreshRecovery | ai-engine/ai.example/crm_termination.py:80-87 | pending rows and the account turn recovered once nothing required is out, and not before |
| CrmService.Crm.SetStatuses | ai-engine/ai.example/crm_operations.py:655-663 | all the accounts get the status or none does |
| CrmService.Crm.ChangeAccount | ai-engine/ai.example/crm_operations.py:414-427 | a live account gets the approved status or fee; a terminated one is refused |
| CrmService.Crm.SavePaymentRequest | ai-engine/ai.example/crm_recharge.py:40-126 | a new payment is booked once per key; edits and deletions reach the receipt check |
| CrmService.Crm.Recharge | ai-engine/ai.example/crm_recharge.py:14-37 | invoice raised, arrears and receipts compared, thirty days added at most once a month |
| CrmService.Crm.Finish | ai-engine/ai.example/crm_receipts.py:28-39 | renewal, then a receipt unless there is one; an OTC payment with partial activation is undone |
| CrmService.Crm.AddServiceCharge | ai-engine/ai.example/crm_customer_ledger.py:12-26 | one charge per key for a known customer |
| CrmService.Crm.BillStockIssue | ai-engine/ai.example/crm_customer_ledger.py:61-70 | one charge per billable issue, and the invoice of its month |
| CrmService.Crm.RaiseIfMissing | ai-engine/ai.example/crm_billing.py:13-27 | the month has its invoice afterwards, or the account is terminated and has none |
| CrmService.Crm.GenerateMonthlyInvoices | ai-engine/ai.example/crm_billing.py:30-38 | the loop over the customers selected first equals billing customer by customer |
| CrmService.Crm.MonthlyInvoices | ai-engine/ai.example/crm_billing.py:41-51 | the loop fills each invoice, newest month first, with its bill |
| CrmService.Crm.Ledger | ai-engine/ai.example/crm_customer_ledger.py:35-50 | the loop returns the sorted entries, the balance after each, and a closing balance equal to the aggregate |
| CrmService.Crm.SaveOperation | ai-engine/ai.example/crm_operations.py:288-351 | a record is saved with its stock synchronised, or nothing is when stock runs short |
| CrmService.Crm.Validate | ai-engine/ai.example/crm_operations.py:170-222 | the checks in order, the loop over the references first, find the objection to a form |
| CrmService.Crm.CheckSave | ai-engine/ai.example/crm_operations.py:291-320 | the checks before the key is looked up find the objection to a request |
| CrmService.Crm.SyncRecord | ai-engine/ai.example/crm_operations.py:376-395 | the linked issue is kept when it still serves, else returned and replaced |
| CrmService.Crm.IssueForRecord | ai-engine/ai.example/crm_operations.py:354-364 | free stock only, labelled units excepted, goes to the network |
| CrmService.Crm.ReturnLinked | ai-engine/ai.example/crm_operations.py:367-373 | the linked issue is returned when it is out, else nothing happens |
| CrmService.Crm.Archive | ai-engine/ai.example/crm_operations.py:439-444 | an open record is archived unless receipts or parts hold it |
| CrmService.Crm.DeleteOperation | ai-engine/ai.example/crm_operations.py:504-522 | a record nothing refers to goes and its stock comes back |
| CrmService.Crm.Receive | ai-engine/ai.example/crm_operations.py:457-463 | the quantity of the bill is added once |
| CrmService.Crm.PayOperation | ai-engine/ai.example/crm_operations.py:464-474 | one expense for the total, and the record carries its id |
| CrmService.Crm.SaveExpense | ai-engine/ai.example/ispcrm.py:634-671 | an expense is added or rewritten, that of a paid record too |
| CrmService.Crm.DeleteExpense | ai-engine/ai.example/ispcrm.py:531-542 | an expense is deleted, that of a paid record too |
| RouterOsCodec.LengthRoundTrip | tools/check-mikrotik-api.js:32-53 | decode(encode(n)) gives n mod 2^29 and the bytes used, so n itself if and only if n < 2^29 |
| RouterOsCodec.LengthOnWire | tools/check-mikrotik-api.js:32-37 | a length below 2^29 is written most significant byte first, in one to four bytes marked by the top bits |
| RouterOsCodec.EncodeSentence | tools/check-mikrotik-api.js:38-46 | the loop gives every word with its length, then a zero byte |
| RouterOsCodec.Connection.OnData | tools/check-mikrotik-api.js:66-97 | the data handler computes what feeding the bytes means |
| RouterOsCodec.Connection.OnWord | tools/check-mikrotik-api.js:78-94 | one word changes the first request as the protocol says |
| RouterOsReply.SentenceRoundTrip | tools/check-mikrotik-api.js:38-53 | decoding an encoded sentence gives its non-empty words, whatever they are, and goes on behind it for the requests they leave waiting |
| RouterOsReply.LastSentence | tools/check-mikrotik-api.js:69-81 | the words that finish the last waiting request are read up to !done; what follows stays unread |
| RouterOsReply.AttributeRead | tools/check-mikrotik-api.js:87-93 | an attribute word is split at the first = after its first character |
| RouterOsReply.WordReads | tools/check-mikrotik-api.js:82-93 | every word but !done: !re closes the row, a trap marks the request, an attribute fills the row or gives the reason behind a trap, any other word changes nothing |
| RouterOsReply.ReplyResolves | tools/check-mikrotik-api.js:78-83 | a reply of rows resolves the first request with exactly those rows |
| RouterOsReply.TrapRejects | tools/check-mikrotik-api.js:84-92 | a trap rejects it with the message that follows |
| RouterOsSession.TwoChunks | tools/check-mikrotik-api.js:66-97 | two chunks not cut inside a length prefix do as their concatenation |
| RouterOsSession.ChunkingIsInvisible | tools/check-mikrotik-api.js:66-97 | a cut is invisible for every continuation if and only if it does not fall right behind a prefix byte whose truncated length reads as zero |
| RouterOsSession.AnyChunking | tools/check-mikrotik-api.js:66-97 | any number of such chunks |
| RouterOsSession.CutExample | tools/check-mikrotik-api.js:70-73 | bytes for which an unlucky cut changes the result |
| RouterOsSession.FirstInFirstOut | tools/check-mikrotik-api.js:57-81 | over any run requests settle first in first out, each once |
| SqlSplitter.SplitSql | Claude outputs/jbx-license/install.php:282-336 | the nested loops compute the statements of the scan |
| SqlSplitter.CopyLiteral | Claude outputs/jbx-license/install.php:305-320 | the literal loop copies to the closing quote or the end |
| SqlSplitter.StatementsTrimmed | Claude outputs/jbx-license/install.php:322-323 | every statement is trimmed and not empty |
| SqlSplitter.ClosedComposes | Claude outputs/jbx-license/install.php:289-335 | if a ends with quotes and comments closed, split(a;b) = split(a) ++ split(b) |
| SqlSplitter.SeparatesIffClosed | Claude outputs/jbx-license/install.php:289-335 | a semicolon separates a from every b if and only if a is closed |
| SqlSplitter.JoinRoundTrip | Claude outputs/jbx-license/install.php:282-336 | splitting the join of trimmed, closed, comment-free statements returns them |
| SqlSplitter.ReadsExactly | Claude outputs/jbx-license/install.php:282-336 | the statements of a text are those of its parts: comments dropped, cut at semicolons outside of comments and literals, everything else as written |
| SqlSplitter.EveryTextReads | Claude outputs/jbx-license/install.php:289-335 | every text is made of such parts |
| SqlSplitter.EscapedIsOneStatement | Claude outputs/jbx-license/install.php:305-320 | a quoted value with backslashes and quotes escaped is one statement, whatever it holds |
| SqlSplitter.BackticksEscapeNothing | Claude outputs/jbx-license/install.php:310 | between backticks a backslash escapes nothing |
| SqlSplitter.CommentsVanish | Claude outputs/jbx-license/install.php:293-303 | a comment contributes nothing and separates nothing |
| SqlSplitter.TrimIsExact | Claude outputs/jbx-license/install.php:322 | trim cuts blanks off both ends and nothing else |
| Blanker.StripCommentsAndStrings | backend/scripts/audit-unbounded-queries.js:85-113 | the loop computes the blanked text |
| Blanker.PositionsKept | backend/scripts/audit-unbounded-queries.js:85-113 | length and newlines are kept and every character is itself or a space, for all texts |
| Blanker.BlanksExactly | backend/scripts/audit-unbounded-queries.js:85-113 | of a text read as parts, code, the quotes of literals and newlines are kept; every other character becomes a space |
| Blanker.EveryTextReads | backend/scripts/audit-unbounded-queries.js:89-111 | every text is made of such parts |
| Blanker.LineCommentErased | backend/scripts/audit-unbounded-queries.js:91-95 | a line comment up to the newline becomes spaces, what follows is read by itself |
| Blanker.BlockCommentErased | backend/scripts/audit-unbounded-queries.js:96-100 | so for a block comment, newlines kept |
| Blanker.LiteralErased | backend/scripts/audit-unbounded-queries.js:101-106 | a literal keeps its two quotes alone, escapes respected |
| Blanker.CodeStays | backend/scripts/audit-unbounded-queries.js:107-110 | text that opens no comment and no literal stays as it is |
| Blanker.Idempotent | backend/scripts/audit-unbounded-queries.js:85-113 | blanking twice is blanking once |
| StaffHierarchy.WalkDecides | ai-engine/ai.example/crm_employee_hierarchy.py:7-14 | the walk accepts exactly when the chain of managers ends without the employee; it terminates on any table |
| StaffHierarchy.GuardIsExact | ai-engine/ai.example/crm_employee_hierarchy.py:3-15 | a save keeps the table a forest if and only if the walk accepts it |
| StaffHierarchy.RunKeepsForest | ai-engine/ai.example/crm_employee_hierarchy.py:3-15 | over any sequence of saves and leavings the table stays a forest |
| StaffHierarchy.ForestHasNoCycle | ai-engine/ai.example/crm_employee_hierarchy.py:10 | in a forest nobody is above himself |
| StaffHierarchy.StaffTable.SaveEmployee | ai-engine/ai.example/crm_employee_hierarchy.py:7-15 | the while loop over current and visited decides as the walk and writes the manager only then |

## Where a stated promise fails

- Chunked RouterOS input is not always invisible: a chunk that ends inside a length prefix whose bits so far are zero
  (behind 0x80, 0xc0, 0xc0 00, 0xe0, 0xe0 00 or 0xe0 00 00) reads as length zero and is skipped
  (`RouterOsSession.CutExample`). `RouterOsSession.ChunkingIsInvisible` gives the exact condition.
- Lengths from 2^29 on do not survive the RouterOS codec; `RouterOsCodec.LengthRoundTrip` says what they become.
- Bill and ledger can differ: `Examples.UnmatchedReceipt` and `Examples.OverpaidMonth` are runs in which the bill shows
  more than the ledger. `LedgerRules.BillReconciles` and `ReachableFacts.BillsReconcile` give the exact condition.
- Repeating the request that created an operations record does not always give the record back: the form is validated
  before the key is looked up (`Examples.ReplayAfterArchive`), and is then compared with what the record holds now
  (`Examples.ReplayAfterEdit`). `RecordLaws.ReplayIff` gives the exact condition: the record not edited to another form
  since; not payroll, whose own record takes the pay period; no referenced record archived since; the item row still
  there; no receipt date ahead of today. Whatever the answer, nothing changes (`RecordLaws.SaveReplayed`).
- A paid record does not always have its expense: the expense form edits and deletes any row
  (`Examples.PaidWithoutExpense`). `Postings.PostedExpenseStands` gives the exact condition: nobody with the right
  deleted the row, and the last accepted edit of it, if any, wrote the total of the form.

## Left out

- HTTP routing, sessions, passwords, role tables, e-mail, notifications, portal pages, documents, photos and the AI assistant.
- Parsing of amounts, dates, e-mail addresses, CNIC and coordinates: requests carry typed values; dates carry their month instead of being converted.
- Tickets, ticket events, TAT deadlines and expiry-recovery tickets: no modelled table depends on them.
- Concurrency inside a transaction: row and advisory locks make transactions serial, which is what the state machine assumes.
- Integer and NUMERIC column widths: quantities and amounts are unbounded, except for the limits the code checks itself.
- Movement rows of devices, stocktakes and audit events: the one movement that is read back, the device of an issue, is a field of the issue.
- QR label text: a label is its unit id; malformed labels are refused before the model starts.
- Cities, areas of customers, packages, categories, designations and staff rows: names and fees are taken as given, whether a category exists and is active comes with the request, references to staff are not checked.
- Names of companies and areas are unique in the model; case folding is on ASCII letters.
- Modules without references or postings (tasks, notices, messages, assets, peaks and the like), requisitions, approvals, and the generation of payroll and daily reseller invoices, which only call save.
- Expense titles, categories, payees, statuses and customers: an expense is its reference, amount and day.
- Schema creation, migrations, importers of customers and the default warehouse of a first start.
- Route length of a cable is a given number of decimetres; the distance formula and map export are not modelled.
- UTF-8 decoding of RouterOS words: words are byte strings; timeouts and socket errors are not modelled.
- A RouterOS reply attribute named `__proto__` is kept like any other; in the program it does not become an own key of the JavaScript object.
- Customer deletion checks only foreign keys from modelled tables.
- CrmService.Crm.SaveAccount: packages, areas and coordinates are not modelled, so their checks are not made; the fee is given.
- CrmService.Crm.Archive: areas of customers are not modelled, so an area in use is not refused.
