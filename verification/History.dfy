/** What no run of the CRM ever forgets, undoes or exceeds. */
module History {
  import opened Tables
  import opened CrmData
  import opened StockRules
  import opened RecoveryRules
  import opened ChargeRules
  import opened BillingRules
  import opened PaymentRules
  import opened AccountRules
  import opened NetworkRules
  import opened RecordRules
  import opened RecordLaws
  import opened Invariant
  import opened Pricing
  import opened IssueDesk
  import opened WarehouseDesk
  import opened CustomerDesk
  import opened CrmMachine
  import opened Conservation

  // ----- tables that only grow ----------------------------------------------------------

  /** Every row there was is still there, unchanged. */
  predicate Keeps<T(==)>(t: Table<T>, after: Table<T>) {
    forall k :: k in t.rows ==> k in after.rows && after.rows[k] == t.rows[k]
  }

  /** Payments, receipts, invoices and renewals stay for ever. */
  ghost predicate MoneyRemembered(m: Money, after: Money) {
    && Keeps(m.payments, after.payments) && Keeps(m.invoices, after.invoices) && Keeps(m.recharges, after.recharges)
    && (forall k :: k in m.receipts ==> k in after.receipts && after.receipts[k] == m.receipts[k])
  }

  /** An id once handed out does not come back for another row. */
  predicate IdsStay<T(==)>(t: Table<T>, after: Table<T>) {
    t.next <= after.next && forall k :: k in after.rows && k !in t.rows ==> t.next <= k
  }

  /** So do transfers and what was posted on records; expense ids are not used again. */
  ghost predicate Remembers(db: Db, after: Db) {
    && MoneyRemembered(db.money, after.money)
    && Keeps(db.transfers, after.transfers) && IdsStay(db.expenses, after.expenses)
    && Advances(db.records, after.records)
  }

  lemma InvoicingRemembers(m: Money, customer: Customer, c: nat, month: Month, today: Date)
    ensures var r := EnsureInvoice(m, customer, c, month, today); r.Some? ==> MoneyRemembered(m, r.value)
  {
    hide HasInvoice, PreviousBalance;
  }

  lemma RenewingRemembers(m: Money, customer: Customer, c: nat, month: Month, payment: nat, partial: bool, today: Date)
    ensures MoneyRemembered(m, ApplyRecharge(m, customer, c, month, payment, partial, today).money)
  {
    hide HasRecharge, PreviousBalance, Sum, HasInvoice, Missing;
    if customer.status != Terminated && month == today.month && !HasRecharge(m, c, month) {
      InvoicingRemembers(m, customer, c, month, today);
    }
  }

  /** A payment that changed anything was booked as a new row. */
  lemma SavedByBooking(m: Money, p: People, q: PaymentRequest, today: Date)
    requires MoneyOk(m, p.customers)
    ensures var r := SavePayment(m, p, q, today);
            r.Saved? && !(r.money == m && r.people == p) ==>
              q.form.customer in p.customers.rows
              && r == Book(m, p, m.payments.next, Insert(m.payments, Payment(q.form, q.key)), q.form, q.partial, today)
  {
    hide RechargesOk, Billing, NotOver, KeysUnique, PaymentsOk, Objection, Book, HasRecharge;
    if q.rid.Some? || q.deleting {
      PaymentsArePermanent(m, p, q, today);
    }
  }

  lemma PayingRemembers(m: Money, p: People, q: PaymentRequest, today: Date)
    requires MoneyOk(m, p.customers)
    ensures var r := SavePayment(m, p, q, today); r.Saved? ==> MoneyRemembered(m, r.money)
  {
    hide MoneyOk, SavePayment, ApplyRecharge;
    SavedByBooking(m, p, q, today);
    var r := SavePayment(m, p, q, today);
    if r.Saved? && !(r.money == m && r.people == p) {
      var booked := m.(payments := Insert(m.payments, Payment(q.form, q.key)));
      RenewingRemembers(booked, p.customers.rows[q.form.customer], q.form.customer, q.form.month, m.payments.next,
                        q.partial, today);
    }
  }

  lemma GeneratingRemembers(m: Money, customers: Table<Customer>, today: Date)
    requires InvoicesUnique(m.invoices)
    ensures MoneyRemembered(m, Generate(m, customers, today))
  {
    hide GenerateBelow, BilledBelow, NewAtFee;
    GenerateBillsEachOnce(m, customers, today, customers.next);
  }

  lemma BillingRemembers(m: Money, customers: Table<Customer>, id: nat, i: Issue, today: Date)
    ensures MoneyRemembered(m, BillIssue(m, customers, id, i, today))
  {
    hide Bill, EnsureInvoice;
    if Billable(i) && i.form.to.customer in customers.rows {
      var charged := m.(charges := Bill(m.charges, id, i));
      InvoicingRemembers(charged, customers.rows[i.form.to.customer], i.form.to.customer, i.form.date.month, today);
    }
  }

  lemma MoneyStays(m: Money)
    ensures MoneyRemembered(m, m)
  {}

  lemma MoneyFacts(db: Db)
    requires Inv(db)
    ensures MoneyOk(db.money, db.people.customers) && InvoicesUnique(db.money.invoices) && StatesOk(db.records)
  {
    hide StockOk, TransfersOk, RecoveryOk, ChargesOk, NetworkOk, LocationsOk, IssueKeysUnique, DeviceKeysUnique,
         StatesOk, FormsOk, ExpensesOk, PaymentsOk, ReceiptsOk, NotOver, KeysUnique, RechargesOk, InvoicesUnique;
    InvGroups(db);
  }

  lemma ClericalRemembers(db: Db, e: Event)
    requires Inv(db) && Clerical(e.cmd)
    ensures MoneyRemembered(db.money, After(db, e).money)
  {
    hide Inv, SavePayment, EnsureInvoice, Generate, Rewrite, Terminate, CustomerInUse, EditObjectionTo,
         MoneyRemembered, MoneyOk, InvoicesUnique, StatesOk;
    MoneyFacts(db);
    MoneyStays(db.money);
    match e.cmd
    case CmdPay(q) => PayingRemembers(db.money, db.people, q, e.today);
    case CmdInvoice(c, month) =>
      if c in db.people.customers.rows {
        InvoicingRemembers(db.money, db.people.customers.rows[c], c, month, e.today);
      }
    case CmdMonthlyRun => GeneratingRemembers(db.money, db.people.customers, e.today);
    case CmdCharge(q) => ChargingRemembers(db, q);
    case _ =>
  }

  lemma ChargingRemembers(db: Db, q: ChargeRequest)
    ensures MoneyRemembered(db.money, Commit(db, AddCharge(db, q)).money)
  {}

  lemma IssuingRemembers(db: Db, q: IssueRequest, today: Date)
    ensures var after := Commit(db, IssueStock(db, q, today));
            MoneyRemembered(db.money, after.money) && after.people == db.people && after.transfers == db.transfers
  {
    hide BillIssue, Place, StockIssuePrice, MoneyRemembered;
    MoneyStays(db.money);
    var o := IssueStock(db, q, today);
    if o.Done? && First(db.stock.issues, IssueKey(q.key)).None? {
      BillingRemembers(db.money, db.people.customers, db.stock.issues.next,
                       IssueRow(q, db.stock.inventory.rows[q.form.batch]), today);
    }
  }

  lemma StockRemembers(db: Db, e: Event)
    requires StockCmd(e.cmd)
    ensures MoneyRemembered(db.money, After(db, e).money) && Keeps(db.transfers, After(db, e).transfers)
  {
    hide BringBack, Erase, RefreshFor, Unbill, Moved, Label, SerialsUnique, TransferObjection, Shelf, InUseBy,
         InTransfers, ActiveWarehouse, IssueStock, MoneyRemembered, RowAt, Surplus;
    MoneyStays(db.money);
    match e.cmd
    case CmdIssue(q) => IssuingRemembers(db, q, e.today);
    case CmdDeleteIssue(id, admin) => DeletingRemembers(db, id, admin);
    case _ =>
  }

  lemma DeletingRemembers(db: Db, id: nat, admin: bool)
    ensures MoneyRemembered(db.money, Commit(db, DeleteIssue(db, id, admin)).money)
  {
    hide Erase, RefreshFor, Unbill;
  }

  lemma SaveLeavesAccounts(db: Db, q: SaveRequest, today: Date)
    ensures var after := Commit(db, SaveRecord(db, q, today));
            after.money == db.money && after.people == db.people && after.transfers == db.transfers
            && after.expenses == db.expenses
  {
    hide SaveRecord, Written, Cleared;
    var o := SaveRecord(db, q, today);
    if o.Done? && o.db != db {
      SavedRow(db, q, today);
    }
  }

  lemma RecordLeavesAccounts(db: Db, e: Event)
    requires RecordCmd(e.cmd)
    ensures After(db, e).money == db.money && After(db, e).people == db.people && After(db, e).transfers == db.transfers
    ensures IdsStay(db.expenses, After(db, e).expenses)
  {
    hide SaveRecord, HasParts, HasReceiptsOn, IsReferenced, HoldsStock, GiveBack, AddQuantity, TotalOf;
    if e.cmd.CmdSaveRecord? {
      SaveLeavesAccounts(db, e.cmd.record, e.today);
    }
  }

  lemma RecordsAdvance(db: Db, e: Event)
    requires StatesOk(db.records) && RecordCmd(e.cmd)
    ensures Advances(db.records, After(db, e).records)
  {
    hide SaveRecord, ArchiveRecord, DeleteRecord, ReceiveBill, PayRecord, Advances, StatesOk;
    match e.cmd
    case CmdSaveRecord(q) => SaveAdvances(db, q, e.today);
    case CmdArchive(mod, id) => ArchiveAdvances(db, mod, id);
    case CmdDeleteRecord(mod, id, manager) => DeleteAdvances(db, mod, id, manager);
    case CmdReceive(id) => PostingAdvances(db, PurchaseBills, id, PayTerms(0, false, false, false), e.today);
    case CmdPayRecord(mod, id, terms) => PostingAdvances(db, mod, id, terms, e.today);
    case _ =>
  }

  lemma ExpenseIdsStay(db: Db, e: Event)
    requires ExpenseCmd(e.cmd)
    ensures IdsStay(db.expenses, After(db, e).expenses) && After(db, e) == db.(expenses := After(db, e).expenses)
  {}

  lemma StepRemembers(db: Db, e: Event)
    requires Inv(db)
    ensures Remembers(db, After(db, e))
  {
    hide Inv, After, MoneyRemembered, MoneyOk, InvoicesUnique, StatesOk;
    MoneyFacts(db);
    MoneyStays(db.money);
    if Clerical(e.cmd) {
      ClericalRemembers(db, e);
      ClericalLeavesStock(db, e);
    } else if StockCmd(e.cmd) {
      StockRemembers(db, e);
      StockLeavesRecords(db, e);
    } else if ExpenseCmd(e.cmd) {
      ExpenseIdsStay(db, e);
    } else {
      RecordLeavesAccounts(db, e);
      RecordsAdvance(db, e);
    }
  }

  /** Over any run: no payment, receipt, invoice, renewal or transfer is ever changed or lost, no expense id is given
      out twice, and a record once received or paid keeps its form and its posting. */
  lemma {:induction false} RunRemembers(db: Db, events: seq<Event>)
    requires Inv(db)
    ensures Remembers(db, Run(db, events))
    decreases |events|
  {
    hide Inv, After;
    if events != [] {
      StepRemembers(db, events[0]);
      StepKeepsInv(db, events[0]);
      RunRemembers(After(db, events[0]), events[1..]);
    }
  }
}
