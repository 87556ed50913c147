/** Customer accounts: opening, editing, suspending and terminating them, and what they are billed and pay. */
module CustomerDesk {
  import opened Tables
  import opened CrmData
  import opened StockRules
  import opened RecoveryRules
  import opened ChargeRules
  import opened BillingRules
  import opened PaymentRules
  import opened AccountRules
  import opened NetworkRules
  import opened RecordRules
  import opened RecordLaws
  import opened Invariant

  // ----- transactions --------------------------------------------------------------------

  /** A new row of section Customers; recovery status is never entered. */
  function AddCustomer(db: Db, c: Customer): Outcome {
    if c.status == Terminated then Refused(CustomerTerminated)
    else if c.expiry < c.joined.day then Refused(BadExpiry)
    else
      Done(db.(people := db.people.(customers := Insert(db.people.customers, c.(recovery := NotRequired)))),
           db.people.customers.next)
  }

  /** The checks of an edit, in the order the program makes them. */
  function EditObjectionTo(m: Money, customers: Table<Customer>, id: nat, c: Customer): Option<Error> {
    if id !in customers.rows then
      Some(if c.status == Terminated then CustomerTerminated
           else if c.expiry < c.joined.day then BadExpiry else NoSuchCustomer)
    else
      var row := customers.rows[id];
      if row.status == Terminated && row.recovery == RecoveryPending && c.status != Terminated then
        Some(RecoveryOutstanding)
      else if c.installation < InstallationPaid(m.payments, id) then Some(BelowCollected)
      else if c.expiry < c.joined.day then Some(BadExpiry)
      else None
  }

  /** Termination from the record runs before the row is written and once more after it. */
  function Rewrite(p: People, issues: Table<Issue>, id: nat, c: Customer, day: int): People
    requires id in p.customers.rows
  {
    var before :=
      if p.customers.rows[id].status != Terminated && c.status == Terminated then Terminate(p, issues, id, day) else p;
    var written := before.(customers := Put(before.customers, id, c.(recovery := before.customers.rows[id].recovery)));
    if c.status == Terminated then Terminate(written, issues, id, day) else written
  }

  function EditCustomer(db: Db, id: nat, c: Customer, day: int): Outcome {
    var o := EditObjectionTo(db.money, db.people.customers, id, c);
    if o.Some? then Refused(o.value)
    else Done(db.(people := Rewrite(db.people, db.stock.issues, id, c, day)), id)
  }

  /** Foreign keys hold an account that anything names. */
  predicate CustomerInUse(db: Db, id: nat) {
    || (exists i :: i in db.stock.issues.rows && db.stock.issues.rows[i].form.to == ToCustomer(id))
    || (exists r :: r in db.people.recoveries.rows && db.people.recoveries.rows[r].customer == id)
    || (exists k :: k in db.money.charges.rows && db.money.charges.rows[k].customer == id)
    || (exists i :: i in db.money.invoices.rows && db.money.invoices.rows[i].customer == id)
    || (exists p :: p in db.money.payments.rows && db.money.payments.rows[p].form.customer == id)
  }

  function RemoveCustomer(db: Db, id: nat): Outcome {
    if id !in db.people.customers.rows then Refused(NoSuchCustomer)
    else if CustomerInUse(db, id) then Refused(InUse)
    else Done(db.(people := db.people.(customers := Drop(db.people.customers, id))), id)
  }

  /** terminate; `available` says that the recovery employee named, if any, exists and is not on leave. */
  function TerminateCustomer(db: Db, c: nat, reason: string, available: bool, day: int): Outcome {
    if c !in db.people.customers.rows then Refused(NoSuchCustomer)
    else
      var row := Last(db.people.recoveries, RowOf(c));
      if db.people.customers.rows[c].status == Terminated && row.Some? then Done(db, row.value)
      else if reason == "" || |reason| > 2000 then Refused(BadReason)
      else if !available then Refused(NoSuchEmployee)
      else Done(db.(people := Terminate(db.people, db.stock.issues, c, day)), db.people.recoveries.next)
  }

  /** bulk_status; the limit counts the ids as submitted, repeated ones too. */
  function BulkStatus(db: Db, ids: seq<nat>, status: Status): Outcome {
    if status == Terminated then Refused(NotAllowed)
    else if !(1 <= |ids| <= 200) then Refused(BadForm)
    else if exists c :: c in ids && c !in db.people.customers.rows then Refused(NoSuchCustomer)
    else if exists c :: c in ids && db.people.customers.rows[c].status == Terminated then Refused(CustomerTerminated)
    else Done(db.(people := db.people.(customers := WithStatus(db.people.customers, ids, status))), 0)
  }

  function WithStatus(customers: Table<Customer>, ids: seq<nat>, status: Status): Table<Customer> {
    RawTable(map c | c in customers.rows ::
               if c in ids then customers.rows[c].(status := status) else customers.rows[c], customers.next)
  }

  /** apply_customer_change: a new status, or the price of a new package. */
  datatype Change = NewStatus(status: Status) | NewFee(fee: nat)

  function ApplyChange(db: Db, c: nat, change: Change): Outcome {
    if c !in db.people.customers.rows then Refused(NoSuchCustomer)
    else
      var row := db.people.customers.rows[c];
      if row.status == Terminated then Refused(CustomerTerminated)
      else if change == NewStatus(Terminated) then Refused(NotAllowed)
      else
        var after := match change
                     case NewStatus(status) => row.(status := status)
                     case NewFee(fee) => row.(fee := fee);
        Done(db.(people := db.people.(customers := Put(db.people.customers, c, after))), c)
  }

  function Pay(db: Db, q: PaymentRequest, today: Date): Outcome {
    match SavePayment(db.money, db.people, q, today)
    case Rejected(e) => Refused(e)
    case Saved(money, people, id, _) => Done(db.(money := money, people := people), id)
  }

  /** An invoice raised by hand. */
  function RaiseInvoice(db: Db, c: nat, month: Month, today: Date): Outcome {
    if c !in db.people.customers.rows then Refused(NoSuchCustomer)
    else
      match EnsureInvoice(db.money, db.people.customers.rows[c], c, month, today)
      case None => Refused(CustomerTerminated)
      case Some(m) => Done(db.(money := m), InvoiceOf(m.invoices, c, month).value)
  }

  function MonthlyRun(db: Db, today: Date): Outcome {
    Done(db.(money := Generate(db.money, db.people.customers, today)), 0)
  }

  // ----- recovery under customer changes ---------------------------------------------------

  /** A row rewritten without touching recovery; only a settled account leaves Terminated. */
  lemma RewritingKeepsRecovery(p: People, issues: Table<Issue>, id: nat, c: Customer)
    requires RecoveryOk(p, issues) && id in p.customers.rows
    requires var row := p.customers.rows[id];
             c.recovery == row.recovery
             && (c.status == row.status || (c.status != Terminated && row.recovery != RecoveryPending))
    ensures RecoveryOk(p.(customers := Put(p.customers, id, c)), issues)
  {
    hide HasPending, HasRow, HasPendingRow;
    assert StatusRight(p.customers.rows[id], HasPending(issues, id), HasRow(p.recoveries, id),
                       HasPendingRow(p.recoveries, id));
  }

  lemma LiveIsSettled(p: People, issues: Table<Issue>, id: nat)
    requires RecoveryOk(p, issues) && id in p.customers.rows && p.customers.rows[id].status != Terminated
    ensures p.customers.rows[id].recovery != RecoveryPending
  {
    hide HasPending, HasRow, HasPendingRow;
    assert StatusRight(p.customers.rows[id], HasPending(issues, id), HasRow(p.recoveries, id),
                       HasPendingRow(p.recoveries, id));
  }

  lemma OpeningKeepsRecovery(p: People, issues: Table<Issue>, c: Customer)
    requires RecoveryOk(p, issues) && c.status != Terminated && c.recovery == NotRequired
    ensures RecoveryOk(p.(customers := Insert(p.customers, c)), issues)
  {
    hide HasPending, HasRow;
    forall r | r in p.recoveries.rows ensures !PendingRowOf(p.customers.next)(p.recoveries.rows[r]) {}
    assert StatusRight(c, HasPending(issues, p.customers.next), HasRow(p.recoveries, p.customers.next),
                       HasPendingRow(p.recoveries, p.customers.next));
  }

  lemma RewriteKeepsRecovery(p: People, issues: Table<Issue>, id: nat, c: Customer, day: int)
    requires RecoveryOk(p, issues) && id in p.customers.rows
    requires p.customers.rows[id].status == Terminated && p.customers.rows[id].recovery == RecoveryPending ==>
               c.status == Terminated
    ensures RecoveryOk(Rewrite(p, issues, id, c, day), issues)
  {
    hide RecoveryOk, Terminate;
    var row := p.customers.rows[id];
    var before := if row.status != Terminated && c.status == Terminated then Terminate(p, issues, id, day) else p;
    if row.status != Terminated {
      LiveIsSettled(p, issues, id);
    }
    if before != p {
      TerminateKeepsRecovery(p, issues, id, day);
    }
    TerminateKeepsRows(p, issues, id, day);
    RewritingKeepsRecovery(before, issues, id, c.(recovery := before.customers.rows[id].recovery));
    var written := before.(customers := Put(before.customers, id, c.(recovery := before.customers.rows[id].recovery)));
    if c.status == Terminated {
      TerminateKeepsRecovery(written, issues, id, day);
    }
  }

  lemma TerminateKeepsRows(p: People, issues: Table<Issue>, c: nat, day: int)
    requires c in p.customers.rows
    ensures var after := Terminate(p, issues, c, day).customers;
            && after.rows.Keys == p.customers.rows.Keys && after.next == p.customers.next
            && (forall d :: d in p.customers.rows && d != c ==> after.rows[d] == p.customers.rows[d])
            && after.rows[c] == p.customers.rows[c].(status := after.rows[c].status, recovery := after.rows[c].recovery)
            && after.rows[c].status == Terminated
  {
    hide HasPending, HasRow;
  }

  // ----- money under customer changes ----------------------------------------------------------

  lemma {:induction false} NoInstallation(payments: Table<Payment>, c: nat, n: nat)
    requires forall p :: p in payments.rows ==> payments.rows[p].form.customer != c
    ensures SumBelow(payments.rows, TowardInstallation(c), n) == 0
  {
    if n > 0 {
      NoInstallation(payments, c, n - 1);
    }
  }

  /** An account that is new, or keeps an installation charge no less than what was collected. */
  lemma AccountKeepsMoney(m: Money, customers: Table<Customer>, after: Table<Customer>, id: nat)
    requires MoneyOk(m, customers)
    requires id in after.rows && after.rows.Keys == customers.rows.Keys + {id}
    requires forall c :: c in customers.rows && c != id ==> after.rows[c] == customers.rows[c]
    requires InstallationPaid(m.payments, id) <= after.rows[id].installation
    ensures MoneyOk(m, after)
  {
    hide RechargesOk, ReceiptsOk, KeysUnique, InstallationPaid, PaidOn, LinkOk;
  }

  lemma NewAccountUnpaid(m: Money, customers: Table<Customer>)
    requires PaymentsOk(m.payments, m.charges, customers)
    ensures InstallationPaid(m.payments, customers.next) == 0
  {
    hide LinkOk;
    NoInstallation(m.payments, customers.next, m.payments.next);
  }

  lemma RemovalKeepsMoney(m: Money, customers: Table<Customer>, id: nat)
    requires MoneyOk(m, customers)
    requires forall k :: k in m.charges.rows ==> m.charges.rows[k].customer != id
    requires forall i :: i in m.invoices.rows ==> m.invoices.rows[i].customer != id
    requires forall p :: p in m.payments.rows ==> m.payments.rows[p].form.customer != id
    ensures MoneyOk(m, Drop(customers, id))
  {
    hide RechargesOk, ReceiptsOk, KeysUnique, InstallationPaid, PaidOn, LinkOk;
  }

  lemma RemovalKeepsRecovery(p: People, issues: Table<Issue>, id: nat)
    requires RecoveryOk(p, issues)
    requires forall i :: i in issues.rows ==> issues.rows[i].form.to != ToCustomer(id)
    requires forall r :: r in p.recoveries.rows ==> p.recoveries.rows[r].customer != id
    ensures RecoveryOk(p.(customers := Drop(p.customers, id)), issues)
  {
    hide HasPending, HasRow, HasPendingRow;
  }

  // ----- every transaction keeps the invariant ---------------------------------------------------

  lemma AddCustomerKeepsInv(db: Db, c: Customer)
    requires Inv(db)
    ensures Inv(Commit(db, AddCustomer(db, c)))
  {
    hide StockOk, TransfersOk, RecoveryOk, ChargesOk, MoneyOk, NetworkOk, RecordsOk, LocationsOk, IssueKeysUnique,
         DeviceKeysUnique, InstallationPaid;
    InvGroups(db);
    InvGroups(Commit(db, AddCustomer(db, c)));
    var o := AddCustomer(db, c);
    if o.Done? {
      OpeningKeepsRecovery(db.people, db.stock.issues, c.(recovery := NotRequired));
      assert PaymentsOk(db.money.payments, db.money.charges, db.people.customers) by {
        MoneyParts(db.money, db.people.customers);
      }
      NewAccountUnpaid(db.money, db.people.customers);
      AccountKeepsMoney(db.money, db.people.customers, o.db.people.customers, db.people.customers.next);
    }
  }

  lemma MoneyParts(m: Money, customers: Table<Customer>)
    requires MoneyOk(m, customers)
    ensures PaymentsOk(m.payments, m.charges, customers) && InvoicesUnique(m.invoices)
  {
    hide PaymentsOk, InvoicesUnique, NotOver, KeysUnique, RechargesOk;
  }

  lemma RewrittenRows(p: People, issues: Table<Issue>, id: nat, c: Customer, day: int)
    requires id in p.customers.rows
    ensures var after := Rewrite(p, issues, id, c, day).customers;
            && after.rows.Keys == p.customers.rows.Keys
            && (forall d :: d in p.customers.rows && d != id ==> after.rows[d] == p.customers.rows[d])
            && after.rows[id] == c.(recovery := after.rows[id].recovery)
  {
    hide Terminate;
    var before :=
      if p.customers.rows[id].status != Terminated && c.status == Terminated then Terminate(p, issues, id, day) else p;
    if before != p {
      TerminateKeepsRows(p, issues, id, day);
    }
    assert id in before.customers.rows by {
      TerminateKeepsRows(p, issues, id, day);
    }
    var written := before.(customers := Put(before.customers, id, c.(recovery := before.customers.rows[id].recovery)));
    TerminateKeepsRows(written, issues, id, day);
  }

  lemma EditCustomerKeepsInv(db: Db, id: nat, c: Customer, day: int)
    requires Inv(db)
    ensures Inv(Commit(db, EditCustomer(db, id, c, day)))
  {
    hide StockOk, TransfersOk, RecoveryOk, ChargesOk, MoneyOk, NetworkOk, RecordsOk, LocationsOk, IssueKeysUnique,
         DeviceKeysUnique, InstallationPaid, Rewrite;
    InvGroups(db);
    InvGroups(Commit(db, EditCustomer(db, id, c, day)));
    var o := EditCustomer(db, id, c, day);
    if o.Done? {
      RewriteKeepsRecovery(db.people, db.stock.issues, id, c, day);
      RewrittenRows(db.people, db.stock.issues, id, c, day);
      AccountKeepsMoney(db.money, db.people.customers, o.db.people.customers, id);
    }
  }

  lemma RemoveCustomerKeepsInv(db: Db, id: nat)
    requires Inv(db)
    ensures Inv(Commit(db, RemoveCustomer(db, id)))
  {
    hide StockOk, TransfersOk, RecoveryOk, ChargesOk, MoneyOk, NetworkOk, RecordsOk, LocationsOk, IssueKeysUnique,
         DeviceKeysUnique;
    InvGroups(db);
    InvGroups(Commit(db, RemoveCustomer(db, id)));
    if RemoveCustomer(db, id).Done? {
      RemovalKeepsRecovery(db.people, db.stock.issues, id);
      RemovalKeepsMoney(db.money, db.people.customers, id);
    }
  }

  lemma TerminateKeepsInv(db: Db, c: nat, reason: string, available: bool, day: int)
    requires Inv(db)
    ensures Inv(Commit(db, TerminateCustomer(db, c, reason, available, day)))
  {
    hide StockOk, TransfersOk, RecoveryOk, ChargesOk, MoneyOk, NetworkOk, RecordsOk, LocationsOk, IssueKeysUnique,
         DeviceKeysUnique, Terminate;
    InvGroups(db);
    InvGroups(Commit(db, TerminateCustomer(db, c, reason, available, day)));
    var o := TerminateCustomer(db, c, reason, available, day);
    if o.Done? && o.db != db {
      TerminateKeepsRecovery(db.people, db.stock.issues, c, day);
      TerminateKeepsRows(db.people, db.stock.issues, c, day);
      TermsKeepMoney(db.money, db.people.customers, o.db.people.customers);
    }
  }

  lemma BulkKeepsRecovery(p: People, issues: Table<Issue>, ids: seq<nat>, status: Status)
    requires RecoveryOk(p, issues) && status != Terminated
    requires forall c :: c in ids ==> c in p.customers.rows && p.customers.rows[c].status != Terminated
    ensures RecoveryOk(p.(customers := WithStatus(p.customers, ids, status)), issues)
  {
    hide HasPending, HasRow, HasPendingRow;
    var after := WithStatus(p.customers, ids, status);
    forall c | c in after.rows
      ensures StatusRight(after.rows[c], HasPending(issues, c), HasRow(p.recoveries, c), HasPendingRow(p.recoveries, c))
    {
      assert StatusRight(p.customers.rows[c], HasPending(issues, c), HasRow(p.recoveries, c),
                         HasPendingRow(p.recoveries, c));
    }
  }

  lemma BulkKeepsInv(db: Db, ids: seq<nat>, status: Status)
    requires Inv(db)
    ensures Inv(Commit(db, BulkStatus(db, ids, status)))
  {
    hide StockOk, TransfersOk, RecoveryOk, ChargesOk, MoneyOk, NetworkOk, RecordsOk, LocationsOk, IssueKeysUnique,
         DeviceKeysUnique;
    InvGroups(db);
    InvGroups(Commit(db, BulkStatus(db, ids, status)));
    var o := BulkStatus(db, ids, status);
    if o.Done? {
      BulkKeepsRecovery(db.people, db.stock.issues, ids, status);
      TermsKeepMoney(db.money, db.people.customers, o.db.people.customers);
    }
  }

  lemma ChangeKeepsInv(db: Db, c: nat, change: Change)
    requires Inv(db)
    ensures Inv(Commit(db, ApplyChange(db, c, change)))
  {
    hide StockOk, TransfersOk, RecoveryOk, ChargesOk, MoneyOk, NetworkOk, RecordsOk, LocationsOk, IssueKeysUnique,
         DeviceKeysUnique;
    InvGroups(db);
    InvGroups(Commit(db, ApplyChange(db, c, change)));
    var o := ApplyChange(db, c, change);
    if o.Done? {
      LiveIsSettled(db.people, db.stock.issues, c);
      RewritingKeepsRecovery(db.people, db.stock.issues, c, o.db.people.customers.rows[c]);
      TermsKeepMoney(db.money, db.people.customers, o.db.people.customers);
    }
  }

  // ----- money transactions -------------------------------------------------------------------------

  lemma RenewedKeepsRecovery(p: People, after: People, issues: Table<Issue>)
    requires RecoveryOk(p, issues) && OnlyRenewed(p, after)
    ensures RecoveryOk(after, issues)
  {
    hide HasPending, HasRow, HasPendingRow;
    forall c | c in after.customers.rows
      ensures StatusRight(after.customers.rows[c], HasPending(issues, c), HasRow(after.recoveries, c),
                          HasPendingRow(after.recoveries, c))
    {
      assert StatusRight(p.customers.rows[c], HasPending(issues, c), HasRow(p.recoveries, c),
                         HasPendingRow(p.recoveries, c));
    }
  }

  lemma SavingLeavesCharges(m: Money, p: People, q: PaymentRequest, today: Date)
    ensures var r := SavePayment(m, p, q, today); r.Saved? ==> r.money.charges == m.charges
  {
    hide Objection, ApplyRecharge, HasRecharge;
    forall money: Money, customer, c, month, payment: nat
      ensures ApplyRecharge(money, customer, c, month, payment, q.partial, today).money.charges == money.charges
    {
      RenewalLeavesPayments(money, customer, c, month, payment, q.partial, today);
    }
  }

  lemma PayKeepsInv(db: Db, q: PaymentRequest, today: Date)
    requires Inv(db)
    ensures Inv(Commit(db, Pay(db, q, today)))
  {
    hide StockOk, TransfersOk, RecoveryOk, ChargesOk, MoneyOk, NetworkOk, RecordsOk, LocationsOk, IssueKeysUnique,
         DeviceKeysUnique, SavePayment, OnlyRenewed;
    InvGroups(db);
    InvGroups(Commit(db, Pay(db, q, today)));
    var r := SavePayment(db.money, db.people, q, today);
    if r.Saved? {
      SavingKeepsMoney(db.money, db.people, q, today);
      SavingLeavesCharges(db.money, db.people, q, today);
      RenewedKeepsRecovery(db.people, r.people, db.stock.issues);
    }
  }

  lemma AddChargeKeepsInv(db: Db, q: ChargeRequest)
    requires Inv(db)
    ensures Inv(Commit(db, AddCharge(db, q)))
  {
    hide StockOk, TransfersOk, RecoveryOk, ChargesOk, MoneyOk, NetworkOk, RecordsOk, LocationsOk, IssueKeysUnique,
         DeviceKeysUnique, AddCharge;
    InvGroups(db);
    InvGroups(Commit(db, AddCharge(db, q)));
    AddChargeKeeps(db, q);
  }

  lemma InvoiceKeepsInv(db: Db, c: nat, month: Month, today: Date)
    requires Inv(db)
    ensures Inv(Commit(db, RaiseInvoice(db, c, month, today)))
  {
    hide StockOk, TransfersOk, RecoveryOk, ChargesOk, MoneyOk, NetworkOk, RecordsOk, LocationsOk, IssueKeysUnique,
         DeviceKeysUnique, EnsureInvoice;
    InvGroups(db);
    InvGroups(Commit(db, RaiseInvoice(db, c, month, today)));
    if c in db.people.customers.rows {
      InvoiceKeepsMoney(db.money, db.people.customers, c, month, today);
    }
  }

  lemma GenerateKeepsMoney(m: Money, customers: Table<Customer>, today: Date)
    requires MoneyOk(m, customers)
    ensures var after := Generate(m, customers, today);
            MoneyOk(after, customers) && after == m.(invoices := after.invoices)
  {
    hide PaymentsOk, NotOver, KeysUnique, RechargesOk, ReceiptsOk, GenerateBelow, BilledBelow, InvoicesUnique;
    GenerateBillsEachOnce(m, customers, today, customers.next);
  }

  lemma MonthlyRunKeepsInv(db: Db, today: Date)
    requires Inv(db)
    ensures Inv(Commit(db, MonthlyRun(db, today)))
  {
    hide StockOk, TransfersOk, RecoveryOk, ChargesOk, MoneyOk, NetworkOk, RecordsOk, LocationsOk, IssueKeysUnique,
         DeviceKeysUnique, Generate;
    InvGroups(db);
    InvGroups(Commit(db, MonthlyRun(db, today)));
    GenerateKeepsMoney(db.money, db.people.customers, today);
  }
}
