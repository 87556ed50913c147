/** A customer account over a whole run: when it is renewed, and when a terminated one may come back. */
module AccountLife {
  import opened Tables
  import opened CrmData
  import opened StockRules
  import opened RecoveryRules
  import opened ChargeRules
  import opened BillingRules
  import opened PaymentRules
  import opened AccountRules
  import opened NetworkRules
  import opened RecordRules
  import opened RecordLaws
  import opened Invariant
  import opened Pricing
  import opened IssueDesk
  import opened WarehouseDesk
  import opened CustomerDesk
  import opened CrmMachine
  import opened Conservation
  import opened History

  function RenewalOf(c: nat): Recharge -> int {
    (r: Recharge) => if r.customer == c then 1 else 0
  }

  /** How often the account has been renewed. */
  function Renewals(recharges: Table<Recharge>, c: nat): int {
    Sum(recharges, RenewalOf(c))
  }

  /** What a transaction other than an edit of the account may do to it: renew it by thirty days from the later of
      today and its expiry, unless it is terminated, or leave expiry and renewals alone; a terminated one stays so. */
  predicate Lives(x: Customer, n: int, y: Customer, k: int, today: Date) {
    && (x.status == Terminated ==> y.status == Terminated)
    && ((y.expiry == x.expiry && k == n)
        || (x.status != Terminated && y.status == Active && y.expiry == Later(today.day, x.expiry) + 30 && k == n + 1))
  }

  predicate AccountLives(db: Db, after: Db, c: nat, today: Date)
    requires c in db.people.customers.rows
  {
    c in after.people.customers.rows
    && Lives(db.people.customers.rows[c], Renewals(db.money.recharges, c),
             after.people.customers.rows[c], Renewals(after.money.recharges, c), today)
  }

  lemma ApplyCounts(m: Money, customer: Customer, d: nat, month: Month, payment: nat, partial: bool, today: Date,
                    c: nat)
    ensures var r := ApplyRecharge(m, customer, d, month, payment, partial, today);
            && Renewals(r.money.recharges, c) == Renewals(m.recharges, c) + (if r.activated && c == d then 1 else 0)
            && (!r.activated ==> r.customer == customer)
            && (r.activated ==> customer.status != Terminated
                                && r.customer
                                   == customer.(status := Active, expiry := Later(today.day, customer.expiry) + 30))
  {
    hide HasRecharge, PreviousBalance, Sum, Missing, HasInvoice, InvoiceOf, MrcIn;
    var r := ApplyRecharge(m, customer, d, month, payment, partial, today);
    if r.activated {
      SumInsert(m.recharges, RenewalOf(c), r.money.recharges.rows[m.recharges.next]);
    }
  }

  lemma PayLives(db: Db, q: PaymentRequest, today: Date, c: nat)
    requires MoneyOk(db.money, db.people.customers) && c in db.people.customers.rows
    ensures AccountLives(db, Commit(db, Pay(db, q, today)), c, today)
  {
    hide MoneyOk, SavePayment, ApplyRecharge, Sum;
    var m, p := db.money, db.people;
    SavedByBooking(m, p, q, today);
    var r := SavePayment(m, p, q, today);
    if r.Saved? && !(r.money == m && r.people == p) {
      var booked := m.(payments := Insert(m.payments, Payment(q.form, q.key)));
      ApplyCounts(booked, p.customers.rows[q.form.customer], q.form.customer, q.form.month, m.payments.next, q.partial,
                  today, c);
    }
  }

  lemma RefreshLives(p: People, issues: Table<Issue>, i: Issue, c: nat)
    requires c in p.customers.rows
    ensures var after := RefreshFor(p, issues, i).customers;
            c in after.rows && after.rows[c] == p.customers.rows[c].(recovery := after.rows[c].recovery)
  {
    hide HasPending, HasPendingRow;
  }

  lemma StockLives(db: Db, e: Event, c: nat)
    requires StockCmd(e.cmd) && c in db.people.customers.rows
    ensures AccountLives(db, After(db, e), c, e.today)
  {
    hide BringBack, Erase, RefreshFor, Unbill, Moved, Label, SerialsUnique, TransferObjection, Shelf, InUseBy,
         InTransfers, ActiveWarehouse, IssueStock, Renewals, RowAt, Surplus;
    match e.cmd
    case CmdIssue(q) => IssueLives(db, q, e.today, c);
    case CmdReturn(id) =>
      if id in db.stock.issues.rows {
        RefreshLives(db.people, BringBack(db.stock, id).issues, db.stock.issues.rows[id], c);
      }
    case CmdDeleteIssue(id, _) =>
      if id in db.stock.issues.rows {
        RefreshLives(db.people, Erase(db.stock, id).issues, db.stock.issues.rows[id], c);
      }
    case _ =>
  }

  lemma IssueLives(db: Db, q: IssueRequest, today: Date, c: nat)
    requires c in db.people.customers.rows
    ensures AccountLives(db, Commit(db, IssueStock(db, q, today)), c, today)
  {
    hide BillIssue, Place, StockIssuePrice, Renewals;
    var o := IssueStock(db, q, today);
    if o.Done? && First(db.stock.issues, IssueKey(q.key)).None? {
      var i := IssueRow(q, db.stock.inventory.rows[q.form.batch]);
      BilledRenewals(db.money, db.people.customers, db.stock.issues.next, i, today);
    }
  }

  lemma BilledRenewals(m: Money, customers: Table<Customer>, id: nat, i: Issue, today: Date)
    ensures BillIssue(m, customers, id, i, today).recharges == m.recharges
  {}

  /** Edits and removals by hand. */
  predicate EditsAccount(cmd: Cmd, c: nat) {
    (cmd.CmdEditCustomer? && cmd.id == c) || (cmd.CmdRemoveCustomer? && cmd.id == c)
  }

  lemma GeneratedRenewals(m: Money, customers: Table<Customer>, today: Date)
    requires InvoicesUnique(m.invoices)
    ensures Generate(m, customers, today).recharges == m.recharges
  {
    hide GenerateBelow, BilledBelow, NewAtFee;
    GenerateBillsEachOnce(m, customers, today, customers.next);
  }

  lemma ClericalLives(db: Db, e: Event, c: nat)
    requires Inv(db) && Clerical(e.cmd) && c in db.people.customers.rows && !EditsAccount(e.cmd, c)
    ensures AccountLives(db, After(db, e), c, e.today)
  {
    hide Inv, Pay, EnsureInvoice, Generate, Rewrite, Terminate, CustomerInUse, InstallationPaid, MoneyOk,
         InvoicesUnique, StatesOk, Renewals;
    MoneyFacts(db);
    match e.cmd
    case CmdPay(q) => PayLives(db, q, e.today, c);
    case CmdInvoice(d, month) => InvoiceLives(db, d, month, e.today, c);
    case CmdMonthlyRun => GeneratedRenewals(db.money, db.people.customers, e.today);
    case CmdTerminate(d, reason, available) =>
      if d in db.people.customers.rows {
        TerminateKeepsRows(db.people, db.stock.issues, d, e.today.day);
      }
    case CmdEditCustomer(d, customer) =>
      if d in db.people.customers.rows {
        RewrittenRows(db.people, db.stock.issues, d, customer, e.today.day);
      }
    case _ =>
  }

  lemma InvoiceLives(db: Db, d: nat, month: Month, today: Date, c: nat)
    requires c in db.people.customers.rows
    ensures AccountLives(db, Commit(db, RaiseInvoice(db, d, month, today)), c, today)
  {
    hide Renewals, PreviousBalance, HasInvoice;
  }

  lemma StepLives(db: Db, e: Event, c: nat)
    requires Inv(db) && c in db.people.customers.rows && !EditsAccount(e.cmd, c)
    ensures AccountLives(db, After(db, e), c, e.today)
  {
    hide Inv, After, Renewals;
    if Clerical(e.cmd) {
      ClericalLives(db, e, c);
    } else if StockCmd(e.cmd) {
      StockLives(db, e, c);
    } else if ExpenseCmd(e.cmd) {
      ExpenseFormLeavesRest(db, e);
    } else {
      RecordLeavesAccounts(db, e);
    }
  }

  // ----- expiry over a run --------------------------------------------------------------------

  predicate NeverEdited(events: seq<Event>, c: nat) {
    forall i :: 0 <= i < |events| ==> !EditsAccount(events[i].cmd, c)
  }

  /** The latest of a day and the days of the run. */
  function Latest(day: int, events: seq<Event>): int
    decreases |events|
  {
    if events == [] then day else Latest(Later(day, events[0].today.day), events[1..])
  }

  lemma {:induction false} LatestShifts(a: int, b: int, d: nat, events: seq<Event>)
    requires a <= b + d
    ensures Latest(a, events) <= Latest(b, events) + d
    decreases |events|
  {
    if events != [] {
      LatestShifts(Later(a, events[0].today.day), Later(b, events[0].today.day), d, events[1..]);
    }
  }

  /** Over any run without an edit by hand, the expiry date moves thirty days per renewal at least, and never beyond
      thirty days per renewal after the latest day there was. */
  lemma {:induction false} RenewalsBoundExpiry(db: Db, events: seq<Event>, c: nat)
    requires Inv(db) && c in db.people.customers.rows && NeverEdited(events, c)
    ensures var after := Run(db, events);
            && c in after.people.customers.rows
            && var k := Renewals(after.money.recharges, c) - Renewals(db.money.recharges, c);
               var x, y := db.people.customers.rows[c].expiry, after.people.customers.rows[c].expiry;
               k >= 0 && x + 30 * k <= y <= Latest(x, events) + 30 * k
    decreases |events|
  {
    hide Inv, After, Renewals;
    if events != [] {
      var e, rest := events[0], events[1..];
      var next := After(db, e);
      StepLives(db, e, c);
      StepKeepsInv(db, e);
      assert NeverEdited(rest, c);
      RenewalsBoundExpiry(next, rest, c);
      var x, z := db.people.customers.rows[c].expiry, next.people.customers.rows[c].expiry;
      LatestShifts(z, Later(x, e.today.day), if z == x then 0 else 30, rest);
      LatestShifts(z, Later(x, e.today.day), 30, rest);
    }
  }

  // ----- a terminated account over a run -------------------------------------------------------

  /** A terminated account with required equipment still out is not edited back to life, nor removed. */
  lemma EditKeepsTerminated(db: Db, e: Event, c: nat)
    requires Inv(db) && c in db.people.customers.rows && db.people.customers.rows[c].status == Terminated
    requires HasPending(db.stock.issues, c) && EditsAccount(e.cmd, c)
    ensures var after := After(db, e).people.customers; c in after.rows && after.rows[c].status == Terminated
  {
    hide StockOk, TransfersOk, ChargesOk, MoneyOk, NetworkOk, RecordsOk, LocationsOk, IssueKeysUnique,
         DeviceKeysUnique, HasRow, HasPendingRow, Rewrite, InstallationPaid;
    InvGroups(db);
    assert StatusRight(db.people.customers.rows[c], HasPending(db.stock.issues, c), HasRow(db.people.recoveries, c),
                       HasPendingRow(db.people.recoveries, c));
    if e.cmd.CmdEditCustomer? {
      RewrittenRows(db.people, db.stock.issues, c, e.cmd.customer, e.today.day);
    }
  }

  lemma StepKeepsTerminated(db: Db, e: Event, c: nat)
    requires Inv(db) && c in db.people.customers.rows && db.people.customers.rows[c].status == Terminated
    requires HasPending(db.stock.issues, c)
    ensures var after := After(db, e).people.customers; c in after.rows && after.rows[c].status == Terminated
  {
    hide Inv, After, HasPending, Renewals;
    if EditsAccount(e.cmd, c) {
      EditKeepsTerminated(db, e, c);
    } else {
      StepLives(db, e, c);
    }
  }

  /** Some required item is out before every step of the run. */
  ghost predicate OwesThroughout(db: Db, events: seq<Event>, c: nat)
    decreases |events|
  {
    events == [] || (HasPending(db.stock.issues, c) && OwesThroughout(After(db, events[0]), events[1..], c))
  }

  /** No run brings a terminated account back while the customer still has equipment to return; while it lasts, the
      account reads "recovery pending". */
  lemma {:induction false} NoReactivation(db: Db, events: seq<Event>, c: nat)
    requires Inv(db) && c in db.people.customers.rows && db.people.customers.rows[c].status == Terminated
    requires OwesThroughout(db, events, c)
    ensures var after := Run(db, events);
            && c in after.people.customers.rows && after.people.customers.rows[c].status == Terminated
            && (after.people.customers.rows[c].recovery == RecoveryPending <==> HasPending(after.stock.issues, c))
    decreases |events|
  {
    hide Inv, After, HasPending;
    if events == [] {
      PendingExactly(db, c);
    } else {
      StepKeepsTerminated(db, events[0], c);
      StepKeepsInv(db, events[0]);
      NoReactivation(After(db, events[0]), events[1..], c);
    }
  }

  /** In every state that satisfies the invariant: a terminated account is pending exactly while a required item is
      out, and only a terminated account has a pending recovery row. */
  lemma PendingExactly(db: Db, c: nat)
    requires Inv(db) && c in db.people.customers.rows
    ensures var row := db.people.customers.rows[c];
            && (row.status == Terminated ==> (row.recovery == RecoveryPending <==> HasPending(db.stock.issues, c)))
            && (HasPendingRow(db.people.recoveries, c) ==> row.status == Terminated)
  {
    hide StockOk, TransfersOk, ChargesOk, MoneyOk, NetworkOk, RecordsOk, LocationsOk, IssueKeysUnique,
         DeviceKeysUnique, HasRow, HasPendingRow, HasPending;
    InvGroups(db);
    assert StatusRight(db.people.customers.rows[c], HasPending(db.stock.issues, c), HasRow(db.people.recoveries, c),
                       HasPendingRow(db.people.recoveries, c));
  }
}
