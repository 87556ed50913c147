/** The CRM program itself: tables held as fields, transactions that change them statement by statement and roll back
    when they refuse. Every method is proved against the rule of the same transaction. */
module CrmService {
  import opened Tables
  import opened CrmData
  import opened StockRules
  import opened RecoveryRules
  import opened ChargeRules
  import opened BillingRules
  import opened PaymentRules
  import opened AccountRules
  import opened LedgerRules
  import opened Pricing
  import opened NetworkRules
  import opened RecordRules
  import opened RecordLaws
  import opened Invariant
  import opened IssueDesk
  import opened WarehouseDesk
  import opened CustomerDesk
  import opened ExpenseDesk
  import opened CrmMachine

  datatype Reply = Ok(id: nat) | Fail(error: Error)

  function ReplyOf(o: Outcome): Reply {
    match o
    case Done(_, id) => Ok(id)
    case Refused(e) => Fail(e)
  }

  class Crm {
    var inventory: Table<Batch>
    var devices: Table<Device>
    var issues: Table<Issue>
    var transfers: Table<Transfer>
    var customers: Table<Customer>
    var recoveries: Table<Recovery>
    var charges: Table<Charge>
    var invoices: Table<Invoice>
    var payments: Table<Payment>
    var receipts: map<nat, Receipt>
    var recharges: Table<Recharge>
    var records: Table<Record>
    var expenses: Table<Expense>

    function StockNow(): Stock
      reads `inventory, `devices, `issues
    {
      Stock(inventory, devices, issues)
    }

    function PeopleNow(): People
      reads `customers, `recoveries
    {
      People(customers, recoveries)
    }

    function MoneyNow(): Money
      reads `charges, `invoices, `payments, `receipts, `recharges
    {
      Money(charges, invoices, payments, receipts, recharges)
    }

    function Snapshot(): Db
      reads this
    {
      Db(StockNow(), transfers, PeopleNow(), MoneyNow(), records, expenses)
    }

    constructor ()
      ensures Snapshot() == EmptyDb()
    {
      inventory, devices, issues, transfers := Empty(), Empty(), Empty(), Empty();
      customers, recoveries := Empty(), Empty();
      charges, invoices, payments, receipts, recharges := Empty(), Empty(), Empty(), map[], Empty();
      records, expenses := Empty(), Empty();
    }

    /** The connection rolls back to where the transaction began. */
    method Rollback(to: Db)
      modifies this
      ensures Snapshot() == to
    {
      inventory, devices, issues, transfers := to.stock.inventory, to.stock.devices, to.stock.issues, to.transfers;
      customers, recoveries := to.people.customers, to.people.recoveries;
      charges, invoices, payments := to.money.charges, to.money.invoices, to.money.payments;
      receipts, recharges := to.money.receipts, to.money.recharges;
      records, expenses := to.records, to.expenses;
    }

    // ----- billing ------------------------------------------------------------------------

    /** ensure_invoice */
    method RaiseIfMissing(c: nat, month: Month, today: Date) returns (ok: bool)
      requires c in customers.rows
      modifies `invoices
      ensures var r := EnsureInvoice(old(MoneyNow()), customers.rows[c], c, month, today);
              ok == r.Some? && MoneyNow() == (if r.Some? then r.value else old(MoneyNow()))
    {
      if customers.rows[c].status == Terminated {
        ok := HasInvoice(invoices, c, month);
      } else {
        var previous := PreviousBalance(MoneyNow(), c, month);
        if !HasInvoice(invoices, c, month) {
          invoices := Insert(invoices, Invoice(c, month, customers.rows[c].fee, today, previous));
        }
        ok := true;
      }
    }

    method RaiseInvoiceFor(c: nat, month: Month, today: Date) returns (reply: Reply)
      modifies this
      ensures Snapshot() == Commit(old(Snapshot()), RaiseInvoice(old(Snapshot()), c, month, today))
      ensures reply == ReplyOf(RaiseInvoice(old(Snapshot()), c, month, today))
    {
      if c !in customers.rows {
        return Fail(NoSuchCustomer);
      }
      var ok := RaiseIfMissing(c, month, today);
      if !ok {
        return Fail(CustomerTerminated);
      }
      return Ok(InvoiceOf(invoices, c, month).value);
    }

    /** generate_monthly_invoices: the customers due are selected first, then billed in order of their ids. */
    method GenerateMonthlyInvoices(today: Date)
      requires InvoicesUnique(invoices)
      modifies `invoices
      ensures MoneyNow() == Generate(old(MoneyNow()), customers, today)
    {
      ghost var before := MoneyNow();
      var due := set c | c in customers.rows && Billed(customers.rows[c], today)
                 && !HasInvoice(invoices, c, today.month);
      var n := 0;
      while n < customers.next
        invariant 0 <= n <= customers.next
        invariant MoneyNow() == GenerateBelow(before, customers, today, n)
      {
        GenerateBillsEachOnce(before, customers, today, n);
        assert HasInvoice(invoices, n, today.month) <==> HasInvoice(before.invoices, n, today.month);
        if n in due {
          var _ := RaiseIfMissing(n, today.month, today);
        }
        n := n + 1;
      }
    }

    /** monthly_invoices: the invoices newest month first, each row filled in with services, arrears and receipts. */
    method MonthlyInvoices() returns (ids: seq<nat>, rows: seq<BillRow>)
      ensures ids == NewestFirst(invoices) && |rows| == |ids|
      ensures forall i :: 0 <= i < |ids| ==> ids[i] in invoices.rows
      ensures forall i :: 0 <= i < |ids| ==> rows[i] == BillOf(MoneyNow(), invoices.rows[ids[i]])
    {
      ids, rows := NewestFirst(invoices), [];
      NewestFirstOrders(invoices);
      var n := 0;
      while n < |ids|
        invariant 0 <= n <= |ids| && |rows| == n
        invariant forall i :: 0 <= i < n ==> rows[i] == BillOf(MoneyNow(), invoices.rows[ids[i]])
      {
        var i := invoices.rows[ids[n]];
        var paid := Sum(payments, MrcIn(i.customer, i.month));
        var service := Sum(charges, AmountIf(InMonth(i.customer, i.month)));
        var owed := Sum(charges, AmountIf(Earlier(i.customer, i.month)))
                    - PaidOnAll(MoneyNow(), Earlier(i.customer, i.month));
        var previous := PreviousBalance(MoneyNow(), i.customer, i.month) + owed;
        var total := i.amount + service + previous;
        paid := paid + PaidOnAll(MoneyNow(), InMonth(i.customer, i.month));
        rows := rows + [BillRow(i.amount, service, previous, total, paid, NonNegative(total - paid))];
        n := n + 1;
      }
    }

    // ----- ledger ---------------------------------------------------------------------------

    method BillEntries(c: nat) returns (entries: seq<Entry>)
      ensures entries == EntriesBelow(invoices.rows, InvoiceEntry(c), invoices.next)
    {
      entries := [];
      var k := 0;
      while k < invoices.next
        invariant 0 <= k <= invoices.next && entries == EntriesBelow(invoices.rows, InvoiceEntry(c), k)
      {
        if k in invoices.rows && invoices.rows[k].customer == c {
          entries := entries + [Entry(invoices.rows[k].issued, InvoiceNumber(invoices.rows[k]),
                                      invoices.rows[k].amount, 0)];
        }
        k := k + 1;
      }
    }

    method ServiceEntries(c: nat) returns (entries: seq<Entry>)
      ensures entries == EntriesBelow(charges.rows, ChargeEntry(c), charges.next)
    {
      entries := [];
      var k := 0;
      while k < charges.next
        invariant 0 <= k <= charges.next && entries == EntriesBelow(charges.rows, ChargeEntry(c), k)
      {
        if k in charges.rows && charges.rows[k].customer == c {
          entries := entries + [Entry(charges.rows[k].date, "SVC-" + Decimal(k), charges.rows[k].amount, 0)];
        }
        k := k + 1;
      }
    }

    /** A cash sale enters as its own debit before the receipt. */
    method ReceiptEntries(c: nat) returns (entries: seq<Entry>)
      ensures entries == EntriesBelow(payments.rows, PaymentEntry(c), payments.next)
    {
      entries := [];
      var k := 0;
      while k < payments.next
        invariant 0 <= k <= payments.next && entries == EntriesBelow(payments.rows, PaymentEntry(c), k)
      {
        if k in payments.rows && payments.rows[k].form.customer == c {
          var f := payments.rows[k].form;
          var sale := if CashSale(f) then [Entry(f.date, "OTC-" + Decimal(k), f.amount, 0)] else [];
          entries := entries + (sale + [Entry(f.date, "RCP-" + Decimal(k), 0, f.amount)]);
        }
        k := k + 1;
      }
    }

    /** The loop that adds up debits and credits and notes the balance after every entry. */
    static method RunningBalances(entries: seq<Entry>) returns (balances: seq<int>, balance: int)
      ensures |balances| == |entries| && forall i :: 0 <= i < |entries| ==> balances[i] == Net(entries[..i + 1])
      ensures balance == Net(entries)
    {
      balances, balance := [], 0;
      var k := 0;
      while k < |entries|
        invariant 0 <= k <= |entries| && |balances| == k && balance == Net(entries[..k])
        invariant forall i :: 0 <= i < k ==> balances[i] == Net(entries[..i + 1])
      {
        balance := balance + entries[k].debit - entries[k].credit;
        assert entries[..k + 1] == entries[..k] + [entries[k]];
        NetConcat(entries[..k], [entries[k]]);
        balances := balances + [balance];
        k := k + 1;
      }
      assert entries[..k] == entries;
    }

    /** ledger: entries gathered table by table and sorted, each with the balance after it; the closing balance is the
        one the aggregate query gives. */
    method Ledger(c: nat) returns (entries: seq<Entry>, balances: seq<int>, balance: int)
      requires c in customers.rows
      ensures entries == SortEntries(Entries(MoneyNow(), customers.rows[c], c))
      ensures |balances| == |entries| && forall i :: 0 <= i < |entries| ==> balances[i] == Net(entries[..i + 1])
      ensures balance == AccountBalance(MoneyNow(), customers.rows[c], c)
    {
      hide Net, SortEntries, EntriesBelow, AccountBalance;
      var customer := customers.rows[c];
      var bills := BillEntries(c);
      var services := ServiceEntries(c);
      var paid := ReceiptEntries(c);
      entries := bills + services;
      if customer.installation != 0 {
        entries := entries + [Entry(customer.joined, "Installation", customer.installation, 0)];
      }
      assert entries == bills + services + InstallationEntry(customer);
      entries := entries + paid;
      ghost var listed := Entries(MoneyNow(), customer, c);
      assert entries == listed;
      entries := SortEntries(entries);
      SortOrders(listed);
      LedgerIsAggregate(MoneyNow(), customer, c, entries);
      balances, balance := RunningBalances(entries);
    }

    /** add_charge */
    method AddServiceCharge(q: ChargeRequest) returns (reply: Reply)
      modifies `charges
      ensures Snapshot() == Commit(old(Snapshot()), AddCharge(old(Snapshot()), q))
      ensures reply == ReplyOf(AddCharge(old(Snapshot()), q))
    {
      if q.text == "" {
        return Fail(BadForm);
      }
      if !(0 < q.amount <= MAX_CHARGE) {
        return Fail(BadAmount);
      }
      if q.customer !in customers.rows {
        return Fail(NoSuchCustomer);
      }
      var prior := First(charges, ChargeKey(q.key));
      if prior.Some? {
        var c := charges.rows[prior.value];
        if c.customer != q.customer || c.text != q.text || c.amount != q.amount || c.date != q.date {
          return Fail(KeyReused);
        }
        return Ok(prior.value);
      }
      reply := Ok(charges.next);
      charges := Insert(charges, Charge(q.customer, q.date, q.amount, Service, None, Some(q.key), q.text));
    }

    // ----- recovery ---------------------------------------------------------------------------

    /** refresh_recovery */
    method RefreshRecovery(c: nat)
      modifies `customers, `recoveries
      ensures PeopleNow() == Refresh(old(PeopleNow()), issues, c)
    {
      if HasPending(issues, c) {
        return;
      }
      if !HasPendingRow(recoveries, c) {
        return;
      }
      recoveries := Update(recoveries, Recover(c));
      if c in customers.rows {
        customers := Put(customers, c, customers.rows[c].(recovery := Recovered));
      }
    }

    /** The part of terminate that writes: a recovery row, then the account. */
    method WriteTermination(c: nat, day: int)
      requires c in customers.rows
      modifies `customers, `recoveries
      ensures PeopleNow() == Terminate(old(PeopleNow()), issues, c, day)
    {
      if customers.rows[c].status == Terminated && HasRow(recoveries, c) {
        return;
      }
      var status := if HasPending(issues, c) then RecoveryPending else NothingToRecover;
      recoveries := Insert(recoveries, Recovery(c, status, customers.rows[c].fee, day));
      customers := Put(customers, c, customers.rows[c].(status := Terminated, recovery := status));
    }

    method TerminateAccount(c: nat, reason: string, available: bool, today: Date) returns (reply: Reply)
      modifies `customers, `recoveries
      ensures Snapshot() == Commit(old(Snapshot()), TerminateCustomer(old(Snapshot()), c, reason, available, today.day))
      ensures reply == ReplyOf(TerminateCustomer(old(Snapshot()), c, reason, available, today.day))
    {
      if c !in customers.rows {
        return Fail(NoSuchCustomer);
      }
      var row := Last(recoveries, RowOf(c));
      if customers.rows[c].status == Terminated && row.Some? {
        return Ok(row.value);
      }
      if reason == "" || |reason| > 2000 {
        return Fail(BadReason);
      }
      if !available {
        return Fail(NoSuchEmployee);
      }
      reply := Ok(recoveries.next);
      WriteTermination(c, today.day);
    }

    // ----- payments -------------------------------------------------------------------------------

    /** apply_recharge, on the customer row read before the payment was written */
    method Recharge(customer: Customer, c: nat, month: Month, payment: nat, partial: bool, today: Date)
      returns (activated: bool, outstanding: nat)
      requires c in customers.rows && customers.rows[c] == customer
      modifies `invoices, `recharges, `customers
      ensures var r := ApplyRecharge(old(MoneyNow()), customer, c, month, payment, partial, today);
              && MoneyNow() == r.money && customers == Put(old(customers), c, r.customer)
              && activated == r.activated && outstanding == r.outstanding
    {
      hide PreviousBalance, HasRecharge, MrcIn;
      assert Put(customers, c, customer) == customers;
      activated, outstanding := false, 0;
      if customer.status == Terminated {
        return;
      }
      if month != today.month {
        return;
      }
      if HasRecharge(MoneyNow(), c, month) {
        return;
      }
      var raised := RaiseIfMissing(c, month, today);
      var fee := invoices.rows[InvoiceOf(invoices, c, month).value].amount;
      var due := fee + PreviousBalance(MoneyNow(), c, month);
      if fee == 0 {
        return;
      }
      var received := Sum(payments, MrcIn(c, month));
      outstanding := NonNegative(due - received);
      if outstanding > 0 && !partial {
        outstanding := 0;
        return;
      }
      var expiry := Later(today.day, customer.expiry) + 30;
      recharges := Insert(recharges, CrmData.Recharge(c, month, fee, NonNegative(received), customer.expiry, expiry,
                                                      payment, outstanding > 0, outstanding));
      customers := Put(customers, c, customer.(status := Active, expiry := expiry));
      activated := true;
    }

    /** The tail of save_payment, once the row is written: renewal and permanent receipt. */
    method Finish(id: nat, f: PaymentForm, partial: bool, today: Date) returns (ok: bool)
      requires f.customer in customers.rows
      modifies `invoices, `recharges, `customers, `receipts
      ensures var r := Book(old(MoneyNow()), old(PeopleNow()), id, payments, f, partial, today);
              ok == r.Saved? && (ok ==> r.id == id && MoneyNow() == r.money && PeopleNow() == r.people)
    {
      hide ApplyRecharge;
      if f.kind.Otc? && partial {
        return false;
      }
      var activated, outstanding := false, 0;
      assert Put(customers, f.customer, customers.rows[f.customer]) == customers;
      if f.kind.Mrc? {
        activated, outstanding := Recharge(customers.rows[f.customer], f.customer, f.month, id, partial, today);
      }
      // save_receipt, ON CONFLICT DO NOTHING
      if id !in receipts {
        var customer := customers.rows[f.customer];
        receipts := receipts[id := Receipt(f.customer, f.amount, f.month, customer.status, customer.expiry, activated,
                                           outstanding, outstanding > 0)];
      }
      return true;
    }

    /** save_payment, for a new payment */
    method EnterPayment(q: PaymentRequest, today: Date) returns (reply: Reply)
      requires q.form.customer in customers.rows
      modifies this
      ensures var r := NewPayment(old(MoneyNow()), old(PeopleNow()), q, today);
              match r
              case Rejected(e) => reply == Fail(e) && Snapshot() == old(Snapshot())
              case Saved(m, p, id, _) =>
                reply == Ok(id) && Snapshot() == old(Snapshot()).(money := m, people := p)
    {
      hide ApplyRecharge, Book, Objection;
      var before := Snapshot();
      if q.key.Some? {
        var prior := First(payments, KeyIs(q.key.value));
        if prior.Some? {
          if payments.rows[prior.value].form != q.form {
            return Fail(KeyReused);
          }
          return Ok(prior.value);
        }
      }
      var o := Objection(MoneyNow(), customers, q.form);
      if o.Some? {
        return Fail(o.value);
      }
      var id := payments.next;
      payments := Insert(payments, Payment(q.form, q.key));
      assert MoneyNow() == before.money.(payments := payments);
      BookedOver(before.money, before.people, id, payments, q.form, q.partial, today);
      var ok := Finish(id, q.form, q.partial, today);
      if !ok {
        Rollback(before);
        return Fail(OtcActivates);
      }
      return Ok(id);
    }

    /** save_payment, for an edit or a deletion */
    method AlterPayment(q: PaymentRequest, id: nat, today: Date) returns (reply: Reply)
      requires id in payments.rows
      modifies this
      ensures var r := ChangePayment(old(MoneyNow()), old(PeopleNow()), q, id, today);
              match r
              case Rejected(e) => reply == Fail(e) && Snapshot() == old(Snapshot())
              case Saved(m, p, i, _) =>
                reply == Ok(i) && Snapshot() == old(Snapshot()).(money := m, people := p)
    {
      hide ApplyRecharge, Book, Objection, HasRecharge;
      var before := Snapshot();
      var existing := payments.rows[id];
      if !q.deleting && q.form.customer !in customers.rows {
        return Fail(NoSuchCustomer);
      }
      if id in receipts {
        return Fail(ReceiptSaved);
      }
      if HasRecharge(MoneyNow(), existing.form.customer, existing.form.month) {
        return Fail(ReceiptSaved);
      }
      if q.deleting {
        payments := Drop(payments, id);
        return Ok(id);
      }
      var o := Objection(MoneyNow(), customers, q.form);
      if o.Some? {
        return Fail(o.value);
      }
      // The columns of the form are written; service_charge_id only when one is given.
      var f := if q.form.charge.None? then q.form.(charge := existing.form.charge) else q.form;
      payments := Put(payments, id, Payment(f, existing.key));
      BookedOver(before.money, before.people, id, payments, f, q.partial, today);
      var ok := Finish(id, f, q.partial, today);
      if !ok {
        Rollback(before);
        return Fail(OtcActivates);
      }
      return Ok(id);
    }

    method SavePaymentRequest(q: PaymentRequest, today: Date) returns (reply: Reply)
      modifies this
      ensures Snapshot() == Commit(old(Snapshot()), CustomerDesk.Pay(old(Snapshot()), q, today))
      ensures reply == ReplyOf(CustomerDesk.Pay(old(Snapshot()), q, today))
    {
      hide NewPayment, ChangePayment;
      if q.partial && (q.trusted || !q.finance) {
        return Fail(NotAllowed);
      }
      if q.rid.Some? {
        if q.rid.value !in payments.rows {
          return Fail(NoSuchPayment);
        }
        if payments.rows[q.rid.value].form.channel.Online? {
          return Fail(OnlineReceipt);
        }
      } else if q.deleting {
        return Fail(NoSuchPayment);
      }
      if !q.deleting {
        if q.form.channel.Online? && !q.trusted {
          return Fail(OnlineReceipt);
        }
        if q.form.amount == 0 {
          return Fail(BadAmount);
        }
        if q.form.date.day > today.day {
          return Fail(FutureDate);
        }
      }
      if q.rid.Some? {
        reply := AlterPayment(q, q.rid.value, today);
        return;
      }
      if q.form.customer !in customers.rows {
        return Fail(NoSuchCustomer);
      }
      reply := EnterPayment(q, today);
    }

    // ----- stock issues ----------------------------------------------------------------------------

    /** bill_stock_issue */
    method BillStockIssue(id: nat, i: Issue, today: Date)
      requires Billable(i) ==> i.form.to.customer in customers.rows
      modifies `charges, `invoices
      ensures MoneyNow() == BillIssue(old(MoneyNow()), customers, id, i, today)
    {
      hide PreviousBalance;
      if !Billable(i) {
        return;
      }
      var c := i.form.to.customer;
      if ChargeOf(charges, id).None? {
        charges := Insert(charges, Charge(c, i.form.date, i.price.value * i.form.quantity, Equipment, Some(id), None,
                                          i.form.text));
      }
      var _ := RaiseIfMissing(c, i.form.date.month, today);
    }

    /** What save_stock_issue checks before it writes a new issue. */
    method CheckIssue(q: IssueRequest) returns (o: Option<Error>)
      ensures o == IssueObjection(StockNow(), customers, q)
    {
      hide StockIssuePrice, Shelf, UnitObjection;
      var f := q.form;
      if f.to.ToCustomer? && f.to.customer in customers.rows && customers.rows[f.to.customer].status == Terminated {
        return Some(CustomerTerminated);
      }
      if f.batch !in inventory.rows {
        return Some(NoSuchBatch);
      }
      var stock := inventory.rows[f.batch];
      if q.unit.Some? {
        o := UnitObjection(devices, q.unit.value, f.batch);
        if o.Some? {
          return;
        }
        if f.quantity != 1 {
          return Some(OneDeviceOneUnit);
        }
      } else if f.quantity > stock.quantity - Shelf(devices, f.batch) {
        return Some(LabelledStock);
      }
      if f.quantity > stock.quantity {
        return Some(InsufficientStock);
      }
      if f.to.ToCustomer? {
        var quote := StockIssuePrice(q.mode, q.entered, stock);
        if quote.None? {
          return Some(BadPrice);
        }
        if f.to.customer !in customers.rows {
          return Some(NoSuchCustomer);
        }
      }
      return None;
    }

    /** The issue row, its charge and bill, its unit, its quantity. */
    method WriteIssue(i: Issue, today: Date)
      requires CanPlace(StockNow(), i)
      requires i.form.to.ToCustomer? ==> i.form.to.customer in customers.rows
      modifies `inventory, `devices, `issues, `charges, `invoices
      ensures StockNow() == Place(old(StockNow()), i)
      ensures MoneyNow() == BillIssue(old(MoneyNow()), customers, old(issues).next, i, today)
    {
      hide BillIssue;
      var id := issues.next;
      issues := Insert(issues, i);
      BillStockIssue(id, i, today);
      if i.device.Some? {
        devices := Put(devices, i.device.value, devices.rows[i.device.value].(issued := true, issue := Some(id)));
      }
      var stock := inventory.rows[i.form.batch];
      inventory := Put(inventory, i.form.batch, stock.(quantity := stock.quantity - i.form.quantity));
    }

    /** save_stock_issue, for a new issue */
    method SaveStockIssue(q: IssueRequest, today: Date) returns (reply: Reply)
      modifies this
      ensures Snapshot() == Commit(old(Snapshot()), IssueStock(old(Snapshot()), q, today))
      ensures reply == ReplyOf(IssueStock(old(Snapshot()), q, today))
    {
      hide BillIssue, StockIssuePrice, Shelf, ReplayIssue, Place;
      if q.form.quantity == 0 {
        return Fail(BadQuantity);
      }
      var previous := First(issues, IssueKey(q.key));
      if previous.Some? {
        ReplayLeavesAll(Snapshot(), q, previous.value);
        return ReplyOf(ReplayIssue(Snapshot(), q, previous.value));
      }
      var o := CheckIssue(q);
      if o.Some? {
        return Fail(o.value);
      }
      reply := Ok(issues.next);
      WriteIssue(IssueRow(q, inventory.rows[q.form.batch]), today);
    }

    /** returned */
    method ReturnUnits(issue: nat)
      modifies `devices
      ensures devices.next == old(devices).next && devices.rows.Keys == old(devices).rows.Keys
      ensures forall u :: u in devices.rows && devices.rows[u].issue == Some(issue) ==> !devices.rows[u].issued
      ensures forall u :: u in devices.rows ==>
                devices.rows[u].(issued := old(devices).rows[u].issued) == old(devices).rows[u]
      ensures forall u :: u in devices.rows && devices.rows[u].issue != Some(issue) ==>
                devices.rows[u] == old(devices).rows[u]
      ensures OneEach(old(devices)) ==>
                forall u, v :: (u in devices.rows && v in devices.rows && devices.rows[u] != old(devices).rows[u]
                                && devices.rows[v] != old(devices).rows[v]) ==> u == v
    {
      devices := RawTable(map u | u in devices.rows ::
                            if devices.rows[u].issue == Some(issue) && devices.rows[u].issued
                            then devices.rows[u].(issued := false) else devices.rows[u], devices.next);
    }

    /** Quantity, status and units of an issue that is out go back. */
    method TakeBack(id: nat)
      requires id in issues.rows && issues.rows[id].out
      modifies `inventory, `devices, `issues
      ensures StockNow() == BringBack(old(StockNow()), id)
    {
      var issue := issues.rows[id];
      inventory := AddQuantity(inventory, issue.form.batch, issue.form.quantity);
      issues := Put(issues, id, issue.(out := false));
      ReturnUnits(id);
    }

    /** save_stock_issue with action "return" */
    method ReturnStock(id: nat) returns (reply: Reply)
      modifies this
      ensures Snapshot() == Commit(old(Snapshot()), ReturnIssue(old(Snapshot()), id))
      ensures reply == ReplyOf(ReturnIssue(old(Snapshot()), id))
    {
      hide Refresh, BringBack;
      if id !in issues.rows {
        return Fail(NoSuchIssue);
      }
      var issue := issues.rows[id];
      if !issue.out {
        return Ok(id);
      }
      TakeBack(id);
      if issue.form.to.ToCustomer? {
        RefreshRecovery(issue.form.to.customer);
      }
      return Ok(id);
    }

    /** Stock still out comes back; no unit names the issue any more; the row goes. */
    method EraseIssue(id: nat)
      requires id in issues.rows
      modifies `inventory, `devices, `issues
      ensures StockNow() == Erase(old(StockNow()), id)
    {
      hide BringBack;
      ghost var before := StockNow();
      var issue := issues.rows[id];
      if issue.out {
        inventory := AddQuantity(inventory, issue.form.batch, issue.form.quantity);
        ReturnUnits(id);
      }
      assert inventory == BringBack(before, id).inventory && devices == BringBack(before, id).devices by {
        BringBackParts(before, id);
      }
      devices := Update(devices, WithoutIssue(id));
      issues := Drop(issues, id);
      ErasedIssues(before, id);
    }

    /** delete_stock_issue */
    method DeleteStockIssue(id: nat, admin: bool) returns (reply: Reply)
      modifies this
      ensures Snapshot() == Commit(old(Snapshot()), DeleteIssue(old(Snapshot()), id, admin))
      ensures reply == ReplyOf(DeleteIssue(old(Snapshot()), id, admin))
    {
      hide Refresh, Erase, PaidFor, First;
      if !admin {
        return Fail(NotAllowed);
      }
      if id !in issues.rows {
        return Fail(NoSuchIssue);
      }
      var customer := CustomerOf(issues.rows[id]);
      var charge := ChargeOf(charges, id);
      if charge.Some? && PaidFor(payments, charge.value) {
        return Fail(ChargePaid);
      }
      if charge.Some? {
        charges := Drop(charges, charge.value);
      }
      EraseIssue(id);
      if customer.Some? {
        RefreshRecovery(customer.value);
      }
      return Ok(id);
    }

    // ----- labels, inventory and transfers ------------------------------------------------------------

    /** register */
    method RegisterUnit(q: RegisterRequest) returns (reply: Reply)
      modifies this
      ensures Snapshot() == Commit(old(Snapshot()), Register(old(Snapshot()), q))
      ensures reply == ReplyOf(Register(old(Snapshot()), q))
    {
      hide Shelf, SerialsUnique;
      var before := Snapshot();
      var previous := First(devices, DeviceKey(q.key));
      if previous.Some? {
        var d := devices.rows[previous.value];
        if d.batch != q.batch || d.serial != q.serial || d.receivedNew != q.receiveNew {
          return Fail(KeyReused);
        }
        return Ok(previous.value);
      }
      if q.batch !in inventory.rows {
        return Fail(NoSuchBatch);
      }
      if q.receiveNew {
        inventory := AddQuantity(inventory, q.batch, 1);
      } else if inventory.rows[q.batch].quantity <= Shelf(devices, q.batch) {
        return Fail(AllLabelled);
      }
      reply := Ok(devices.next);
      devices := Insert(devices, Device(q.batch, q.serial, false, None, Good, q.key, q.receiveNew));
      // The unique index on (inventory_id, serial_number) aborts the transaction.
      if !SerialsUnique(devices) {
        Rollback(before);
        return Fail(SerialTaken);
      }
    }

    /** set_condition */
    method SetCondition(u: nat, c: Condition) returns (reply: Reply)
      modifies `devices
      ensures Snapshot() == Commit(old(Snapshot()), Inspect(old(Snapshot()), u, c))
      ensures reply == ReplyOf(Inspect(old(Snapshot()), u, c))
    {
      if u !in devices.rows {
        return Fail(NoSuchDevice);
      }
      assert devices.rows[u].condition == c ==> Put(devices, u, devices.rows[u].(condition := c)) == devices;
      if devices.rows[u].condition != c {
        devices := Put(devices, u, devices.rows[u].(condition := c));
      }
      return Ok(u);
    }

    method SaveBatch(id: Option<nat>, b: Batch, original: Option<nat>, category: Option<bool>) returns (reply: Reply)
      modifies `inventory
      ensures var o := if id.Some? then EditBatch(old(Snapshot()), id.value, b, original, category)
                       else AddBatch(old(Snapshot()), b, category);
              Snapshot() == Commit(old(Snapshot()), o) && reply == ReplyOf(o)
    {
      hide Shelf, ActiveWarehouse;
      if category.None? {
        return Fail(NoSuchCategory);
      }
      var existing := if id.Some? && id.value in inventory.rows then Some(inventory.rows[id.value]) else None;
      if existing.Some? {
        if b.quantity < Shelf(devices, id.value) {
          return Fail(BadQuantity);
        }
        if original.Some? && original.value != existing.value.quantity {
          return Fail(StockChanged);
        }
      }
      if !category.value && (existing.None? || existing.value.category != b.category) {
        return Fail(InactiveCategory);
      }
      // check_inventory_warehouse
      if existing.None? || b.location != existing.value.location {
        if !ActiveWarehouse(records, b.location) {
          return Fail(NoSuchWarehouse);
        }
        if existing.Some? && existing.value.quantity > 0 && existing.value.location != "" {
          return Fail(StillStocked);
        }
      }
      if id.None? {
        reply := Ok(inventory.next);
        inventory := Insert(inventory, b);
      } else {
        if existing.None? {
          return Fail(NoSuchBatch);
        }
        inventory := Put(inventory, id.value, b);
        reply := Ok(id.value);
      }
    }

    method DeleteBatch(id: nat) returns (reply: Reply)
      modifies `inventory
      ensures Snapshot() == Commit(old(Snapshot()), RemoveBatch(old(Snapshot()), id))
      ensures reply == ReplyOf(RemoveBatch(old(Snapshot()), id))
    {
      if id !in inventory.rows {
        return Fail(NoSuchBatch);
      }
      if InUseBy(StockNow(), id) || InTransfers(transfers, id) {
        return Fail(InUse);
      }
      inventory := Drop(inventory, id);
      return Ok(id);
    }

    /** The destination row is found or created; as many labelled units go along as the source can no longer cover, so
        that quantity >= labelled units on both rows; then the two quantities change. */
    method MoveStock(q: TransferRequest) returns (to: nat, moved: nat)
      requires q.from in inventory.rows && 0 < q.quantity <= inventory.rows[q.from].quantity
      requires q.target != inventory.rows[q.from].location
      modifies `inventory, `devices
      ensures StockNow() == Moved(old(StockNow()), q)
      ensures to == RowAt(old(inventory), old(inventory).rows[q.from], q.target)
      ensures moved == Surplus(old(StockNow()), q.from, q.quantity)
    {
      hide Shelf, MoveDevices, SameLine;
      var source := inventory.rows[q.from];
      var found := First(inventory, SameLine(source, q.target));
      to := if found.Some? then found.value else inventory.next;
      if found.None? {
        inventory := Insert(inventory, source.(quantity := 0, location := q.target));
      }
      var tracked := Shelf(devices, q.from);
      moved := NonNegative(tracked - (source.quantity - q.quantity));
      devices := MoveDevices(devices, q.from, to, moved);
      inventory := AddQuantity(inventory, q.from, 0 - q.quantity);
      inventory := AddQuantity(inventory, to, q.quantity);
    }

    /** transfer */
    method Transfer(q: TransferRequest) returns (reply: Reply)
      modifies this
      ensures Snapshot() == Commit(old(Snapshot()), TransferStock(old(Snapshot()), q))
      ensures reply == ReplyOf(TransferStock(old(Snapshot()), q))
    {
      hide SerialsUnique, ActiveWarehouse, Moved, RowAt, Surplus;
      var before := Snapshot();
      var done := First(transfers, TransferKey(q.key));
      if done.Some? {
        return Ok(done.value);
      }
      if q.from !in inventory.rows {
        return Fail(NoSuchBatch);
      }
      var source := inventory.rows[q.from];
      if !ActiveWarehouse(records, q.target) {
        return Fail(NoSuchWarehouse);
      }
      if q.target == source.location {
        return Fail(SameWarehouse);
      }
      if !(0 < q.quantity <= source.quantity) {
        return Fail(BadQuantity);
      }
      var to, moved := MoveStock(q);
      if !SerialsUnique(devices) {
        Rollback(before);
        return Fail(SerialTaken);
      }
      reply := Ok(transfers.next);
      transfers := Insert(transfers, CrmData.Transfer(q.from, to, q.quantity, moved, q.key));
    }

    // ----- customers -----------------------------------------------------------------------------------

    /** The row of an edit is written between the two chances to terminate. */
    method RewriteAccount(id: nat, c: Customer, today: Date)
      requires id in customers.rows
      modifies `customers, `recoveries
      ensures PeopleNow() == Rewrite(old(PeopleNow()), issues, id, c, today.day)
    {
      hide Terminate;
      TerminateKeepsRows(PeopleNow(), issues, id, today.day);
      if customers.rows[id].status != Terminated && c.status == Terminated {
        WriteTermination(id, today.day);
      }
      customers := Put(customers, id, c.(recovery := customers.rows[id].recovery));
      if c.status == Terminated {
        WriteTermination(id, today.day);
      }
    }

    method SaveAccount(id: Option<nat>, c: Customer, today: Date) returns (reply: Reply)
      modifies `customers, `recoveries
      ensures var o := if id.Some? then EditCustomer(old(Snapshot()), id.value, c, today.day)
                       else AddCustomer(old(Snapshot()), c);
              Snapshot() == Commit(old(Snapshot()), o) && reply == ReplyOf(o)
    {
      hide Rewrite, InstallationPaid;
      var existing := if id.Some? && id.value in customers.rows then Some(customers.rows[id.value]) else None;
      if existing.None? && c.status == Terminated {
        return Fail(CustomerTerminated);
      }
      if existing.Some? && existing.value.status == Terminated && existing.value.recovery == RecoveryPending
         && c.status != Terminated {
        return Fail(RecoveryOutstanding);
      }
      if existing.Some? && c.installation < InstallationPaid(payments, id.value) {
        return Fail(BelowCollected);
      }
      if c.expiry < c.joined.day {
        return Fail(BadExpiry);
      }
      if id.None? {
        reply := Ok(customers.next);
        customers := Insert(customers, c.(recovery := NotRequired));
      } else {
        if existing.None? {
          return Fail(NoSuchCustomer);
        }
        RewriteAccount(id.value, c, today);
        reply := Ok(id.value);
      }
    }

    method DeleteAccount(id: nat) returns (reply: Reply)
      modifies `customers
      ensures Snapshot() == Commit(old(Snapshot()), RemoveCustomer(old(Snapshot()), id))
      ensures reply == ReplyOf(RemoveCustomer(old(Snapshot()), id))
    {
      hide CustomerInUse;
      if id !in customers.rows {
        return Fail(NoSuchCustomer);
      }
      if CustomerInUse(Snapshot(), id) {
        return Fail(InUse);
      }
      customers := Drop(customers, id);
      return Ok(id);
    }

    /** bulk_status: all of them or none */
    method SetStatuses(ids: seq<nat>, status: Status) returns (reply: Reply)
      modifies `customers
      ensures Snapshot() == Commit(old(Snapshot()), BulkStatus(old(Snapshot()), ids, status))
      ensures reply == ReplyOf(BulkStatus(old(Snapshot()), ids, status))
    {
      if status == Terminated {
        return Fail(NotAllowed);
      }
      if !(1 <= |ids| <= 200) {
        return Fail(BadForm);
      }
      var chosen := set c | c in ids;
      var found := set c | c in chosen && c in customers.rows;
      if found != chosen {
        assert exists c :: c in ids && c !in customers.rows;
        return Fail(NoSuchCustomer);
      }
      assert forall c :: c in ids ==> c in chosen && c in found;
      if exists c :: c in found && customers.rows[c].status == Terminated {
        return Fail(CustomerTerminated);
      }
      customers := RawTable(map c | c in customers.rows ::
                              if c in chosen then customers.rows[c].(status := status) else customers.rows[c],
                            customers.next);
      return Ok(0);
    }

    /** apply_customer_change */
    method ChangeAccount(c: nat, change: Change) returns (reply: Reply)
      modifies `customers
      ensures Snapshot() == Commit(old(Snapshot()), ApplyChange(old(Snapshot()), c, change))
      ensures reply == ReplyOf(ApplyChange(old(Snapshot()), c, change))
    {
      if c !in customers.rows {
        return Fail(NoSuchCustomer);
      }
      if customers.rows[c].status == Terminated {
        return Fail(CustomerTerminated);
      }
      match change {
        case NewFee(fee) =>
          customers := Put(customers, c, customers.rows[c].(fee := fee));
        case NewStatus(status) =>
          if status == Terminated {
            return Fail(NotAllowed);
          }
          customers := Put(customers, c, customers.rows[c].(status := status));
      }
      return Ok(c);
    }

    // ----- operations records ------------------------------------------------------------------------------

    /** return_stock */
    method ReturnLinked(link: Option<nat>)
      modifies `inventory, `devices, `issues
      ensures StockNow() == GiveBack(old(StockNow()), link)
    {
      hide BringBack;
      if link.None? || link.value !in issues.rows {
        return;
      }
      if issues.rows[link.value].out {
        TakeBack(link.value);
      } else {
        StaysReturned(StockNow(), link.value);
      }
    }

    /** issue_stock */
    method IssueForRecord(w: Want, today: Date) returns (r: Result)
      modifies `inventory, `devices, `issues
      ensures var y := IssueNetwork(old(StockNow()), w, today, "");
              match y
              case Short(e) => r == Error(e) && StockNow() == old(StockNow())
              case Synced(stock, link) => r == Linked(link) && StockNow() == stock
    {
      hide Shelf;
      if w.item !in inventory.rows {
        return Error(NoSuchBatch);
      }
      var stock := inventory.rows[w.item];
      var free := stock.quantity - Shelf(devices, w.item);
      if w.quantity > free {
        return Error(InsufficientStock);
      }
      if w.quantity > stock.quantity {
        return Error(InsufficientStock);
      }
      r := Linked(Some(issues.next));
      issues := Insert(issues, NetworkIssue(w, today, ""));
      inventory := AddQuantity(inventory, w.item, 0 - w.quantity);
    }

    /** sync_stock, from the link the record had before to the one it has after */
    method SyncRecord(was: Option<nat>, want: Option<Want>, today: Date) returns (r: Result)
      modifies `inventory, `devices, `issues
      ensures var y := SyncStock(old(StockNow()), was, want, today, "");
              match y
              case Short(e) => r == Error(e)
              case Synced(stock, link) => r == Linked(link) && StockNow() == stock
    {
      hide GiveBack, IssueNetwork, Serves;
      if StillServed(issues, was, want) {
        return Linked(was);
      }
      ReturnLinked(was);
      if want.None? {
        return Linked(None);
      }
      r := IssueForRecord(want.value, today);
    }

    /** The loop of validate over the reference fields. */
    method CheckReferences(f: Form) returns (missing: bool, archived: bool)
      ensures missing <==> exists k :: k in f.refs && !RefOk(records, k, f.refs[k])
      ensures !missing ==> (archived <==> exists k :: k in f.refs && records.rows[f.refs[k]].state == Archived)
    {
      missing, archived := false, false;
      var left := f.refs.Keys;
      while left != {}
        invariant left <= f.refs.Keys
        invariant missing <==> exists k :: k in f.refs && k !in left && !RefOk(records, k, f.refs[k])
        invariant archived <==> exists k :: k in f.refs && k !in left && RefOk(records, k, f.refs[k])
                                            && records.rows[f.refs[k]].state == Archived
        decreases |left|
      {
        var k :| k in left;
        var id := f.refs[k];
        if id !in records.rows || records.rows[id].mod != Target(k) {
          missing := true;
        } else if records.rows[id].state == Archived {
          archived := true;
        }
        left := left - {k};
      }
    }

    /** validate, on typed values */
    method Validate(mod: Module, f: Form, today: Date) returns (o: Option<CrmData.Error>)
      ensures o == FormObjection(records, inventory, mod, f, today)
    {
      hide Shape, RefOk;
      if !Shape(mod, f) {
        return Some(BadForm);
      }
      var missing, archived := CheckReferences(f);
      if missing {
        return Some(NoSuchRecord);
      }
      if archived {
        return Some(ArchivedRecord);
      }
      var item := ItemOf(f.body);
      if item.Some? && item.value !in inventory.rows {
        return Some(NoSuchBatch);
      }
      if (mod == NetworkLinks || mod == FiberSegments) && FromDevice in f.refs && ToDevice in f.refs
         && f.refs[FromDevice] == f.refs[ToDevice] {
        return Some(BadForm);
      }
      var total := TotalOf(f.body);
      if mod == Payroll && total < 0 {
        return Some(BadAmount);
      }
      if mod == ResellerReceipts {
        assert Shape(mod, f) ==> f.body.Amount? by {
          ReceiptBody(mod, f);
        }
        if f.body.day > today.day {
          return Some(FutureDate);
        }
      }
      if (f.body.Amount? || f.body.Purchase?) && !(0 < total <= MAX_AMOUNT) {
        return Some(BadAmount);
      }
      return None;
    }

    /** What save checks before it looks up the request key. */
    method CheckSave(q: SaveRequest, today: Date) returns (o: Option<CrmData.Error>)
      ensures o == EarlyObjection(records, inventory, q, today)
    {
      hide FormObjection;
      if q.id.Some? {
        var id := q.id.value;
        if id !in records.rows || records.rows[id].mod != q.mod {
          return Some(NoSuchRecord);
        }
        if IsImmutable(q.mod) || records.rows[id].state != Open {
          return Some(Immutable);
        }
        if q.mod == ResellerInvoices && HasReceiptsOn(records, id) {
          return Some(HasReceipts);
        }
        if q.mod == CashAccounts && HasTransactionsOn(records, id) {
          return Some(HasTransactions);
        }
      }
      o := Validate(q.mod, q.form, today);
      if o.Some? {
        return;
      }
      if NameOf(q.form.body) == Some("") {
        return Some(BadForm);
      }
      if exists r :: r in records.rows && q.id != Some(r) && records.rows[r].mod == q.mod
                     && PeriodOf(q.form.body).Some? && PeriodOf(q.form.body) == PeriodOf(records.rows[r].form.body) {
        return Some(PeriodTaken);
      }
      if q.id.None? && q.key.None? {
        return Some(MissingKey);
      }
      return None;
    }

    /** The writes of save: a renamed warehouse takes its stock along, the row is written, its stock synchronised. */
    method StoreRecord(q: SaveRequest, today: Date) returns (reply: Reply)
      requires q.id.Some? ==> q.id.value in records.rows
      requires q.id.None? ==> q.key.Some?
      modifies this
      ensures Snapshot() == Commit(old(Snapshot()), Store(old(Snapshot()), q, today))
      ensures reply == ReplyOf(Store(old(Snapshot()), q, today))
    {
      hide SyncStock, WantOf, Written, Relocated;
      var before := Snapshot();
      WrittenSteps(records, inventory, q, None);
      var id, was := records.next, None;
      if q.id.Some? {
        id := q.id.value;
        var previous := records.rows[id];
        was := previous.link;
        if previous.form.body.Warehouse? && q.form.body.Warehouse? && previous.form.body.name != q.form.body.name {
          inventory := Update(inventory, Renamed(previous.form.body.name, q.form.body.name));
        }
        records := Put(records, id, previous.(form := q.form, version := previous.version + 1, link := None));
      } else {
        records := Insert(records, Record(q.mod, q.form, Open, 1, q.key.value, None, false, None));
      }
      var r := SyncRecord(was, WantOf(q.form.body), today);
      if r.Error? {
        Rollback(before);
        return Fail(r.error);
      }
      WrittenLink(before.records, q, r.link);
      records := Put(records, id, records.rows[id].(link := r.link));
      return Ok(id);
    }

    /** save */
    method SaveOperation(q: SaveRequest, today: Date) returns (reply: Reply)
      modifies this
      ensures Snapshot() == Commit(old(Snapshot()), SaveRecord(old(Snapshot()), q, today))
      ensures reply == ReplyOf(SaveRecord(old(Snapshot()), q, today))
    {
      hide FormObjection, EarlyObjection, Store, Shape, Sum;
      var early := CheckSave(q, today);
      if early.Some? {
        return Fail(early.value);
      }
      EarlyMeans(records, inventory, q, today);
      if q.id.None? {
        var prior := First(records, SavedUnder(q.key.value));
        if prior.Some? {
          if records.rows[prior.value].mod != q.mod || records.rows[prior.value].form != q.form {
            return Fail(KeyReused);
          }
          return Ok(prior.value);
        }
      }
      if NameUsed(records, q) {
        return Fail(NameTaken);
      }
      if q.mod == ResellerReceipts {
        ReceiptBody(q.mod, q.form);
        var invoice := q.form.refs[InvoiceField];
        var paid := Sum(records, ReceiptOn(invoice));
        if TotalOf(q.form.body) > TotalOf(records.rows[invoice].form.body) - paid {
          return Fail(OverInvoice);
        }
      }
      if q.id.Some? && q.version != records.rows[q.id.value].version {
        return Fail(StaleVersion);
      }
      reply := StoreRecord(q, today);
    }

    /** set_state */
    method SetState(id: nat, state: RecordState, received: bool, expense: Option<nat>)
      requires id in records.rows
      modifies `records
      ensures records == Stamp(old(records), id, state, received, expense)
    {
      var r := records.rows[id];
      records := Put(records, id, r.(state := state, received := received, expense := expense,
                                     version := r.version + 1));
    }

    method Archive(mod: Module, id: nat) returns (reply: Reply)
      modifies `records
      ensures Snapshot() == Commit(old(Snapshot()), ArchiveRecord(old(Snapshot()), mod, id))
      ensures reply == ReplyOf(ArchiveRecord(old(Snapshot()), mod, id))
    {
      hide HasParts, HasReceiptsOn, Stamp;
      if id !in records.rows || records.rows[id].mod != mod {
        return Fail(NoSuchRecord);
      }
      var r := records.rows[id];
      if IsImmutable(mod) || r.state != Open {
        return Fail(Immutable);
      }
      if mod == ResellerInvoices && HasReceiptsOn(records, id) {
        return Fail(HasReceipts);
      }
      if mod == Companies && HasParts(records, id) {
        return Fail(LinkedRecords);
      }
      SetState(id, Archived, r.received, r.expense);
      return Ok(id);
    }

    /** delete */
    method DeleteOperation(mod: Module, id: nat, manager: bool) returns (reply: Reply)
      modifies this
      ensures Snapshot() == Commit(old(Snapshot()), DeleteRecord(old(Snapshot()), mod, id, manager))
      ensures reply == ReplyOf(DeleteRecord(old(Snapshot()), mod, id, manager))
    {
      hide IsReferenced, HoldsStock, GiveBack, Deletable;
      if id !in records.rows || records.rows[id].mod != mod {
        return Fail(NoSuchRecord);
      }
      var r := records.rows[id];
      if !manager {
        return Fail(NotAllowed);
      }
      if !Deletable(r) {
        return Fail(Immutable);
      }
      if IsReferenced(records, mod, id) {
        return Fail(InUse);
      }
      if HoldsStock(inventory, r) {
        return Fail(StillStocked);
      }
      ReturnLinked(r.link);
      records := Drop(records, id);
      return Ok(id);
    }

    /** action "receive" */
    method Receive(id: nat) returns (reply: Reply)
      modifies this
      ensures Snapshot() == Commit(old(Snapshot()), ReceiveBill(old(Snapshot()), id))
      ensures reply == ReplyOf(ReceiveBill(old(Snapshot()), id))
    {
      hide Stamp;
      if id !in records.rows || records.rows[id].mod != PurchaseBills || !records.rows[id].form.body.Purchase? {
        return Fail(NoSuchRecord);
      }
      var r := records.rows[id];
      if r.received {
        return Ok(id);
      }
      if r.state == Archived {
        return Fail(ArchivedRecord);
      }
      var item := r.form.body.stockItem;
      if item !in inventory.rows {
        return Fail(NoSuchBatch);
      }
      inventory := AddQuantity(inventory, item, r.form.body.quantity);
      SetState(id, if r.expense.Some? then Paid else Received, true, r.expense);
      return Ok(id);
    }

    /** expense, then the record that carries its id */
    method PostExpense(id: nat, total: nat, day: int)
      requires id in records.rows
      modifies `records, `expenses
      ensures expenses == Insert(old(expenses), Expense(Some(id), total, day))
      ensures records == Stamp(old(records), id, Paid, old(records).rows[id].received, Some(old(expenses).next))
    {
      var e := expenses.next;
      expenses := Insert(expenses, Expense(Some(id), total, day));
      SetState(id, Paid, records.rows[id].received, Some(e));
    }

    /** action "pay" */
    method PayOperation(mod: Module, id: nat, terms: PayTerms, today: Date) returns (reply: Reply)
      modifies `records, `expenses
      ensures Snapshot() == Commit(old(Snapshot()), PayRecord(old(Snapshot()), mod, id, terms, today))
      ensures reply == ReplyOf(PayRecord(old(Snapshot()), mod, id, terms, today))
    {
      hide Stamp, TotalOf, RefOk, Insert, PayModule;
      if id !in records.rows || records.rows[id].mod != mod {
        return Fail(NoSuchRecord);
      }
      if !PayModule(mod) {
        return Fail(NotPayable);
      }
      if !terms.finance {
        return Fail(NotAllowed);
      }
      var r := records.rows[id];
      if r.expense.Some? {
        return Ok(id);
      }
      if r.state == Archived {
        return Fail(ArchivedRecord);
      }
      var total := TotalOf(r.form.body);
      if !Payable(total) {
        return Fail(BadAmount);
      }
      if mod == Payroll && !terms.employed {
        return Fail(NoSuchEmployee);
      }
      if mod == PurchaseBills && !(VendorField in r.form.refs
                                   && RefOk(records, VendorField, r.form.refs[VendorField])) {
        return Fail(NoSuchRecord);
      }
      if terms.day > today.day {
        return Fail(FutureDate);
      }
      if !terms.supported {
        return Fail(BadMethod);
      }
      PostExpense(id, total, terms.day);
      return Ok(id);
    }

    // ----- the expense form -----------------------------------------------------------------------------------

    method SaveExpense(id: Option<nat>, x: Expense, allowed: bool) returns (reply: Reply)
      modifies `expenses
      ensures var o := if id.Some? then EditExpense(old(Snapshot()), id.value, x, allowed)
                       else AddExpense(old(Snapshot()), x, allowed);
              Snapshot() == Commit(old(Snapshot()), o) && reply == ReplyOf(o)
    {
      if !allowed {
        return Fail(NotAllowed);
      }
      if x.amount == 0 {
        return Fail(BadAmount);
      }
      if id.None? {
        reply := Ok(expenses.next);
        expenses := Insert(expenses, x);
      } else {
        if id.value !in expenses.rows {
          return Fail(NoSuchExpense);
        }
        expenses := Put(expenses, id.value, x);
        reply := Ok(id.value);
      }
    }

    method DeleteExpense(id: nat, allowed: bool) returns (reply: Reply)
      modifies `expenses
      ensures Snapshot() == Commit(old(Snapshot()), DropExpense(old(Snapshot()), id, allowed))
      ensures reply == ReplyOf(DropExpense(old(Snapshot()), id, allowed))
    {
      if !allowed {
        return Fail(NotAllowed);
      }
      if id !in expenses.rows {
        return Fail(NoSuchExpense);
      }
      expenses := Drop(expenses, id);
      return Ok(id);
    }

    // ----- serving requests ---------------------------------------------------------------------------------

    ghost predicate Valid()
      reads this
    {
      Inv(Snapshot())
    }

    /** One request: the transaction of its rule, from a valid state to a valid state. */
    method Handle(e: Event) returns (reply: Reply)
      requires Valid()
      modifies this
      ensures Valid()
      ensures Snapshot() == After(old(Snapshot()), e) && reply == ReplyOf(Step(old(Snapshot()), e))
    {
      hide Inv, AddBatch, EditBatch, RemoveBatch, Register, Inspect, IssueStock, ReturnIssue, DeleteIssue,
           TransferStock, AddCustomer, EditCustomer, RemoveCustomer, TerminateCustomer, BulkStatus, ApplyChange,
           AddCharge, CustomerDesk.Pay, RaiseInvoice, SaveRecord, ArchiveRecord, DeleteRecord, ReceiveBill, PayRecord,
           Generate, AddExpense, EditExpense, DropExpense;
      StepKeepsInv(Snapshot(), e);
      match e.cmd
      case CmdAddBatch(b, category) => reply := SaveBatch(None, b, None, category);
      case CmdEditBatch(id, b, original, category) => reply := SaveBatch(Some(id), b, original, category);
      case CmdRemoveBatch(id) => reply := DeleteBatch(id);
      case CmdRegister(q) => reply := RegisterUnit(q);
      case CmdInspect(id, c) => reply := SetCondition(id, c);
      case CmdIssue(q) => reply := SaveStockIssue(q, e.today);
      case CmdReturn(id) => reply := ReturnStock(id);
      case CmdDeleteIssue(id, admin) => reply := DeleteStockIssue(id, admin);
      case CmdTransfer(q) => reply := Transfer(q);
      case CmdAddCustomer(c) => reply := SaveAccount(None, c, e.today);
      case CmdEditCustomer(id, c) => reply := SaveAccount(Some(id), c, e.today);
      case CmdRemoveCustomer(id) => reply := DeleteAccount(id);
      case CmdTerminate(id, reason, available) => reply := TerminateAccount(id, reason, available, e.today);
      case CmdBulkStatus(ids, status) => reply := SetStatuses(ids, status);
      case CmdChange(id, change) => reply := ChangeAccount(id, change);
      case CmdCharge(q) => reply := AddServiceCharge(q);
      case CmdPay(q) => reply := SavePaymentRequest(q, e.today);
      case CmdInvoice(id, month) => reply := RaiseInvoiceFor(id, month, e.today);
      case CmdMonthlyRun =>
        UniqueInvoices(Snapshot());
        GenerateMonthlyInvoices(e.today);
        reply := Ok(0);
      case CmdSaveRecord(q) => reply := SaveOperation(q, e.today);
      case CmdArchive(mod, id) => reply := Archive(mod, id);
      case CmdDeleteRecord(mod, id, manager) => reply := DeleteOperation(mod, id, manager);
      case CmdReceive(id) => reply := Receive(id);
      case CmdPayRecord(mod, id, terms) => reply := PayOperation(mod, id, terms, e.today);
      case CmdAddExpense(x, allowed) => reply := SaveExpense(None, x, allowed);
      case CmdEditExpense(id, x, allowed) => reply := SaveExpense(Some(id), x, allowed);
      case CmdDropExpense(id, allowed) => reply := DeleteExpense(id, allowed);
    }

    /** Any number of requests, one after the other. */
    method Serve(events: seq<Event>)
      requires Valid()
      modifies this
      ensures Valid() && Snapshot() == Run(old(Snapshot()), events)
    {
      hide Inv, After;
      var n := 0;
      while n < |events|
        invariant 0 <= n <= |events| && Valid()
        invariant Run(Snapshot(), events[n..]) == Run(old(Snapshot()), events)
      {
        assert events[n..] == [events[n]] + events[n + 1..];
        var _ := Handle(events[n]);
        n := n + 1;
      }
    }
  }

  lemma UniqueInvoices(db: Db)
    requires Inv(db)
    ensures InvoicesUnique(db.money.invoices)
  {
    hide StockOk, TransfersOk, RecoveryOk, ChargesOk, NetworkOk, LocationsOk, IssueKeysUnique, DeviceKeysUnique,
         RecordsOk, PaymentsOk, ReceiptsOk, NotOver, KeysUnique, RechargesOk, InvoicesUnique;
    InvGroups(db);
  }

  /** What synchronising a record comes to: its new link, or why it is refused. */
  datatype Result = Linked(link: Option<nat>) | Error(error: CrmData.Error)

  lemma ReceiptBody(mod: Module, f: Form)
    requires Shape(mod, f) && mod == ResellerReceipts
    ensures f.body.Amount? && InvoiceField in f.refs
  {}

  lemma WrittenSteps(records: Table<Record>, inventory: Table<Batch>, q: SaveRequest, link: Option<nat>)
    requires q.id.Some? ==> q.id.value in records.rows
    requires q.id.None? ==> q.key.Some?
    ensures q.id.Some? ==>
              var r := records.rows[q.id.value];
              && Written(records, q, link)
                 == Put(records, q.id.value, r.(form := q.form, version := r.version + 1, link := link))
              && Relocated(records, inventory, q)
                 == (if r.form.body.Warehouse? && q.form.body.Warehouse? && r.form.body.name != q.form.body.name
                     then Update(inventory, Renamed(r.form.body.name, q.form.body.name)) else inventory)
    ensures q.id.None? ==>
              && Written(records, q, link)
                 == Insert(records, Record(q.mod, q.form, Open, 1, q.key.value, link, false, None))
              && Relocated(records, inventory, q) == inventory
  {}

  /** The link is written last. */
  lemma WrittenLink(records: Table<Record>, q: SaveRequest, link: Option<nat>)
    requires q.id.Some? ==> q.id.value in records.rows
    requires q.id.None? ==> q.key.Some?
    ensures var id := if q.id.Some? then q.id.value else records.next;
            var first := Written(records, q, None);
            id in first.rows && Put(first, id, first.rows[id].(link := link)) == Written(records, q, link)
  {
    var id := if q.id.Some? then q.id.value else records.next;
    var first := Written(records, q, None);
    assert Put(first, id, first.rows[id].(link := link)).rows == Written(records, q, link).rows;
  }

  lemma StaysReturned(s: Stock, id: nat)
    requires id in s.issues.rows && !s.issues.rows[id].out
    ensures BringBack(s, id) == s
  {}

  lemma ReplayLeavesAll(db: Db, q: IssueRequest, id: nat)
    requires id in db.stock.issues.rows
    ensures Commit(db, ReplayIssue(db, q, id)) == db
  {}

  lemma BringBackParts(s: Stock, id: nat)
    requires id in s.issues.rows
    ensures var i := s.issues.rows[id];
            && BringBack(s, id).inventory
               == (if i.out then AddQuantity(s.inventory, i.form.batch, i.form.quantity) else s.inventory)
            && BringBack(s, id).devices == (if i.out then Update(s.devices, BackOnShelf(id)) else s.devices)
  {}

  /** Booking reads the payments it is given, not those of the money it starts from. */
  lemma BookedOver(m: Money, p: People, id: nat, payments: Table<Payment>, f: PaymentForm, partial: bool, today: Date)
    requires f.customer in p.customers.rows
    ensures Book(m.(payments := payments), p, id, payments, f, partial, today)
            == Book(m, p, id, payments, f, partial, today)
    ensures var r := Book(m, p, id, payments, f, partial, today);
            if f.kind.Otc? && partial then r == Rejected(OtcActivates)
            else r.Saved? && r.id == id && r.money.payments == payments && r.money.charges == m.charges
                 && r.people.recoveries == p.recoveries
  {
    assert m.(payments := payments).(payments := payments) == m.(payments := payments);
    RenewalLeavesPayments(m.(payments := payments), p.customers.rows[f.customer], f.customer, f.month, id, partial,
                          today);
    hide ApplyRecharge;
  }
}
