/** The invariants read out, one promise at a time, for every run of the CRM from empty tables. */
module ReachableFacts {
  import opened Tables
  import opened CrmData
  import opened StockRules
  import opened RecoveryRules
  import opened ChargeRules
  import opened BillingRules
  import opened PaymentRules
  import opened LedgerRules
  import opened NetworkRules
  import opened RecordRules
  import opened RecordLaws
  import opened Invariant
  import opened CrmMachine
  import opened History

  /** What a run from empty tables leads to. */
  function Reached(events: seq<Event>): Db {
    Run(EmptyDb(), events)
  }

  lemma ReachedHolds(events: seq<Event>)
    ensures Inv(Reached(events))
  {
    hide Inv, Run;
    ReachableStatesHold(events);
  }

  /** Stock: the labelled devices on a shelf never outnumber the quantity of their row, an issued device is on exactly
      one outstanding one-unit issue of its row, no two of a row have the same serial number, and every row stands in a
      warehouse there is. */
  lemma UnitsAreCovered(events: seq<Event>)
    ensures var db := Reached(events);
            var s := db.stock;
            && (forall b :: b in s.inventory.rows ==>
                  Labelled(s.devices, b) <= s.inventory.rows[b].quantity)
            && (forall b :: b in s.inventory.rows ==>
                  exists r :: r in db.records.rows && db.records.rows[r].mod == Warehouses
                              && db.records.rows[r].form.body.Warehouse?
                              && db.records.rows[r].form.body.name == s.inventory.rows[b].location)
            && (forall u :: u in s.devices.rows && s.devices.rows[u].issued ==> HeldBy(s.devices.rows[u], s.issues))
            && (forall u, v :: (u in s.devices.rows && v in s.devices.rows && u != v && s.devices.rows[u].issued
                                && s.devices.rows[v].issued) ==>
                  s.devices.rows[u].issue != s.devices.rows[v].issue)
            && SerialsUnique(s.devices)
  {
    hide Reached, RecoveryOk, ChargesOk, MoneyOk, NetworkOk, RecordsOk, TransfersOk, IssueKeysUnique,
         DeviceKeysUnique, Homed, SerialsUnique, IsWarehouse, Shelf, Labelled;
    ReachedHolds(events);
    InvGroups(Reached(events));
    var db := Reached(events);
    forall b | b in db.stock.inventory.rows
      ensures exists r :: r in db.records.rows && db.records.rows[r].mod == Warehouses
                          && db.records.rows[r].form.body.Warehouse?
                          && db.records.rows[r].form.body.name == db.stock.inventory.rows[b].location
      ensures Labelled(db.stock.devices, b) <= db.stock.inventory.rows[b].quantity
    {
      ShelfCounts(db.stock.devices, b);
      WarehouseThere(db.records, db.stock.inventory.rows[b].location);
    }
  }

  lemma WarehouseThere(records: Table<Record>, name: string)
    requires IsWarehouse(records, name)
    ensures exists r :: r in records.rows && records.rows[r].mod == Warehouses && records.rows[r].form.body.Warehouse?
                        && records.rows[r].form.body.name == name
  {
    var r := First(records, WarehouseNamed(name)).value;
    assert WarehouseNamed(name)(records.rows[r]);
  }

  /** Money: no charge and no installation is collected beyond what was agreed, a payment on a charge shares its
      customer, month and kind, every payment has its receipt, and an account is renewed once a month at most. */
  lemma NothingOverCollected(events: seq<Event>)
    ensures var db := Reached(events);
            var m := db.money;
            && (forall k :: k in m.charges.rows ==> PaidOn(m.payments, k) <= m.charges.rows[k].amount)
            && (forall c :: c in db.people.customers.rows ==>
                  InstallationPaid(m.payments, c) <= db.people.customers.rows[c].installation)
            && (forall p :: p in m.payments.rows ==>
                  LinkOk(m.payments.rows[p].form, m.charges) && p in m.receipts
                  && ReceiptFor(m.receipts[p], m.payments.rows[p].form))
            && (forall r, q :: r in m.recharges.rows && q in m.recharges.rows && r != q
                               && m.recharges.rows[r].customer == m.recharges.rows[q].customer ==>
                  m.recharges.rows[r].month != m.recharges.rows[q].month)
  {
    hide Reached, RecoveryOk, ChargesOk, StockOk, NetworkOk, RecordsOk, TransfersOk, IssueKeysUnique,
         DeviceKeysUnique, LocationsOk, PaidOn, InstallationPaid, LinkOk, KeysUnique, Billing;
    ReachedHolds(events);
    InvGroups(Reached(events));
  }

  /** Recovery: a terminated account reads "pending" exactly while a required item is out, only terminated accounts
      have a pending recovery row, and no account has two. */
  lemma RecoveryIsExact(events: seq<Event>)
    ensures var db := Reached(events);
            var customers, recoveries, issues := db.people.customers, db.people.recoveries, db.stock.issues;
            && (forall c :: c in customers.rows && customers.rows[c].status == Terminated ==>
                  (customers.rows[c].recovery == RecoveryPending <==>
                   exists i :: i in issues.rows && issues.rows[i].out && issues.rows[i].form.recovery
                               && issues.rows[i].form.to == ToCustomer(c)))
            && (forall c :: c in customers.rows && customers.rows[c].status != Terminated ==>
                  customers.rows[c].recovery != RecoveryPending)
            && (forall r :: r in recoveries.rows ==> recoveries.rows[r].customer in customers.rows)
            && (forall r :: r in recoveries.rows && recoveries.rows[r].status == RecoveryPending ==>
                  customers.rows[recoveries.rows[r].customer].recovery == RecoveryPending)
            && (forall r, q :: (r in recoveries.rows && q in recoveries.rows && r != q
                                && recoveries.rows[r].status == RecoveryPending
                                && recoveries.rows[q].status == RecoveryPending) ==>
                  recoveries.rows[r].customer != recoveries.rows[q].customer)
  {
    hide Reached, MoneyOk, ChargesOk, StockOk, NetworkOk, RecordsOk, TransfersOk, IssueKeysUnique, DeviceKeysUnique,
         LocationsOk, HasPending, HasPendingRow, HasRow;
    ReachedHolds(events);
    InvGroups(Reached(events));
    var db := Reached(events);
    forall c | c in db.people.customers.rows
      ensures StatusRight(db.people.customers.rows[c], HasPending(db.stock.issues, c), HasRow(db.people.recoveries, c),
                          HasPendingRow(db.people.recoveries, c))
      ensures HasPending(db.stock.issues, c) <==>
              exists i :: i in db.stock.issues.rows && db.stock.issues.rows[i].out
                          && db.stock.issues.rows[i].form.recovery && db.stock.issues.rows[i].form.to == ToCustomer(c)
    {
      PendingMeans(db.stock.issues, c);
    }
    forall r | r in db.people.recoveries.rows && db.people.recoveries.rows[r].status == RecoveryPending
      ensures HasPendingRow(db.people.recoveries, db.people.recoveries.rows[r].customer)
    {
      PendingRowThere(db.people.recoveries, r);
    }
  }

  lemma PendingRowThere(recoveries: Table<Recovery>, r: nat)
    requires r in recoveries.rows && recoveries.rows[r].status == RecoveryPending
    ensures HasPendingRow(recoveries, recoveries.rows[r].customer)
  {
    assert PendingRowOf(recoveries.rows[r].customer)(recoveries.rows[r]);
  }

  /** Equipment charges: there is one exactly for each customer issue at a positive price, for quantity times price,
      and no other charge names an issue. */
  lemma EquipmentIsCharged(events: seq<Event>)
    ensures var db := Reached(events);
            var charges, issues := db.money.charges, db.stock.issues;
            && (forall id :: id in issues.rows ==> (Billable(issues.rows[id]) <==> ChargeOf(charges, id).Some?))
            && (forall k :: k in charges.rows && charges.rows[k].issue.Some? ==>
                  var id := charges.rows[k].issue.value;
                  id in issues.rows && charges.rows[k].kind == Equipment && ChargeOf(charges, id) == Some(k)
                  && issues.rows[id].price.Some?
                  && charges.rows[k].amount == issues.rows[id].price.value * issues.rows[id].form.quantity)
  {
    hide Reached, RecoveryOk, ChargesOk, StockOk, NetworkOk, RecordsOk, TransfersOk, IssueKeysUnique,
         DeviceKeysUnique, LocationsOk, MoneyOk;
    ReachedHolds(events);
    InvGroups(Reached(events));
    ChargedExactly(Reached(events).money.charges, Reached(events).stock.issues);
  }

  lemma ChargedExactly(charges: Table<Charge>, issues: Table<Issue>)
    requires ChargesOk(charges, issues)
    ensures forall id :: id in issues.rows ==> (Billable(issues.rows[id]) <==> ChargeOf(charges, id).Some?)
    ensures forall k :: k in charges.rows && charges.rows[k].issue.Some? ==>
              var id := charges.rows[k].issue.value;
              id in issues.rows && charges.rows[k].kind == Equipment && ChargeOf(charges, id) == Some(k)
              && issues.rows[id].price.Some?
              && charges.rows[k].amount == issues.rows[id].price.value * issues.rows[id].form.quantity
  {
    forall k | k in charges.rows && charges.rows[k].issue.Some?
      ensures ChargeOf(charges, charges.rows[k].issue.value) == Some(k)
    {
      assert ForIssue(charges.rows[k].issue.value)(charges.rows[k]);
    }
  }

  /** Network: an outstanding issue made by a record belongs to exactly one record, and is for the item, quantity and
      installer of that record; a record has an issue of its own if and only if it is a device or a cable already laid
      and names an item. */
  lemma NetworkStaysInStep(events: seq<Event>)
    ensures var db := Reached(events);
            var records, issues := db.records, db.stock.issues;
            && (forall i :: i in issues.rows && issues.rows[i].synced && issues.rows[i].out ==>
                  issues.rows[i].form.to == ToNetwork
                  && exists r :: r in records.rows && records.rows[r].link == Some(i))
            && (forall r, q :: r in records.rows && q in records.rows && r != q && records.rows[r].link.Some? ==>
                  records.rows[r].link != records.rows[q].link)
            && (forall r :: r in records.rows ==>
                  (records.rows[r].link.Some? <==> TakesStock(records.rows[r].form.body)))
            && (forall r :: r in records.rows && records.rows[r].link.Some? ==>
                  records.rows[r].link.value in issues.rows && issues.rows[records.rows[r].link.value].out ==>
                    issues.rows[records.rows[r].link.value].synced
                    && Supplies(issues.rows[records.rows[r].link.value].form, records.rows[r].form.body))
  {
    hide Reached, RecoveryOk, ChargesOk, StockOk, RecordsOk, TransfersOk, IssueKeysUnique, DeviceKeysUnique,
         LocationsOk, MoneyOk, WantOf, Serves, TakesStock, Supplies;
    ReachedHolds(events);
    InvGroups(Reached(events));
    var db := Reached(events);
    forall i | i in db.stock.issues.rows && db.stock.issues.rows[i].synced && db.stock.issues.rows[i].out
      ensures exists r :: r in db.records.rows && db.records.rows[r].link == Some(i)
    {
      assert Linked(db.records, i);
    }
    forall r | r in db.records.rows ensures LinkTells(db.records.rows[r], db.stock.issues) {
      LinkMeans(db.records.rows[r], db.stock.issues);
    }
  }

  ghost predicate LinkTells(r: Record, issues: Table<Issue>) {
    && (r.link.Some? <==> TakesStock(r.form.body))
    && (r.link.Some? && r.link.value in issues.rows && issues.rows[r.link.value].out ==>
          issues.rows[r.link.value].synced && Supplies(issues.rows[r.link.value].form, r.form.body))
  }

  lemma LinkMeans(r: Record, issues: Table<Issue>)
    requires LinkRight(r, issues)
    ensures LinkTells(r, issues)
  {
    hide WantOf, Serves, TakesStock, Supplies;
    WantMeans(r.form.body);
  }

  /** Records: receipts on a reseller invoice never come to more than the invoice, every reference points to a record
      of the right module, a record is Paid exactly when it has an expense id, no two have the same one, no two of a
      module have the same name but for the case of letters, and nobody has two payroll records for a month. */
  lemma RecordsStayConsistent(events: seq<Event>)
    ensures var db := Reached(events);
            var records := db.records;
            && (forall i :: i in records.rows && records.rows[i].mod == ResellerInvoices ==>
                  records.rows[i].form.body.Amount?
                  && Sum(records, ReceiptOn(i)) <= records.rows[i].form.body.amount)
            && (forall r, k :: r in records.rows && k in records.rows[r].form.refs ==>
                  records.rows[r].form.refs[k] in records.rows
                  && records.rows[records.rows[r].form.refs[k]].mod == Target(k))
            && (forall r :: r in records.rows ==> (records.rows[r].state == Paid <==> records.rows[r].expense.Some?))
            && (forall r :: r in records.rows && records.rows[r].expense.Some? ==>
                  records.rows[r].expense.value < db.expenses.next)
            && (forall r, q :: r in records.rows && q in records.rows && r != q && records.rows[r].expense.Some? ==>
                  records.rows[r].expense != records.rows[q].expense)
            && (forall r, q :: r in records.rows && q in records.rows && r != q ==>
                  OwnNameAndPeriod(records.rows[r], records.rows[q]))
  {
    hide Reached, RecoveryOk, ChargesOk, StockOk, NetworkOk, TransfersOk, IssueKeysUnique, DeviceKeysUnique,
         LocationsOk, MoneyOk, Sum, ShapesOk, Shape, OwnNameAndPeriod, SameName, SamePeriod;
    ReachedHolds(events);
    InvGroups(Reached(events));
    var records := Reached(events).records;
    forall r | r in records.rows ensures StateOk(records.rows[r]) {}
    forall r, k | r in records.rows && k in records.rows[r].form.refs
      ensures RefOk(records, k, records.rows[r].form.refs[k])
    {}
    forall i | i in records.rows && records.rows[i].mod == ResellerInvoices
      ensures records.rows[i].form.body.Amount?
    {
      InvoiceBody(records, i);
    }
    forall r, q | r in records.rows && q in records.rows && r != q
      ensures OwnNameAndPeriod(records.rows[r], records.rows[q])
    {
      DistinctMeans(records.rows[r], records.rows[q]);
    }
  }

  lemma InvoiceBody(records: Table<Record>, i: nat)
    requires ShapesOk(records) && i in records.rows && records.rows[i].mod == ResellerInvoices
    ensures records.rows[i].form.body.Amount?
  {
    assert Shape(records.rows[i].mod, records.rows[i].form);
  }

  lemma DistinctMeans(a: Record, b: Record)
    requires !SameName(a, b) && !SamePeriod(a, b)
    ensures OwnNameAndPeriod(a, b)
  {
    hide Lower;
    if NameOf(a.form.body).Some? && NameOf(b.form.body).Some? {
      LowerIgnoresCase(NameOf(a.form.body).value, NameOf(b.form.body).value);
    }
  }

  /** Whatever happens after a record was received or paid, no later edit, archiving or deletion of it gets through and
      no second posting does anything. */
  lemma PostsOnce(db: Db, events: seq<Event>, id: nat, q: SaveRequest, manager: bool, terms: PayTerms, today: Date)
    requires Inv(db) && id in db.records.rows && Posted(db.records.rows[id])
    ensures var after := Run(db, events);
            && id in after.records.rows && after.records.rows[id].form == db.records.rows[id].form
            && (db.records.rows[id].expense.Some? ==> after.records.rows[id].expense == db.records.rows[id].expense)
            && (q.id == Some(id) ==> SaveRecord(after, q, today).Refused?)
            && ArchiveRecord(after, db.records.rows[id].mod, id).Refused?
            && DeleteRecord(after, db.records.rows[id].mod, id, manager).Refused?
            && (db.records.rows[id].received ==> Commit(after, ReceiveBill(after, id)) == after)
            && (db.records.rows[id].expense.Some? ==>
                  Commit(after, PayRecord(after, db.records.rows[id].mod, id, terms, today)) == after)
  {
    hide Inv, Run, MoneyRemembered, SaveRecord, ArchiveRecord, DeleteRecord, ReceiveBill, PayRecord, StatesOk;
    RunRemembers(db, events);
    RunKeepsInv(db, events);
    MoneyFacts(Run(db, events));
    PostedIsFrozen(Run(db, events), id, q, manager, terms, today);
  }

  /** A payment once saved answers its request key for ever: whatever happened since, a request under the key changes
      nothing, and no edit or deletion of any payment gets through. */
  lemma PaymentsAreFinal(db: Db, events: seq<Event>, id: nat, q: PaymentRequest, today: Date)
    requires Inv(db) && id in db.money.payments.rows
    ensures var after := Run(db, events);
            && id in after.money.payments.rows && after.money.payments.rows[id] == db.money.payments.rows[id]
            && (q.rid.Some? || q.deleting ==> CustomerDesk.Pay(after, q, today).Refused?)
            && (q.rid.None? && q.key.Some? && q.key == db.money.payments.rows[id].key ==>
                  Commit(after, CustomerDesk.Pay(after, q, today)) == after)
  {
    hide Inv, Run, Advances, MoneyOk, SavePayment, InvoicesUnique, StatesOk;
    RunRemembers(db, events);
    RunKeepsInv(db, events);
    var after := Run(db, events);
    MoneyFacts(after);
    if q.rid.Some? || q.deleting {
      ReceiptsThere(after.money, after.people.customers);
      PaymentsArePermanent(after.money, after.people, q, today);
    } else if q.key.Some? && q.key == db.money.payments.rows[id].key {
      ReplayChangesNothing(after.money, after.people, q, today, id);
    }
  }

  lemma ReceiptsThere(m: Money, customers: Table<Customer>)
    requires MoneyOk(m, customers)
    ensures ReceiptsOk(m.receipts, m.payments)
  {
    hide ReceiptsOk, PaymentsOk, NotOver, KeysUnique, RechargesOk, Billing;
  }

  /** For the last billed month of a customer: the ledger never exceeds installation and bill together, and the two
      agree exactly when every subscription receipt is for an invoiced month and no earlier month was overpaid. */
  lemma BillsReconcile(events: seq<Event>, k: nat)
    requires var m := Reached(events).money;
             && k in m.invoices.rows
             && (forall j :: j in m.invoices.rows && m.invoices.rows[j].customer == m.invoices.rows[k].customer ==>
                   m.invoices.rows[j].month <= m.invoices.rows[k].month)
             && (forall s :: s in m.charges.rows && m.charges.rows[s].customer == m.invoices.rows[k].customer ==>
                   m.charges.rows[s].date.month <= m.invoices.rows[k].month)
    ensures var db := Reached(events);
            var i := db.money.invoices.rows[k];
            && i.customer in db.people.customers.rows
            && var customer := db.people.customers.rows[i.customer];
               var bill := BillOf(db.money, i);
               var ledger := AccountBalance(db.money, customer, i.customer);
               var due := customer.installation - InstallationPaid(db.money.payments, i.customer);
               var shown := due + bill.total - bill.paid;
               ledger <= shown
               && (ledger == shown <==> AllMatched(db.money, i.customer) && Arrears(db.money, i.customer, i.month) >= 0)
  {
    hide Inv, Reached, BillOf, AccountBalance, InstallationPaid, AllMatched, Arrears, MoneyOk, LinkedKinds, StatesOk,
         InvoicesUnique;
    ReachedHolds(events);
    var db := Reached(events);
    MoneyFacts(db);
    ChargeKinds(db);
    InvoicedIsKnown(db.money, db.people.customers, k);
    BillReconciles(db.money, db.people.customers, k);
  }

  lemma InvoicedIsKnown(m: Money, customers: Table<Customer>, k: nat)
    requires MoneyOk(m, customers) && k in m.invoices.rows
    ensures m.invoices.rows[k].customer in customers.rows
  {
    hide ReceiptsOk, PaymentsOk, NotOver, KeysUnique, RechargesOk, InvoicesUnique;
  }
}
