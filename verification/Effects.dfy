/** What an accepted request writes, told from the request and the tables before it, field by field. */
module Effects {
  import opened Tables
  import opened CrmData
  import opened StockRules
  import opened RecoveryRules
  import opened ChargeRules
  import opened BillingRules
  import opened PaymentRules
  import opened AccountRules
  import opened NetworkRules
  import opened Invariant
  import opened IssueDesk
  import opened WarehouseDesk
  import opened CustomerDesk
  import opened Acceptance
  import opened Pricing

  // ----- stock coming back ----------------------------------------------------------------------

  /** The devices that were out on the issue stand on the shelf again. */
  ghost predicate Freed(devices: Table<Device>, after: Table<Device>, issue: Option<nat>) {
    && after.next == devices.next && after.rows.Keys == devices.rows.Keys
    && forall u :: u in devices.rows ==>
         var d := devices.rows[u];
         after.rows[u] == if d.issued && issue.Some? && d.issue == issue then d.(issued := false) else d
  }

  predicate OwesItem(issues: Table<Issue>, c: nat) {
    exists i :: i in issues.rows && issues.rows[i].out && issues.rows[i].form.recovery
                && issues.rows[i].form.to == ToCustomer(c)
  }

  predicate AwaitsItems(recoveries: Table<Recovery>, c: nat) {
    exists r :: r in recoveries.rows && recoveries.rows[r].customer == c && recoveries.rows[r].status == RecoveryPending
  }

  /** The recipient, if a customer whose recovery was pending and who owes nothing any more, has recovered; nobody else
      changes. */
  ghost predicate Settled(p: People, after: People, issues: Table<Issue>, to: Recipient) {
    if to.ToCustomer? && AwaitsItems(p.recoveries, to.customer) && !OwesItem(issues, to.customer) then
      var c := to.customer;
      && c in p.customers.rows
      && after.customers == Put(p.customers, c, p.customers.rows[c].(recovery := Recovered))
      && after.recoveries.next == p.recoveries.next && after.recoveries.rows.Keys == p.recoveries.rows.Keys
      && forall r :: r in p.recoveries.rows ==>
           var row := p.recoveries.rows[r];
           after.recoveries.rows[r] == if row.customer == c && row.status == RecoveryPending
                                       then row.(status := Recovered) else row
    else after == p
  }

  lemma RefreshSettles(p: People, issues: Table<Issue>, i: Issue)
    requires forall r :: r in p.recoveries.rows ==> p.recoveries.rows[r].customer in p.customers.rows
    ensures Settled(p, RefreshFor(p, issues, i), issues, i.form.to)
  {
    if i.form.to.ToCustomer? {
      var c := i.form.to.customer;
      PendingMeans(issues, c);
      assert HasPendingRow(p.recoveries, c) <==> AwaitsItems(p.recoveries, c) by {
        if r :| r in p.recoveries.rows && p.recoveries.rows[r].customer == c
                && p.recoveries.rows[r].status == RecoveryPending {
          assert PendingRowOf(c)(p.recoveries.rows[r]);
        }
      }
    }
  }

  lemma RecoveriesKnown(db: Db)
    requires Inv(db)
    ensures forall r :: r in db.people.recoveries.rows ==>
              db.people.recoveries.rows[r].customer in db.people.customers.rows
  {
    hide StockOk, StatusesRight, OnePendingRow;
    assert Holds(RecoveryGroup, db);
  }

  /** A return puts the quantity back on the row the issue came from, and its device with it. */
  lemma ReturnEffects(db: Db, id: nat)
    requires Inv(db) && id in db.stock.issues.rows && db.stock.issues.rows[id].out
    ensures var o, i := ReturnIssue(db, id), db.stock.issues.rows[id];
            && o.Done? && o.id == id && i.form.batch in db.stock.inventory.rows
            && var row := db.stock.inventory.rows[i.form.batch];
               && o.db == db.(stock := o.db.stock, people := o.db.people)
               && o.db.stock.issues == Put(db.stock.issues, id, i.(out := false))
               && o.db.stock.inventory
                  == Put(db.stock.inventory, i.form.batch, row.(quantity := row.quantity + i.form.quantity))
               && Freed(db.stock.devices, o.db.stock.devices, Some(id))
               && Settled(db.people, o.db.people, o.db.stock.issues, i.form.to)
  {
    hide Inv, RefreshFor, Held, Covered, SerialsUnique, Settled;
    StockHolds(db);
    RecoveriesKnown(db);
    RefreshSettles(db.people, BringBack(db.stock, id).issues, db.stock.issues.rows[id]);
  }

  /** An administrator deletes an issue nobody paid for. It does the same for stock still out, then removes the issue,
      its mention on devices, and its charge. */
  lemma DeleteEffects(db: Db, id: nat, admin: bool)
    requires Inv(db)
    ensures DeleteIssue(db, id, admin).Done? <==>
              && admin && id in db.stock.issues.rows
              && forall k, p :: (k in db.money.charges.rows && db.money.charges.rows[k].issue == Some(id)
                                 && p in db.money.payments.rows) ==>
                   db.money.payments.rows[p].form.charge != Some(k)
    ensures id in db.stock.issues.rows ==> db.stock.issues.rows[id].form.batch in db.stock.inventory.rows
    ensures DeleteIssue(db, id, admin).Done? ==>
              var o, i := DeleteIssue(db, id, admin), db.stock.issues.rows[id];
              && o.db == db.(stock := o.db.stock, people := o.db.people,
                             money := db.money.(charges := o.db.money.charges))
              && IssueErased(db.stock, o.db.stock, id)
              && ChargeDropped(db.money.charges, o.db.money.charges, id)
              && Settled(db.people, o.db.people, o.db.stock.issues, i.form.to)
  {
    hide Inv, RefreshFor, Covered, SerialsUnique, Settled, Unbill, ChargeDropped, Erase, IssueErased, Held, PaidFor;
    StockHolds(db);
    if id in db.stock.issues.rows {
      RecoveriesKnown(db);
      RefreshSettles(db.people, Erase(db.stock, id).issues, db.stock.issues.rows[id]);
      UnbillDrops(db, id);
      PaidMeans(db, id);
      ErasedExactly(db.stock, id);
    }
  }

  ghost predicate IssueErased(s: Stock, after: Stock, id: nat)
    requires id in s.issues.rows && s.issues.rows[id].form.batch in s.inventory.rows
  {
    var i := s.issues.rows[id];
    var row := s.inventory.rows[i.form.batch];
    && after.issues == Drop(s.issues, id)
    && after.inventory
       == (if i.out then Put(s.inventory, i.form.batch, row.(quantity := row.quantity + i.form.quantity))
           else s.inventory)
    && after.devices.next == s.devices.next && after.devices.rows.Keys == s.devices.rows.Keys
    && (forall u :: u in s.devices.rows ==>
          var d := s.devices.rows[u];
          after.devices.rows[u] == if d.issue == Some(id) then d.(issued := false, issue := None) else d)
  }

  lemma ErasedExactly(s: Stock, id: nat)
    requires StockOk(s) && id in s.issues.rows
    ensures s.issues.rows[id].form.batch in s.inventory.rows && IssueErased(s, Erase(s, id), id)
  {
    hide Covered, SerialsUnique;
    ErasedIssues(s, id);
    forall u | u in s.devices.rows && s.devices.rows[u].issued && s.devices.rows[u].issue == Some(id)
      ensures s.issues.rows[id].out
    {
      assert HeldBy(s.devices.rows[u], s.issues);
    }
  }

  lemma PaidMeans(db: Db, id: nat)
    requires Inv(db)
    ensures ChargeIsPaid(db.money, id) <==>
            exists k, p :: k in db.money.charges.rows && db.money.charges.rows[k].issue == Some(id)
                           && p in db.money.payments.rows && db.money.payments.rows[p].form.charge == Some(k)
  {
    ChargesHold(db);
    hide Inv;
    var charges := db.money.charges;
    forall k | k in charges.rows && charges.rows[k].issue == Some(id) ensures ChargeOf(charges, id) == Some(k) {
      assert ForIssue(id)(charges.rows[k]);
    }
  }

  ghost predicate ChargeDropped(charges: Table<Charge>, after: Table<Charge>, issue: nat) {
    && after.next == charges.next
    && (forall k :: k in after.rows <==> k in charges.rows && charges.rows[k].issue != Some(issue))
    && (forall k :: k in after.rows ==> after.rows[k] == charges.rows[k])
  }

  lemma UnbillDrops(db: Db, id: nat)
    requires Inv(db)
    ensures ChargeDropped(db.money.charges, Unbill(db.money.charges, id), id)
  {
    ChargesHold(db);
    hide Inv;
    var charges := db.money.charges;
    forall k | k in charges.rows && charges.rows[k].issue == Some(id) ensures ChargeOf(charges, id) == Some(k) {
      assert ForIssue(id)(charges.rows[k]);
    }
  }

  // ----- inventory and labels -------------------------------------------------------------------

  predicate OpenWarehouse(records: Table<Record>, name: string) {
    exists r :: r in records.rows && records.rows[r].mod == Warehouses && records.rows[r].state != Archived
                && records.rows[r].form.body.Warehouse? && records.rows[r].form.body.active
                && records.rows[r].form.body.name == name
  }

  lemma ActiveMeansOpen(records: Table<Record>, name: string)
    ensures ActiveWarehouse(records, name) <==> OpenWarehouse(records, name)
  {
    forall r | r in records.rows
      ensures ActiveNamed(name)(records.rows[r]) <==>
              records.rows[r].mod == Warehouses && records.rows[r].state != Archived
              && records.rows[r].form.body.Warehouse? && records.rows[r].form.body.active
              && records.rows[r].form.body.name == name
    {}
  }

  /** A row is added under an active category in an active warehouse; an edit needs no fewer units than are labelled and
      the quantity the form was opened with, keeps an inactive category only if the row had it, and moves only an empty
      row. What the form says is what is written. */
  lemma BatchEffects(db: Db, id: nat, b: Batch, original: Option<nat>, category: Option<bool>)
    ensures AddBatch(db, b, category).Done? <==> category == Some(true) && OpenWarehouse(db.records, b.location)
    ensures AddBatch(db, b, category).Done? ==>
              AddBatch(db, b, category)
              == Done(db.(stock := db.stock.(inventory := Insert(db.stock.inventory, b))), db.stock.inventory.next)
    ensures EditBatch(db, id, b, original, category).Done? <==>
              && id in db.stock.inventory.rows && category.Some?
              && var row := db.stock.inventory.rows[id];
                 && Labelled(db.stock.devices, id) <= b.quantity
                 && (original.Some? ==> original.value == row.quantity)
                 && (category == Some(true) || row.category == b.category)
                 && (b.location == row.location
                     || (OpenWarehouse(db.records, b.location) && (row.quantity == 0 || row.location == "")))
    ensures EditBatch(db, id, b, original, category).Done? ==>
              EditBatch(db, id, b, original, category)
              == Done(db.(stock := db.stock.(inventory := Put(db.stock.inventory, id, b))), id)
    ensures RemoveBatch(db, id).Done? <==>
              && id in db.stock.inventory.rows
              && (forall u :: u in db.stock.devices.rows ==> db.stock.devices.rows[u].batch != id)
              && (forall i :: i in db.stock.issues.rows ==> db.stock.issues.rows[i].form.batch != id)
              && (forall t :: t in db.transfers.rows ==>
                    db.transfers.rows[t].from != id && db.transfers.rows[t].to != id)
    ensures RemoveBatch(db, id).Done? ==>
              RemoveBatch(db, id) == Done(db.(stock := db.stock.(inventory := Drop(db.stock.inventory, id))), id)
  {
    hide ActiveWarehouse, OpenWarehouse, Shelf, Labelled;
    ActiveMeansOpen(db.records, b.location);
    ShelfCounts(db.stock.devices, id);
  }

  /** A label is registered under a fresh key if and only if the row exists, has a unit without a label unless a new one
      is received, and no other device of the row has the serial number. */
  lemma RegisterEffects(db: Db, q: RegisterRequest)
    requires StockOk(db.stock) && First(db.stock.devices, DeviceKey(q.key)).None?
    ensures Register(db, q).Done? <==>
              && q.batch in db.stock.inventory.rows
              && (q.receiveNew || Labelled(db.stock.devices, q.batch) < db.stock.inventory.rows[q.batch].quantity)
              && (q.serial != "" ==>
                    forall u :: u in db.stock.devices.rows && db.stock.devices.rows[u].batch == q.batch ==>
                      db.stock.devices.rows[u].serial != q.serial)
    ensures var o := Register(db, q);
            o.Done? ==>
              && o.id == db.stock.devices.next && q.batch in db.stock.inventory.rows
              && o.db == db.(stock := o.db.stock) && o.db.stock.issues == db.stock.issues
              && o.db.stock.devices
                 == Insert(db.stock.devices, Device(q.batch, q.serial, false, None, Good, q.key, q.receiveNew))
              && var row := db.stock.inventory.rows[q.batch];
                 o.db.stock.inventory
                 == if q.receiveNew then Put(db.stock.inventory, q.batch, row.(quantity := row.quantity + 1))
                    else db.stock.inventory
  {
    hide Shelf, Labelled, Homed, Covered, Held, SerialsUnique;
    ShelfCounts(db.stock.devices, q.batch);
    SerialFree(db.stock.devices, Device(q.batch, q.serial, false, None, Good, q.key, q.receiveNew));
  }

  lemma SerialFree(devices: Table<Device>, d: Device)
    requires SerialsUnique(devices)
    ensures SerialsUnique(Insert(devices, d)) <==>
            (d.serial != "" ==>
               forall u :: u in devices.rows && devices.rows[u].batch == d.batch ==> devices.rows[u].serial != d.serial)
  {
    var after := Insert(devices, d);
    if SerialsUnique(after) && d.serial != "" {
      forall u | u in devices.rows && devices.rows[u].batch == d.batch ensures devices.rows[u].serial != d.serial {
        assert after.rows[u] == devices.rows[u] && after.rows[devices.next] == d;
      }
    }
  }

  /** Inspecting a device writes the condition found, whatever state the device is in. */
  lemma InspectEffects(db: Db, u: nat, c: Condition)
    requires u in db.stock.devices.rows
    ensures var devices := Put(db.stock.devices, u, db.stock.devices.rows[u].(condition := c));
            Inspect(db, u, c) == Done(db.(stock := db.stock.(devices := devices)), u)
  {}

  // ----- accounts -------------------------------------------------------------------------------

  /** What terminating an account leaves: Terminated, pending if an item has to come back, and a recovery row with the
      monthly fee that is lost. */
  ghost predicate Terminates(p: People, after: People, issues: Table<Issue>, c: nat, account: Customer, day: int)
    requires c in p.customers.rows
  {
    var status := if OwesItem(issues, c) then RecoveryPending else NothingToRecover;
    && after.customers == Put(p.customers, c, account.(status := Terminated, recovery := status))
    && after.recoveries == Insert(p.recoveries, Recovery(c, status, p.customers.rows[c].fee, day))
  }

  /** An account without recovery row, or not terminated yet, is terminated for a reason of 1 to 2000 characters if the
      employee named is available; a terminated one with a row keeps everything. */
  lemma TerminateEffects(db: Db, c: nat, reason: string, available: bool, day: int)
    ensures var o := TerminateCustomer(db, c, reason, available, day);
            var rows := db.people.recoveries.rows;
            var again := c in db.people.customers.rows && db.people.customers.rows[c].status == Terminated
                         && exists r :: r in rows && rows[r].customer == c;
            && (again ==> o.Done? && o.db == db && o.id in rows && rows[o.id].customer == c)
            && (!again ==> (o.Done? <==> c in db.people.customers.rows && 0 < |reason| <= 2000 && available))
            && (!again && o.Done? ==>
                  && o.db == db.(people := o.db.people) && o.id == db.people.recoveries.next
                  && Terminates(db.people, o.db.people, db.stock.issues, c, db.people.customers.rows[c], day))
  {
    hide HasPending, OwesItem;
    PendingMeans(db.stock.issues, c);
    OwesMeans(db.stock.issues, c);
    forall r | r in db.people.recoveries.rows
      ensures RowOf(c)(db.people.recoveries.rows[r]) <==> db.people.recoveries.rows[r].customer == c
    {}
  }

  lemma OwesMeans(issues: Table<Issue>, c: nat)
    ensures HasPending(issues, c) <==> OwesItem(issues, c)
  {
    PendingMeans(issues, c);
  }

  /** A new account has nothing to recover, whatever the form says. */
  lemma AddCustomerEffects(db: Db, c: Customer)
    ensures AddCustomer(db, c).Done? <==> c.status != Terminated && c.joined.day <= c.expiry
    ensures AddCustomer(db, c).Done? ==>
              AddCustomer(db, c)
              == Done(db.(people := db.people.(customers := Insert(db.people.customers, c.(recovery := NotRequired)))),
                      db.people.customers.next)
  {}

  /** An edit writes the form but for the recovery status; turning the account Terminated terminates it, with the fee
      it had before. */
  lemma EditCustomerEffects(db: Db, id: nat, c: Customer, day: int)
    requires Inv(db)
    ensures var o := EditCustomer(db, id, c, day);
            && (o.Done? <==>
                  && id in db.people.customers.rows
                  && var row := db.people.customers.rows[id];
                     && (row.recovery == RecoveryPending ==> c.status == Terminated)
                     && InstallationPaid(db.money.payments, id) <= c.installation && c.joined.day <= c.expiry)
            && (o.Done? ==>
                  && o.db == db.(people := o.db.people) && o.id == id
                  && var row := db.people.customers.rows[id];
                     if row.status != Terminated && c.status == Terminated then
                       Terminates(db.people, o.db.people, db.stock.issues, id, c, day)
                     else
                       o.db.people
                       == db.people.(customers := Put(db.people.customers, id, c.(recovery := row.recovery))))
  {
    hide Inv, HasPending, OwesItem, InstallationPaid, Terminates;
    if id in db.people.customers.rows {
      AccountStatus(db, id);
      if EditCustomer(db, id, c, day).Done? {
        RewriteEffects(db.people, db.stock.issues, id, c, day);
      }
    }
  }

  lemma AccountStatus(db: Db, id: nat)
    requires Inv(db) && id in db.people.customers.rows
    ensures var row := db.people.customers.rows[id];
            && (row.recovery == RecoveryPending ==> row.status == Terminated)
            && (row.status == Terminated ==> HasRow(db.people.recoveries, id))
  {
    hide StockOk, HasPending, HasRow, HasPendingRow;
    assert Holds(RecoveryGroup, db);
    assert StatusRight(db.people.customers.rows[id], HasPending(db.stock.issues, id), HasRow(db.people.recoveries, id),
                       HasPendingRow(db.people.recoveries, id));
  }

  lemma RewriteEffects(p: People, issues: Table<Issue>, id: nat, c: Customer, day: int)
    requires id in p.customers.rows && (p.customers.rows[id].status == Terminated ==> HasRow(p.recoveries, id))
    ensures var row, after := p.customers.rows[id], Rewrite(p, issues, id, c, day);
            if row.status != Terminated && c.status == Terminated then Terminates(p, after, issues, id, c, day)
            else after == p.(customers := Put(p.customers, id, c.(recovery := row.recovery)))
  {
    hide HasPending, OwesItem, HasRow;
    OwesMeans(issues, id);
    var row := p.customers.rows[id];
    if row.status != Terminated && c.status == Terminated {
      var status := if HasPending(issues, id) then RecoveryPending else NothingToRecover;
      var r := Recovery(id, status, row.fee, day);
      InsertedRow(p.recoveries, r, id);
    }
  }

  /** Every account named gets the status, and only those, if none is missing or terminated; at most 200 at a time. */
  lemma BulkEffects(db: Db, ids: seq<nat>, status: Status)
    ensures var o, customers := BulkStatus(db, ids, status), db.people.customers;
            && (o.Done? <==>
                  status != Terminated && 1 <= |ids| <= 200
                  && forall c :: c in ids ==> c in customers.rows && customers.rows[c].status != Terminated)
            && (o.Done? ==>
                  && o.db == db.(people := db.people.(customers := o.db.people.customers))
                  && o.db.people.customers.next == customers.next
                  && o.db.people.customers.rows.Keys == customers.rows.Keys
                  && forall c :: c in customers.rows ==>
                       o.db.people.customers.rows[c] == if c in ids then customers.rows[c].(status := status)
                                                        else customers.rows[c])
  {}

  /** An account is removed that no issue, recovery, charge, invoice or payment names. */
  lemma RemoveCustomerEffects(db: Db, id: nat)
    ensures RemoveCustomer(db, id).Done? <==>
              && id in db.people.customers.rows
              && (forall i :: i in db.stock.issues.rows ==> db.stock.issues.rows[i].form.to != ToCustomer(id))
              && (forall r :: r in db.people.recoveries.rows ==> db.people.recoveries.rows[r].customer != id)
              && (forall k :: k in db.money.charges.rows ==> db.money.charges.rows[k].customer != id)
              && (forall i :: i in db.money.invoices.rows ==> db.money.invoices.rows[i].customer != id)
              && (forall p :: p in db.money.payments.rows ==> db.money.payments.rows[p].form.customer != id)
    ensures RemoveCustomer(db, id).Done? ==>
              RemoveCustomer(db, id)
              == Done(db.(people := db.people.(customers := Drop(db.people.customers, id))), id)
  {}

  /** An approved change writes the new status or the new fee of a live account, and nothing else. */
  lemma ChangeEffects(db: Db, c: nat, change: Change)
    ensures var o, customers := ApplyChange(db, c, change), db.people.customers;
            && (o.Done? <==>
                  c in customers.rows && customers.rows[c].status != Terminated && change != NewStatus(Terminated))
            && (o.Done? ==>
                  var row := customers.rows[c];
                  o == Done(db.(people := db.people.(customers :=
                                  Put(customers, c, if change.NewStatus? then row.(status := change.status)
                                                    else row.(fee := change.fee)))), c))
  {}

  /** Under the key of a saved issue nothing is written; the issue comes back if and only if the details agree and, for
      a customer, the price quoted now is the one saved. */
  lemma IssueReplayIff(db: Db, q: IssueRequest, today: Date, id: nat)
    requires Inv(db) && id in db.stock.issues.rows && db.stock.issues.rows[id].key == Some(q.key)
    ensures var i, o := db.stock.issues.rows[id], IssueStock(db, q, today);
            && i.form.batch in db.stock.inventory.rows
            && var quote := StockIssuePrice(q.mode, q.entered, db.stock.inventory.rows[i.form.batch]);
               && (o.Done? <==>
                     q.form.quantity > 0 && i.form == q.form && i.device == q.unit
                     && (i.form.to.ToCustomer? ==> quote.Some? && i.price == Some(quote.value.price)))
               && (o.Done? ==> o == Done(db, id))
  {
    hide Inv, StockIssuePrice, IssueObjection, BillIssue, Place;
    KeysHold(db);
    assert IssueKey(q.key)(db.stock.issues.rows[id]);
  }

  /** So for a registration. */
  lemma RegisterReplayIff(db: Db, q: RegisterRequest, u: nat)
    requires Inv(db) && u in db.stock.devices.rows && db.stock.devices.rows[u].key == q.key
    ensures var d, o := db.stock.devices.rows[u], Register(db, q);
            && (o.Done? <==> d.batch == q.batch && d.serial == q.serial && d.receivedNew == q.receiveNew)
            && (o.Done? ==> o == Done(db, u))
  {
    hide Inv, SerialsUnique, Label;
    KeysHold(db);
    assert DeviceKey(q.key)(db.stock.devices.rows[u]);
  }

  /** And for a service charge, once its fields are valid. */
  lemma ChargeReplayIff(db: Db, q: ChargeRequest, k: nat)
    requires Inv(db) && k in db.money.charges.rows && db.money.charges.rows[k].key == Some(q.key)
    ensures var row, o := db.money.charges.rows[k], AddCharge(db, q);
            && (o.Done? <==>
                  q.text != "" && 0 < q.amount <= 100_000_000_000 && q.customer in db.people.customers.rows
                  && row.customer == q.customer && row.text == q.text && row.amount == q.amount && row.date == q.date)
            && (o.Done? ==> o == Done(db, k))
  {
    hide Inv;
    KeysHold(db);
    assert ChargeKey(q.key)(db.money.charges.rows[k]);
  }

  lemma KeysHold(db: Db)
    requires Inv(db)
    ensures IssueKeysUnique(db.stock.issues) && DeviceKeysUnique(db.stock.devices)
    ensures KeysUnique(db.money.payments, db.money.charges)
    ensures forall i :: i in db.stock.issues.rows ==> db.stock.issues.rows[i].form.batch in db.stock.inventory.rows
  {
    hide IssueKeysUnique, DeviceKeysUnique, KeysUnique, Covered, Held, SerialsUnique, ReceiptsOk, PaymentsOk, NotOver,
         RechargesOk, Billing;
    assert Holds(IssueKeyGroup, db) && Holds(DeviceKeyGroup, db) && Holds(MoneyGroup, db) && Holds(StockGroup, db);
  }

  /** A service charge under a fresh key: a text, an amount up to a billion rupees and a known customer make a charge of
      that amount on that date, tied to no issue. */
  lemma ChargeEffects(db: Db, q: ChargeRequest)
    requires First(db.money.charges, ChargeKey(q.key)).None?
    ensures var o := AddCharge(db, q);
            && (o.Done? <==>
                  q.text != "" && 0 < q.amount <= 100_000_000_000 && q.customer in db.people.customers.rows)
            && (o.Done? ==>
                  && o.id == db.money.charges.next
                  && o.db == db.(money := db.money.(charges :=
                                   Insert(db.money.charges, Charge(q.customer, q.date, q.amount, Service, None,
                                                                   Some(q.key), q.text)))))
  {}

  /** An invoice raised by hand is that of the month if there is one; else a new one at the present fee, with the
      arrears of earlier months, for an account that is not terminated. */
  lemma InvoiceEffects(db: Db, c: nat, month: Month, today: Date)
    ensures var o, invoices := RaiseInvoice(db, c, month, today), db.money.invoices;
            var there := exists i :: i in invoices.rows && invoices.rows[i].customer == c
                                     && invoices.rows[i].month == month;
            && (o.Done? <==>
                  c in db.people.customers.rows && (there || db.people.customers.rows[c].status != Terminated))
            && (o.Done? && there ==> o.db == db)
            && (o.Done? && !there ==>
                  o.db == db.(money := db.money.(invoices :=
                                Insert(invoices, Invoice(c, month, db.people.customers.rows[c].fee, today,
                                                         PreviousBalance(db.money, c, month))))))
  {
    hide PreviousBalance;
    forall i | i in db.money.invoices.rows
      ensures InvoiceFor(c, month)(db.money.invoices.rows[i]) <==>
              db.money.invoices.rows[i].customer == c && db.money.invoices.rows[i].month == month
    {}
  }

  // ----- operations records ---------------------------------------------------------------------

  /** What synchronising a record does to the stock. An issue that still supplies the body is kept and nothing moves;
      otherwise the old issue, if out, comes back, and a body that takes stock gets a new one for the network. */
  ghost predicate IssuesMoved(s: Stock, after: Stock, was: Option<nat>, link: Option<nat>, body: Body, today: Date) {
    var kept := link.Some? && link == was;
    var back := was.Some? && was.value in s.issues.rows && s.issues.rows[was.value].out && !kept;
    && (link.Some? <==> TakesStock(body))
    && (link.Some? ==>
          link.value in after.issues.rows && after.issues.rows[link.value].out
          && Supplies(after.issues.rows[link.value].form, body))
    && (kept ==> after.issues == s.issues)
    && (link.Some? && !kept ==>
          && link.value == s.issues.next && after.issues.next == s.issues.next + 1
          && after.issues.rows[link.value]
             == Issue(IssueForm(after.issues.rows[link.value].form.batch, ToNetwork, body.installer,
                                after.issues.rows[link.value].form.quantity, false, today, ""),
                      true, None, 0, None, None, true))
    && (link.None? ==> after.issues.next == s.issues.next)
    && after.issues.rows.Keys == s.issues.rows.Keys + (if link.Some? then {link.value} else {})
    && (forall i :: i in s.issues.rows && Some(i) != link ==>
          after.issues.rows[i] == if back && was == Some(i) then s.issues.rows[i].(out := false) else s.issues.rows[i])
  }

  /** The quantities that come back and go out with it, each on the row of its issue. */
  ghost predicate ShelvesMoved(s: Stock, after: Stock, was: Option<nat>, link: Option<nat>)
    requires link.Some? ==> link.value in after.issues.rows
  {
    var kept := link.Some? && link == was;
    var back := was.Some? && was.value in s.issues.rows && s.issues.rows[was.value].out && !kept;
    && Freed(s.devices, after.devices, if back then was else None)
    && after.inventory.next == s.inventory.next && after.inventory.rows.Keys == s.inventory.rows.Keys
    && (forall b :: b in s.inventory.rows ==>
          var came := if back && s.issues.rows[was.value].form.batch == b then s.issues.rows[was.value].form.quantity
                      else 0;
          var went := if link.Some? && !kept && after.issues.rows[link.value].form.batch == b
                      then after.issues.rows[link.value].form.quantity else 0;
          0 <= s.inventory.rows[b].quantity + came - went
          && after.inventory.rows[b]
             == s.inventory.rows[b].(quantity := s.inventory.rows[b].quantity + came - went))
  }

  ghost predicate NetworkMoved(s: Stock, after: Stock, was: Option<nat>, link: Option<nat>, body: Body, today: Date) {
    IssuesMoved(s, after, was, link, body, today) && ShelvesMoved(s, after, was, link)
  }

  /** The old issue, if out, has come back. */
  ghost predicate CameBack(s: Stock, after: Stock, was: Option<nat>) {
    var back := was.Some? && was.value in s.issues.rows && s.issues.rows[was.value].out;
    && after.issues.next == s.issues.next && after.issues.rows.Keys == s.issues.rows.Keys
    && (forall i :: i in s.issues.rows ==>
          after.issues.rows[i]
          == if back && was == Some(i) then s.issues.rows[i].(out := false) else s.issues.rows[i])
    && Freed(s.devices, after.devices, if back then was else None)
    && after.inventory.next == s.inventory.next && after.inventory.rows.Keys == s.inventory.rows.Keys
    && (forall b :: b in s.inventory.rows ==>
          var came := if back && s.issues.rows[was.value].form.batch == b then s.issues.rows[was.value].form.quantity
                      else 0;
          after.inventory.rows[b] == s.inventory.rows[b].(quantity := s.inventory.rows[b].quantity + came))
  }

  lemma GivenBack(s: Stock, was: Option<nat>)
    requires StockOk(s)
    ensures CameBack(s, GiveBack(s, was), was)
  {
    hide Covered, SerialsUnique, Held;
  }

  /** An issue that did not serve any more came back, and a new one was placed. */
  lemma Replaced(s: Stock, mid: Stock, after: Stock, was: Option<nat>, body: Body, today: Date, w: Want)
    requires CameBack(s, mid, was) && TakesStock(body) && was != Some(s.issues.next)
    requires Supplies(NetworkIssue(w, today, "").form, body) && w.installer == body.installer
    requires w.item in mid.inventory.rows && w.quantity <= mid.inventory.rows[w.item].quantity
    requires after.issues == Insert(mid.issues, NetworkIssue(w, today, "")) && after.devices == mid.devices
    requires var row := mid.inventory.rows[w.item];
             after.inventory == Put(mid.inventory, w.item, row.(quantity := row.quantity - w.quantity))
    ensures NetworkMoved(s, after, was, Some(s.issues.next), body, today)
  {
    hide TakesStock, Supplies, Freed, IssuesMoved, ShelvesMoved;
    ReplacedIssues(s, mid, after, was, body, today, w);
    ReplacedShelves(s, mid, after, was, body, today, w);
  }

  lemma ReplacedIssues(s: Stock, mid: Stock, after: Stock, was: Option<nat>, body: Body, today: Date, w: Want)
    requires CameBack(s, mid, was) && TakesStock(body) && was != Some(s.issues.next)
    requires Supplies(NetworkIssue(w, today, "").form, body) && w.installer == body.installer
    requires after.issues == Insert(mid.issues, NetworkIssue(w, today, ""))
    ensures IssuesMoved(s, after, was, Some(s.issues.next), body, today)
  {
    hide TakesStock, Supplies, Freed;
  }

  lemma ReplacedShelves(s: Stock, mid: Stock, after: Stock, was: Option<nat>, body: Body, today: Date, w: Want)
    requires CameBack(s, mid, was) && was != Some(s.issues.next)
    requires w.item in mid.inventory.rows && w.quantity <= mid.inventory.rows[w.item].quantity
    requires after.issues == Insert(mid.issues, NetworkIssue(w, today, "")) && after.devices == mid.devices
    requires var row := mid.inventory.rows[w.item];
             after.inventory == Put(mid.inventory, w.item, row.(quantity := row.quantity - w.quantity))
    ensures ShelvesMoved(s, after, was, Some(s.issues.next))
  {
    hide Freed;
    assert after.issues.rows[s.issues.next] == NetworkIssue(w, today, "");
    forall b | b in s.inventory.rows
      ensures b in mid.inventory.rows && after.inventory.rows[b]
              == (if b == w.item then mid.inventory.rows[b].(quantity := mid.inventory.rows[b].quantity - w.quantity)
                  else mid.inventory.rows[b])
    {}
  }

  lemma NetworkPlaced(s: Stock, w: Want, date: Date)
    requires IssueNetwork(s, w, date, "").Synced?
    ensures var y := IssueNetwork(s, w, date, "");
            && y.link == Some(s.issues.next)
            && y.stock.issues == Insert(s.issues, NetworkIssue(w, date, "")) && y.stock.devices == s.devices
            && w.item in s.inventory.rows && w.quantity <= s.inventory.rows[w.item].quantity
            && y.stock.inventory
               == Put(s.inventory, w.item,
                      s.inventory.rows[w.item].(quantity := s.inventory.rows[w.item].quantity - w.quantity))
  {
    hide Shelf;
  }

  lemma SyncMoves(s: Stock, was: Option<nat>, body: Body, today: Date)
    requires StockOk(s) && SyncStock(s, was, WantOf(body), today, "").Synced?
    requires was.Some? ==> was.value < s.issues.next
    ensures var y := SyncStock(s, was, WantOf(body), today, ""); NetworkMoved(s, y.stock, was, y.link, body, today)
  {
    hide StockOk, WantOf, Serves, GiveBack, IssueNetwork, TakesStock, Supplies, Freed, NetworkMoved;
    WantMeans(body);
    if StillServed(s.issues, was, WantOf(body)) {
      StillSupplied(s, was, body, today);
    } else if WantOf(body).Some? {
      NewlySupplied(s, was, body, today);
    } else {
      NoneSupplied(s, was, body, today);
    }
  }

  lemma StillSupplied(s: Stock, was: Option<nat>, body: Body, today: Date)
    requires TakesStock(body) && was.Some? && was.value in s.issues.rows && s.issues.rows[was.value].out
    requires Supplies(s.issues.rows[was.value].form, body)
    ensures NetworkMoved(s, s, was, was, body, today)
  {
    hide TakesStock, Supplies;
  }

  lemma NoneSupplied(s: Stock, was: Option<nat>, body: Body, today: Date)
    requires StockOk(s) && !TakesStock(body)
    ensures NetworkMoved(s, GiveBack(s, was), was, None, body, today)
  {
    hide StockOk, GiveBack, TakesStock, Supplies, Freed;
    GivenBack(s, was);
  }

  lemma NewlySupplied(s: Stock, was: Option<nat>, body: Body, today: Date)
    requires StockOk(s) && TakesStock(body) && WantOf(body).Some?
    requires IssueNetwork(GiveBack(s, was), WantOf(body).value, today, "").Synced?
    requires was.Some? ==> was.value < s.issues.next
    ensures var y := IssueNetwork(GiveBack(s, was), WantOf(body).value, today, "");
            NetworkMoved(s, y.stock, was, y.link, body, today)
  {
    hide StockOk, WantOf, Serves, GiveBack, IssueNetwork, TakesStock, Supplies, Freed;
    var w := WantOf(body).value;
    var y := IssueNetwork(GiveBack(s, was), w, today, "");
    GivenBack(s, was);
    NetworkPlaced(GiveBack(s, was), w, today);
    WantMeans(body);
    WantServes(w, today);
    assert Supplies(NetworkIssue(w, today, "").form, body);
    SuppliesItem(body, NetworkIssue(w, today, "").form);
    hide CameBack, NetworkMoved;
    Replaced(s, GiveBack(s, was), y.stock, was, body, today, w);
  }

  lemma WantServes(w: Want, date: Date)
    ensures Serves(NetworkIssue(w, date, ""), w)
  {}

  lemma SuppliesItem(body: Body, f: IssueForm)
    requires TakesStock(body) && Supplies(f, body)
    ensures body.item == Some(f.batch) && body.installer == f.employee
  {}
}
