/** Exactly when a request is accepted, and what it then does: the conditions a caller could check before asking. */
module Acceptance {
  import opened Tables
  import opened CrmData
  import opened StockRules
  import opened RecoveryRules
  import opened ChargeRules
  import opened BillingRules
  import opened PaymentRules
  import opened AccountRules
  import opened Pricing
  import opened NetworkRules
  import opened RecordRules
  import opened RecordLaws
  import opened Invariant
  import opened IssueDesk
  import opened WarehouseDesk

  /** A device that may be issued from a row. */
  predicate Scannable(devices: Table<Device>, u: nat, batch: nat) {
    u in devices.rows && devices.rows[u].batch == batch && !devices.rows[u].issued && devices.rows[u].condition == Good
  }

  /** Stock under a fresh key goes out if and only if there is a quantity, the row has it free of labelled devices or a
      good device of the row was scanned for exactly one, and a customer exists, is not terminated and has a price. */
  lemma IssueIff(db: Db, q: IssueRequest, today: Date)
    requires StockOk(db.stock) && First(db.stock.issues, IssueKey(q.key)).None?
    ensures var s, f, customers := db.stock, q.form, db.people.customers;
            IssueStock(db, q, today).Done? <==>
              && f.batch in s.inventory.rows
              && f.quantity > 0
              && (if q.unit.Some? then f.quantity == 1 && Scannable(s.devices, q.unit.value, f.batch)
                  else f.quantity + Labelled(s.devices, f.batch) <= s.inventory.rows[f.batch].quantity)
              && (f.to.ToCustomer? ==>
                    f.to.customer in customers.rows && customers.rows[f.to.customer].status != Terminated
                    && StockIssuePrice(q.mode, q.entered, s.inventory.rows[f.batch]).Some?)
  {
    hide StockIssuePrice, BillIssue, Place, Homed, Held, SerialsUnique, Labelled;
    if q.form.batch in db.stock.inventory.rows {
      ShelfHolds(db.stock, q.unit, q.form.batch);
      ShelfCounts(db.stock.devices, q.form.batch);
    }
  }

  /** A labelled device on the shelf is counted, so its row has at least one. */
  lemma ShelfHolds(s: Stock, u: Option<nat>, b: nat)
    requires Covered(s.inventory, s.devices) && b in s.inventory.rows
    ensures Shelf(s.devices, b) >= 0
    ensures u.Some? && Scannable(s.devices, u.value, b) ==> s.inventory.rows[b].quantity >= 1
  {
    SumBelowNonneg(s.devices.rows, ShelfUnit(b), s.devices.next);
  }

  /** What an issue of stock writes: its row, with the price quoted for a customer and none for anybody else; the
      device marked with it; the quantity off the shelf; for a price above zero a charge of quantity times price and,
      if there is none, the invoice of its month. Nothing else changes. */
  ghost predicate Issued(db: Db, q: IssueRequest, today: Date, o: Outcome)
    requires o.Done? && q.form.batch in db.stock.inventory.rows
  {
    var s, m, f, batch := db.stock, db.money, q.form, db.stock.inventory.rows[q.form.batch];
    var quote := if f.to.ToCustomer? then StockIssuePrice(q.mode, q.entered, batch) else None;
    var price := if quote.Some? then quote.value.price else 0;
    && o.id == s.issues.next && f.quantity <= batch.quantity
    && (q.unit.Some? ==> q.unit.value in s.devices.rows)
    && (f.to.ToCustomer? ==> quote.Some? && f.to.customer in db.people.customers.rows)
    && o.db == db.(stock := o.db.stock, money := o.db.money)
    && o.db.money == m.(charges := o.db.money.charges, invoices := o.db.money.invoices)
    && o.db.stock.issues
       == Insert(s.issues, Issue(f, true, if quote.Some? then Some(price) else None,
                                 if quote.Some? then quote.value.list else 0, q.unit, Some(q.key), false))
    && o.db.stock.inventory == Put(s.inventory, f.batch, batch.(quantity := batch.quantity - f.quantity))
    && o.db.stock.devices
       == (if q.unit.Some? then
             Put(s.devices, q.unit.value, s.devices.rows[q.unit.value].(issued := true, issue := Some(o.id)))
           else s.devices)
    && (if price > 0 then
          var c, month := f.to.customer, f.date.month;
          && o.db.money.charges
             == Insert(m.charges, Charge(c, f.date, price * f.quantity, Equipment, Some(o.id), None, f.text))
          && o.db.money.invoices
             == (if HasInvoice(m.invoices, c, month) then m.invoices
                 else Insert(m.invoices, Invoice(c, month, db.people.customers.rows[c].fee, today,
                                                 PreviousBalance(m, c, month))))
        else o.db.money == m)
  }

  /** A new issue under a fresh key does exactly that. */
  lemma IssueEffects(db: Db, q: IssueRequest, today: Date)
    requires Inv(db) && First(db.stock.issues, IssueKey(q.key)).None? && IssueStock(db, q, today).Done?
    ensures q.form.batch in db.stock.inventory.rows && Issued(db, q, today, IssueStock(db, q, today))
  {
    hide Inv, IssueStock, StockIssuePrice, BillIssue, IssueObjection;
    IssueChanged(db, q, today);
    IssueAllowed(db, q, today);
    IssueEntered(db, q, today);
    IssueIsPriced(db, q, today);
    var i := IssueRow(q, db.stock.inventory.rows[q.form.batch]);
    if Billable(i) {
      NeverCharged(db);
      BilledExactly(db.money, db.people.customers, db.stock.issues.next, i, today);
    } else {
      NotBilled(db.money, db.people.customers, db.stock.issues.next, i, today);
    }
  }

  lemma IssueIsPriced(db: Db, q: IssueRequest, today: Date)
    requires IssueStock(db, q, today).Done? && IssueStock(db, q, today).db != db
    requires q.form.batch in db.stock.inventory.rows
    ensures q.form.to.ToCustomer? ==> StockIssuePrice(q.mode, q.entered, db.stock.inventory.rows[q.form.batch]).Some?
  {
    hide StockIssuePrice, BillIssue, Place;
  }

  lemma NeverCharged(db: Db)
    requires Inv(db)
    ensures ChargeOf(db.money.charges, db.stock.issues.next).None?
  {
    ChargesHold(db);
    hide Inv;
    var charges, id := db.money.charges, db.stock.issues.next;
    forall k | k in charges.rows ensures !ForIssue(id)(charges.rows[k]) {}
  }

  lemma BilledExactly(m: Money, customers: Table<Customer>, id: nat, i: Issue, today: Date)
    requires Billable(i) && i.form.to.customer in customers.rows && ChargeOf(m.charges, id).None?
    requires customers.rows[i.form.to.customer].status != Terminated
    ensures var c, month, after := i.form.to.customer, i.form.date.month, BillIssue(m, customers, id, i, today);
            && after == m.(charges := after.charges, invoices := after.invoices)
            && after.charges == Insert(m.charges, Charge(c, i.form.date, i.price.value * i.form.quantity, Equipment,
                                                         Some(id), None, i.form.text))
            && after.invoices == (if HasInvoice(m.invoices, c, month) then m.invoices
                                  else Insert(m.invoices, Invoice(c, month, customers.rows[c].fee, today,
                                                                  PreviousBalance(m, c, month))))
  {
    hide HasInvoice;
  }

  lemma NotBilled(m: Money, customers: Table<Customer>, id: nat, i: Issue, today: Date)
    requires !Billable(i)
    ensures BillIssue(m, customers, id, i, today) == m
  {}

  /** What a customer is charged for an issue, told from the request: nothing for a waived item, the base times the
      quantity at full price, and with a discount a unit price within half a paisa of the base less the discount; the
      base is the price entered, else the selling price of the row, else its unit cost. Nobody else is charged. */
  lemma ChargedAsAgreed(db: Db, q: IssueRequest, today: Date)
    requires Inv(db) && First(db.stock.issues, IssueKey(q.key)).None? && IssueStock(db, q, today).Done?
    ensures q.form.batch in db.stock.inventory.rows
    ensures var o, batch, k := IssueStock(db, q, today), db.stock.inventory.rows[q.form.batch], db.money.charges.next;
            var base := if q.entered.Some? then q.entered.value else if batch.price != 0 then batch.price
                        else batch.unitCost;
            && (k in o.db.money.charges.rows <==> q.form.to.ToCustomer? && !q.mode.WaivedOff?)
            && (k in o.db.money.charges.rows ==>
                  var charge := o.db.money.charges.rows[k];
                  && charge.customer == q.form.to.customer && charge.issue == Some(o.id)
                  && (q.mode.FullPrice? ==> charge.amount == base * q.form.quantity)
                  && (q.mode.Discounted? ==>
                        exists price: nat :: charge.amount == price * q.form.quantity
                          && -5000 <= 10000 * price - base * (10000 - q.mode.discount) <= 5000))
            && (forall j :: j in o.db.money.charges.rows && j != k ==> j in db.money.charges.rows)
  {
    hide Inv, IssueStock, StockIssuePrice, HasInvoice, PreviousBalance;
    IssueEffects(db, q, today);
    QuoteIsFair(q.mode, q.entered, db.stock.inventory.rows[q.form.batch]);
  }

  lemma ChargesHold(db: Db)
    requires Inv(db)
    ensures ChargesOk(db.money.charges, db.stock.issues)
  {
    hide StockOk, ChargesOk;
    assert Holds(ChargeGroup, db);
  }

  lemma IssueChanged(db: Db, q: IssueRequest, today: Date)
    requires First(db.stock.issues, IssueKey(q.key)).None? && IssueStock(db, q, today).Done?
    ensures IssueStock(db, q, today).db != db && IssueStock(db, q, today).id == db.stock.issues.next
    ensures q.form.batch in db.stock.inventory.rows
  {
    hide StockIssuePrice, BillIssue, ReplayIssue;
    var o := IssueStock(db, q, today);
    assert o.db.stock.issues.next == db.stock.issues.next + 1;
  }

  /** Some device that has to go along bears the serial number of one in the row it would arrive in. */
  predicate SerialClash(s: Stock, q: TransferRequest)
    requires q.from in s.inventory.rows && 0 < q.quantity <= s.inventory.rows[q.from].quantity
  {
    var to, n := RowAt(s.inventory, s.inventory.rows[q.from], q.target), Surplus(s, q.from, q.quantity);
    exists u, v :: u in s.devices.rows && v in s.devices.rows && Moves(s.devices, q.from, n, u)
                   && s.devices.rows[v].batch == to && s.devices.rows[u].serial != ""
                   && s.devices.rows[u].serial == s.devices.rows[v].serial
  }

  /** Devices change row all into one; there they may only meet devices that were there before. */
  lemma MovedSerials(devices: Table<Device>, from: nat, to: nat, n: nat)
    requires from != to && SerialsUnique(devices)
    ensures SerialsUnique(MoveDevices(devices, from, to, n)) <==>
            !exists u, v :: u in devices.rows && v in devices.rows && Moves(devices, from, n, u)
                            && devices.rows[v].batch == to && devices.rows[u].serial != ""
                            && devices.rows[u].serial == devices.rows[v].serial
  {
    var after := MoveDevices(devices, from, to, n);
    assert forall u :: u in devices.rows && Moves(devices, from, n, u) ==> devices.rows[u].batch == from;
    if u, v :| u in devices.rows && v in devices.rows && Moves(devices, from, n, u) && devices.rows[v].batch == to
               && devices.rows[u].serial != "" && devices.rows[u].serial == devices.rows[v].serial {
      assert u != v && after.rows[u].batch == after.rows[v].batch == to;
    }
  }

  /** Stock under a fresh key is transferred if and only if the row exists and has the quantity, the target is another,
      active warehouse, and no device that has to go along meets its serial number there. */
  lemma TransferIff(db: Db, q: TransferRequest)
    requires StockOk(db.stock) && First(db.transfers, TransferKey(q.key)).None?
    ensures TransferStock(db, q).Done? <==>
              q.from in db.stock.inventory.rows && 0 < q.quantity <= db.stock.inventory.rows[q.from].quantity
              && q.target != db.stock.inventory.rows[q.from].location && ActiveWarehouse(db.records, q.target)
              && !SerialClash(db.stock, q)
  {
    hide SerialsUnique, ActiveWarehouse, Surplus, Homed, Held, Covered, MoveDevices, SameLine, Moves;
    if q.from in db.stock.inventory.rows && 0 < q.quantity <= db.stock.inventory.rows[q.from].quantity
       && q.target != db.stock.inventory.rows[q.from].location {
      var source := db.stock.inventory.rows[q.from];
      var to := RowAt(db.stock.inventory, source, q.target);
      assert to != q.from by {
        ElsewhereIsOther(db.stock.inventory, q.from, q.target);
      }
      MovedDevices(db.stock, q);
      MovedSerials(db.stock.devices, q.from, to, Surplus(db.stock, q.from, q.quantity));
    }
  }

  lemma ElsewhereIsOther(inventory: Table<Batch>, from: nat, target: string)
    requires from in inventory.rows && inventory.rows[from].location != target
    ensures RowAt(inventory, inventory.rows[from], target) != from
  {}

  lemma MovedDevices(s: Stock, q: TransferRequest)
    requires q.from in s.inventory.rows && 0 < q.quantity <= s.inventory.rows[q.from].quantity
    requires q.target != s.inventory.rows[q.from].location
    ensures Moved(s, q).devices
         == MoveDevices(s.devices, q.from, RowAt(s.inventory, s.inventory.rows[q.from], q.target),
                        Surplus(s, q.from, q.quantity))
  {
    hide MoveDevices, Shelf, SameLine;
  }

  /** What an accepted transfer does: the quantity leaves its row and arrives in a row of the same goods in the target
      warehouse, exactly the labelled devices the source can no longer cover go along, lowest label first and none of
      them issued, the move is recorded under its key, and nothing else changes. */
  lemma TransferEffects(db: Db, q: TransferRequest)
    requires Inv(db) && First(db.transfers, TransferKey(q.key)).None? && TransferStock(db, q).Done?
    ensures var o := TransferStock(db, q);
            var s, s' := db.stock, o.db.stock;
            && o.db == db.(stock := s', transfers := o.db.transfers)
            && o.id == db.transfers.next && o.id in o.db.transfers.rows && o.id !in db.transfers.rows
            && o.db.transfers.rows.Keys == db.transfers.rows.Keys + {o.id}
            && (forall k :: k in db.transfers.rows ==> o.db.transfers.rows[k] == db.transfers.rows[k])
            && var t := o.db.transfers.rows[o.id];
               && t.key == q.key && t.from == q.from && t.quantity == q.quantity
               && GoodsMoved(s.inventory, s'.inventory, t.from, t.to, q.target, t.quantity)
               && s'.issues == s.issues && s'.devices.rows.Keys == s.devices.rows.Keys
               && DevicesGone(s.devices, s'.devices, t, s'.inventory.rows[t.from].quantity)
  {
    hide StockOk, RecoveryOk, ChargesOk, MoneyOk, NetworkOk, RecordsOk, TransfersOk, LocationsOk, IssueKeysUnique,
         DeviceKeysUnique, Moved, RowAt, Surplus, SerialsUnique, Shelf, IsWarehouse, SameGoods, TransferStock, Inv,
         DevicesGone;
    TransferChanged(db, q);
    TransferMade(db, q);
    StockHolds(db);
    TransferIsExact(db.stock, q);
    DevicesGoneBy(db.stock, q);
  }

  /** Of the source row's shelf devices the recorded number moved, as few as cover the rest, the lowest labels first. */
  predicate DevicesGone(devices: Table<Device>, after: Table<Device>, t: Transfer, left: nat)
    requires after.rows.Keys == devices.rows.Keys
  {
    && Labelled(after, t.from) == Labelled(devices, t.from) - t.moved
    && Labelled(after, t.to) == Labelled(devices, t.to) + t.moved
    && (if t.moved > 0 then Labelled(after, t.from) == left else Labelled(devices, t.from) <= left)
    && after.next == devices.next
    && (forall u :: u in devices.rows && (devices.rows[u].issued || devices.rows[u].batch != t.from) ==>
          after.rows[u] == devices.rows[u])
    && (forall u :: u in devices.rows ==> after.rows[u] == devices.rows[u].(batch := after.rows[u].batch))
    && (forall u, v :: (u in devices.rows && v in devices.rows && u < v && devices.rows[u].batch == t.from
                        && !devices.rows[u].issued && after.rows[v] != devices.rows[v]) ==>
          after.rows[u] == devices.rows[u].(batch := t.to))
  }

  lemma DevicesGoneBy(s: Stock, q: TransferRequest)
    requires StockOk(s) && q.from in s.inventory.rows && 0 < q.quantity <= s.inventory.rows[q.from].quantity
    requires q.target != s.inventory.rows[q.from].location
    ensures var to := RowAt(s.inventory, s.inventory.rows[q.from], q.target);
            && Moved(s, q).devices.rows.Keys == s.devices.rows.Keys && q.from in Moved(s, q).inventory.rows
            && DevicesGone(s.devices, Moved(s, q).devices,
                           Transfer(q.from, to, q.quantity, Surplus(s, q.from, q.quantity), q.key),
                           Moved(s, q).inventory.rows[q.from].quantity)
  {
    hide StockOk, Moved, RowAt, Shelf, Labelled, SameGoods, MoveDevices;
    var to := RowAt(s.inventory, s.inventory.rows[q.from], q.target);
    MovedDevices(s, q);
    OnlyRowsMove(s.devices, q.from, to, Surplus(s, q.from, q.quantity));
    ShelfCounts(s.devices, q.from);
    ShelfCounts(s.devices, to);
    ShelfCounts(Moved(s, q).devices, q.from);
    ShelfCounts(Moved(s, q).devices, to);
    TransferIsExact(s, q);
  }

  lemma OnlyRowsMove(devices: Table<Device>, from: nat, to: nat, n: nat)
    ensures var after := MoveDevices(devices, from, to, n);
            after.next == devices.next && after.rows.Keys == devices.rows.Keys
            && forall u :: u in devices.rows ==> after.rows[u] == devices.rows[u].(batch := after.rows[u].batch)
  {
    hide Moves;
  }

  lemma TransferChanged(db: Db, q: TransferRequest)
    requires First(db.transfers, TransferKey(q.key)).None? && TransferStock(db, q).Done?
    ensures TransferStock(db, q).db != db && TransferStock(db, q).id == db.transfers.next
  {
    hide Moved, RowAt, Surplus, SerialsUnique, ActiveWarehouse;
    assert TransferStock(db, q).db.transfers.next == db.transfers.next + 1;
  }

  lemma StockHolds(db: Db)
    requires Inv(db)
    ensures StockOk(db.stock)
  {
    hide StockOk;
    assert Holds(StockGroup, db);
  }

  /** A new payment under a fresh key is saved if and only if it is positive, not in the future, for a customer there
      is, through a channel the caller may use, and within what it settles: its charge, the installation, or, while
      charges are due, the subscription. */
  lemma PaymentIff(m: Money, p: People, q: PaymentRequest, today: Date)
    requires q.rid.None? && !q.deleting && (q.key.Some? ==> First(m.payments, KeyIs(q.key.value)).None?)
    ensures var f := q.form;
            SavePayment(m, p, q, today).Saved? <==>
              && f.customer in p.customers.rows && f.amount > 0 && f.date.day <= today.day
              && (f.channel.Online? ==> q.trusted)
              && (q.partial ==> q.finance && !q.trusted && f.kind.Mrc?)
              && (f.charge.Some? ==>
                    f.charge.value in m.charges.rows
                    && var charge := m.charges.rows[f.charge.value];
                       charge.customer == f.customer && f.kind == Otc(charge.kind) && f.month == charge.date.month
                       && PaidOn(m.payments, f.charge.value) + f.amount <= charge.amount)
              && (f.kind == Otc(Installation) ==>
                    InstallationPaid(m.payments, f.customer) + f.amount <= p.customers.rows[f.customer].installation)
              && (f.kind.Mrc? && (exists k :: k in m.charges.rows && m.charges.rows[k].customer == f.customer
                                              && PaidOn(m.payments, k) < m.charges.rows[k].amount) ==>
                    Sum(m.payments, MrcIn(f.customer, f.month)) + f.amount
                    <= BillAmount(m, p.customers.rows[f.customer], f.customer, f.month)
                       + PreviousBalance(m, f.customer, f.month))
  {
    hide PaidOn, InstallationPaid, ApplyRecharge, HasRecharge, PreviousBalance;
  }

  /** A purchase bill not yet received is received if and only if it is not archived and its item still exists. */
  lemma ReceiveIff(db: Db, id: nat)
    requires IsRecord(db.records, PurchaseBills, id) && db.records.rows[id].form.body.Purchase?
    requires !db.records.rows[id].received
    ensures var r := db.records.rows[id];
            ReceiveBill(db, id).Done? <==> r.state != Archived && r.form.body.stockItem in db.stock.inventory.rows
    ensures var o := ReceiveBill(db, id);
            o.Done? ==>
              id in o.db.records.rows && o.db.records.rows[id].received
              && (o.db.records.rows[id].state == Paid <==> db.records.rows[id].expense.Some?)
  {
    hide AddQuantity;
  }

  /** A record not yet paid is paid if and only if finance asks, it is of a module that is paid, not archived, its
      total is positive and within the limit, the employee of a payroll record still exists, the payment is not dated
      in the future, and its method is supported; its expense is the total. */
  lemma PayIff(db: Db, mod: Module, id: nat, terms: PayTerms, today: Date)
    requires RecordsOk(db.records, db.expenses)
    requires IsRecord(db.records, mod, id) && db.records.rows[id].expense.None?
    ensures var r := db.records.rows[id];
            PayRecord(db, mod, id, terms, today).Done? <==>
              && terms.finance && PayModule(mod) && r.state != Archived && 0 < TotalOf(r.form.body) <= MAX_AMOUNT
              && (mod == Payroll ==> terms.employed) && terms.day <= today.day && terms.supported
    ensures var o := PayRecord(db, mod, id, terms, today);
            o.Done? ==>
              db.expenses.next in o.db.expenses.rows
              && o.db.expenses.rows[db.expenses.next]
                 == Expense(Some(id), TotalOf(db.records.rows[id].form.body), terms.day)
              && id in o.db.records.rows && o.db.records.rows[id].expense == Some(db.expenses.next)
  {
    hide TotalOf, FormsOk, StatesOk, ExpensesOk;
    if mod == PurchaseBills {
      VendorKnown(db.records, id);
    }
  }

  lemma VendorKnown(records: Table<Record>, id: nat)
    requires FormsOk(records) && id in records.rows && records.rows[id].mod == PurchaseBills
    ensures var r := records.rows[id];
            VendorField in r.form.refs && RefOk(records, VendorField, r.form.refs[VendorField])
  {
    hide Distinct, ReceiptsWithin, TotalOf;
    assert Shape(records.rows[id].mod, records.rows[id].form);
  }
}
