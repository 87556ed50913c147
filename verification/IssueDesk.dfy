/** Stock issues to customers, systems and the network: issue, return, delete. */
module IssueDesk {
  import opened Tables
  import opened CrmData
  import opened StockRules
  import opened RecoveryRules
  import opened ChargeRules
  import opened PaymentRules
  import opened AccountRules
  import opened Pricing
  import opened NetworkRules
  import opened RecordRules
  import opened RecordLaws
  import opened Invariant

  /** `unit` is the scanned label; price mode and entered price apply to customers only. */
  datatype IssueRequest = IssueRequest(form: IssueForm, unit: Option<nat>, mode: Mode, entered: Option<nat>, key: Key)

  /** A request under a key already used: the issue there is, if all details agree. */
  function ReplayIssue(db: Db, q: IssueRequest, id: nat): Outcome
    requires id in db.stock.issues.rows
  {
    var i := db.stock.issues.rows[id];
    if i.device != q.unit then Refused(KeyReused)
    else if i.form.to.ToCustomer? && i.form.batch in db.stock.inventory.rows
            && var quote := StockIssuePrice(q.mode, q.entered, db.stock.inventory.rows[i.form.batch]);
               quote.None? || Some(quote.value.price) != i.price
    then Refused(KeyReused)
    else if i.form != q.form then Refused(KeyReused)
    else Done(db, id)
  }

  /** issue_unit */
  function UnitObjection(devices: Table<Device>, u: nat, batch: nat): Option<Error> {
    if u !in devices.rows || devices.rows[u].batch != batch then Some(DeviceElsewhere)
    else if devices.rows[u].issued then Some(DeviceIssued)
    else if devices.rows[u].condition != Good then Some(DeviceNotGood)
    else None
  }

  predicate TerminatedAccount(customers: Table<Customer>, to: Recipient) {
    to.ToCustomer? && to.customer in customers.rows && customers.rows[to.customer].status == Terminated
  }

  /** The checks of a new issue, in the order the program makes them. */
  function IssueObjection(s: Stock, customers: Table<Customer>, q: IssueRequest): Option<Error> {
    var f := q.form;
    if TerminatedAccount(customers, f.to) then Some(CustomerTerminated)
    else if f.batch !in s.inventory.rows then Some(NoSuchBatch)
    else
      var batch := s.inventory.rows[f.batch];
      var unit := if q.unit.Some? then UnitObjection(s.devices, q.unit.value, f.batch) else None;
      if unit.Some? then unit
      else if q.unit.Some? && f.quantity != 1 then Some(OneDeviceOneUnit)
      else if q.unit.None? && f.quantity > batch.quantity - Shelf(s.devices, f.batch) then Some(LabelledStock)
      else if f.quantity > batch.quantity then Some(InsufficientStock)
      else if f.to.ToCustomer? && StockIssuePrice(q.mode, q.entered, batch).None? then Some(BadPrice)
      else if f.to.ToCustomer? && f.to.customer !in customers.rows then Some(NoSuchCustomer)
      else None
  }

  /** The row written; only customers are charged. */
  function IssueRow(q: IssueRequest, batch: Batch): Issue {
    var quote := StockIssuePrice(q.mode, q.entered, batch);
    var charged := q.form.to.ToCustomer? && quote.Some?;
    Issue(q.form, true, if charged then Some(quote.value.price) else None, if charged then quote.value.list else 0,
          q.unit, Some(q.key), false)
  }

  /** save_stock_issue, for a new issue */
  function IssueStock(db: Db, q: IssueRequest, today: Date): Outcome {
    if q.form.quantity == 0 then Refused(BadQuantity)
    else
      var prior := First(db.stock.issues, IssueKey(q.key));
      if prior.Some? then ReplayIssue(db, q, prior.value)
      else
        var o := IssueObjection(db.stock, db.people.customers, q);
        if o.Some? then Refused(o.value)
        else
          var i := IssueRow(q, db.stock.inventory.rows[q.form.batch]);
          Done(db.(stock := Place(db.stock, i),
                   money := BillIssue(db.money, db.people.customers, db.stock.issues.next, i, today)),
               db.stock.issues.next)
  }

  /** save_stock_issue with action "return" */
  function ReturnIssue(db: Db, id: nat): Outcome {
    if id !in db.stock.issues.rows then Refused(NoSuchIssue)
    else if !db.stock.issues.rows[id].out then Done(db, id)
    else
      var after := BringBack(db.stock, id);
      Done(db.(stock := after, people := RefreshFor(db.people, after.issues, db.stock.issues.rows[id])), id)
  }

  predicate ChargeIsPaid(m: Money, id: nat) {
    ChargeOf(m.charges, id).Some? && PaidFor(m.payments, ChargeOf(m.charges, id).value)
  }

  /** delete_stock_issue; `admin` is the right of an administrator. */
  function DeleteIssue(db: Db, id: nat, admin: bool): Outcome {
    if !admin then Refused(NotAllowed)
    else if id !in db.stock.issues.rows then Refused(NoSuchIssue)
    else if ChargeIsPaid(db.money, id) then Refused(ChargePaid)
    else
      var after := Erase(db.stock, id);
      Done(db.(stock := after, money := db.money.(charges := Unbill(db.money.charges, id)),
               people := RefreshFor(db.people, after.issues, db.stock.issues.rows[id])), id)
  }

  // ----- what holds for the inventory whatever its quantities ---------------------------------

  /** Quantities move, rows and locations stay. */
  ghost predicate Restocked(inventory: Table<Batch>, after: Table<Batch>) {
    after.rows.Keys == inventory.rows.Keys
    && forall b :: b in inventory.rows ==> after.rows[b].location == inventory.rows[b].location
  }

  lemma RestockingKeeps(inventory: Table<Batch>, after: Table<Batch>, transfers: Table<Transfer>,
                        records: Table<Record>)
    requires Restocked(inventory, after) && TransfersOk(transfers, inventory) && LocationsOk(inventory, records)
    ensures TransfersOk(transfers, after) && LocationsOk(after, records)
  {}

  // ----- issue --------------------------------------------------------------------------------

  lemma IssueClears(s: Stock, customers: Table<Customer>, q: IssueRequest)
    requires StockOk(s) && IssueObjection(s, customers, q).None?
    ensures q.form.batch in s.inventory.rows
    ensures var i := IssueRow(q, s.inventory.rows[q.form.batch]);
            && CanPlace(s, i) && Placeable(s, i) && i.out && !i.synced && i.form == q.form && i.key == Some(q.key)
            && (q.form.to.ToCustomer? ==>
                  q.form.to.customer in customers.rows && customers.rows[q.form.to.customer].status != Terminated)
  {
    hide Homed, Held, SerialsUnique, StockIssuePrice;
  }

  lemma PlaceKeepsKeys(s: Stock, i: Issue)
    requires IssueKeysUnique(s.issues) && DeviceKeysUnique(s.devices) && CanPlace(s, i)
    requires i.key.Some? && First(s.issues, IssueKey(i.key.value)).None?
    ensures IssueKeysUnique(Place(s, i).issues) && DeviceKeysUnique(Place(s, i).devices)
    ensures Restocked(s.inventory, Place(s, i).inventory)
  {
    forall k | k in s.issues.rows ensures s.issues.rows[k].key != i.key {
      assert !IssueKey(i.key.value)(s.issues.rows[k]);
    }
  }

  lemma IssueAllowed(db: Db, q: IssueRequest, today: Date)
    requires Inv(db) && IssueStock(db, q, today).Done? && IssueStock(db, q, today).db != db
    ensures q.form.batch in db.stock.inventory.rows
    ensures var i := IssueRow(q, db.stock.inventory.rows[q.form.batch]);
            && CanPlace(db.stock, i) && Placeable(db.stock, i) && i.out && !i.synced && i.form == q.form
            && i.key == Some(q.key)
            && (q.form.to.ToCustomer? ==>
                  q.form.to.customer in db.people.customers.rows
                  && db.people.customers.rows[q.form.to.customer].status != Terminated)
  {
    hide StockOk, TransfersOk, RecoveryOk, ChargesOk, MoneyOk, NetworkOk, RecordsOk, LocationsOk, IssueKeysUnique,
         DeviceKeysUnique, IssueObjection, BillIssue, CanPlace, Placeable, IssueRow, Place, ReplayIssue;
    InvGroups(db);
    assert IssueObjection(db.stock, db.people.customers, q).None? by {
      IssueNotRefused(db, q, today);
    }
    IssueClears(db.stock, db.people.customers, q);
  }

  lemma IssueNotRefused(db: Db, q: IssueRequest, today: Date)
    requires IssueStock(db, q, today).Done? && IssueStock(db, q, today).db != db
    ensures IssueObjection(db.stock, db.people.customers, q).None?
  {
    hide IssueObjection, BillIssue, Place, IssueRow;
  }

  lemma IssueEntered(db: Db, q: IssueRequest, today: Date)
    requires IssueStock(db, q, today).Done? && IssueStock(db, q, today).db != db
    requires q.form.batch in db.stock.inventory.rows
    requires CanPlace(db.stock, IssueRow(q, db.stock.inventory.rows[q.form.batch]))
    ensures var i := IssueRow(q, db.stock.inventory.rows[q.form.batch]);
            && q.form.quantity > 0 && First(db.stock.issues, IssueKey(q.key)).None?
            && IssueStock(db, q, today).db
               == db.(stock := Place(db.stock, i),
                      money := BillIssue(db.money, db.people.customers, db.stock.issues.next, i, today))
            && Place(db.stock, i).issues == Insert(db.stock.issues, i)
  {}

  lemma IssueKeepsInv(db: Db, q: IssueRequest, today: Date)
    requires Inv(db)
    ensures Inv(Commit(db, IssueStock(db, q, today)))
  {
    hide StockOk, TransfersOk, RecoveryOk, ChargesOk, MoneyOk, NetworkOk, RecordsOk, LocationsOk, IssueKeysUnique,
         DeviceKeysUnique, Restocked, BillIssue, Bill, CanPlace, Placeable, IssueRow, IssueStock, Place;
    InvGroups(db);
    InvGroups(Commit(db, IssueStock(db, q, today)));
    var o := IssueStock(db, q, today);
    if o.Done? && o.db != db {
      IssueAllowed(db, q, today);
      var i := IssueRow(q, db.stock.inventory.rows[q.form.batch]);
      IssueEntered(db, q, today);
      PlaceKeepsStock(db.stock, i);
      PlaceKeepsKeys(db.stock, i);
      RestockingKeeps(db.stock.inventory, Place(db.stock, i).inventory, db.transfers, db.records);
      InsertKeepsRecovery(db.people, db.stock.issues, i);
      BillKeepsCharges(db.money.charges, db.stock.issues, i);
      BillIssueCharges(db.money, db.people.customers, db.stock.issues.next, i, today);
      BillingKeepsMoney(db.money, db.people.customers, db.stock.issues.next, i, today);
      InsertKeepsNetwork(db.records, db.stock.issues, i);
    }
  }

  /** Issuing moves stock from shelf to issue; the total stays. */
  lemma IssueConserves(db: Db, q: IssueRequest, today: Date)
    requires Inv(db)
    ensures Total(Commit(db, IssueStock(db, q, today)).stock) == Total(db.stock)
  {
    hide TransfersOk, RecoveryOk, ChargesOk, MoneyOk, NetworkOk, RecordsOk, LocationsOk, Total, Placeable;
    InvGroups(db);
    var o := IssueStock(db, q, today);
    if o.Done? && o.db != db {
      IssueClears(db.stock, db.people.customers, q);
      PlaceConserves(db.stock, IssueRow(q, db.stock.inventory.rows[q.form.batch]));
    }
  }

  /** A key still on a saved issue stands for it: no request under it changes anything. */
  lemma IssueReplayed(db: Db, q: IssueRequest, today: Date, id: nat)
    requires Inv(db) && id in db.stock.issues.rows && db.stock.issues.rows[id].key == Some(q.key)
    ensures Commit(db, IssueStock(db, q, today)) == db
    ensures var o := IssueStock(db, q, today);
            o.Done? ==>
              o.id == id && db.stock.issues.rows[id].form == q.form && db.stock.issues.rows[id].device == q.unit
  {
    hide StockOk, TransfersOk, RecoveryOk, ChargesOk, MoneyOk, NetworkOk, RecordsOk, LocationsOk;
    InvGroups(db);
    assert IssueKey(q.key)(db.stock.issues.rows[id]);
  }

  // ----- return ---------------------------------------------------------------------------------

  lemma ReturnKeepsKeys(s: Stock, id: nat)
    requires IssueKeysUnique(s.issues) && DeviceKeysUnique(s.devices) && id in s.issues.rows
    ensures IssueKeysUnique(BringBack(s, id).issues) && DeviceKeysUnique(BringBack(s, id).devices)
    ensures Restocked(s.inventory, BringBack(s, id).inventory)
  {}

  lemma BroughtBack(s: Stock, id: nat)
    requires id in s.issues.rows && s.issues.rows[id].out
    ensures BringBack(s, id).issues == Put(s.issues, id, s.issues.rows[id].(out := false))
  {}

  lemma ReturnKeepsInv(db: Db, id: nat)
    requires Inv(db)
    ensures Inv(Commit(db, ReturnIssue(db, id)))
  {
    hide StockOk, TransfersOk, RecoveryOk, ChargesOk, MoneyOk, NetworkOk, RecordsOk, LocationsOk, IssueKeysUnique,
         DeviceKeysUnique, Restocked, BringBack, RefreshFor;
    InvGroups(db);
    InvGroups(Commit(db, ReturnIssue(db, id)));
    var o := ReturnIssue(db, id);
    if o.Done? && o.db != db {
      BroughtBack(db.stock, id);
      BringBackKeepsStock(db.stock, id);
      ReturnKeepsKeys(db.stock, id);
      RestockingKeeps(db.stock.inventory, o.db.stock.inventory, db.transfers, db.records);
      TakingBackKeepsRecovery(db.people, db.stock.issues, o.db.stock.issues, id);
      ReturnKeepsCharges(db.money.charges, db.stock.issues, id);
      RefreshKeepsMoney(db.money, db.people, o.db.stock.issues, db.stock.issues.rows[id]);
      ReturnKeepsNetwork(db.records, db.stock.issues, id);
    }
  }

  /** Recovery changes no customer's terms. */
  lemma RefreshKeepsMoney(m: Money, p: People, after: Table<Issue>, i: Issue)
    requires MoneyOk(m, p.customers)
    ensures MoneyOk(m, RefreshFor(p, after, i).customers)
  {
    hide MoneyOk;
    TermsKeepMoney(m, p.customers, RefreshFor(p, after, i).customers);
  }

  /** A return keeps the total, and returning again does nothing. */
  lemma ReturnConserves(db: Db, id: nat)
    requires Inv(db)
    ensures var after := Commit(db, ReturnIssue(db, id));
            Total(after.stock) == Total(db.stock) && Commit(after, ReturnIssue(after, id)) == after
  {
    hide TransfersOk, RecoveryOk, ChargesOk, MoneyOk, NetworkOk, RecordsOk, LocationsOk, Total;
    InvGroups(db);
    if id in db.stock.issues.rows {
      BringBackConserves(db.stock, id);
    }
  }

  // ----- delete -----------------------------------------------------------------------------------

  lemma EraseKeepsKeys(s: Stock, id: nat)
    requires IssueKeysUnique(s.issues) && DeviceKeysUnique(s.devices) && id in s.issues.rows
    ensures IssueKeysUnique(Erase(s, id).issues) && DeviceKeysUnique(Erase(s, id).devices)
    ensures Restocked(s.inventory, Erase(s, id).inventory)
  {}

  lemma ErasedIssues(s: Stock, id: nat)
    requires id in s.issues.rows
    ensures Erase(s, id).issues == Drop(s.issues, id)
  {
    assert BringBack(s, id).issues.rows - {id} == s.issues.rows - {id};
  }

  lemma UnbillKeepsMoney(m: Money, customers: Table<Customer>, id: nat)
    requires MoneyOk(m, customers) && !ChargeIsPaid(m, id)
    ensures MoneyOk(m.(charges := Unbill(m.charges, id)), customers)
  {
    hide MoneyOk, PaidFor;
    if ChargeOf(m.charges, id).Some? {
      UnchargingKeepsMoney(m, customers, ChargeOf(m.charges, id).value);
    }
  }

  lemma DeleteKeepsInv(db: Db, id: nat, admin: bool)
    requires Inv(db)
    ensures Inv(Commit(db, DeleteIssue(db, id, admin)))
  {
    hide StockOk, TransfersOk, RecoveryOk, ChargesOk, MoneyOk, NetworkOk, RecordsOk, LocationsOk, IssueKeysUnique,
         DeviceKeysUnique, Restocked, Erase, Unbill, RefreshFor, ChargeIsPaid;
    InvGroups(db);
    InvGroups(Commit(db, DeleteIssue(db, id, admin)));
    var o := DeleteIssue(db, id, admin);
    if o.Done? {
      EraseKeepsStock(db.stock, id);
      EraseKeepsKeys(db.stock, id);
      ErasedIssues(db.stock, id);
      RestockingKeeps(db.stock.inventory, o.db.stock.inventory, db.transfers, db.records);
      TakingBackKeepsRecovery(db.people, db.stock.issues, o.db.stock.issues, id);
      UnbillKeepsCharges(db.money.charges, db.stock.issues, id);
      UnbillKeepsMoney(db.money, db.people.customers, id);
      RefreshKeepsMoney(o.db.money, db.people, o.db.stock.issues, db.stock.issues.rows[id]);
      DropKeepsNetwork(db.records, db.stock.issues, id);
    }
  }

  /** Deleting an issue brings back what is still out; the issue and its unpaid charge are gone, no other charge is. */
  lemma DeleteConserves(db: Db, id: nat, admin: bool)
    requires Inv(db)
    ensures var o := DeleteIssue(db, id, admin);
            && Total(Commit(db, o).stock) == Total(db.stock)
            && (o.Done? ==>
                  id !in o.db.stock.issues.rows && ChargeOf(o.db.money.charges, id).None?
                  && forall k :: k in db.money.charges.rows && db.money.charges.rows[k].issue != Some(id) ==>
                       k in o.db.money.charges.rows && o.db.money.charges.rows[k] == db.money.charges.rows[k])
  {
    hide TransfersOk, RecoveryOk, MoneyOk, NetworkOk, RecordsOk, LocationsOk, Total, Erase, Unbill, RefreshFor,
         ChargeIsPaid, ChargesOk, Held, Covered, SerialsUnique, IssueKeysUnique, DeviceKeysUnique;
    InvGroups(db);
    var o := DeleteIssue(db, id, admin);
    if o.Done? {
      EraseConserves(db.stock, id);
      ErasedIssues(db.stock, id);
      Unbilled(db.money.charges, db.stock.issues, id);
    }
  }

  lemma Unbilled(charges: Table<Charge>, issues: Table<Issue>, id: nat)
    requires ChargesOk(charges, issues)
    ensures var after := Unbill(charges, id);
            ChargeOf(after, id).None?
            && forall k :: k in charges.rows && charges.rows[k].issue != Some(id) ==>
                 k in after.rows && after.rows[k] == charges.rows[k]
  {
    var after := Unbill(charges, id);
    forall k | k in after.rows ensures !ForIssue(id)(after.rows[k]) {
      assert ForIssue(id)(charges.rows[k]) <==> charges.rows[k].issue == Some(id);
    }
  }
}
