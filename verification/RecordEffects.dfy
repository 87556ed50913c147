/** When a request on an operations record is accepted, and what it then writes. */
module RecordEffects {
  import opened Tables
  import opened CrmData
  import opened StockRules
  import opened NetworkRules
  import opened RecordRules
  import opened RecordLaws
  import opened Invariant
  import opened RecordDesk
  import opened ExpenseDesk
  import opened Acceptance
  import opened Effects

  // ----- save -----------------------------------------------------------------------------------

  /** An edit starts from an open record of the module, at the version it was read at; receipts and transactions are
      never edited, nor is an invoice or account that has some. A new record needs a request key. */
  predicate Editable(records: Table<Record>, q: SaveRequest) {
    if q.id.None? then q.key.Some?
    else
      && q.id.value in records.rows && records.rows[q.id.value].mod == q.mod
      && records.rows[q.id.value].state == Open && records.rows[q.id.value].version == q.version
      && q.mod != ResellerReceipts && q.mod != CashTransactions
      && (q.mod == ResellerInvoices ==> !Used(records, ResellerReceipts, InvoiceField, q.id.value))
      && (q.mod == CashAccounts ==> !Used(records, CashTransactions, AccountField, q.id.value))
  }

  predicate Used(records: Table<Record>, mod: Module, k: Field, id: nat) {
    exists r :: r in records.rows && records.rows[r].mod == mod && k in records.rows[r].form.refs
                && records.rows[r].form.refs[k] == id
  }

  /** The fields fit the module, references are to live records of the right module, the item has a row, and a receipt
      is not dated ahead. */
  predicate FormFits(records: Table<Record>, inventory: Table<Batch>, mod: Module, f: Form, today: Date) {
    && Shape(mod, f) && Sound(mod, f)
    && (forall k :: k in f.refs ==>
          f.refs[k] in records.rows && records.rows[f.refs[k]].mod == Target(k)
          && records.rows[f.refs[k]].state != Archived)
    && (f.body.Appliance? || f.body.Cable? ==> f.body.item.None? || f.body.item.value in inventory.rows)
    && (f.body.Purchase? ==> f.body.stockItem in inventory.rows)
    && (mod == ResellerReceipts ==> f.body.Amount? && f.body.day <= today.day)
  }

  /** No other record of the module has the name, but for the case of letters, or is for the employee and month. */
  ghost predicate IsNew(records: Table<Record>, q: SaveRequest) {
    forall r :: r in records.rows && q.id != Some(r) && records.rows[r].mod == q.mod ==>
      OwnNameAndPeriod(Record(q.mod, q.form, Open, 1, "", None, false, None), records.rows[r])
  }

  /** A receipt leaves its invoice covered. */
  predicate LeavesCovered(records: Table<Record>, q: SaveRequest) {
    q.mod == ResellerReceipts && q.form.body.Amount? && InvoiceField in q.form.refs
    && q.form.refs[InvoiceField] in records.rows && records.rows[q.form.refs[InvoiceField]].form.body.Amount? ==>
      Sum(records, ReceiptOn(q.form.refs[InvoiceField])) + q.form.body.amount
      <= records.rows[q.form.refs[InvoiceField]].form.body.amount
  }

  /** The stock is there: the linked issue still supplies the body, or once it has come back the item has enough free of
      labelled devices. */
  ghost predicate InStock(s: Stock, was: Option<nat>, body: Body) {
    TakesStock(body) ==>
      || (was.Some? && was.value in s.issues.rows && s.issues.rows[was.value].out
          && Supplies(s.issues.rows[was.value].form, body))
      || (exists f: IssueForm, mid: Stock ::
            Supplies(f, body) && CameBack(s, mid, was) && f.batch in mid.inventory.rows
            && f.quantity + Labelled(mid.devices, f.batch) <= mid.inventory.rows[f.batch].quantity)
  }

  lemma FitsIffNoObjection(records: Table<Record>, inventory: Table<Batch>, mod: Module, f: Form, today: Date)
    ensures FormObjection(records, inventory, mod, f, today).None? && NameOf(f.body) != Some("") <==>
            FormFits(records, inventory, mod, f, today)
  {
    hide FieldsOf, Required, TotalOf;
    if mod == ResellerReceipts && Shape(mod, f) {
      assert f.body.Amount?;
    }
  }

  lemma NewIffUnused(records: Table<Record>, q: SaveRequest)
    requires Shape(q.mod, q.form) && ShapesOk(records)
    ensures IsNew(records, q) <==> !NameUsed(records, q) && !PeriodUsed(records, q)
  {
    hide Lower, Shape, Sound, SameSpelling;
    forall r | r in records.rows && records.rows[r].mod == q.mod
      ensures OwnNameAndPeriod(Record(q.mod, q.form, Open, 1, "", None, false, None), records.rows[r]) <==>
              !((NameOf(q.form.body).Some? && NameOf(records.rows[r].form.body).Some?
                 && Lower(NameOf(records.rows[r].form.body).value) == Lower(NameOf(q.form.body).value))
                || (PeriodOf(q.form.body).Some? && PeriodOf(q.form.body) == PeriodOf(records.rows[r].form.body)))
    {
      SameBodies(q, records.rows[r]);
      if NameOf(q.form.body).Some? && NameOf(records.rows[r].form.body).Some? {
        LowerIgnoresCase(NameOf(q.form.body).value, NameOf(records.rows[r].form.body).value);
      }
    }
  }

  lemma SameBodies(q: SaveRequest, r: Record)
    requires Shape(q.mod, q.form) && Shape(r.mod, r.form) && q.mod == r.mod
    ensures q.form.body.Named? <==> r.form.body.Named?
    ensures q.form.body.Warehouse? <==> r.form.body.Warehouse?
    ensures q.form.body.Payslip? <==> r.form.body.Payslip?
  {}

  lemma UsedMeans(records: Table<Record>, id: nat)
    ensures HasReceiptsOn(records, id) <==> Used(records, ResellerReceipts, InvoiceField, id)
    ensures HasTransactionsOn(records, id) <==> Used(records, CashTransactions, AccountField, id)
  {
    if r :| r in records.rows && records.rows[r].mod == ResellerReceipts && InvoiceField in records.rows[r].form.refs
            && records.rows[r].form.refs[InvoiceField] == id {
      assert RefersBy(records.rows[r], InvoiceField, id);
    }
    if r :| r in records.rows && records.rows[r].mod == CashTransactions && AccountField in records.rows[r].form.refs
            && records.rows[r].form.refs[AccountField] == id {
      assert RefersBy(records.rows[r], AccountField, id);
    }
  }

  predicate Current(records: Table<Record>, q: SaveRequest) {
    q.id.Some? && q.id.value in records.rows ==> records.rows[q.id.value].version == q.version
  }

  lemma EarlyIff(records: Table<Record>, inventory: Table<Batch>, q: SaveRequest, today: Date)
    ensures EarlyObjection(records, inventory, q, today).None? && Current(records, q) <==>
            Editable(records, q) && FormFits(records, inventory, q.mod, q.form, today) && !PeriodUsed(records, q)
  {
    hide FormObjection, FormFits, HasReceiptsOn, HasTransactionsOn, Used, PeriodUsed, NameOf;
    FitsIffNoObjection(records, inventory, q.mod, q.form, today);
    if q.id.Some? {
      UsedMeans(records, q.id.value);
    }
  }

  lemma LateIff(records: Table<Record>, inventory: Table<Batch>, q: SaveRequest, today: Date)
    requires ShapesOk(records) && FormFits(records, inventory, q.mod, q.form, today)
    requires q.id.Some? ==> q.id.value in records.rows
    ensures q.mod == ResellerReceipts ==> RefOk(records, InvoiceField, q.form.refs[InvoiceField])
    ensures LateObjection(records, q).None? <==>
            !NameUsed(records, q) && LeavesCovered(records, q) && Current(records, q)
  {
    hide NameUsed, Sum, Sound;
    if q.mod == ResellerReceipts {
      var i := q.form.refs[InvoiceField];
      assert Shape(records.rows[i].mod, records.rows[i].form);
      ReceiptTotals(q.mod, q.form.body);
      ReceiptTotals(records.rows[i].mod, records.rows[i].form.body);
    }
  }

  lemma ReceiptTotals(mod: Module, b: Body)
    requires BodyFits(mod, b) && (mod == ResellerReceipts || mod == ResellerInvoices)
    ensures b.Amount? && TotalOf(b) == b.amount
  {}

  lemma CameBackOnce(s: Stock, a: Stock, b: Stock, was: Option<nat>)
    requires CameBack(s, a, was) && CameBack(s, b, was)
    ensures a == b
  {
    assert a.issues.rows == b.issues.rows && a.devices.rows == b.devices.rows && a.inventory.rows == b.inventory.rows;
  }

  lemma SuppliedOnce(f: IssueForm, g: IssueForm, body: Body)
    requires TakesStock(body) && Supplies(f, body) && Supplies(g, body)
    ensures f.batch == g.batch && f.quantity == g.quantity
  {}

  lemma InStockIff(s: Stock, was: Option<nat>, body: Body, today: Date)
    requires StockOk(s)
    ensures SyncStock(s, was, WantOf(body), today, "").Synced? <==> InStock(s, was, body)
  {
    hide StockOk, WantOf, Serves, GiveBack, TakesStock, Supplies, Shelf, Labelled, CameBack, Place;
    WantMeans(body);
    var mid := GiveBack(s, was);
    GivenBack(s, was);
    if WantOf(body).Some? && !StillServed(s.issues, was, WantOf(body)) {
      var w := WantOf(body).value;
      var g := NetworkIssue(w, today, "").form;
      WantServes(w, today);
      assert IssueNetwork(mid, w, today, "").Synced? <==>
             w.item in mid.inventory.rows
             && w.quantity + Labelled(mid.devices, w.item) <= mid.inventory.rows[w.item].quantity by {
        ShelfCounts(mid.devices, w.item);
      }
      if f: IssueForm, other: Stock :| (Supplies(f, body) && CameBack(s, other, was)
                                        && f.batch in other.inventory.rows
                                        && f.quantity + Labelled(other.devices, f.batch)
                                           <= other.inventory.rows[f.batch].quantity) {
        CameBackOnce(s, other, mid, was);
        SuppliedOnce(f, g, body);
      }
      if IssueNetwork(mid, w, today, "").Synced? {
        assert Supplies(g, body) && CameBack(s, mid, was);
      }
    }
  }

  lemma StoreIff(db: Db, q: SaveRequest, today: Date)
    requires StockOk(db.stock) && (q.id.Some? ==> q.id.value in db.records.rows) && (q.id.None? ==> q.key.Some?)
    ensures Store(db, q, today).Done? <==> InStock(db.stock, LinkOf(db.records, q.id), q.form.body)
  {
    hide StockOk, Written, InStock, SyncStock;
    if q.form.body.Warehouse? {
      NothingTaken(db.stock.(inventory := Relocated(db.records, db.stock.inventory, q)), LinkOf(db.records, q.id),
                   q.form.body, today);
      NothingTaken(db.stock, LinkOf(db.records, q.id), q.form.body, today);
    } else {
      InStockIff(db.stock, LinkOf(db.records, q.id), q.form.body, today);
    }
  }

  lemma NothingTaken(s: Stock, was: Option<nat>, body: Body, today: Date)
    requires body.Warehouse?
    ensures SyncStock(s, was, WantOf(body), today, "").Synced? && InStock(s, was, body)
  {
    hide GiveBack;
  }

  /** Exactly when a save under a fresh key, or an edit, is accepted. */
  lemma SaveIff(db: Db, q: SaveRequest, today: Date)
    requires Inv(db) && (q.id.None? && q.key.Some? ==> First(db.records, SavedUnder(q.key.value)).None?)
    ensures SaveRecord(db, q, today).Done? <==>
              && Editable(db.records, q)
              && FormFits(db.records, db.stock.inventory, q.mod, q.form, today)
              && IsNew(db.records, q) && LeavesCovered(db.records, q)
              && InStock(db.stock, LinkOf(db.records, q.id), q.form.body)
  {
    hide Inv, EarlyObjection, LateObjection, Store, Editable, FormFits, IsNew, NameUsed, PeriodUsed, LeavesCovered,
         InStock, StockOk, ShapesOk;
    StockHolds(db);
    ShapesHold(db);
    EarlyIff(db.records, db.stock.inventory, q, today);
    if EarlyObjection(db.records, db.stock.inventory, q, today).None? {
      EarlyMeans(db.records, db.stock.inventory, q, today);
      hide SaveRecord;
      SaveUnfolds(db, q, today);
      EarlyFits(db.records, db.stock.inventory, q, today);
      LateIff(db.records, db.stock.inventory, q, today);
      NewIffUnused(db.records, q);
      StoreIff(db, q, today);
    } else if FormFits(db.records, db.stock.inventory, q.mod, q.form, today) {
      FitsShape(db.records, db.stock.inventory, q.mod, q.form, today);
      NewIffUnused(db.records, q);
    }
  }

  lemma FitsShape(records: Table<Record>, inventory: Table<Batch>, mod: Module, f: Form, today: Date)
    requires FormFits(records, inventory, mod, f, today)
    ensures Shape(mod, f)
  {
    hide Shape, Sound;
  }

  lemma EarlyFits(records: Table<Record>, inventory: Table<Batch>, q: SaveRequest, today: Date)
    requires EarlyObjection(records, inventory, q, today).None?
    ensures FormFits(records, inventory, q.mod, q.form, today)
  {
    hide FormObjection, FormFits, PeriodUsed, NameOf, EditObjection;
    FitsIffNoObjection(records, inventory, q.mod, q.form, today);
  }

  lemma SaveUnfolds(db: Db, q: SaveRequest, today: Date)
    requires EarlyObjection(db.records, db.stock.inventory, q, today).None?
    requires q.id.None? ==> q.key.Some? && First(db.records, SavedUnder(q.key.value)).None?
    ensures Shape(q.mod, q.form)
    ensures q.id.Some? ==> q.id.value in db.records.rows
    ensures q.mod == ResellerReceipts ==> RefOk(db.records, InvoiceField, q.form.refs[InvoiceField])
    ensures LateObjection(db.records, q).None? ==> SaveRecord(db, q, today) == Store(db, q, today)
    ensures LateObjection(db.records, q).Some? ==> SaveRecord(db, q, today).Refused?
  {
    EarlyMeans(db.records, db.stock.inventory, q, today);
    hide EarlyObjection, LateObjection, Store, Shape;
  }

  lemma ShapesHold(db: Db)
    requires Inv(db)
    ensures ShapesOk(db.records)
  {
    hide StockOk, ShapesOk, StatesOk, ExpensesOk, RefsOk, ReceiptsWithin, Distinct;
    assert Holds(RecordGroup, db);
  }

  /** Where the rows of a renamed warehouse go; all others stay. */
  ghost predicate MovedAlong(t: Table<Batch>, after: Table<Batch>, records: Table<Record>, q: SaveRequest) {
    && after.next == t.next && after.rows.Keys == t.rows.Keys
    && forall b :: b in t.rows ==>
         after.rows[b]
         == if q.id.Some? && q.id.value in records.rows && records.rows[q.id.value].form.body.Warehouse?
               && q.form.body.Warehouse? && t.rows[b].location == records.rows[q.id.value].form.body.name
            then t.rows[b].(location := q.form.body.name) else t.rows[b]
  }

  lemma RelocatedMoves(records: Table<Record>, t: Table<Batch>, q: SaveRequest)
    ensures MovedAlong(t, Relocated(records, t, q), records, q)
  {}

  /** An accepted edit writes the form and counts the version up; a new record is open, at version one, under its key.
      Nothing else is written but the stock the record takes or gives back, and the rows of a renamed warehouse. */
  lemma SaveEffects(db: Db, q: SaveRequest, today: Date)
    requires Inv(db) && (q.id.None? && q.key.Some? ==> First(db.records, SavedUnder(q.key.value)).None?)
    requires SaveRecord(db, q, today).Done?
    ensures var o, records, moved := SaveRecord(db, q, today), db.records,
                                     Relocated(db.records, db.stock.inventory, q);
            && (q.id.Some? ==> q.id.value in records.rows) && (q.id.None? ==> q.key.Some?)
            && o.id == (if q.id.Some? then q.id.value else records.next) && o.id in o.db.records.rows
            && o.db == db.(stock := o.db.stock, records := o.db.records)
            && var link := o.db.records.rows[o.id].link;
               var was := if q.id.Some? then records.rows[q.id.value].link else None;
               && o.db.records
                  == (if q.id.Some? then
                        Put(records, q.id.value,
                            records.rows[q.id.value].(form := q.form, version := q.version + 1, link := link))
                      else Insert(records, Record(q.mod, q.form, Open, 1, q.key.value, link, false, None)))
               && MovedAlong(db.stock.inventory, moved, records, q)
               && NetworkMoved(db.stock.(inventory := moved), o.db.stock, was, link, q.form.body, today)
  {
    hide Inv, EarlyObjection, LateObjection, StockOk, Relocated, MovedAlong, NetworkMoved, SyncStock, WantOf;
    StockHolds(db);
    RelocatedMoves(db.records, db.stock.inventory, q);
    RelocationKeepsStock(db.stock, db.records, q);
    SaveIsStore(db, q, today);
    hide SaveRecord;
    var was := LinkOf(db.records, q.id);
    LinkKnown(db, q.id);
    SyncMoves(db.stock.(inventory := Relocated(db.records, db.stock.inventory, q)), was, q.form.body, today);
  }

  lemma SaveIsStore(db: Db, q: SaveRequest, today: Date)
    requires SaveRecord(db, q, today).Done?
    requires q.id.None? && q.key.Some? ==> First(db.records, SavedUnder(q.key.value)).None?
    ensures q.id.Some? ==> q.id.value in db.records.rows && db.records.rows[q.id.value].version == q.version
    ensures q.id.None? ==> q.key.Some?
    ensures SaveRecord(db, q, today) == Store(db, q, today)
  {
    EarlyMeans(db.records, db.stock.inventory, q, today);
    hide EarlyObjection, Store, Shape, NameUsed, Sum;
  }

  lemma LinkKnown(db: Db, id: Option<nat>)
    requires Inv(db)
    ensures var link := LinkOf(db.records, id); link.Some? ==> link.value < db.stock.issues.next
  {
    hide StockOk, LinksDistinct, SyncedLinked;
    assert Holds(NetworkGroup, db);
    if id.Some? && id.value in db.records.rows {
      assert LinkRight(db.records.rows[id.value], db.stock.issues);
    }
  }

  // ----- archive, delete, receive, pay ----------------------------------------------------------

  /** An open record is archived unless it is a receipt or a transaction, an invoice with receipts, or a company with
      areas or branches that are not; state and version change alone. */
  lemma ArchiveEffects(db: Db, mod: Module, id: nat)
    ensures var o, records := ArchiveRecord(db, mod, id), db.records;
            && (o.Done? <==>
                  && id in records.rows && records.rows[id].mod == mod && records.rows[id].state == Open
                  && mod != ResellerReceipts && mod != CashTransactions
                  && (mod == ResellerInvoices ==> !Used(records, ResellerReceipts, InvoiceField, id))
                  && (mod == Companies ==>
                        forall r :: (r in records.rows && records.rows[r].state != Archived
                                     && (records.rows[r].mod == Areas || records.rows[r].mod == Branches)
                                     && CompanyField in records.rows[r].form.refs) ==>
                          records.rows[r].form.refs[CompanyField] != id))
            && (o.Done? ==>
                  var row := records.rows[id];
                  o == Done(db.(records := Put(records, id, row.(state := Archived, version := row.version + 1))), id))
  {
    hide HasReceiptsOn, Used;
    UsedMeans(db.records, id);
  }

  /** A manager deletes a record that is open or archived, no receipt or transaction, not referred to, and no warehouse
      with stock; its linked issue, if out, comes back. */
  lemma DeleteRecordEffects(db: Db, mod: Module, id: nat, manager: bool)
    requires Inv(db)
    ensures var o, records := DeleteRecord(db, mod, id, manager), db.records;
            && (o.Done? <==>
                  && manager && id in records.rows && records.rows[id].mod == mod
                  && (records.rows[id].state == Open || records.rows[id].state == Archived)
                  && mod != ResellerReceipts && mod != CashTransactions
                  && (forall r, k :: r in records.rows && k in records.rows[r].form.refs && Target(k) == mod ==>
                        records.rows[r].form.refs[k] != id)
                  && (mod == Warehouses && records.rows[id].form.body.Warehouse? ==>
                        forall b :: b in db.stock.inventory.rows ==>
                          db.stock.inventory.rows[b].location != records.rows[id].form.body.name))
            && (o.Done? ==>
                  && o.id == id && o.db == db.(stock := o.db.stock, records := Drop(records, id))
                  && CameBack(db.stock, o.db.stock, records.rows[id].link))
  {
    hide Inv, StockOk, GiveBack, CameBack;
    StockHolds(db);
    if id in db.records.rows {
      GivenBack(db.stock, db.records.rows[id].link);
    }
  }

  /** A purchase bill not yet received raises the row of its item by its quantity, and is received. */
  lemma ReceiveEffects(db: Db, id: nat)
    requires IsRecord(db.records, PurchaseBills, id) && db.records.rows[id].form.body.Purchase?
    requires !db.records.rows[id].received && ReceiveBill(db, id).Done?
    ensures var r, item := db.records.rows[id], db.records.rows[id].form.body.stockItem;
            && item in db.stock.inventory.rows
            && var row := db.stock.inventory.rows[item];
               var paid := r.expense.Some?;
               ReceiveBill(db, id)
               == Done(db.(stock := db.stock.(inventory :=
                             Put(db.stock.inventory, item, row.(quantity := row.quantity + r.form.body.quantity))),
                           records := Put(db.records, id, r.(state := if paid then Paid else Received,
                                                             version := r.version + 1, received := true))), id)
  {}

  /** What a record comes to: quantity times unit cost of a purchase, the amount of a bill, and the earnings of a
      payslip less its deductions. */
  lemma TotalReads(b: Body)
    ensures b.Purchase? ==> TotalOf(b) == b.quantity * b.unitCost
    ensures b.Amount? ==> TotalOf(b) == b.amount
    ensures b.Payslip? ==>
              var s := b.salary;
              TotalOf(b) + s.deductions == s.basic + s.allowances + s.bonus + s.overtime + s.incentive
  {}

  /** Paying a record not yet paid posts one expense for that total on the day of payment, and the record carries its
      id. */
  lemma PayEffects(db: Db, mod: Module, id: nat, terms: PayTerms, today: Date)
    requires id in db.records.rows && db.records.rows[id].expense.None? && PayRecord(db, mod, id, terms, today).Done?
    ensures var r, o := db.records.rows[id], PayRecord(db, mod, id, terms, today);
            exists amount: nat ::
              && (r.form.body.Purchase? ==> amount == r.form.body.quantity * r.form.body.unitCost)
              && (r.form.body.Amount? ==> amount == r.form.body.amount)
              && (r.form.body.Payslip? ==>
                    var s := r.form.body.salary;
                    amount + s.deductions == s.basic + s.allowances + s.bonus + s.overtime + s.incentive)
              && o == Done(db.(expenses := Insert(db.expenses, Expense(Some(id), amount, terms.day)),
                               records := Put(db.records, id, r.(state := Paid, version := r.version + 1,
                                                                 expense := Some(db.expenses.next)))), id)
  {
    hide TotalOf;
    var r := db.records.rows[id];
    TotalReads(r.form.body);
    var amount: nat := TotalOf(r.form.body);
    assert PayRecord(db, mod, id, terms, today)
        == Done(db.(expenses := Insert(db.expenses, Expense(Some(id), amount, terms.day)),
                    records := Put(db.records, id, r.(state := Paid, version := r.version + 1,
                                                      expense := Some(db.expenses.next)))), id);
  }

  /** An expense is written as the form has it, with a positive amount, by whoever has the right. */
  lemma ExpenseEffects(db: Db, id: nat, x: Expense, allowed: bool)
    ensures AddExpense(db, x, allowed).Done? <==> allowed && x.amount > 0
    ensures AddExpense(db, x, allowed).Done? ==>
              AddExpense(db, x, allowed) == Done(db.(expenses := Insert(db.expenses, x)), db.expenses.next)
    ensures EditExpense(db, id, x, allowed).Done? <==> allowed && x.amount > 0 && id in db.expenses.rows
    ensures EditExpense(db, id, x, allowed).Done? ==>
              EditExpense(db, id, x, allowed) == Done(db.(expenses := Put(db.expenses, id, x)), id)
    ensures DropExpense(db, id, allowed).Done? <==> allowed && id in db.expenses.rows
    ensures DropExpense(db, id, allowed).Done? ==>
              DropExpense(db, id, allowed) == Done(db.(expenses := Drop(db.expenses, id)), id)
  {}
}
