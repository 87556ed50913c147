/** What every run of saves and actions keeps of the operations records. */
module RecordLaws {
  import opened Tables
  import opened CrmData
  import opened StockRules
  import opened NetworkRules
  import opened RecordRules

  // ----- rows whose form stays ----------------------------------------------------------

  /** A new state leaves references, receipts and names as they were. */
  lemma StampKeepsForms(records: Table<Record>, id: nat, state: RecordState, received: bool, expense: Option<nat>)
    requires FormsOk(records) && id in records.rows
    ensures FormsOk(Stamp(records, id, state, received, expense))
  {
    hide SameName, SamePeriod, Shape, Sound;
    var after := Stamp(records, id, state, received, expense);
    forall i | i in after.rows && after.rows[i].mod == ResellerInvoices
      ensures Sum(after, ReceiptOn(i)) <= TotalOf(after.rows[i].form.body)
    {
      SumPut(records, ReceiptOn(i), id, after.rows[id]);
    }
    StampKeepsDistinct(records, after, id);
  }

  lemma StampKeepsDistinct(records: Table<Record>, after: Table<Record>, id: nat)
    requires Distinct(records) && id in records.rows && id in after.rows
    requires after == Put(records, id, after.rows[id])
    requires after.rows[id].form == records.rows[id].form && after.rows[id].mod == records.rows[id].mod
    requires after.rows[id].key == records.rows[id].key
    ensures Distinct(after)
  {
    forall r, q | r in after.rows && q in after.rows && r != q
      ensures after.rows[r].key != after.rows[q].key && !SameName(after.rows[r], after.rows[q])
              && !SamePeriod(after.rows[r], after.rows[q])
    {
      assert !SameName(records.rows[r], records.rows[q]) && !SamePeriod(records.rows[r], records.rows[q]);
    }
  }

  // ----- saving ---------------------------------------------------------------------------

  /** Everything save checks before it writes. */
  ghost predicate Cleared(records: Table<Record>, inventory: Table<Batch>, q: SaveRequest, today: Date) {
    && EarlyObjection(records, inventory, q, today).None?
    && (q.id.None? ==> First(records, SavedUnder(q.key.value)).None?)
    && LateObjection(records, q).None?
  }

  lemma EarlyMeans(records: Table<Record>, inventory: Table<Batch>, q: SaveRequest, today: Date)
    requires EarlyObjection(records, inventory, q, today).None?
    ensures q.id.None? ==> q.key.Some?
    ensures q.id.Some? ==>
              q.id.value in records.rows && records.rows[q.id.value].mod == q.mod && !IsImmutable(q.mod)
              && records.rows[q.id.value].state == Open
              && (q.mod == ResellerInvoices ==> !HasReceiptsOn(records, q.id.value))
    ensures Shape(q.mod, q.form) && Sound(q.mod, q.form)
    ensures forall k :: k in q.form.refs ==> RefOk(records, k, q.form.refs[k])
    ensures q.mod == ResellerReceipts ==> RefOk(records, InvoiceField, q.form.refs[InvoiceField])
    ensures !PeriodUsed(records, q)
  {}

  lemma WrittenRow(records: Table<Record>, q: SaveRequest, link: Option<nat>)
    requires q.id.Some? ==> q.id.value in records.rows && records.rows[q.id.value].mod == q.mod
    requires q.id.None? ==> q.key.Some?
    ensures var after, id := Written(records, q, link), if q.id.Some? then q.id.value else records.next;
            && id in after.rows && after.rows.Keys == records.rows.Keys + {id}
            && after.rows[id].mod == q.mod && after.rows[id].form == q.form && after.rows[id].link == link
            && (q.id.None? ==> after.rows[id].key == q.key.value)
            && (q.id.Some? ==> after.rows[id].key == records.rows[id].key)
            && (forall r :: r in records.rows && r != id ==> after.rows[r] == records.rows[r])
  {}

  lemma WrittenRefs(records: Table<Record>, after: Table<Record>, id: nat)
    requires RefsOk(records) && id in after.rows && after.rows.Keys == records.rows.Keys + {id}
    requires forall r :: r in records.rows && r != id ==> after.rows[r] == records.rows[r]
    requires id in records.rows ==> after.rows[id].mod == records.rows[id].mod
    requires forall k :: k in after.rows[id].form.refs ==> RefOk(records, k, after.rows[id].form.refs[k])
    ensures RefsOk(after)
  {
    forall r, k | r in after.rows && k in after.rows[r].form.refs ensures RefOk(after, k, after.rows[r].form.refs[k]) {
      assert RefOk(records, k, after.rows[r].form.refs[k]);
    }
  }

  lemma WrittenShapes(records: Table<Record>, after: Table<Record>, id: nat)
    requires ShapesOk(records) && id in after.rows && after.rows.Keys == records.rows.Keys + {id}
    requires forall r :: r in records.rows && r != id ==> after.rows[r] == records.rows[r]
    requires Shape(after.rows[id].mod, after.rows[id].form) && Sound(after.rows[id].mod, after.rows[id].form)
    ensures ShapesOk(after)
  {
    hide Shape, Sound;
  }

  lemma SavingKeepsRefs(records: Table<Record>, inventory: Table<Batch>, q: SaveRequest, link: Option<nat>, today: Date)
    requires RefsOk(records) && ShapesOk(records) && EarlyObjection(records, inventory, q, today).None?
    ensures q.id.Some? ==> q.id.value in records.rows
    ensures q.id.None? ==> q.key.Some?
    ensures RefsOk(Written(records, q, link)) && ShapesOk(Written(records, q, link))
  {
    EarlyMeans(records, inventory, q, today);
    hide Shape, Sound, EarlyObjection, RefsOk, ShapesOk, Written, RefOk;
    WrittenRow(records, q, link);
    var id := if q.id.Some? then q.id.value else records.next;
    WrittenRefs(records, Written(records, q, link), id);
    WrittenShapes(records, Written(records, q, link), id);
  }

  lemma {:induction false} NothingOn(records: Table<Record>, id: nat, n: nat)
    requires forall r :: r in records.rows && records.rows[r].mod == ResellerReceipts ==>
               !RefersBy(records.rows[r], InvoiceField, id)
    ensures SumBelow(records.rows, ReceiptOn(id), n) == 0
  {
    if n > 0 {
      NothingOn(records, id, n - 1);
    }
  }

  lemma WrittenReceipts(records: Table<Record>, q: SaveRequest, link: Option<nat>, i: nat)
    requires q.id.Some? ==> q.id.value in records.rows && records.rows[q.id.value].mod == q.mod && !IsImmutable(q.mod)
    requires q.id.None? ==> q.key.Some?
    ensures var id := if q.id.Some? then q.id.value else records.next;
            (Sum(Written(records, q, link), ReceiptOn(i))
             == Sum(records, ReceiptOn(i)) + ReceiptOn(i)(Written(records, q, link).rows[id]))
  {
    var after := Written(records, q, link);
    if q.id.Some? {
      SumPut(records, ReceiptOn(i), q.id.value, after.rows[q.id.value]);
    } else {
      SumInsert(records, ReceiptOn(i), after.rows[records.next]);
    }
  }

  lemma FreshUnreferenced(records: Table<Record>)
    requires RefsOk(records)
    ensures forall r :: r in records.rows && records.rows[r].mod == ResellerReceipts ==>
              !RefersBy(records.rows[r], InvoiceField, records.next)
  {
    forall r | r in records.rows && InvoiceField in records.rows[r].form.refs
      ensures records.rows[r].form.refs[InvoiceField] != records.next
    {
      assert RefOk(records, InvoiceField, records.rows[r].form.refs[InvoiceField]);
    }
  }

  /** One invoice after a save: a new receipt is checked against its balance, and an invoice that has receipts does
      not change. */
  lemma SavingKeepsInvoice(records: Table<Record>, q: SaveRequest, link: Option<nat>, i: nat)
    requires RefsOk(records) && ReceiptsWithin(records) && Shape(q.mod, q.form)
    requires q.id.Some? ==>
               q.id.value in records.rows && records.rows[q.id.value].mod == q.mod && !IsImmutable(q.mod)
               && (q.mod == ResellerInvoices ==> !HasReceiptsOn(records, q.id.value))
    requires q.id.None? ==> q.key.Some?
    requires q.mod == ResellerReceipts ==> RefOk(records, InvoiceField, q.form.refs[InvoiceField])
    requires LateObjection(records, q).None?
    requires var after := Written(records, q, link); i in after.rows && after.rows[i].mod == ResellerInvoices
    ensures var after := Written(records, q, link); Sum(after, ReceiptOn(i)) <= TotalOf(after.rows[i].form.body)
  {
    WrittenRow(records, q, link);
    hide NameUsed, Written, TotalOf, Sum;
    var after, id := Written(records, q, link), if q.id.Some? then q.id.value else records.next;
    WrittenReceipts(records, q, link, i);
    if i == id {
      if q.id.None? {
        FreshUnreferenced(records);
      }
      NothingOn(records, i, records.next);
      NothingSums(records, i);
    }
  }

  lemma NothingSums(records: Table<Record>, i: nat)
    requires SumBelow(records.rows, ReceiptOn(i), records.next) == 0
    ensures Sum(records, ReceiptOn(i)) == 0
  {}

  /** Receipts never come to more than their invoice. */
  lemma SavingKeepsReceipts(records: Table<Record>, inventory: Table<Batch>, q: SaveRequest, link: Option<nat>,
                            today: Date)
    requires RefsOk(records) && ReceiptsWithin(records) && EarlyObjection(records, inventory, q, today).None?
    requires Shape(q.mod, q.form) && (q.id.Some? ==> q.id.value in records.rows) && (q.id.None? ==> q.key.Some?)
    requires q.mod == ResellerReceipts ==> RefOk(records, InvoiceField, q.form.refs[InvoiceField])
    requires LateObjection(records, q).None?
    ensures ReceiptsWithin(Written(records, q, link))
  {
    EarlyMeans(records, inventory, q, today);
    hide EarlyObjection, LateObjection, Written, Shape, TotalOf, Sum, RefsOk, HasReceiptsOn;
    var after := Written(records, q, link);
    forall i | i in after.rows && after.rows[i].mod == ResellerInvoices
      ensures Sum(after, ReceiptOn(i)) <= TotalOf(after.rows[i].form.body)
    {
      SavingKeepsInvoice(records, q, link, i);
    }
  }

  lemma SavingIsNew(records: Table<Record>, inventory: Table<Batch>, q: SaveRequest, row: Record, today: Date, r: nat)
    requires Distinct(records) && ShapesOk(records) && Cleared(records, inventory, q, today)
    requires r in records.rows && q.id != Some(r) && row.mod == q.mod && row.form == q.form
    requires if q.id.Some? then q.id.value in records.rows && row.key == records.rows[q.id.value].key
             else q.key == Some(row.key)
    ensures records.rows[r].key != row.key
    ensures !SameName(records.rows[r], row) && !SameName(row, records.rows[r])
    ensures !SamePeriod(records.rows[r], row)
  {
    EarlyMeans(records, inventory, q, today);
    assert !NameUsed(records, q);
    hide EarlyObjection, LateObjection, Lower;
    assert Shape(records.rows[r].mod, records.rows[r].form);
    if q.id.None? {
      assert !SavedUnder(q.key.value)(records.rows[r]);
    }
  }

  lemma SavingKeepsDistinct(records: Table<Record>, inventory: Table<Batch>, q: SaveRequest, link: Option<nat>,
                            today: Date)
    requires Distinct(records) && ShapesOk(records) && Cleared(records, inventory, q, today)
    requires (q.id.Some? ==> q.id.value in records.rows) && (q.id.None? ==> q.key.Some?)
    ensures Distinct(Written(records, q, link))
  {
    hide EarlyObjection, LateObjection, SameName, SamePeriod, Written, Shape, ShapesOk, RefsOk;
    EarlyMeans(records, inventory, q, today);
    WrittenRow(records, q, link);
    var after, id := Written(records, q, link), if q.id.Some? then q.id.value else records.next;
    forall r | r in records.rows && r != id
      ensures records.rows[r].key != after.rows[id].key && !SameName(records.rows[r], after.rows[id])
      ensures !SameName(after.rows[id], records.rows[r])
      ensures !SamePeriod(records.rows[r], after.rows[id]) && !SamePeriod(after.rows[id], records.rows[r])
    {
      SavingIsNew(records, inventory, q, after.rows[id], today, r);
      PeriodSymmetric(after.rows[id], records.rows[r]);
    }
  }

  lemma PeriodSymmetric(a: Record, b: Record)
    ensures SamePeriod(a, b) <==> SamePeriod(b, a)
  {}

  // ----- deleting ---------------------------------------------------------------------------

  lemma DroppingKeepsForms(records: Table<Record>, id: nat)
    requires FormsOk(records) && id in records.rows && !IsImmutable(records.rows[id].mod)
    requires !IsReferenced(records, records.rows[id].mod, id)
    ensures FormsOk(Drop(records, id))
  {
    hide SameName, SamePeriod, Shape, Sound;
    var after := Drop(records, id);
    forall i | i in after.rows && after.rows[i].mod == ResellerInvoices
      ensures Sum(after, ReceiptOn(i)) <= TotalOf(after.rows[i].form.body)
    {
      SumDrop(records, ReceiptOn(i), id);
    }
    forall r, k | r in after.rows && k in after.rows[r].form.refs ensures RefOk(after, k, after.rows[r].form.refs[k]) {
      assert RefOk(records, k, records.rows[r].form.refs[k]);
    }
  }

  // ----- one lemma per operation ---------------------------------------------------------------

  ghost predicate RecordsOk(records: Table<Record>, expenses: Table<Expense>) {
    FormsOk(records) && StatesOk(records) && ExpensesOk(records, expenses)
  }

  /** A save that changed something wrote the row it was cleared for. */
  lemma SavedRow(db: Db, q: SaveRequest, today: Date)
    requires SaveRecord(db, q, today).Done? && SaveRecord(db, q, today).db != db
    ensures var o := SaveRecord(db, q, today);
            && Cleared(db.records, db.stock.inventory, q, today)
            && (q.id.Some? ==> q.id.value in db.records.rows && db.records.rows[q.id.value].state == Open)
            && (q.id.None? ==> q.key.Some?)
            && o.id in o.db.records.rows && o.db.records == Written(db.records, q, o.db.records.rows[o.id].link)
            && o.id == (if q.id.Some? then q.id.value else db.records.next)
            && o.db == db.(stock := o.db.stock, records := o.db.records)
  {
    EarlyMeans(db.records, db.stock.inventory, q, today);
    hide SyncStock, Relocated, FormObjection, EarlyObjection, LateObjection;
  }

  lemma SaveKeepsRecords(db: Db, q: SaveRequest, today: Date)
    requires RecordsOk(db.records, db.expenses)
    ensures var o := SaveRecord(db, q, today);
            o.Done? ==> RecordsOk(o.db.records, o.db.expenses) && o.db.expenses == db.expenses
  {
    hide FormsOk, SaveRecord, Cleared;
    var o := SaveRecord(db, q, today);
    if o.Done? && o.db != db {
      SavedRow(db, q, today);
      var link := o.db.records.rows[o.id].link;
      SavingKeepsForms(db.records, db.stock.inventory, q, link, today);
      SavingKeepsPosted(db.records, db.expenses, q, link);
    }
  }

  lemma SavingKeepsPosted(records: Table<Record>, expenses: Table<Expense>, q: SaveRequest, link: Option<nat>)
    requires StatesOk(records) && ExpensesOk(records, expenses)
    requires q.id.Some? ==> q.id.value in records.rows && records.rows[q.id.value].state == Open
    requires q.id.None? ==> q.key.Some?
    ensures StatesOk(Written(records, q, link)) && ExpensesOk(Written(records, q, link), expenses)
  {
    if q.id.Some? {
      assert StateOk(records.rows[q.id.value]);
    }
  }

  lemma SavingKeepsForms(records: Table<Record>, inventory: Table<Batch>, q: SaveRequest, link: Option<nat>,
                         today: Date)
    requires FormsOk(records) && Cleared(records, inventory, q, today)
    requires (q.id.Some? ==> q.id.value in records.rows) && (q.id.None? ==> q.key.Some?)
    ensures FormsOk(Written(records, q, link))
  {
    EarlyMeans(records, inventory, q, today);
    hide EarlyObjection, LateObjection, RefsOk, ShapesOk, ReceiptsWithin, Distinct, Written;
    SavingKeepsRefs(records, inventory, q, link, today);
    SavingKeepsReceipts(records, inventory, q, link, today);
    SavingKeepsDistinct(records, inventory, q, link, today);
  }

  lemma ArchiveKeepsRecords(db: Db, mod: Module, id: nat)
    requires RecordsOk(db.records, db.expenses)
    ensures var o := ArchiveRecord(db, mod, id);
            o.Done? ==> RecordsOk(o.db.records, o.db.expenses) && o.db == db.(records := o.db.records)
  {
    hide FormsOk;
    if ArchiveRecord(db, mod, id).Done? {
      StampKeepsForms(db.records, id, Archived, db.records.rows[id].received, db.records.rows[id].expense);
    }
  }

  lemma DeleteKeepsRecords(db: Db, mod: Module, id: nat, manager: bool)
    requires RecordsOk(db.records, db.expenses)
    ensures var o := DeleteRecord(db, mod, id, manager);
            o.Done? ==> RecordsOk(o.db.records, o.db.expenses) && o.db.expenses == db.expenses
  {
    hide FormsOk, GiveBack;
    var o := DeleteRecord(db, mod, id, manager);
    if o.Done? {
      DroppingKeepsForms(db.records, id);
    }
  }

  lemma ReceiveKeepsRecords(db: Db, id: nat)
    requires RecordsOk(db.records, db.expenses)
    ensures var o := ReceiveBill(db, id);
            o.Done? ==> RecordsOk(o.db.records, o.db.expenses) && o.db.expenses == db.expenses
  {
    hide FormsOk, AddQuantity;
    var o := ReceiveBill(db, id);
    if o.Done? && o.db != db {
      var r := db.records.rows[id];
      StampKeepsForms(db.records, id, if r.expense.Some? then Paid else Received, true, r.expense);
    }
  }

  lemma PayingKeepsPosted(records: Table<Record>, expenses: Table<Expense>, id: nat, day: int)
    requires StatesOk(records) && ExpensesOk(records, expenses)
    requires id in records.rows && records.rows[id].expense.None? && PayModule(records.rows[id].mod)
    requires Payable(TotalOf(records.rows[id].form.body))
    ensures var r := records.rows[id];
            var after := Stamp(records, id, Paid, r.received, Some(expenses.next));
            StatesOk(after) && ExpensesOk(after, Insert(expenses, Expense(Some(id), TotalOf(r.form.body), day)))
  {
    assert StateOk(records.rows[id]);
    hide TotalOf;
  }

  lemma PayKeepsRecords(db: Db, mod: Module, id: nat, terms: PayTerms, today: Date)
    requires RecordsOk(db.records, db.expenses)
    ensures var o := PayRecord(db, mod, id, terms, today);
            o.Done? ==> RecordsOk(o.db.records, o.db.expenses)
  {
    hide FormsOk, StatesOk, ExpensesOk;
    var o := PayRecord(db, mod, id, terms, today);
    if o.Done? && o.db != db {
      StampKeepsForms(db.records, id, Paid, db.records.rows[id].received, Some(db.expenses.next));
      PayingKeepsPosted(db.records, db.expenses, id, terms.day);
    }
  }

  // ----- posting once ---------------------------------------------------------------------------

  predicate Posted(r: Record) {
    r.received || r.expense.Some?
  }

  /** What was posted stays posted, under the same form. */
  ghost predicate Advances(records: Table<Record>, after: Table<Record>) {
    forall r :: r in records.rows && Posted(records.rows[r]) ==>
      r in after.rows
      && after.rows[r].form == records.rows[r].form && after.rows[r].mod == records.rows[r].mod
      && (records.rows[r].received ==> after.rows[r].received)
      && (records.rows[r].expense.Some? ==> after.rows[r].expense == records.rows[r].expense)
  }

  /** No edit, archiving or deletion of a posted record gets through; posting it again changes nothing. */
  lemma PostedIsFrozen(db: Db, id: nat, q: SaveRequest, manager: bool, terms: PayTerms, today: Date)
    requires StatesOk(db.records) && id in db.records.rows && Posted(db.records.rows[id])
    ensures var mod := db.records.rows[id].mod;
            && (q.id == Some(id) ==> SaveRecord(db, q, today).Refused?)
            && ArchiveRecord(db, mod, id).Refused?
            && DeleteRecord(db, mod, id, manager).Refused?
            && (db.records.rows[id].received ==> Commit(db, ReceiveBill(db, id)) == db)
            && (db.records.rows[id].expense.Some? ==> Commit(db, PayRecord(db, mod, id, terms, today)) == db)
  {
    hide FormObjection, PeriodUsed, LateObjection, Store;
    assert StateOk(db.records.rows[id]);
  }

  /** A request key stands for one record: creating again under it changes nothing, and is accepted only for the same
      module and form. */
  lemma SaveReplayed(db: Db, q: SaveRequest, today: Date, id: nat)
    requires Distinct(db.records) && id in db.records.rows && q.id.None? && q.key == Some(db.records.rows[id].key)
    ensures Commit(db, SaveRecord(db, q, today)) == db
    ensures var o := SaveRecord(db, q, today);
            o.Done? ==> o.id == id && db.records.rows[id].mod == q.mod && db.records.rows[id].form == q.form
  {
    hide EarlyObjection, LateObjection, SameName, SamePeriod, Store;
    assert SavedUnder(q.key.value)(db.records.rows[id]);
  }

  /** What validate still asks when a request is repeated, which it does before the key is looked up: the pay period
      of a payroll record is taken by that very record; every referenced record must not have been archived since, the
      item row must still be there, the date of a receipt must not be ahead. */
  predicate StillFits(records: Table<Record>, inventory: Table<Batch>, mod: Module, f: Form, today: Date)
  {
    && mod != Payroll
    && (forall k :: k in f.refs ==> f.refs[k] in records.rows && records.rows[f.refs[k]].state != Archived)
    && (ItemOf(f.body).Some? ==> ItemOf(f.body).value in inventory.rows)
    && (mod == ResellerReceipts ==> f.body.Amount? && f.body.day <= today.day)
  }

  lemma SavedForm(records: Table<Record>, id: nat)
    requires FormsOk(records) && id in records.rows
    ensures var r := records.rows[id];
            && Shape(r.mod, r.form) && Sound(r.mod, r.form)
            && (forall k :: k in r.form.refs ==> RefOk(records, k, r.form.refs[k]))
  {
    hide Shape, Sound, Distinct, ReceiptsWithin;
  }

  lemma FormAgain(records: Table<Record>, inventory: Table<Batch>, mod: Module, f: Form, today: Date)
    requires Shape(mod, f) && Sound(mod, f)
    requires forall k :: k in f.refs ==> f.refs[k] in records.rows && records.rows[f.refs[k]].mod == Target(k)
    ensures mod != Payroll ==> (FormObjection(records, inventory, mod, f, today).None? <==>
                                StillFits(records, inventory, mod, f, today))
  {
    hide FieldsOf, Required, TotalOf;
  }

  /** A create request under a used key gives the record of that key back if and only if it asks for the module and the
      form the record has now, unedited since, and still passes validate; otherwise it is refused. */
  lemma ReplayIff(db: Db, q: SaveRequest, today: Date, id: nat)
    requires FormsOk(db.records) && id in db.records.rows && q.id.None? && q.key == Some(db.records.rows[id].key)
    ensures SaveRecord(db, q, today).Done? <==>
              && q.mod == db.records.rows[id].mod && q.form == db.records.rows[id].form
              && StillFits(db.records, db.stock.inventory, q.mod, q.form, today)
    ensures SaveRecord(db, q, today).Done? ==> SaveRecord(db, q, today) == Done(db, id)
  {
    hide RefsOk, ShapesOk, ReceiptsWithin, Distinct, SaveRecord, StillFits;
    SaveReplayed(db, q, today, id);
    if q.mod == db.records.rows[id].mod && q.form == db.records.rows[id].form {
      SameReplayIff(db, q, today, id);
    }
  }

  lemma SameReplayIff(db: Db, q: SaveRequest, today: Date, id: nat)
    requires FormsOk(db.records) && id in db.records.rows && q.id.None? && q.key == Some(db.records.rows[id].key)
    requires q.mod == db.records.rows[id].mod && q.form == db.records.rows[id].form
    ensures SaveRecord(db, q, today).Done? <==> StillFits(db.records, db.stock.inventory, q.mod, q.form, today)
    ensures SaveRecord(db, q, today).Done? ==> SaveRecord(db, q, today) == Done(db, id)
  {
    SavedForm(db.records, id);
    assert Distinct(db.records);
    SaveReplayed(db, q, today, id);
    hide FormObjection, LateObjection, Store, RefOk, Shape, FormsOk, Distinct, NameUsed;
    FormAgain(db.records, db.stock.inventory, q.mod, q.form, today);
    assert SavedUnder(q.key.value)(db.records.rows[id]);
    OwnPeriod(db.records, q, id);
  }

  lemma OwnPeriod(records: Table<Record>, q: SaveRequest, id: nat)
    requires id in records.rows && q.id.None? && Shape(q.mod, q.form)
    requires q.mod == records.rows[id].mod && q.form == records.rows[id].form
    ensures PeriodUsed(records, q) <==> q.mod == Payroll
  {}

  lemma SaveAdvances(db: Db, q: SaveRequest, today: Date)
    requires StatesOk(db.records)
    ensures Advances(db.records, Commit(db, SaveRecord(db, q, today)).records)
  {
    hide SaveRecord, Cleared;
    var o := SaveRecord(db, q, today);
    if o.Done? && o.db != db {
      SavedRow(db, q, today);
      forall r | r in db.records.rows && Posted(db.records.rows[r]) ensures q.id != Some(r) {
        assert StateOk(db.records.rows[r]);
      }
    }
  }

  lemma DeleteAdvances(db: Db, mod: Module, id: nat, manager: bool)
    requires StatesOk(db.records)
    ensures Advances(db.records, Commit(db, DeleteRecord(db, mod, id, manager)).records)
  {
    hide IsReferenced, HoldsStock, GiveBack;
    if id in db.records.rows {
      assert StateOk(db.records.rows[id]);
    }
  }

  lemma ArchiveAdvances(db: Db, mod: Module, id: nat)
    ensures Advances(db.records, Commit(db, ArchiveRecord(db, mod, id)).records)
  {
    hide HasReceiptsOn, HasParts;
  }

  lemma PostingAdvances(db: Db, mod: Module, id: nat, terms: PayTerms, today: Date)
    ensures Advances(db.records, Commit(db, ReceiveBill(db, id)).records)
    ensures Advances(db.records, Commit(db, PayRecord(db, mod, id, terms, today)).records)
  {
    hide AddQuantity;
  }

  // ----- names but for the case of letters ---------------------------------------------------------

  /** The same letter, but for its case. */
  predicate SameLetter(c: char, d: char) {
    c == d || ('A' <= c <= 'Z' && d == c - 'A' + 'a') || ('A' <= d <= 'Z' && c == d - 'A' + 'a')
  }

  predicate SameSpelling(a: string, b: string) {
    |a| == |b| && forall k :: 0 <= k < |a| ==> SameLetter(a[k], b[k])
  }

  /** Two records share neither name nor pay period. */
  ghost predicate OwnNameAndPeriod(a: Record, b: Record) {
    && (a.mod == b.mod && a.form.body.Named? && b.form.body.Named? ==>
          !SameSpelling(a.form.body.name, b.form.body.name))
    && (a.mod == b.mod && a.form.body.Warehouse? && b.form.body.Warehouse? ==>
          !SameSpelling(a.form.body.name, b.form.body.name))
    && (a.form.body.Payslip? && b.form.body.Payslip? ==>
          a.form.body.employee != b.form.body.employee || a.form.body.month != b.form.body.month)
  }

  lemma LowerIgnoresCase(a: string, b: string)
    ensures Lower(a) == Lower(b) <==> SameSpelling(a, b)
  {
    if SameSpelling(a, b) {
      assert forall k :: 0 <= k < |a| ==> LowerChar(a[k]) == LowerChar(b[k]);
    }
    if Lower(a) == Lower(b) {
      forall k | 0 <= k < |a| ensures |a| == |b| && SameLetter(a[k], b[k]) {
        assert |Lower(a)| == |a| && |Lower(b)| == |b|;
        assert Lower(a)[k] == Lower(b)[k];
      }
      assert |Lower(a)| == |a| && |Lower(b)| == |b|;
    }
  }
}
