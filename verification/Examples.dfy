/** Short runs from empty tables in which a promise of the program does not hold. */
module Examples {
  import opened Tables
  import opened CrmData
  import opened StockRules
  import opened BillingRules
  import opened PaymentRules
  import opened LedgerRules
  import opened NetworkRules
  import opened RecordRules
  import opened RecordLaws
  import opened Invariant
  import opened CrmMachine
  import opened Postings
  import opened ReachableFacts

  lemma RunStep(db: Db, e: Event, rest: seq<Event>)
    ensures Run(db, [e] + rest) == Run(After(db, e), rest)
  {
    hide After;
    assert ([e] + rest)[1..] == rest;
  }

  lemma RunThree(db: Db, a: Event, b: Event, c: Event)
    ensures Run(db, [a, b, c]) == After(After(After(db, a), b), c)
  {
    hide After, Run;
    assert [a, b, c] == [a] + ([b] + ([c] + []));
    RunStep(db, a, [b] + ([c] + []));
    RunStep(After(db, a), b, [c] + []);
    RunStep(After(After(db, a), b), c, []);
    RunNone(After(After(After(db, a), b), c));
  }

  lemma RunNone(db: Db)
    ensures Run(db, []) == db
  {}

  lemma RunFour(db: Db, a: Event, b: Event, c: Event, d: Event)
    ensures Run(db, [a, b, c, d]) == After(After(After(After(db, a), b), c), d)
  {
    hide After, Run;
    assert [a, b, c, d] == [a] + [b, c, d];
    RunStep(db, a, [b, c, d]);
    RunThree(After(db, a), b, c, d);
  }

  // ----- bill and ledger ------------------------------------------------------------------

  const FEE: nat := 100_000
  const TODAY: Date := Date(400, 13)

  function Opening(): Event {
    Event(CmdAddCustomer(Customer(Active, NotRequired, FEE, 0, Date(300, 10), 330)), TODAY)
  }

  function Billing(month: Month): Event {
    Event(CmdInvoice(0, month), TODAY)
  }

  function Form(month: Month, amount: nat): PaymentForm {
    PaymentForm(0, Mrc, amount, TODAY, month, Manual("Cash"), "", None)
  }

  function Paying(month: Month, amount: nat): Event {
    Event(CmdPay(PaymentRequest(None, false, Form(month, amount), None, false, false, false)), TODAY)
  }

  /** An active account without installation or charges. */
  predicate OnlyAccount(db: Db) {
    && 0 in db.people.customers.rows
    && db.people.customers.rows[0].status == Active && db.people.customers.rows[0].fee == FEE
    && db.money.charges == Empty()
  }

  lemma Opened()
    ensures OnlyAccount(After(EmptyDb(), Opening())) && After(EmptyDb(), Opening()).money == EmptyDb().money
  {}

  lemma Billed(db: Db, month: Month)
    requires OnlyAccount(db) && !HasInvoice(db.money.invoices, 0, month)
    ensures var after := After(db, Billing(month));
            && OnlyAccount(after) && after.money == db.money.(invoices := after.money.invoices)
            && after.money.invoices.next == db.money.invoices.next + 1
            && after.money.invoices.rows.Keys == db.money.invoices.rows.Keys + {db.money.invoices.next}
            && (forall k :: k in db.money.invoices.rows ==> after.money.invoices.rows[k] == db.money.invoices.rows[k])
            && var i := after.money.invoices.rows[db.money.invoices.next];
               i.customer == 0 && i.month == month && i.amount == FEE
  {
    hide PreviousBalance, HasInvoice;
  }

  lemma PaidFor(db: Db, month: Month, amount: nat)
    requires OnlyAccount(db) && month != TODAY.month && amount > 0
    ensures var after := After(db, Paying(month, amount));
            && OnlyAccount(after)
            && after.money.payments == Insert(db.money.payments, Payment(Form(month, amount), None))
            && after.money.invoices == db.money.invoices && after.money.charges == db.money.charges
  {
    hide PreviousBalance, HasRecharge, MrcDue, InstallationPaid, PaidOn;
    var q := Paying(month, amount).cmd.payment;
    assert Objection(db.money, db.people.customers, q.form).None?;
    assert NewPayment(db.money, db.people, q, TODAY).Saved?;
  }

  /** The bill of the last invoice, with what is due on the installation. */
  function Shown(db: Db, k: nat): int
    requires k in db.money.invoices.rows && db.money.invoices.rows[k].customer in db.people.customers.rows
  {
    var i := db.money.invoices.rows[k];
    var bill := BillOf(db.money, i);
    db.people.customers.rows[i.customer].installation - InstallationPaid(db.money.payments, i.customer)
    + bill.total - bill.paid
  }

  function LedgerOf(db: Db, c: nat): int
    requires c in db.people.customers.rows
  {
    AccountBalance(db.money, db.people.customers.rows[c], c)
  }

  lemma AccountOnly(db: Db)
    requires OnlyAccount(db)
    ensures 0 in db.people.customers.rows && db.money.charges.rows == map[]
  {}

  /** A receipt for a month never invoiced: the ledger counts it, the bill does not. */
  lemma UnmatchedReceipt(events: seq<Event>)
    requires events == [Opening(), Billing(12), Paying(11, 40_000)]
    ensures var db := Reached(events);
            && 0 in db.people.customers.rows && 0 in db.money.invoices.rows && db.money.invoices.rows[0].customer == 0
            && LedgerOf(db, 0) < Shown(db, 0)
  {
    hide After, AccountBalance, BillOf, InstallationPaid, OnlyAccount, Arrears, Run;
    RunThree(EmptyDb(), Opening(), Billing(12), Paying(11, 40_000));
    Opened();
    var one := After(EmptyDb(), Opening());
    Billed(one, 12);
    var two := After(one, Billing(12));
    PaidFor(two, 11, 40_000);
    var db := Reached(events);
    AccountOnly(db);
    assert db.money.invoices.rows.Keys == {0};
    assert !HasInvoice(db.money.invoices, 0, 11);
    assert db.money.payments.rows[0].form == Form(11, 40_000);
    assert !AllMatched(db.money, 0);
    BillsReconcile(events, 0);
  }

  /** A month overpaid: the ledger carries the credit, the next bill starts from zero. */
  lemma OverpaidMonth(events: seq<Event>)
    requires events == [Opening(), Billing(11), Paying(11, 150_000), Billing(12)]
    ensures var db := Reached(events);
            && 0 in db.people.customers.rows && 1 in db.money.invoices.rows && db.money.invoices.rows[1].customer == 0
            && LedgerOf(db, 0) < Shown(db, 1)
  {
    hide After, AccountBalance, BillOf, InstallationPaid, OnlyAccount, Run, HasInvoice;
    RunFour(EmptyDb(), Opening(), Billing(11), Paying(11, 150_000), Billing(12));
    Opened();
    var one := After(EmptyDb(), Opening());
    NoInvoice(one.money.invoices, 11);
    Billed(one, 11);
    var two := After(one, Billing(11));
    PaidFor(two, 11, 150_000);
    var three := After(two, Paying(11, 150_000));
    assert three.money.invoices.rows.Keys == {0};
    NoInvoice(three.money.invoices, 12);
    Billed(three, 12);
    var db := Reached(events);
    AccountOnly(db);
    assert db.money.invoices.rows.Keys == {0, 1};
    Overpaid(db.money);
    BillsReconcile(events, 1);
  }

  lemma NoInvoice(invoices: Table<Invoice>, month: Month)
    requires forall k :: k in invoices.rows ==> invoices.rows[k].month != month
    ensures !HasInvoice(invoices, 0, month)
  {}

  lemma Overpaid(m: Money)
    requires m.invoices.next == 2 && m.invoices.rows.Keys == {0, 1}
    requires m.invoices.rows[0].customer == 0 && m.invoices.rows[0].month == 11 && m.invoices.rows[0].amount == FEE
    requires m.invoices.rows[1].customer == 0 && m.invoices.rows[1].month == 12
    requires m.payments == Insert(Empty(), Payment(Form(11, 150_000), None))
    ensures Arrears(m, 0, 12) < 0
  {
    assert InvoiceFor(0, 11)(m.invoices.rows[0]);
    assert HasInvoice(m.invoices, 0, 11);
    var f, g := InvoicedBefore(0, 12), SettledBefore(m.invoices, 0, 12);
    assert SumBelow(m.invoices.rows, f, 2) == SumBelow(m.invoices.rows, f, 1) + f(m.invoices.rows[1]);
    assert SumBelow(m.invoices.rows, f, 1) == SumBelow(m.invoices.rows, f, 0) + f(m.invoices.rows[0]);
    assert SumBelow(m.payments.rows, g, 1) == SumBelow(m.payments.rows, g, 0) + g(m.payments.rows[0]);
  }

  // ----- repeating a request ------------------------------------------------------------------------

  function ZoneRequest(): SaveRequest {
    SaveRequest(None, Zones, RecordForm(map[]), 0, Some("first"))
  }

  function SubZoneRequest(): SaveRequest {
    SaveRequest(None, SubZones, RecordForm(map[ZoneField := 0]), 0, Some("second"))
  }

  function RecordForm(refs: map<Field, nat>): CrmData.Form {
    CrmData.Form(refs, Plain, "")
  }

  /** The zone, or the sub-zone of the zone there is. */
  predicate MayCreate(records: Table<Record>, q: SaveRequest) {
    && (q == ZoneRequest() || q == SubZoneRequest())
    && (q == SubZoneRequest() ==>
          0 in records.rows && records.rows[0].mod == Zones && records.rows[0].state == Open)
    && (forall r :: r in records.rows ==> Some(records.rows[r].key) != q.key)
  }

  lemma NothingObjects(records: Table<Record>, inventory: Table<Batch>, q: SaveRequest)
    requires MayCreate(records, q)
    ensures FormObjection(records, inventory, q.mod, q.form, TODAY).None? && Shape(q.mod, q.form)
    ensures !PeriodUsed(records, q) && !NameUsed(records, q) && First(records, SavedUnder(q.key.value)).None?
  {
    assert forall k :: k in q.form.refs ==> RefOk(records, k, q.form.refs[k]);
  }

  lemma RecordCreated(db: Db, q: SaveRequest)
    requires MayCreate(db.records, q)
    ensures After(db, Event(CmdSaveRecord(q), TODAY))
         == db.(records := Insert(db.records, Record(q.mod, q.form, Open, 1, q.key.value, None, false, None)))
  {
    hide FormObjection, PeriodUsed, NameUsed, Shape, IssueNetwork, BringBack;
    NothingObjects(db.records, db.stock.inventory, q);
    assert LateObjection(db.records, q).None?;
  }

  lemma ZoneArchived(db: Db)
    requires 0 in db.records.rows && db.records.rows[0].mod == Zones && db.records.rows[0].state == Open
    ensures var after := After(db, Event(CmdArchive(Zones, 0), TODAY));
            && 0 in after.records.rows && after.records.rows[0].state == Archived
            && (forall r :: r in db.records.rows && r != 0 ==>
                  r in after.records.rows && after.records.rows[r] == db.records.rows[r])
  {
    hide HasParts, HasReceiptsOn;
  }

  /** A zone archived after a sub-zone was saved under it: the very request that created the sub-zone is refused when
      repeated, though its key is on record. */
  lemma ReplayAfterArchive(events: seq<Event>)
    requires events == [Event(CmdSaveRecord(ZoneRequest()), TODAY), Event(CmdSaveRecord(SubZoneRequest()), TODAY),
                        Event(CmdArchive(Zones, 0), TODAY)]
    ensures var db := Reached(events);
            && 1 in db.records.rows && Some(db.records.rows[1].key) == SubZoneRequest().key
            && db.records.rows[1].mod == SubZones && db.records.rows[1].form == SubZoneRequest().form
            && SaveRecord(db, SubZoneRequest(), TODAY).Refused?
  {
    hide Run, SaveRecord, Inv, FormsOk, StatesOk, ExpensesOk, ArchiveRecord, StillFits;
    var start := EmptyDb();
    RunThree(start, events[0], events[1], events[2]);
    RecordCreated(start, ZoneRequest());
    var one := After(start, events[0]);
    RecordCreated(one, SubZoneRequest());
    var two := After(one, events[1]);
    var db := Reached(events);
    ZoneArchived(two);
    ReachedHolds(events);
    FormsHold(db);
    NoLongerFits(db);
    ReplayIff(db, SubZoneRequest(), TODAY, 1);
  }

  lemma NoLongerFits(db: Db)
    requires 0 in db.records.rows && db.records.rows[0].state == Archived
    ensures !StillFits(db.records, db.stock.inventory, SubZones, SubZoneRequest().form, TODAY)
  {
    assert ZoneField in SubZoneRequest().form.refs && SubZoneRequest().form.refs[ZoneField] == 0;
  }

  lemma FormsHold(db: Db)
    requires Inv(db)
    ensures FormsOk(db.records)
  {
    hide StockOk, FormsOk, StatesOk, ExpensesOk;
    assert Holds(RecordGroup, db);
  }

  /** A zone edited after it was saved: the request that created it is refused when repeated, though it would still pass
      validate. */
  lemma ReplayAfterEdit(events: seq<Event>)
    requires events == [Event(CmdSaveRecord(ZoneRequest()), TODAY), Event(CmdSaveRecord(Renaming()), TODAY)]
    ensures var db := Reached(events);
            && 0 in db.records.rows && Some(db.records.rows[0].key) == ZoneRequest().key
            && db.records.rows[0].mod == Zones && db.records.rows[0].state == Open
            && StillFits(db.records, db.stock.inventory, Zones, ZoneRequest().form, TODAY)
            && SaveRecord(db, ZoneRequest(), TODAY).Refused?
  {
    hide Run, SaveRecord, Inv, FormsOk, StatesOk, ExpensesOk;
    var start := EmptyDb();
    RunTwo(start, events[0], events[1]);
    RecordCreated(start, ZoneRequest());
    ZoneRenamed(After(start, events[0]));
    ReachedHolds(events);
    FormsHold(Reached(events));
    ReplayIff(Reached(events), ZoneRequest(), TODAY, 0);
  }

  function Renaming(): SaveRequest {
    SaveRequest(Some(0), Zones, CrmData.Form(map[], Plain, "renamed"), 1, None)
  }

  lemma ZoneRenamed(db: Db)
    requires db.records.rows == map[0 := Record(Zones, ZoneRequest().form, Open, 1, "first", None, false, None)]
    ensures var after := After(db, Event(CmdSaveRecord(Renaming()), TODAY));
            && 0 in after.records.rows && after.records.rows[0].form == Renaming().form
            && after.records.rows[0].mod == Zones && after.records.rows[0].state == Open
            && after.records.rows[0].key == "first"
  {
    hide IssueNetwork, BringBack, Sum;
    assert EarlyObjection(db.records, db.stock.inventory, Renaming(), TODAY).None?;
    assert LateObjection(db.records, Renaming()).None?;
  }

  lemma RunTwo(db: Db, a: Event, b: Event)
    ensures Run(db, [a, b]) == After(After(db, a), b)
  {
    hide After, Run;
    assert [a, b] == [a] + ([b] + []);
    RunStep(db, a, [b] + []);
    RunStep(After(db, a), b, []);
    RunNone(After(After(db, a), b));
  }

  // ----- paid, and the expense gone ---------------------------------------------------------------------

  function PayrollRequest(): SaveRequest {
    SaveRequest(None, Payroll, CrmData.Form(map[], Payslip(0, 13, Salary(FEE, 0, 0, 0, 0, 0)), ""), 0, Some("pay"))
  }

  function PayrollPaying(): Event {
    Event(CmdPayRecord(Payroll, 0, PayTerms(TODAY.day, true, true, true)), TODAY)
  }

  lemma PayrollCreated(db: Db)
    requires db.records == Empty()
    ensures After(db, Event(CmdSaveRecord(PayrollRequest()), TODAY)) == db.(records := Insert(db.records, NewPayroll()))
  {
    hide FormObjection, PeriodUsed, NameUsed, Shape, IssueNetwork, BringBack, Sum;
    PayrollFits(db.records, db.stock.inventory);
    assert First(db.records, SavedUnder("pay")).None?;
    assert LateObjection(db.records, PayrollRequest()).None?;
  }

  function NewPayroll(): Record {
    Record(Payroll, PayrollRequest().form, Open, 1, "pay", None, false, None)
  }

  lemma PayrollFits(records: Table<Record>, inventory: Table<Batch>)
    requires records == Empty()
    ensures FormObjection(records, inventory, Payroll, PayrollRequest().form, TODAY).None?
    ensures Shape(Payroll, PayrollRequest().form)
    ensures !PeriodUsed(records, PayrollRequest()) && !NameUsed(records, PayrollRequest())
  {}

  lemma PayrollPaid(db: Db)
    requires 0 in db.records.rows && db.records.rows[0].mod == Payroll && db.records.rows[0].state == Open
    requires db.records.rows[0].form == PayrollRequest().form && db.records.rows[0].expense.None?
    requires db.expenses == Empty()
    ensures var after := After(db, PayrollPaying());
            && 0 in after.records.rows && after.records.rows[0].state == Paid
            && after.records.rows[0].expense == Some(0)
            && after.expenses == Insert(Empty(), Expense(Some(0), FEE, TODAY.day))
  {}

  /** A payroll record is saved and paid, its expense deleted in the expense form: the record stays paid, with the id of
      a row that is gone. */
  lemma PaidWithoutExpense(events: seq<Event>)
    requires events == [Event(CmdSaveRecord(PayrollRequest()), TODAY), PayrollPaying(),
                        Event(CmdDropExpense(0, true), TODAY)]
    ensures var db := Reached(events);
            && 0 in db.records.rows && db.records.rows[0].state == Paid && db.records.rows[0].expense == Some(0)
            && 0 !in db.expenses.rows && !ExpenseAgrees(db, 0)
  {
    hide Run, SaveRecord, PayRecord;
    RunThree(EmptyDb(), events[0], events[1], events[2]);
    PayrollCreated(EmptyDb());
    PayrollPaid(After(EmptyDb(), events[0]));
  }
}
