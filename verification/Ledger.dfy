/** The customer account seen three ways: a dated ledger, one aggregate query, and a bill with arrears. */
module LedgerRules {
  import opened Tables
  import opened CrmData
  import opened BillingRules
  import opened PaymentRules

  // ----- ledger entries ----------------------------------------------------------------

  datatype Entry = Entry(date: Date, reference: string, debit: nat, credit: nat)

  function Digit(d: nat): char
    requires d < 10
  {
    "0123456789"[d]
  }

  function Decimal(n: nat): string {
    if n < 10 then [Digit(n)] else Decimal(n / 10) + [Digit(n % 10)]
  }

  /** Python's format :0<width>d */
  function Padded(n: nat, width: nat): string {
    if |Decimal(n)| >= width then Decimal(n) else seq(width - |Decimal(n)|, i => '0') + Decimal(n)
  }

  /** The invoice number: year and month, then the customer in five digits. */
  function InvoiceNumber(i: Invoice): string {
    var months := NonNegative(i.month);
    "INV-" + Padded(months / 12, 4) + Padded(months % 12 + 1, 2) + "-" + Padded(i.customer, 5)
  }

  /** The entries a row of some table stands for. */
  function EntriesBelow<T>(rows: map<nat, T>, entries: (nat, T) -> seq<Entry>, n: nat): seq<Entry> {
    if n == 0 then []
    else EntriesBelow(rows, entries, n - 1) + (if n - 1 in rows then entries(n - 1, rows[n - 1]) else [])
  }

  function InvoiceEntry(c: nat): (nat, Invoice) -> seq<Entry> {
    (k: nat, i: Invoice) => if i.customer == c then [Entry(i.issued, InvoiceNumber(i), i.amount, 0)] else []
  }

  function ChargeEntry(c: nat): (nat, Charge) -> seq<Entry> {
    (k: nat, s: Charge) => if s.customer == c then [Entry(s.date, "SVC-" + Decimal(k), s.amount, 0)] else []
  }

  /** An over-the-counter sale: one-time revenue that settles no agreed charge. */
  predicate CashSale(f: PaymentForm) {
    f.kind.Otc? && f.kind.category != Installation && f.charge.None?
  }

  /** A cash sale shows as its own charge and its payment; every other payment as a credit. */
  function PaymentEntry(c: nat): (nat, Payment) -> seq<Entry> {
    (k: nat, p: Payment) =>
      if p.form.customer != c then []
      else (if CashSale(p.form) then [Entry(p.form.date, "OTC-" + Decimal(k), p.form.amount, 0)] else [])
           + [Entry(p.form.date, "RCP-" + Decimal(k), 0, p.form.amount)]
  }

  function InstallationEntry(customer: Customer): seq<Entry> {
    if customer.installation == 0 then [] else [Entry(customer.joined, "Installation", customer.installation, 0)]
  }

  function Entries(m: Money, customer: Customer, c: nat): seq<Entry> {
    EntriesBelow(m.invoices.rows, InvoiceEntry(c), m.invoices.next)
    + EntriesBelow(m.charges.rows, ChargeEntry(c), m.charges.next)
    + InstallationEntry(customer)
    + EntriesBelow(m.payments.rows, PaymentEntry(c), m.payments.next)
  }

  lemma {:induction false} RowListed<T>(rows: map<nat, T>, entries: (nat, T) -> seq<Entry>, n: nat, k: nat, e: Entry)
    requires k in rows && k < n && e in entries(k, rows[k])
    ensures e in EntriesBelow(rows, entries, n)
  {
    if k < n - 1 {
      RowListed(rows, entries, n - 1, k, e);
    }
  }

  lemma {:induction false} ListedRow<T>(rows: map<nat, T>, entries: (nat, T) -> seq<Entry>, n: nat, e: Entry)
    requires e in EntriesBelow(rows, entries, n)
    ensures exists k :: k in rows && k < n && e in entries(k, rows[k])
  {
    if e in EntriesBelow(rows, entries, n - 1) {
      ListedRow(rows, entries, n - 1, e);
    }
  }

  /** What one entry may stand for: an invoice, a charge, the installation, a payment, or the sale behind one that
      settles nothing agreed. */
  ghost predicate Stands(m: Money, customer: Customer, c: nat, e: Entry) {
    || (exists k :: k in m.invoices.rows && m.invoices.rows[k].customer == c
          && e == Entry(m.invoices.rows[k].issued, InvoiceNumber(m.invoices.rows[k]), m.invoices.rows[k].amount, 0))
    || (exists k :: k in m.charges.rows && m.charges.rows[k].customer == c
          && e == Entry(m.charges.rows[k].date, "SVC-" + Decimal(k), m.charges.rows[k].amount, 0))
    || (customer.installation > 0 && e == Entry(customer.joined, "Installation", customer.installation, 0))
    || (exists k :: k in m.payments.rows && m.payments.rows[k].form.customer == c
          && var f := m.payments.rows[k].form;
             || e == Entry(f.date, "RCP-" + Decimal(k), 0, f.amount)
             || (f.kind.Otc? && f.kind.category != Installation && f.charge.None?
                 && e == Entry(f.date, "OTC-" + Decimal(k), f.amount, 0)))
  }

  /** The ledger lists exactly these, each under its own date and reference. */
  lemma LedgerLists(m: Money, customer: Customer, c: nat, e: Entry)
    ensures e in Entries(m, customer, c) <==> Stands(m, customer, c, e)
  {
    hide EntriesBelow, Decimal, InvoiceNumber;
    if e in Entries(m, customer, c) {
      if e in EntriesBelow(m.invoices.rows, InvoiceEntry(c), m.invoices.next) {
        ListedRow(m.invoices.rows, InvoiceEntry(c), m.invoices.next, e);
      } else if e in EntriesBelow(m.charges.rows, ChargeEntry(c), m.charges.next) {
        ListedRow(m.charges.rows, ChargeEntry(c), m.charges.next, e);
      } else if e !in InstallationEntry(customer) {
        ListedRow(m.payments.rows, PaymentEntry(c), m.payments.next, e);
      }
    }
    if Stands(m, customer, c, e) {
      StandsListed(m, customer, c, e);
    }
  }

  lemma StandsListed(m: Money, customer: Customer, c: nat, e: Entry)
    requires Stands(m, customer, c, e)
    ensures e in Entries(m, customer, c)
  {
    hide EntriesBelow, Decimal, InvoiceNumber;
    forall k | k in m.invoices.rows && e in InvoiceEntry(c)(k, m.invoices.rows[k]) {
      RowListed(m.invoices.rows, InvoiceEntry(c), m.invoices.next, k, e);
    }
    forall k | k in m.charges.rows && e in ChargeEntry(c)(k, m.charges.rows[k]) {
      RowListed(m.charges.rows, ChargeEntry(c), m.charges.next, k, e);
    }
    forall k | k in m.payments.rows && e in PaymentEntry(c)(k, m.payments.rows[k]) {
      RowListed(m.payments.rows, PaymentEntry(c), m.payments.next, k, e);
    }
  }

  // ----- order and balance ----------------------------------------------------------------

  function StringLe(a: string, b: string): bool {
    a == "" || (b != "" && (a[0] < b[0] || (a[0] == b[0] && StringLe(a[1..], b[1..]))))
  }

  /** The sort key: date, debits before credits, reference. */
  predicate Before(a: Entry, b: Entry) {
    a.date.day < b.date.day
    || (a.date.day == b.date.day
        && ((a.credit == 0 && b.credit != 0)
            || ((a.credit == 0) == (b.credit == 0) && StringLe(a.reference, b.reference))))
  }

  function InsertEntry(e: Entry, s: seq<Entry>): seq<Entry> {
    if s == [] || Before(e, s[0]) then [e] + s else [s[0]] + InsertEntry(e, s[1..])
  }

  function SortEntries(s: seq<Entry>): seq<Entry> {
    if s == [] then [] else InsertEntry(s[0], SortEntries(s[1..]))
  }

  predicate Ordered(s: seq<Entry>) {
    forall i :: 0 < i < |s| ==> Before(s[i - 1], s[i])
  }

  /** Debits less credits. */
  function Net(s: seq<Entry>): int {
    if s == [] then 0 else s[0].debit - s[0].credit + Net(s[1..])
  }

  function Debits(s: seq<Entry>): nat {
    if s == [] then 0 else s[0].debit + Debits(s[1..])
  }

  function Credits(s: seq<Entry>): nat {
    if s == [] then 0 else s[0].credit + Credits(s[1..])
  }

  lemma {:induction false} StringLeTotal(a: string, b: string)
    ensures StringLe(a, b) || StringLe(b, a)
    decreases a
  {
    if a != "" && b != "" && a[0] == b[0] {
      StringLeTotal(a[1..], b[1..]);
    }
  }

  lemma {:induction false} InsertOrdered(e: Entry, s: seq<Entry>)
    requires Ordered(s)
    ensures Ordered(InsertEntry(e, s)) && multiset(InsertEntry(e, s)) == multiset{e} + multiset(s)
    ensures InsertEntry(e, s)[0] == e || (s != [] && InsertEntry(e, s)[0] == s[0])
    decreases s
  {
    if s != [] && !Before(e, s[0]) {
      assert Before(s[0], e) by {
        StringLeTotal(e.reference, s[0].reference);
      }
      assert s == [s[0]] + s[1..];
      InsertOrdered(e, s[1..]);
      assert Ordered([s[0]] + InsertEntry(e, s[1..]));
    } else {
      assert multiset([e] + s) == multiset{e} + multiset(s);
    }
  }

  /** Sorting gives the entries in order, none lost and none added. */
  lemma {:induction false} SortOrders(s: seq<Entry>)
    ensures Ordered(SortEntries(s)) && multiset(SortEntries(s)) == multiset(s)
    decreases s
  {
    if s != [] {
      SortOrders(s[1..]);
      InsertOrdered(s[0], SortEntries(s[1..]));
      assert s == [s[0]] + s[1..];
    }
  }

  /** Read from the top, days never go back, and on one day everything charged stands before anything paid. */
  lemma {:induction false} LedgerReads(s: seq<Entry>, i: nat, j: nat)
    requires Ordered(s) && i < j < |s|
    ensures s[i].date.day <= s[j].date.day
    ensures s[i].date.day == s[j].date.day && s[i].credit != 0 ==> s[j].credit != 0
    decreases j - i
  {
    assert Before(s[j - 1], s[j]);
    if i < j - 1 {
      LedgerReads(s, i, j - 1);
    }
  }

  lemma {:induction false} NetConcat(a: seq<Entry>, b: seq<Entry>)
    ensures Net(a + b) == Net(a) + Net(b)
    decreases a
  {
    if a == [] {
      assert a + b == b;
    } else {
      assert (a + b)[1..] == a[1..] + b;
      NetConcat(a[1..], b);
    }
  }

  lemma {:induction false} NetIsDebitsLessCredits(s: seq<Entry>)
    ensures Net(s) == Debits(s) - Credits(s)
    decreases s
  {
    if s != [] {
      NetIsDebitsLessCredits(s[1..]);
    }
  }

  lemma WithoutNet(a: seq<Entry>, e: Entry, b: seq<Entry>)
    ensures Net(a + b) == Net(a + ([e] + b)) - e.debit + e.credit
  {
    NetConcat(a, [e] + b);
    NetConcat(a, b);
    assert ([e] + b)[1..] == b;
  }

  lemma WithoutMultiset<T>(a: seq<T>, e: T, b: seq<T>)
    ensures multiset(a + b) == multiset(a + ([e] + b)) - multiset{e}
  {
    assert multiset([e] + b) == multiset{e} + multiset(b);
    assert multiset(a + ([e] + b)) == multiset(a) + multiset([e] + b);
  }

  lemma Without(s: seq<Entry>, i: nat)
    requires i < |s|
    ensures multiset(s[..i] + s[i + 1..]) == multiset(s) - multiset{s[i]}
    ensures Net(s[..i] + s[i + 1..]) == Net(s) - s[i].debit + s[i].credit
  {
    hide Net;
    var a, e, b := s[..i], s[i], s[i + 1..];
    assert s == a + ([e] + b);
    WithoutNet(a, e, b);
    WithoutMultiset(a, e, b);
  }

  lemma FirstOut(s: seq<Entry>)
    requires s != []
    ensures multiset(s[1..]) == multiset(s) - multiset{s[0]} && Net(s) == s[0].debit - s[0].credit + Net(s[1..])
    ensures s[0] in multiset(s)
  {
    assert s == [s[0]] + s[1..];
  }

  /** The order of the entries does not matter. */
  lemma {:induction false} NetAnyOrder(a: seq<Entry>, b: seq<Entry>)
    requires multiset(a) == multiset(b)
    ensures Net(a) == Net(b)
    decreases a
  {
    hide Net;
    if a == [] {
      assert |b| == |multiset(b)| == |multiset(a)| == 0;
    } else {
      FirstOut(a);
      var i :| 0 <= i < |b| && b[i] == a[0];
      Without(b, i);
      NetAnyOrder(a[1..], b[..i] + b[i + 1..]);
    }
  }

  // ----- the aggregate -----------------------------------------------------------------------

  function Invoiced(c: nat): Invoice -> int {
    (i: Invoice) => if i.customer == c then i.amount else 0
  }

  function Charged(c: nat): Charge -> int {
    (s: Charge) => if s.customer == c then s.amount else 0
  }

  function PaidBy(c: nat): Payment -> int {
    (p: Payment) => if p.form.customer == c then p.form.amount else 0
  }

  function SoldTo(c: nat): Payment -> int {
    (p: Payment) => if p.form.customer == c && CashSale(p.form) then p.form.amount else 0
  }

  /** One row of account_balances. */
  function AccountBalance(m: Money, customer: Customer, c: nat): int {
    customer.installation + Sum(m.invoices, Invoiced(c)) + Sum(m.charges, Charged(c)) - Sum(m.payments, PaidBy(c))
    + Sum(m.payments, SoldTo(c))
  }

  lemma {:induction false} NetOfRows<T>(rows: map<nat, T>, entries: (nat, T) -> seq<Entry>, f: T -> int, n: nat)
    requires forall k :: k in rows ==> Net(entries(k, rows[k])) == f(rows[k])
    ensures Net(EntriesBelow(rows, entries, n)) == SumBelow(rows, f, n)
  {
    if n > 0 {
      NetOfRows(rows, entries, f, n - 1);
      NetConcat(EntriesBelow(rows, entries, n - 1), if n - 1 in rows then entries(n - 1, rows[n - 1]) else []);
    }
  }

  function NetPaid(c: nat): Payment -> int {
    (p: Payment) => if p.form.customer == c && !CashSale(p.form) then 0 - p.form.amount else 0
  }

  lemma FourParts(a: seq<Entry>, b: seq<Entry>, c: seq<Entry>, d: seq<Entry>)
    ensures Net(a + b + c + d) == Net(a) + Net(b) + Net(c) + Net(d)
  {
    NetConcat(a, b);
    NetConcat(a + b, c);
    NetConcat(a + b + c, d);
  }

  lemma EntriesNet(m: Money, customer: Customer, c: nat)
    ensures Net(Entries(m, customer, c)) == AccountBalance(m, customer, c)
  {
    hide EntriesBelow, SumBelow;
    NetOfRows(m.invoices.rows, InvoiceEntry(c), Invoiced(c), m.invoices.next);
    NetOfRows(m.charges.rows, ChargeEntry(c), Charged(c), m.charges.next);
    PaymentNets(m, c);
    FourParts(EntriesBelow(m.invoices.rows, InvoiceEntry(c), m.invoices.next),
              EntriesBelow(m.charges.rows, ChargeEntry(c), m.charges.next),
              InstallationEntry(customer),
              EntriesBelow(m.payments.rows, PaymentEntry(c), m.payments.next));
  }

  /** The ledger closes at the aggregate, in whatever order its entries stand. */
  lemma LedgerIsAggregate(m: Money, customer: Customer, c: nat, listed: seq<Entry>)
    requires multiset(listed) == multiset(Entries(m, customer, c))
    ensures Net(listed) == AccountBalance(m, customer, c) == Debits(listed) - Credits(listed)
  {
    EntriesNet(m, customer, c);
    NetAnyOrder(listed, Entries(m, customer, c));
    NetIsDebitsLessCredits(listed);
  }

  lemma PaymentNet(k: nat, p: Payment, c: nat)
    ensures Net(PaymentEntry(c)(k, p)) == NetPaid(c)(p)
  {
    var credit := Entry(p.form.date, "RCP-" + Decimal(k), 0, p.form.amount);
    var debit := Entry(p.form.date, "OTC-" + Decimal(k), p.form.amount, 0);
    assert Net([credit]) == 0 - p.form.amount && Net([debit]) == p.form.amount;
    NetConcat([debit], [credit]);
    if p.form.customer == c {
      assert PaymentEntry(c)(k, p) == if CashSale(p.form) then [debit] + [credit] else [credit];
      assert NetPaid(c)(p) == if CashSale(p.form) then 0 else 0 - p.form.amount;
    }
  }

  lemma PaymentNets(m: Money, c: nat)
    ensures Net(EntriesBelow(m.payments.rows, PaymentEntry(c), m.payments.next))
         == Sum(m.payments, SoldTo(c)) - Sum(m.payments, PaidBy(c))
  {
    forall k | k in m.payments.rows
      ensures Net(PaymentEntry(c)(k, m.payments.rows[k])) == NetPaid(c)(m.payments.rows[k])
    {
      PaymentNet(k, m.payments.rows[k], c);
    }
    NetOfRows(m.payments.rows, PaymentEntry(c), NetPaid(c), m.payments.next);
    SumBelowSplit(m.payments.rows, SoldTo(c), NetPaid(c), PaidBy(c), m.payments.next);
  }

  /** A cash sale leaves every account where it was. */
  lemma CashSaleNetsToZero(m: Money, customer: Customer, c: nat, p: Payment)
    requires CashSale(p.form)
    ensures AccountBalance(m.(payments := Insert(m.payments, p)), customer, c) == AccountBalance(m, customer, c)
  {
    SumInsert(m.payments, PaidBy(c), p);
    SumInsert(m.payments, SoldTo(c), p);
  }

  // ----- a bill with arrears ----------------------------------------------------------------

  function InMonth(c: nat, month: Month): Charge -> bool {
    (s: Charge) => s.customer == c && s.date.month == month
  }

  function Earlier(c: nat, month: Month): Charge -> bool {
    (s: Charge) => s.customer == c && s.date.month < month
  }

  function AmountIf(which: Charge -> bool): Charge -> int {
    (s: Charge) => if which(s) then s.amount else 0
  }

  /** What was paid on the chosen charges with ids below n. */
  function PaidBelow(charges: Table<Charge>, payments: Table<Payment>, which: Charge -> bool, n: nat): int {
    if n == 0 then 0
    else PaidBelow(charges, payments, which, n - 1)
         + (if n - 1 in charges.rows && which(charges.rows[n - 1]) then PaidOn(payments, n - 1) else 0)
  }

  function PaidOnAll(m: Money, which: Charge -> bool): int {
    PaidBelow(m.charges, m.payments, which, m.charges.next)
  }

  /** What monthly_invoices shows for one invoice. */
  datatype BillRow = BillRow(amount: int, service: int, previous: int, total: int, paid: int, remaining: int)

  function BillOf(m: Money, i: Invoice): BillRow {
    var c, month := i.customer, i.month;
    var service := Sum(m.charges, AmountIf(InMonth(c, month)));
    var previous := PreviousBalance(m, c, month)
                    + Sum(m.charges, AmountIf(Earlier(c, month))) - PaidOnAll(m, Earlier(c, month));
    var total := i.amount + service + previous;
    var paid := Sum(m.payments, MrcIn(c, month)) + PaidOnAll(m, InMonth(c, month));
    BillRow(i.amount, service, previous, total, paid, NonNegative(total - paid))
  }

  /** ORDER BY billing_month DESC, id DESC */
  predicate Newer(invoices: Table<Invoice>, a: nat, b: nat)
    requires a in invoices.rows && b in invoices.rows
  {
    invoices.rows[a].month > invoices.rows[b].month || (invoices.rows[a].month == invoices.rows[b].month && a > b)
  }

  function Placed(invoices: Table<Invoice>, id: nat, ids: seq<nat>): seq<nat>
    requires id in invoices.rows && forall i :: 0 <= i < |ids| ==> ids[i] in invoices.rows
  {
    if ids == [] || Newer(invoices, id, ids[0]) then [id] + ids else [ids[0]] + Placed(invoices, id, ids[1..])
  }

  function NewestBelow(invoices: Table<Invoice>, n: nat): (ids: seq<nat>)
    ensures forall i :: 0 <= i < |ids| ==> ids[i] in invoices.rows
  {
    if n == 0 then []
    else if n - 1 in invoices.rows then
      var ids := NewestBelow(invoices, n - 1);
      PlacedKnown(invoices, n - 1, ids);
      Placed(invoices, n - 1, ids)
    else NewestBelow(invoices, n - 1)
  }

  function NewestFirst(invoices: Table<Invoice>): seq<nat> {
    NewestBelow(invoices, invoices.next)
  }

  lemma {:induction false} PlacedKnown(invoices: Table<Invoice>, id: nat, ids: seq<nat>)
    requires id in invoices.rows && forall i :: 0 <= i < |ids| ==> ids[i] in invoices.rows
    ensures multiset(Placed(invoices, id, ids)) == multiset{id} + multiset(ids)
    ensures forall i :: 0 <= i < |Placed(invoices, id, ids)| ==> Placed(invoices, id, ids)[i] in invoices.rows
    decreases ids
  {
    if ids != [] && !Newer(invoices, id, ids[0]) {
      PlacedKnown(invoices, id, ids[1..]);
      assert ids == [ids[0]] + ids[1..];
    } else {
      assert multiset([id] + ids) == multiset{id} + multiset(ids);
    }
  }

  predicate Descending(invoices: Table<Invoice>, ids: seq<nat>)
    requires forall i :: 0 <= i < |ids| ==> ids[i] in invoices.rows
  {
    forall i :: 0 < i < |ids| ==> Newer(invoices, ids[i - 1], ids[i])
  }

  lemma {:induction false} PlacedDescends(invoices: Table<Invoice>, id: nat, ids: seq<nat>)
    requires id in invoices.rows && forall i :: 0 <= i < |ids| ==> ids[i] in invoices.rows && ids[i] != id
    requires Descending(invoices, ids)
    ensures forall i :: 0 <= i < |Placed(invoices, id, ids)| ==> Placed(invoices, id, ids)[i] in invoices.rows
    ensures Descending(invoices, Placed(invoices, id, ids))
    ensures Placed(invoices, id, ids)[0] == id || (ids != [] && Placed(invoices, id, ids)[0] == ids[0])
    decreases ids
  {
    PlacedKnown(invoices, id, ids);
    if ids != [] && !Newer(invoices, id, ids[0]) {
      PlacedDescends(invoices, id, ids[1..]);
    }
  }

  lemma {:induction false} NewestDescends(invoices: Table<Invoice>, n: nat)
    ensures Descending(invoices, NewestBelow(invoices, n))
    ensures forall k :: k in NewestBelow(invoices, n) <==> k in invoices.rows && k < n
    decreases n
  {
    if n > 0 {
      NewestDescends(invoices, n - 1);
      if n - 1 in invoices.rows {
        var ids := NewestBelow(invoices, n - 1);
        PlacedDescends(invoices, n - 1, ids);
        PlacedKnown(invoices, n - 1, ids);
        forall k ensures k in NewestBelow(invoices, n) <==> k in multiset{n - 1} + multiset(ids) {
          assert k in NewestBelow(invoices, n) <==> k in multiset(NewestBelow(invoices, n));
        }
      }
    }
  }

  /** Every invoice is listed, newest month first, the later id first within a month. */
  lemma NewestFirstOrders(invoices: Table<Invoice>)
    ensures forall i :: 0 <= i < |NewestFirst(invoices)| ==> NewestFirst(invoices)[i] in invoices.rows
    ensures Descending(invoices, NewestFirst(invoices))
    ensures forall k :: k in NewestFirst(invoices) <==> k in invoices.rows
  {
    NewestDescends(invoices, invoices.next);
  }

  // ----- splitting the payments -------------------------------------------------------------------

  function MrcOf(c: nat): Payment -> int {
    (p: Payment) => if p.form.kind.Mrc? && p.form.customer == c then p.form.amount else 0
  }

  function LinkedOf(c: nat): Payment -> int {
    (p: Payment) => if p.form.charge.Some? && p.form.customer == c then p.form.amount else 0
  }

  /** Linked payments are for services or equipment, never for an installation. */
  ghost predicate LinkedKinds(m: Money) {
    forall k :: k in m.charges.rows ==> m.charges.rows[k].kind == Service || m.charges.rows[k].kind == Equipment
  }

  function Joined(f: Payment -> int, g: Payment -> int): Payment -> int {
    (p: Payment) => f(p) + g(p)
  }

  lemma PaymentsByKind(m: Money, customers: Table<Customer>, c: nat)
    requires PaymentsOk(m.payments, m.charges, customers) && LinkedKinds(m)
    ensures Sum(m.payments, PaidBy(c)) - Sum(m.payments, SoldTo(c))
         == Sum(m.payments, MrcOf(c)) + InstallationPaid(m.payments, c) + Sum(m.payments, LinkedOf(c))
  {
    var rows, n := m.payments.rows, m.payments.next;
    SumBelowSplit(rows, PaidBy(c), SoldTo(c), Joined(MrcOf(c), Joined(TowardInstallation(c), LinkedOf(c))), n);
    SumBelowSplit(rows, Joined(MrcOf(c), Joined(TowardInstallation(c), LinkedOf(c))), MrcOf(c),
                  Joined(TowardInstallation(c), LinkedOf(c)), n);
    SumBelowSplit(rows, Joined(TowardInstallation(c), LinkedOf(c)), TowardInstallation(c), LinkedOf(c), n);
  }

  function OfCustomer(c: nat): Charge -> bool {
    (s: Charge) => s.customer == c
  }

  function Nothing(): Payment -> int {
    (p: Payment) => 0
  }

  lemma {:induction false} SumNothing(rows: map<nat, Payment>, n: nat)
    ensures SumBelow(rows, Nothing(), n) == 0
  {
    if n > 0 {
      SumNothing(rows, n - 1);
    }
  }

  /** What one payment settles of the chosen charges with ids below n. */
  function Settling(charges: Table<Charge>, which: Charge -> bool, n: nat): Payment -> int {
    (p: Payment) =>
      if p.form.charge.Some? && p.form.charge.value < n && p.form.charge.value in charges.rows
         && which(charges.rows[p.form.charge.value])
      then p.form.amount else 0
  }

  /** Adding up what was paid charge by charge is adding up the linked payments. */
  lemma {:induction false} PaidBySettling(charges: Table<Charge>, payments: Table<Payment>, which: Charge -> bool,
                                          n: nat)
    ensures PaidBelow(charges, payments, which, n) == Sum(payments, Settling(charges, which, n))
  {
    var rows, next := payments.rows, payments.next;
    if n == 0 {
      SumBelowAgree(rows, Settling(charges, which, 0), rows, Nothing(), next);
      SumNothing(rows, next);
    } else {
      PaidBySettling(charges, payments, which, n - 1);
      if n - 1 in charges.rows && which(charges.rows[n - 1]) {
        SumBelowSplit(rows, Settling(charges, which, n), Settling(charges, which, n - 1), Toward(n - 1), next);
      } else {
        SumBelowAgree(rows, Settling(charges, which, n), rows, Settling(charges, which, n - 1), next);
      }
    }
  }

  /** Charges of a customer for a month, or for the months before it. */
  function ChargedFor(c: nat, month: Month, before: bool): Charge -> int {
    (s: Charge) =>
      if s.customer == c && (if before then s.date.month < month else s.date.month == month) then s.amount else 0
  }

  /** Payments of a customer on charges, booked for a month or for the months before it. */
  function SettledFor(c: nat, month: Month, before: bool): Payment -> int {
    (p: Payment) =>
      if p.form.charge.Some? && p.form.customer == c
         && (if before then p.form.month < month else p.form.month == month)
      then p.form.amount else 0
  }

  /** A bill adds the services of its month and the arrears of subscription and services to its amount, and takes off
      what was paid in the month; nothing remains when that is at least the total. */
  lemma BillReads(m: Money, customers: Table<Customer>, i: Invoice)
    requires PaymentsOk(m.payments, m.charges, customers)
    ensures var b, c, month := BillOf(m, i), i.customer, i.month;
            && b.amount == i.amount
            && b.service == Sum(m.charges, ChargedFor(c, month, false))
            && b.previous == PreviousBalance(m, c, month) + Sum(m.charges, ChargedFor(c, month, true))
                             - Sum(m.payments, SettledFor(c, month, true))
            && b.total == b.amount + b.service + b.previous
            && b.paid == Sum(m.payments, MrcIn(c, month)) + Sum(m.payments, SettledFor(c, month, false))
            && b.remaining == if b.paid < b.total then b.total - b.paid else 0
  {
    hide PreviousBalance;
    var c, month, n := i.customer, i.month, m.charges.next;
    SumBelowAgree(m.charges.rows, AmountIf(InMonth(c, month)), m.charges.rows, ChargedFor(c, month, false), n);
    SumBelowAgree(m.charges.rows, AmountIf(Earlier(c, month)), m.charges.rows, ChargedFor(c, month, true), n);
    PaidBySettling(m.charges, m.payments, InMonth(c, month), n);
    PaidBySettling(m.charges, m.payments, Earlier(c, month), n);
    forall p | p in m.payments.rows ensures LinkOk(m.payments.rows[p].form, m.charges) {}
    SumBelowAgree(m.payments.rows, Settling(m.charges, InMonth(c, month), n), m.payments.rows,
                  SettledFor(c, month, false), m.payments.next);
    SumBelowAgree(m.payments.rows, Settling(m.charges, Earlier(c, month), n), m.payments.rows,
                  SettledFor(c, month, true), m.payments.next);
  }

  /** With no charge after `month`, charges are of that month or earlier. */
  lemma {:induction false} PaidByMonth(charges: Table<Charge>, payments: Table<Payment>, c: nat, month: Month, n: nat)
    requires forall k :: k in charges.rows && charges.rows[k].customer == c ==> charges.rows[k].date.month <= month
    ensures PaidBelow(charges, payments, OfCustomer(c), n)
         == PaidBelow(charges, payments, Earlier(c, month), n) + PaidBelow(charges, payments, InMonth(c, month), n)
  {
    if n > 0 {
      PaidByMonth(charges, payments, c, month, n - 1);
    }
  }

  /** For the last month with a charge: what is still due on all charges is what the bill carries. */
  lemma ChargesByMonth(m: Money, customers: Table<Customer>, c: nat, month: Month)
    requires PaymentsOk(m.payments, m.charges, customers)
    requires forall k :: k in m.charges.rows && m.charges.rows[k].customer == c ==>
               m.charges.rows[k].date.month <= month
    ensures Sum(m.charges, Charged(c))
         == Sum(m.charges, AmountIf(Earlier(c, month))) + Sum(m.charges, AmountIf(InMonth(c, month)))
    ensures Sum(m.payments, LinkedOf(c)) == PaidOnAll(m, Earlier(c, month)) + PaidOnAll(m, InMonth(c, month))
  {
    SumBelowSplit(m.charges.rows, Charged(c), AmountIf(Earlier(c, month)), AmountIf(InMonth(c, month)), m.charges.next);
    PaidByMonth(m.charges, m.payments, c, month, m.charges.next);
    PaidBySettling(m.charges, m.payments, OfCustomer(c), m.charges.next);
    SumBelowAgree(m.payments.rows, LinkedOf(c), m.payments.rows,
                  Settling(m.charges, OfCustomer(c), m.charges.next), m.payments.next);
  }

  // ----- splitting the subscription ------------------------------------------------------------------

  /** MRC receipts the bill of `month` does not see: of later months, or of earlier ones never invoiced. */
  function Stray(invoices: Table<Invoice>, c: nat, month: Month): Payment -> int {
    (p: Payment) =>
      if p.form.kind.Mrc? && p.form.customer == c && p.form.month != month
         && !(p.form.month < month && HasInvoice(invoices, c, p.form.month))
      then p.form.amount else 0
  }

  /** Every MRC receipt of the customer is for an invoiced month. */
  ghost predicate AllMatched(m: Money, c: nat) {
    forall p :: p in m.payments.rows && m.payments.rows[p].form.kind.Mrc? && m.payments.rows[p].form.customer == c ==>
      HasInvoice(m.invoices, c, m.payments.rows[p].form.month)
  }

  lemma MrcByMonth(m: Money, customers: Table<Customer>, c: nat, month: Month)
    requires PaymentsOk(m.payments, m.charges, customers)
    requires HasInvoice(m.invoices, c, month)
    requires forall i :: i in m.invoices.rows && m.invoices.rows[i].customer == c ==> m.invoices.rows[i].month <= month
    ensures Sum(m.payments, MrcOf(c))
         == Sum(m.payments, SettledBefore(m.invoices, c, month)) + Sum(m.payments, MrcIn(c, month))
          + Sum(m.payments, Stray(m.invoices, c, month))
    ensures Sum(m.payments, Stray(m.invoices, c, month)) >= 0
    ensures Sum(m.payments, Stray(m.invoices, c, month)) == 0 <==> AllMatched(m, c)
  {
    var rows, n := m.payments.rows, m.payments.next;
    var stray := Stray(m.invoices, c, month);
    SumBelowSplit(rows, MrcOf(c), SettledBefore(m.invoices, c, month), Joined(MrcIn(c, month), stray), n);
    SumBelowSplit(rows, Joined(MrcIn(c, month), stray), MrcIn(c, month), stray, n);
    SumBelowNonneg(rows, stray, n);
    StrayMeansUnmatched(m, c, month);
    if AllMatched(m, c) {
      SumBelowAgree(rows, stray, rows, Nothing(), n);
      SumNothing(rows, n);
    }
  }

  lemma StrayMeansUnmatched(m: Money, c: nat, month: Month)
    requires HasInvoice(m.invoices, c, month)
    requires forall i :: i in m.invoices.rows && m.invoices.rows[i].customer == c ==> m.invoices.rows[i].month <= month
    ensures forall p :: p in m.payments.rows ==>
              var f := m.payments.rows[p].form;
              (f.kind.Mrc? && f.customer == c && !HasInvoice(m.invoices, c, f.month))
              <==> (f.kind.Mrc? && f.customer == c && f.month != month
                    && !(f.month < month && HasInvoice(m.invoices, c, f.month)))
  {
    forall later | later > month ensures !HasInvoice(m.invoices, c, later) {}
  }

  function InvoicedIn(c: nat, month: Month): Invoice -> int {
    (i: Invoice) => if i.customer == c && i.month == month then i.amount else 0
  }

  lemma {:induction false} OnlyInvoice(invoices: Table<Invoice>, c: nat, month: Month, k: nat, n: nat)
    requires InvoicesUnique(invoices) && k in invoices.rows
    requires invoices.rows[k].customer == c && invoices.rows[k].month == month
    ensures SumBelow(invoices.rows, InvoicedIn(c, month), n) == if k < n then invoices.rows[k].amount else 0
  {
    if n > 0 {
      OnlyInvoice(invoices, c, month, k, n - 1);
    }
  }

  /** The last invoice and those before it are all there is. */
  lemma InvoicesByMonth(m: Money, k: nat)
    requires InvoicesUnique(m.invoices) && k in m.invoices.rows
    requires var i := m.invoices.rows[k];
             forall j :: j in m.invoices.rows && m.invoices.rows[j].customer == i.customer ==>
                      m.invoices.rows[j].month <= i.month
    ensures var i := m.invoices.rows[k];
            Sum(m.invoices, Invoiced(i.customer)) == Sum(m.invoices, InvoicedBefore(i.customer, i.month)) + i.amount
  {
    var c, month := m.invoices.rows[k].customer, m.invoices.rows[k].month;
    OnlyInvoice(m.invoices, c, month, k, m.invoices.next);
    SumBelowSplit(m.invoices.rows, Invoiced(c), InvoicedBefore(c, month), InvoicedIn(c, month), m.invoices.next);
  }

  // ----- the bill and the ledger agree ------------------------------------------------------------------

  /** The bill of the last billed month never shows less than the ledger, the installation apart; the two are equal
      if and only if every MRC receipt is for an invoiced month and the months before were not overpaid. */
  lemma BillReconciles(m: Money, customers: Table<Customer>, k: nat)
    requires MoneyOk(m, customers) && LinkedKinds(m)
    requires k in m.invoices.rows
    requires var i := m.invoices.rows[k];
             && (forall j :: j in m.invoices.rows && m.invoices.rows[j].customer == i.customer ==>
                   m.invoices.rows[j].month <= i.month)
             && (forall s :: s in m.charges.rows && m.charges.rows[s].customer == i.customer ==>
                   m.charges.rows[s].date.month <= i.month)
    ensures var i := m.invoices.rows[k];
            var customer := customers.rows[i.customer];
            var bill := BillOf(m, i);
            var ledger := AccountBalance(m, customer, i.customer);
            var shown := customer.installation - InstallationPaid(m.payments, i.customer) + bill.total - bill.paid;
            ledger <= shown && (ledger == shown <==> AllMatched(m, i.customer) && Arrears(m, i.customer, i.month) >= 0)
  {
    var c, month := m.invoices.rows[k].customer, m.invoices.rows[k].month;
    assert HasInvoice(m.invoices, c, month) by {
      assert InvoiceFor(c, month)(m.invoices.rows[k]);
    }
    PaymentsByKind(m, customers, c);
    ChargesByMonth(m, customers, c, month);
    MrcByMonth(m, customers, c, month);
    InvoicesByMonth(m, k);
  }

  /** From one invoiced month to the next: what is carried forward never exceeds what was carried before plus the
      month's bill less its receipts; it is exactly that unless the months before were overpaid and the month
      was not. */
  lemma ArrearsCarryForward(m: Money, c: nat, k: nat, month: Month)
    requires InvoicesUnique(m.invoices)
    requires k in m.invoices.rows && m.invoices.rows[k].customer == c && m.invoices.rows[k].month < month
    requires forall j :: j in m.invoices.rows && m.invoices.rows[j].customer == c ==>
               m.invoices.rows[j].month <= m.invoices.rows[k].month || m.invoices.rows[j].month >= month
    ensures var i := m.invoices.rows[k];
            var paid := Sum(m.payments, MrcIn(c, i.month));
            var rolled := NonNegative(PreviousBalance(m, c, i.month) + i.amount - paid);
            && PreviousBalance(m, c, month) <= rolled
            && (PreviousBalance(m, c, month) == rolled <==> Arrears(m, c, i.month) >= 0 || i.amount <= paid)
  {
    var i := m.invoices.rows[k];
    OnlyInvoice(m.invoices, c, i.month, k, m.invoices.next);
    SumBelowSplit(m.invoices.rows, InvoicedBefore(c, month), InvoicedBefore(c, i.month), InvoicedIn(c, i.month),
                  m.invoices.next);
    assert HasInvoice(m.invoices, c, i.month) by {
      assert InvoiceFor(c, i.month)(i);
    }
    forall n | i.month < n < month ensures !HasInvoice(m.invoices, c, n) {}
    SumBelowSplit(m.payments.rows, SettledBefore(m.invoices, c, month), SettledBefore(m.invoices, c, i.month),
                  MrcIn(c, i.month), m.payments.next);
  }
}
