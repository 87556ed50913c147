/** Charges entering and leaving the accounts, by hand or with a stock issue. */
module AccountRules {
  import opened Tables
  import opened CrmData
  import opened ChargeRules
  import opened BillingRules
  import opened PaymentRules

  /** One billion rupees, in paisa. */
  const MAX_CHARGE: nat := 100_000_000_000

  datatype ChargeRequest = ChargeRequest(customer: nat, text: string, date: Date, amount: nat, key: Key)

  function ChargeKey(key: Key): Charge -> bool {
    (c: Charge) => c.key == Some(key)
  }

  /** add_charge */
  function AddCharge(db: Db, q: ChargeRequest): Outcome {
    if q.text == "" then Refused(BadForm)
    else if !(0 < q.amount <= MAX_CHARGE) then Refused(BadAmount)
    else if q.customer !in db.people.customers.rows then Refused(NoSuchCustomer)
    else
      var prior := First(db.money.charges, ChargeKey(q.key));
      var charge := Charge(q.customer, q.date, q.amount, Service, None, Some(q.key), q.text);
      if prior.Some? then
        var c := db.money.charges.rows[prior.value];
        if c.customer == q.customer && c.text == q.text && c.amount == q.amount && c.date == q.date
        then Done(db, prior.value) else Refused(KeyReused)
      else
        Done(db.(money := db.money.(charges := Insert(db.money.charges, charge))), db.money.charges.next)
  }

  /** bill_stock_issue: the charge of an issue just written, and the invoice of its month. */
  function BillIssue(m: Money, customers: Table<Customer>, id: nat, i: Issue, today: Date): Money {
    if !Billable(i) || i.form.to.customer !in customers.rows then m
    else
      var charged := m.(charges := Bill(m.charges, id, i));
      var r := EnsureInvoice(charged, customers.rows[i.form.to.customer], i.form.to.customer, i.form.date.month, today);
      if r.Some? then r.value else charged
  }

  // ----- what a new charge keeps --------------------------------------------------------

  lemma {:induction false} NothingToward(payments: Table<Payment>, k: nat, n: nat)
    requires forall p :: p in payments.rows ==> payments.rows[p].form.charge != Some(k)
    ensures SumBelow(payments.rows, Toward(k), n) == 0
  {
    if n > 0 {
      NothingToward(payments, k, n - 1);
    }
  }

  lemma FreshUnpaid(m: Money, customers: Table<Customer>)
    requires PaymentsOk(m.payments, m.charges, customers)
    ensures PaidOn(m.payments, m.charges.next) == 0
  {
    forall p | p in m.payments.rows ensures m.payments.rows[p].form.charge != Some(m.charges.next) {
      assert LinkOk(m.payments.rows[p].form, m.charges);
    }
    NothingToward(m.payments, m.charges.next, m.payments.next);
  }

  lemma ChargedLimits(m: Money, customers: Table<Customer>, c: Charge)
    requires NotOver(m.payments, m.charges, customers) && PaymentsOk(m.payments, m.charges, customers)
    ensures NotOver(m.payments, Insert(m.charges, c), customers)
            && PaymentsOk(m.payments, Insert(m.charges, c), customers)
  {
    FreshUnpaid(m, customers);
    hide InstallationPaid, PaidOn;
  }

  lemma ChargedKeys(m: Money, customers: Table<Customer>, c: Charge)
    requires KeysUnique(m.payments, m.charges) && Billing(m.invoices, m.charges, customers)
    requires c.customer in customers.rows
    requires c.key.Some? ==> First(m.charges, ChargeKey(c.key.value)).None?
    ensures KeysUnique(m.payments, Insert(m.charges, c)) && Billing(m.invoices, Insert(m.charges, c), customers)
  {
    if c.key.Some? {
      forall k | k in m.charges.rows ensures m.charges.rows[k].key != c.key {
        assert !ChargeKey(c.key.value)(m.charges.rows[k]);
      }
    }
  }

  /** A charge under a new key, or none, for a known customer: nothing is paid on it yet. */
  lemma ChargingKeepsMoney(m: Money, customers: Table<Customer>, c: Charge)
    requires MoneyOk(m, customers) && c.customer in customers.rows
    requires c.key.Some? ==> First(m.charges, ChargeKey(c.key.value)).None?
    ensures MoneyOk(m.(charges := Insert(m.charges, c)), customers)
  {
    hide RechargesOk, ReceiptsOk, PaymentsOk, NotOver, KeysUnique, Billing;
    ChargedLimits(m, customers, c);
    ChargedKeys(m, customers, c);
  }

  lemma AddChargeKeeps(db: Db, q: ChargeRequest)
    requires MoneyOk(db.money, db.people.customers) && ChargesOk(db.money.charges, db.stock.issues)
    ensures var o := AddCharge(db, q);
            o.Done? ==>
              MoneyOk(o.db.money, db.people.customers) && ChargesOk(o.db.money.charges, db.stock.issues)
              && o.db == db.(money := o.db.money)
  {
    hide MoneyOk;
    var o := AddCharge(db, q);
    if o.Done? && o.db != db {
      var c := o.db.money.charges.rows[db.money.charges.next];
      ChargingKeepsMoney(db.money, db.people.customers, c);
      ServiceKeepsCharges(db.money.charges, db.stock.issues, c);
    }
  }

  lemma ServiceKeepsCharges(charges: Table<Charge>, issues: Table<Issue>, c: Charge)
    requires ChargesOk(charges, issues)
    requires c.issue.None? && c.kind == Service && c.key.Some? && c.amount > 0
    ensures ChargesOk(Insert(charges, c), issues)
  {
    var after := Insert(charges, c);
    forall id | id in issues.rows && Billable(issues.rows[id]) ensures ChargeOf(after, id).Some? {
      var k := ChargeOf(charges, id).value;
      assert after.rows[k] == charges.rows[k] && ForIssue(id)(after.rows[k]);
    }
  }

  /** An issue billed to a known customer. */
  lemma BillingKeepsMoney(m: Money, customers: Table<Customer>, id: nat, i: Issue, today: Date)
    requires MoneyOk(m, customers)
    ensures MoneyOk(BillIssue(m, customers, id, i, today), customers)
  {
    if Billable(i) && i.form.to.customer in customers.rows {
      var charged := m.(charges := Bill(m.charges, id, i));
      hide MoneyOk;
      if charged != m {
        ChargingKeepsMoney(m, customers, charged.charges.rows[m.charges.next]);
      }
      InvoiceKeepsMoney(charged, customers, i.form.to.customer, i.form.date.month, today);
    }
  }

  lemma InvoiceKeepsMoney(m: Money, customers: Table<Customer>, c: nat, month: Month, today: Date)
    requires MoneyOk(m, customers) && c in customers.rows
    ensures var r := EnsureInvoice(m, customers.rows[c], c, month, today);
            r.Some? ==> MoneyOk(r.value, customers) && r.value == m.(invoices := r.value.invoices)
  {
    hide EnsureInvoice, RechargesOk, Billing, PaymentsOk, ReceiptsOk, NotOver, KeysUnique;
    InvoicingKeepsMoney(m, customers, c, month, today);
  }

  lemma BillIssueCharges(m: Money, customers: Table<Customer>, id: nat, i: Issue, today: Date)
    requires i.form.to.ToCustomer? ==> i.form.to.customer in customers.rows
    ensures BillIssue(m, customers, id, i, today).charges == Bill(m.charges, id, i)
  {}

  // ----- what an unpaid charge may leave --------------------------------------------------

  predicate PaidFor(payments: Table<Payment>, k: nat) {
    exists p :: p in payments.rows && payments.rows[p].form.charge == Some(k)
  }

  lemma UnchargedLinks(payments: Table<Payment>, charges: Table<Charge>, customers: Table<Customer>, k: nat)
    requires PaymentsOk(payments, charges, customers) && !PaidFor(payments, k)
    ensures PaymentsOk(payments, Drop(charges, k), customers)
  {
    forall p | p in payments.rows ensures LinkOk(payments.rows[p].form, Drop(charges, k)) {
      assert LinkOk(payments.rows[p].form, charges);
    }
  }

  lemma UnchargedLimits(m: Money, customers: Table<Customer>, k: nat)
    requires NotOver(m.payments, m.charges, customers) && KeysUnique(m.payments, m.charges)
    requires Billing(m.invoices, m.charges, customers)
    ensures NotOver(m.payments, Drop(m.charges, k), customers) && KeysUnique(m.payments, Drop(m.charges, k))
    ensures Billing(m.invoices, Drop(m.charges, k), customers)
  {
    hide PaidOn, InstallationPaid;
  }

  /** Dropping a charge nobody paid on. */
  lemma UnchargingKeepsMoney(m: Money, customers: Table<Customer>, k: nat)
    requires MoneyOk(m, customers) && !PaidFor(m.payments, k)
    ensures MoneyOk(m.(charges := Drop(m.charges, k)), customers)
  {
    hide RechargesOk, ReceiptsOk, PaymentsOk, NotOver, KeysUnique, Billing, PaidFor;
    UnchargedLinks(m.payments, m.charges, customers, k);
    UnchargedLimits(m, customers, k);
  }
}
