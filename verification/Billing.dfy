/** Monthly invoices and the arrears they carry forward. */
module BillingRules {
  import opened Tables
  import opened CrmData

  function NonNegative(n: int): nat {
    if n > 0 then n else 0
  }

  function InvoiceFor(c: nat, m: Month): Invoice -> bool {
    (i: Invoice) => i.customer == c && i.month == m
  }

  function InvoiceOf(invoices: Table<Invoice>, c: nat, m: Month): Option<nat> {
    First(invoices, InvoiceFor(c, m))
  }

  predicate HasInvoice(invoices: Table<Invoice>, c: nat, m: Month) {
    InvoiceOf(invoices, c, m).Some?
  }

  /** UNIQUE(customer_id, billing_month) */
  ghost predicate InvoicesUnique(invoices: Table<Invoice>) {
    forall i, j :: (i in invoices.rows && j in invoices.rows && invoices.rows[i].customer == invoices.rows[j].customer
                    && invoices.rows[i].month == invoices.rows[j].month) ==> i == j
  }

  function InvoicedBefore(c: nat, m: Month): Invoice -> int {
    (i: Invoice) => if i.customer == c && i.month < m then i.amount else 0
  }

  /** MRC receipts of earlier months that match an invoice. */
  function SettledBefore(invoices: Table<Invoice>, c: nat, m: Month): Payment -> int {
    (p: Payment) =>
      if p.form.kind.Mrc? && p.form.customer == c && p.form.month < m && HasInvoice(invoices, c, p.form.month)
      then p.form.amount else 0
  }

  /** What earlier invoices come to less what was paid on them; negative when they were overpaid. */
  function Arrears(m: Money, c: nat, month: Month): int {
    Sum(m.invoices, InvoicedBefore(c, month)) - Sum(m.payments, SettledBefore(m.invoices, c, month))
  }

  /** previous_balance */
  function PreviousBalance(m: Money, c: nat, month: Month): nat {
    NonNegative(Arrears(m, c, month))
  }

  function MrcIn(c: nat, month: Month): Payment -> int {
    (p: Payment) => if p.form.kind.Mrc? && p.form.customer == c && p.form.month == month then p.form.amount else 0
  }

  /** ensure_invoice: the invoice of the month, raised from the current subscription if there is none; None where it
      refuses a terminated account. */
  function EnsureInvoice(m: Money, customer: Customer, c: nat, month: Month, today: Date): (r: Option<Money>)
    ensures r.Some? ==> HasInvoice(r.value.invoices, c, month)
  {
    if HasInvoice(m.invoices, c, month) then Some(m)
    else if customer.status == Terminated then None
    else
      var i := Invoice(c, month, customer.fee, today, PreviousBalance(m, c, month));
      InvoiceInserted(m.invoices, i, c, month);
      Some(m.(invoices := Insert(m.invoices, i)))
  }

  lemma InvoiceInserted(invoices: Table<Invoice>, i: Invoice, c: nat, m: Month)
    ensures HasInvoice(Insert(invoices, i), c, m) <==> HasInvoice(invoices, c, m) || (i.customer == c && i.month == m)
  {
    var after := Insert(invoices, i);
    assert after.rows[invoices.next] == i;
    assert InvoiceFor(c, m)(i) == (i.customer == c && i.month == m);
    forall k | k in invoices.rows ensures after.rows[k] == invoices.rows[k] {}
  }

  /** The month has exactly one invoice afterwards; every invoice there was keeps its snapshot. */
  lemma EnsureInvoiceRaisesOne(m: Money, customer: Customer, c: nat, month: Month, today: Date)
    requires InvoicesUnique(m.invoices)
    ensures var r := EnsureInvoice(m, customer, c, month, today);
            && (r.None? <==> customer.status == Terminated && !HasInvoice(m.invoices, c, month))
            && (r.Some? ==>
                  && HasInvoice(r.value.invoices, c, month) && InvoicesUnique(r.value.invoices)
                  && (forall k :: k in m.invoices.rows ==>
                        k in r.value.invoices.rows && r.value.invoices.rows[k] == m.invoices.rows[k])
                  && (!HasInvoice(m.invoices, c, month) ==>
                        r.value.invoices.rows[InvoiceOf(r.value.invoices, c, month).value].amount == customer.fee))
  {
    var r := EnsureInvoice(m, customer, c, month, today);
    if !HasInvoice(m.invoices, c, month) {
      forall k | k in m.invoices.rows ensures !InvoiceFor(c, month)(m.invoices.rows[k]) {}
      if r.Some? {
        var i := r.value.invoices.rows[m.invoices.next];
        InvoiceInserted(m.invoices, i, c, month);
      }
    }
  }

  /** An invoice of a month changes no arrears of that month or an earlier one, of no customer. */
  lemma InvoiceKeepsArrears(m: Money, i: Invoice, c: nat, month: Month)
    requires month <= i.month
    ensures PreviousBalance(m.(invoices := Insert(m.invoices, i)), c, month) == PreviousBalance(m, c, month)
  {
    var after := Insert(m.invoices, i);
    SumInsert(m.invoices, InvoicedBefore(c, month), i);
    forall d: nat, n | n < month ensures HasInvoice(after, d, n) <==> HasInvoice(m.invoices, d, n) {
      InvoiceInserted(m.invoices, i, d, n);
    }
    SumBelowAgree(m.payments.rows, SettledBefore(m.invoices, c, month), m.payments.rows,
                  SettledBefore(after, c, month), m.payments.next);
  }

  // ----- the monthly run -----------------------------------------------------------

  predicate Billed(customer: Customer, today: Date) {
    customer.status == Active && customer.joined.day <= today.day
  }

  /** generate_monthly_invoices, for the customers with ids below n. */
  function GenerateBelow(m: Money, customers: Table<Customer>, today: Date, n: nat): Money {
    if n == 0 then m
    else
      var before := GenerateBelow(m, customers, today, n - 1);
      if n - 1 in customers.rows && Billed(customers.rows[n - 1], today)
         && !HasInvoice(before.invoices, n - 1, today.month)
      then EnsureInvoice(before, customers.rows[n - 1], n - 1, today.month, today).value
      else before
  }

  function Generate(m: Money, customers: Table<Customer>, today: Date): Money {
    GenerateBelow(m, customers, today, customers.next)
  }

  /** Only invoices change, old ones stay as they are. */
  ghost predicate OnlyInvoicesAdded(m: Money, after: Money) {
    && after == m.(invoices := after.invoices)
    && m.invoices.next <= after.invoices.next
    && (forall k :: k in m.invoices.rows ==> k in after.invoices.rows && after.invoices.rows[k] == m.invoices.rows[k])
  }

  /** Every new invoice is for today's month, at the fee of its customer. */
  ghost predicate NewAtFee(m: Money, after: Money, customers: Table<Customer>, today: Date) {
    forall k :: k in after.invoices.rows && k !in m.invoices.rows ==>
      var i := after.invoices.rows[k];
      i.customer in customers.rows && i.amount == customers.rows[i.customer].fee
      && i.month == today.month && i.issued == today
  }

  /** Exactly the due customers with ids below n have been added. */
  ghost predicate BilledBelow(m: Money, after: Money, customers: Table<Customer>, today: Date, n: nat) {
    forall c: nat, month :: HasInvoice(after.invoices, c, month) <==>
      HasInvoice(m.invoices, c, month)
      || (month == today.month && c < n && c in customers.rows && customers.rows[c].status == Active
          && customers.rows[c].joined.day <= today.day)
  }

  lemma {:induction false} GenerateBillsEachOnce(m: Money, customers: Table<Customer>, today: Date, n: nat)
    requires InvoicesUnique(m.invoices)
    ensures var after := GenerateBelow(m, customers, today, n);
            && OnlyInvoicesAdded(m, after) && InvoicesUnique(after.invoices)
            && BilledBelow(m, after, customers, today, n) && NewAtFee(m, after, customers, today)
  {
    if n > 0 {
      GenerateBillsEachOnce(m, customers, today, n - 1);
      var before := GenerateBelow(m, customers, today, n - 1);
      if n - 1 in customers.rows && Billed(customers.rows[n - 1], today)
         && !HasInvoice(before.invoices, n - 1, today.month) {
        var i := Invoice(n - 1, today.month, customers.rows[n - 1].fee, today,
                         PreviousBalance(before, n - 1, today.month));
        GenerateOne(m, before, customers, today, n, i);
      } else {
        assert BilledBelow(m, before, customers, today, n);
      }
    }
  }

  /** Whoever else is billed in the same run, an invoice carries the arrears its customer had before the run. */
  lemma {:induction false} GenerateCarriesArrears(m: Money, customers: Table<Customer>, today: Date, n: nat)
    ensures var after := GenerateBelow(m, customers, today, n);
            && (forall c: nat :: PreviousBalance(after, c, today.month) == PreviousBalance(m, c, today.month))
            && (forall k :: k in after.invoices.rows && k !in m.invoices.rows ==>
                  var c := after.invoices.rows[k].customer;
                  c in customers.rows
                  && after.invoices.rows[k] == Invoice(c, today.month, customers.rows[c].fee, today,
                                                       PreviousBalance(m, c, today.month)))
  {
    hide PreviousBalance, HasInvoice;
    if n > 0 {
      GenerateCarriesArrears(m, customers, today, n - 1);
      var before := GenerateBelow(m, customers, today, n - 1);
      if GenerateBelow(m, customers, today, n) != before {
        var i := Invoice(n - 1, today.month, customers.rows[n - 1].fee, today,
                         PreviousBalance(before, n - 1, today.month));
        forall c: nat {
          InvoiceKeepsArrears(before, i, c, today.month);
        }
      }
    }
  }

  lemma GenerateOne(m: Money, before: Money, customers: Table<Customer>, today: Date, n: nat, i: Invoice)
    requires n > 0 && n - 1 in customers.rows && Billed(customers.rows[n - 1], today)
    requires OnlyInvoicesAdded(m, before) && InvoicesUnique(before.invoices)
    requires BilledBelow(m, before, customers, today, n - 1) && NewAtFee(m, before, customers, today)
    requires i.customer == n - 1 && i.month == today.month && i.issued == today && i.amount == customers.rows[n - 1].fee
    requires !HasInvoice(before.invoices, n - 1, today.month)
    ensures var after := before.(invoices := Insert(before.invoices, i));
            && OnlyInvoicesAdded(m, after) && InvoicesUnique(after.invoices)
            && BilledBelow(m, after, customers, today, n) && NewAtFee(m, after, customers, today)
  {
    forall k | k in before.invoices.rows ensures !InvoiceFor(n - 1, today.month)(before.invoices.rows[k]) {}
    forall c: nat, month {
      InvoiceInserted(before.invoices, i, c, month);
    }
  }

  /** Running the job again the same month bills nobody twice. */
  lemma GenerateTwice(m: Money, customers: Table<Customer>, today: Date)
    requires InvoicesUnique(m.invoices)
    ensures Generate(Generate(m, customers, today), customers, today) == Generate(m, customers, today)
  {
    GenerateBillsEachOnce(m, customers, today, customers.next);
    AlreadyBilled(Generate(m, customers, today), customers, today, customers.next);
  }

  lemma {:induction false} AlreadyBilled(m: Money, customers: Table<Customer>, today: Date, n: nat)
    requires forall c: nat :: c < n && c in customers.rows && Billed(customers.rows[c], today) ==>
               HasInvoice(m.invoices, c, today.month)
    ensures GenerateBelow(m, customers, today, n) == m
  {
    if n > 0 {
      AlreadyBilled(m, customers, today, n - 1);
    }
  }
}
