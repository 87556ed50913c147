/** Payments, the receipts they leave and the renewals they trigger. */
module PaymentRules {
  import opened Tables
  import opened CrmData
  import opened BillingRules

  // ----- sums over payments ----------------------------------------------------------

  function Toward(charge: nat): Payment -> int {
    (p: Payment) => if p.form.charge == Some(charge) then p.form.amount else 0
  }

  /** What has been paid on a charge. */
  function PaidOn(payments: Table<Payment>, charge: nat): int {
    Sum(payments, Toward(charge))
  }

  function TowardInstallation(c: nat): Payment -> int {
    (p: Payment) => if p.form.customer == c && p.form.kind == Otc(Installation) then p.form.amount else 0
  }

  function InstallationPaid(payments: Table<Payment>, c: nat): int {
    Sum(payments, TowardInstallation(c))
  }

  // ----- the invariant -----------------------------------------------------------------

  /** A payment on a charge shares its customer, its month and its kind. */
  predicate LinkOk(f: PaymentForm, charges: Table<Charge>) {
    f.charge.None? ||
    (f.charge.value in charges.rows
     && var c := charges.rows[f.charge.value];
        c.customer == f.customer && f.kind == Otc(c.kind) && f.month == c.date.month)
  }

  ghost predicate PaymentsOk(payments: Table<Payment>, charges: Table<Charge>, customers: Table<Customer>) {
    forall p :: p in payments.rows ==>
      var f := payments.rows[p].form;
      f.amount > 0 && f.customer in customers.rows && LinkOk(f, charges)
  }

  predicate ReceiptFor(r: Receipt, f: PaymentForm) {
    r.customer == f.customer && r.amount == f.amount && r.month == f.month
  }

  /** Every payment has exactly one receipt, and every receipt its payment. */
  ghost predicate ReceiptsOk(receipts: map<nat, Receipt>, payments: Table<Payment>) {
    && receipts.Keys == payments.rows.Keys
    && (forall p :: p in payments.rows ==> ReceiptFor(receipts[p], payments.rows[p].form))
  }

  /** Nothing is collected beyond what was charged. */
  ghost predicate NotOver(payments: Table<Payment>, charges: Table<Charge>, customers: Table<Customer>) {
    && (forall k :: k in charges.rows ==> PaidOn(payments, k) <= charges.rows[k].amount)
    && (forall c :: c in customers.rows ==> InstallationPaid(payments, c) <= customers.rows[c].installation)
  }

  ghost predicate KeysUnique(payments: Table<Payment>, charges: Table<Charge>) {
    && (forall p, q :: (p in payments.rows && q in payments.rows && payments.rows[p].key.Some?
                        && payments.rows[p].key == payments.rows[q].key) ==> p == q)
    && (forall k, l :: (k in charges.rows && l in charges.rows && charges.rows[k].key.Some?
                        && charges.rows[k].key == charges.rows[l].key) ==> k == l)
  }

  /** A renewal belongs to an MRC payment of its customer and month; there is one per customer and month. */
  ghost predicate RechargesOk(recharges: Table<Recharge>, payments: Table<Payment>) {
    && (forall r :: r in recharges.rows ==>
          var rc := recharges.rows[r];
          rc.payment in payments.rows
          && var f := payments.rows[rc.payment].form;
             f.kind == Mrc && f.customer == rc.customer && f.month == rc.month)
    && (forall r, q :: (r in recharges.rows && q in recharges.rows
                        && recharges.rows[r].customer == recharges.rows[q].customer
                        && recharges.rows[r].month == recharges.rows[q].month) ==> r == q)
  }

  ghost predicate Billing(invoices: Table<Invoice>, charges: Table<Charge>, customers: Table<Customer>) {
    && (forall i :: i in invoices.rows ==> invoices.rows[i].customer in customers.rows)
    && (forall k :: k in charges.rows ==> charges.rows[k].customer in customers.rows)
    && InvoicesUnique(invoices)
  }

  ghost predicate MoneyOk(m: Money, customers: Table<Customer>) {
    && PaymentsOk(m.payments, m.charges, customers)
    && ReceiptsOk(m.receipts, m.payments)
    && NotOver(m.payments, m.charges, customers)
    && KeysUnique(m.payments, m.charges)
    && RechargesOk(m.recharges, m.payments)
    && Billing(m.invoices, m.charges, customers)
  }

  // ----- renewal ---------------------------------------------------------------------------

  function RechargeFor(c: nat, month: Month): Recharge -> bool {
    (r: Recharge) => r.customer == c && r.month == month
  }

  predicate HasRecharge(m: Money, c: nat, month: Month) {
    First(m.recharges, RechargeFor(c, month)).Some?
  }

  function Later(a: int, b: int): int {
    if a >= b then a else b
  }

  datatype Renewal = Renewal(money: Money, customer: Customer, activated: bool, outstanding: nat)

  /** What is still missing for the month, once its invoice is there. */
  function Missing(m: Money, c: nat, month: Month): nat
    requires HasInvoice(m.invoices, c, month)
  {
    NonNegative(m.invoices.rows[InvoiceOf(m.invoices, c, month).value].amount + PreviousBalance(m, c, month)
                - Sum(m.payments, MrcIn(c, month)))
  }

  /** apply_recharge */
  function ApplyRecharge(m: Money, customer: Customer, c: nat, month: Month, payment: nat, partial: bool,
                         today: Date): Renewal
  {
    if customer.status == Terminated || month != today.month || HasRecharge(m, c, month) then
      Renewal(m, customer, false, 0)
    else
      InvoiceThenRenew(EnsureInvoice(m, customer, c, month, today).value, customer, c, month, payment, partial, today)
  }

  function InvoiceThenRenew(m: Money, customer: Customer, c: nat, month: Month, payment: nat, partial: bool,
                            today: Date): Renewal
    requires HasInvoice(m.invoices, c, month)
  {
    var fee := m.invoices.rows[InvoiceOf(m.invoices, c, month).value].amount;
    var missing := Missing(m, c, month);
    if fee == 0 || (missing > 0 && !partial) then Renewal(m, customer, false, 0)
    else
      var expiry := Later(today.day, customer.expiry) + 30;
      var received := NonNegative(Sum(m.payments, MrcIn(c, month)));
      Renewal(m.(recharges := Insert(m.recharges, Recharge(c, month, fee, received, customer.expiry, expiry,
                                                           payment, missing > 0, missing))),
              customer.(status := Active, expiry := expiry), true, missing)
  }

  // ----- saving a payment --------------------------------------------------------------------

  /** A request to save, edit (`rid`) or delete a payment. `finance` is the right to approve partial activation,
      `trusted` marks a verified provider bridge. */
  datatype PaymentRequest = PaymentRequest(rid: Option<nat>, deleting: bool, form: PaymentForm, key: Option<Key>,
                                           partial: bool, finance: bool, trusted: bool)

  datatype PayOutcome =
    | Saved(money: Money, people: People, id: nat, activated: bool)
    | Rejected(error: Error)

  function KeyIs(key: Key): Payment -> bool {
    (p: Payment) => p.key == Some(key)
  }

  predicate ChargeDue(m: Money, c: nat) {
    exists k :: k in m.charges.rows && m.charges.rows[k].customer == c
                && m.charges.rows[k].amount > PaidOn(m.payments, k)
  }

  /** What the subscription of the month still costs, with arrears. */
  function MrcDue(m: Money, customer: Customer, c: nat, month: Month): nat {
    var i := InvoiceOf(m.invoices, c, month);
    var monthly := if i.Some? then m.invoices.rows[i.value].amount else customer.fee;
    NonNegative(monthly + PreviousBalance(m, c, month) - Sum(m.payments, MrcIn(c, month)))
  }

  /** The checks of a new payment against what is owed, in the order the program makes them. */
  function Objection(m: Money, customers: Table<Customer>, f: PaymentForm): Option<Error>
    requires f.customer in customers.rows
  {
    var customer := customers.rows[f.customer];
    if f.kind == Mrc && ChargeDue(m, f.customer) && f.amount > MrcDue(m, customer, f.customer, f.month) then
      Some(ChargesDue)
    else if !LinkOk(f, m.charges) then Some(ChargeMismatch)
    else if f.charge.Some? && f.amount > m.charges.rows[f.charge.value].amount - PaidOn(m.payments, f.charge.value) then
      Some(OverCharge)
    else if f.kind == Otc(Installation)
            && f.amount > customer.installation - InstallationPaid(m.payments, f.customer) then
      Some(OverInstallation)
    else None
  }

  /** Row and receipt written, subscription renewed if it qualifies. */
  function Book(m: Money, p: People, id: nat, payments: Table<Payment>, f: PaymentForm, partial: bool, today: Date)
    : PayOutcome
    requires f.customer in p.customers.rows
  {
    var customer := p.customers.rows[f.customer];
    var booked := m.(payments := payments);
    if f.kind.Otc? && partial then Rejected(OtcActivates)
    else
      var r := if f.kind.Mrc? then ApplyRecharge(booked, customer, f.customer, f.month, id, partial, today)
               else Renewal(booked, customer, false, 0);
      var receipt := Receipt(f.customer, f.amount, f.month, r.customer.status, r.customer.expiry, r.activated,
                             r.outstanding, r.outstanding > 0);
      Saved(r.money.(receipts := if id in r.money.receipts then r.money.receipts else r.money.receipts[id := receipt]),
            p.(customers := Put(p.customers, f.customer, r.customer)), id, r.activated)
  }

  function NewPayment(m: Money, p: People, q: PaymentRequest, today: Date): PayOutcome
    requires q.form.customer in p.customers.rows
  {
    var prior := if q.key.Some? then First(m.payments, KeyIs(q.key.value)) else None;
    if prior.Some? then
      if m.payments.rows[prior.value].form != q.form then Rejected(KeyReused)
      else Saved(m, p, prior.value, false)
    else
      match Objection(m, p.customers, q.form)
      case Some(e) => Rejected(e)
      case None => Book(m, p, m.payments.next, Insert(m.payments, Payment(q.form, q.key)), q.form, q.partial, today)
  }

  /** An edit or deletion; it gets past the receipt check only for a payment that has none. */
  function ChangePayment(m: Money, p: People, q: PaymentRequest, id: nat, today: Date): PayOutcome
    requires id in m.payments.rows
  {
    var prev := m.payments.rows[id];
    var f := if q.form.charge.None? then q.form.(charge := prev.form.charge) else q.form;
    if q.form.customer !in p.customers.rows && !q.deleting then Rejected(NoSuchCustomer)
    else if id in m.receipts || HasRecharge(m, prev.form.customer, prev.form.month) then Rejected(ReceiptSaved)
    else if q.deleting then Saved(m.(payments := Drop(m.payments, id)), p, id, false)
    else
      match Objection(m, p.customers, q.form)
      case Some(e) => Rejected(e)
      case None => Book(m, p, id, Put(m.payments, id, Payment(f, prev.key)), f, q.partial, today)
  }

  /** save_payment */
  function SavePayment(m: Money, p: People, q: PaymentRequest, today: Date): PayOutcome {
    if q.partial && (q.trusted || !q.finance) then Rejected(NotAllowed)
    else if q.rid.Some? && q.rid.value !in m.payments.rows then Rejected(NoSuchPayment)
    else if q.rid.Some? && m.payments.rows[q.rid.value].form.channel.Online? then Rejected(OnlineReceipt)
    else if q.deleting && q.rid.None? then Rejected(NoSuchPayment)
    else if !q.deleting && q.form.channel.Online? && !q.trusted then Rejected(OnlineReceipt)
    else if !q.deleting && q.form.amount == 0 then Rejected(BadAmount)
    else if !q.deleting && q.form.date.day > today.day then Rejected(FutureDate)
    else if q.rid.Some? then ChangePayment(m, p, q, q.rid.value, today)
    else if q.form.customer !in p.customers.rows then Rejected(NoSuchCustomer)
    else NewPayment(m, p, q, today)
  }

  // ----- what a saved payment keeps ------------------------------------------------------------

  lemma HasRechargeNone(m: Money, c: nat, month: Month, r: nat)
    requires !HasRecharge(m, c, month) && r in m.recharges.rows
    ensures m.recharges.rows[r].customer != c || m.recharges.rows[r].month != month
  {
    assert !RechargeFor(c, month)(m.recharges.rows[r]);
  }

  predicate PaysFor(f: PaymentForm, c: nat, month: Month) {
    f.kind == Mrc && f.customer == c && f.month == month
  }

  lemma InvoicingKeepsMoney(m: Money, customers: Table<Customer>, c: nat, month: Month, today: Date)
    requires c in customers.rows && RechargesOk(m.recharges, m.payments) && Billing(m.invoices, m.charges, customers)
    ensures var r := EnsureInvoice(m, customers.rows[c], c, month, today);
            r.Some? ==>
              && r.value == m.(invoices := r.value.invoices)
              && RechargesOk(r.value.recharges, r.value.payments)
              && Billing(r.value.invoices, r.value.charges, customers)
  {
    EnsureInvoiceRaisesOne(m, customers.rows[c], c, month, today);
  }

  lemma RechargingKeepsMoney(m: Money, r: Recharge)
    requires RechargesOk(m.recharges, m.payments) && !HasRecharge(m, r.customer, r.month)
    requires r.payment in m.payments.rows && PaysFor(m.payments.rows[r.payment].form, r.customer, r.month)
    ensures RechargesOk(Insert(m.recharges, r), m.payments)
  {
    forall k | k in m.recharges.rows {
      HasRechargeNone(m, r.customer, r.month, k);
    }
  }

  /** Renewal touches invoices and recharges only. */
  lemma RenewalKeepsMoney(m: Money, customers: Table<Customer>, c: nat, month: Month, payment: nat, partial: bool,
                          today: Date)
    requires c in customers.rows && RechargesOk(m.recharges, m.payments) && Billing(m.invoices, m.charges, customers)
    requires payment in m.payments.rows && PaysFor(m.payments.rows[payment].form, c, month)
    ensures var r := ApplyRecharge(m, customers.rows[c], c, month, payment, partial, today);
            && r.money == m.(invoices := r.money.invoices, recharges := r.money.recharges)
            && RechargesOk(r.money.recharges, r.money.payments) && Billing(r.money.invoices, r.money.charges, customers)
  {
    hide RechargesOk, Billing, PreviousBalance, MrcIn;
    var customer := customers.rows[c];
    if customer.status != Terminated && month == today.month && !HasRecharge(m, c, month) {
      InvoicingKeepsMoney(m, customers, c, month, today);
      var billed := EnsureInvoice(m, customer, c, month, today).value;
      var r := InvoiceThenRenew(billed, customer, c, month, payment, partial, today);
      if r.activated {
        RechargingKeepsMoney(billed, r.money.recharges.rows[billed.recharges.next]);
      }
    }
  }

  /** A renewal leaves every other customer alone, and only a live account is renewed. */
  ghost predicate OnlyRenewed(p: People, after: People) {
    && after.recoveries == p.recoveries
    && after.customers.rows.Keys == p.customers.rows.Keys && after.customers.next == p.customers.next
    && (forall c :: c in p.customers.rows ==>
          var x, y := p.customers.rows[c], after.customers.rows[c];
          y == x || (x.status != Terminated && y == x.(status := Active, expiry := y.expiry)))
  }

  /** A payment that passed the checks keeps every limit. */
  lemma BookedNotOver(m: Money, customers: Table<Customer>, f: PaymentForm, key: Option<Key>)
    requires NotOver(m.payments, m.charges, customers) && f.customer in customers.rows
             && Objection(m, customers, f).None?
    ensures NotOver(Insert(m.payments, Payment(f, key)), m.charges, customers)
  {
    hide ChargeDue, MrcDue;
    var payment := Payment(f, key);
    var after := Insert(m.payments, payment);
    forall k | k in m.charges.rows ensures PaidOn(after, k) <= m.charges.rows[k].amount {
      SumInsert(m.payments, Toward(k), payment);
    }
    forall c | c in customers.rows ensures InstallationPaid(after, c) <= customers.rows[c].installation {
      SumInsert(m.payments, TowardInstallation(c), payment);
    }
  }

  lemma BookedKeys(m: Money, f: PaymentForm, key: Option<Key>)
    requires KeysUnique(m.payments, m.charges) && (key.Some? ==> First(m.payments, KeyIs(key.value)).None?)
    ensures KeysUnique(Insert(m.payments, Payment(f, key)), m.charges)
  {
    if key.Some? {
      forall p | p in m.payments.rows ensures m.payments.rows[p].key != key {
        assert !KeyIs(key.value)(m.payments.rows[p]);
      }
    }
  }

  lemma BookedPayments(m: Money, customers: Table<Customer>, f: PaymentForm, key: Option<Key>)
    requires PaymentsOk(m.payments, m.charges, customers) && RechargesOk(m.recharges, m.payments)
    requires f.amount > 0 && f.customer in customers.rows && LinkOk(f, m.charges)
    ensures var after := m.(payments := Insert(m.payments, Payment(f, key)));
            PaymentsOk(after.payments, after.charges, customers) && RechargesOk(after.recharges, after.payments)
  {}

  ghost predicate SameTerms(customers: Table<Customer>, after: Table<Customer>) {
    after.rows.Keys == customers.rows.Keys
    && forall c :: c in customers.rows ==> after.rows[c].installation == customers.rows[c].installation
  }

  lemma TermsKeepMoney(m: Money, customers: Table<Customer>, after: Table<Customer>)
    requires MoneyOk(m, customers) && SameTerms(customers, after)
    ensures MoneyOk(m, after)
  {}

  lemma BookKeepsMoney(m: Money, p: People, f: PaymentForm, key: Option<Key>, partial: bool, today: Date)
    requires MoneyOk(m, p.customers) && f.amount > 0 && f.customer in p.customers.rows
    requires Objection(m, p.customers, f).None?
    requires key.Some? ==> First(m.payments, KeyIs(key.value)).None?
    ensures var r := Book(m, p, m.payments.next, Insert(m.payments, Payment(f, key)), f, partial, today);
            r.Saved? ==> MoneyOk(r.money, r.people.customers) && OnlyRenewed(p, r.people)
  {
    hide RechargesOk, Billing, NotOver, KeysUnique, PaymentsOk, ApplyRecharge, Objection;
    var id := m.payments.next;
    var booked := m.(payments := Insert(m.payments, Payment(f, key)));
    assert LinkOk(f, m.charges) by {
      ObjectionLink(m, p.customers, f);
    }
    BookedNotOver(m, p.customers, f, key);
    BookedKeys(m, f, key);
    BookedPayments(m, p.customers, f, key);
    var r := Book(m, p, id, booked.payments, f, partial, today);
    if r.Saved? {
      if f.kind.Mrc? {
        RenewalKeepsMoney(booked, p.customers, f.customer, f.month, id, partial, today);
        RenewedCustomer(booked, p.customers.rows[f.customer], f.customer, f.month, id, partial, today);
      }
      BookedParts(m, booked, r.money, p.customers);
      TermsKeepMoney(r.money, p.customers, r.people.customers);
    }
  }

  lemma ObjectionLink(m: Money, customers: Table<Customer>, f: PaymentForm)
    requires f.customer in customers.rows && Objection(m, customers, f).None?
    ensures LinkOk(f, m.charges)
  {}

  lemma RenewedCustomer(m: Money, customer: Customer, c: nat, month: Month, payment: nat, partial: bool, today: Date)
    ensures var r := ApplyRecharge(m, customer, c, month, payment, partial, today);
            r.customer == customer
            || (customer.status != Terminated && r.customer == customer.(status := Active, expiry := r.customer.expiry))
  {}

  lemma BookedParts(m: Money, booked: Money, after: Money, customers: Table<Customer>)
    requires PaymentsOk(booked.payments, booked.charges, customers)
             && NotOver(booked.payments, booked.charges, customers) && KeysUnique(booked.payments, booked.charges)
    requires after == booked.(invoices := after.invoices, recharges := after.recharges, receipts := after.receipts)
    requires RechargesOk(after.recharges, after.payments) && Billing(after.invoices, after.charges, customers)
             && ReceiptsOk(after.receipts, after.payments)
    ensures MoneyOk(after, customers)
  {}

  // ----- payments are permanent ------------------------------------------------------------------

  /** With a receipt for every payment, no edit and no deletion gets through. */
  lemma PaymentsArePermanent(m: Money, p: People, q: PaymentRequest, today: Date)
    requires ReceiptsOk(m.receipts, m.payments) && (q.rid.Some? || q.deleting)
    ensures SavePayment(m, p, q, today).Rejected?
  {}

  lemma KeyFinds(payments: Table<Payment>, charges: Table<Charge>, id: nat)
    requires KeysUnique(payments, charges) && id in payments.rows && payments.rows[id].key.Some?
    ensures First(payments, KeyIs(payments.rows[id].key.value)) == Some(id)
  {
    assert KeyIs(payments.rows[id].key.value)(payments.rows[id]);
  }

  /** A request key stands for one payment: any new request under it changes nothing. With the details saved it
      gets the same payment back; with other details it is refused. */
  lemma ReplayChangesNothing(m: Money, p: People, q: PaymentRequest, today: Date, id: nat)
    requires MoneyOk(m, p.customers) && id in m.payments.rows
    requires q.rid.None? && !q.deleting && q.key.Some? && q.key == m.payments.rows[id].key
    ensures var r := SavePayment(m, p, q, today);
            && (r.Saved? ==> r == Saved(m, p, id, false) && q.form == m.payments.rows[id].form)
            && (q.form == m.payments.rows[id].form && (q.partial ==> q.finance && !q.trusted)
                && (q.form.channel.Online? ==> q.trusted) && q.form.date.day <= today.day ==>
                  r == Saved(m, p, id, false))
  {
    KeyFinds(m.payments, m.charges, id);
  }

  /** Whatever the request: every payment and receipt there was is still there, unchanged. */
  lemma SavingAppends(m: Money, p: People, q: PaymentRequest, today: Date)
    requires MoneyOk(m, p.customers)
    ensures var r := SavePayment(m, p, q, today);
            r.Saved? ==>
              && (forall k :: k in m.payments.rows ==>
                    k in r.money.payments.rows && r.money.payments.rows[k] == m.payments.rows[k])
              && (forall k :: k in m.receipts ==> k in r.money.receipts && r.money.receipts[k] == m.receipts[k])
              && r.id in r.money.payments.rows && r.money.payments.rows[r.id].form == q.form
              && r.money.payments.rows.Keys == m.payments.rows.Keys + {r.id}
  {
    hide RechargesOk, Billing, NotOver, KeysUnique, PaymentsOk, Objection, ApplyRecharge, HasRecharge;
    var r := SavePayment(m, p, q, today);
    if r.Saved? {
      if q.rid.Some? || q.deleting {
        PaymentsArePermanent(m, p, q, today);
      }
      if q.form.kind.Mrc? && r.id == m.payments.next {
        RenewalLeavesPayments(m.(payments := Insert(m.payments, Payment(q.form, q.key))),
                              p.customers.rows[q.form.customer],
                              q.form.customer, q.form.month, r.id, q.partial, today);
      }
    }
  }

  lemma RenewalLeavesPayments(m: Money, customer: Customer, c: nat, month: Month, payment: nat, partial: bool,
                              today: Date)
    ensures var r := ApplyRecharge(m, customer, c, month, payment, partial, today);
            r.money.payments == m.payments && r.money.receipts == m.receipts && r.money.charges == m.charges
  {}

  lemma SavingKeepsMoney(m: Money, p: People, q: PaymentRequest, today: Date)
    requires MoneyOk(m, p.customers)
    ensures var r := SavePayment(m, p, q, today);
            r.Saved? ==> MoneyOk(r.money, r.people.customers) && OnlyRenewed(p, r.people)
  {
    hide RechargesOk, Billing, NotOver, KeysUnique, PaymentsOk, Objection, Book, HasRecharge;
    if SavePayment(m, p, q, today).Saved? {
      if q.rid.Some? || q.deleting {
        PaymentsArePermanent(m, p, q, today);
      }
      if Objection(m, p.customers, q.form).None? && (q.key.Some? ==> First(m.payments, KeyIs(q.key.value)).None?) {
        BookKeepsMoney(m, p, q.form, q.key, q.partial, today);
      }
    }
  }

  // ----- when a subscription is renewed --------------------------------------------------------------

  /** The bill of the month as a renewal sees it: today's fee stands in for an invoice not yet raised. */
  function BillAmount(m: Money, customer: Customer, c: nat, month: Month): nat {
    var i := InvoiceOf(m.invoices, c, month);
    if i.Some? then m.invoices.rows[i.value].amount else customer.fee
  }

  /** Raising the month's invoice changes no arrears of that month. */
  lemma InvoicingKeepsArrears(m: Money, customer: Customer, c: nat, month: Month, today: Date)
    requires customer.status != Terminated
    ensures var after := EnsureInvoice(m, customer, c, month, today).value;
            && PreviousBalance(after, c, month) == PreviousBalance(m, c, month)
            && after.payments == m.payments && after.recharges == m.recharges
            && after.invoices.rows[InvoiceOf(after.invoices, c, month).value].amount
               == BillAmount(m, customer, c, month)
  {
    if !HasInvoice(m.invoices, c, month) {
      var i := Invoice(c, month, customer.fee, today, PreviousBalance(m, c, month));
      InvoiceKeepsArrears(m, i, c, month);
      InvoiceInserted(m.invoices, i, c, month);
      forall k | k in m.invoices.rows ensures !InvoiceFor(c, month)(m.invoices.rows[k]) {}
    }
  }

  /** A renewal happens if and only if the account is live, the payment is for the current month, the month was not
      renewed before, the bill is not zero, and the MRC receipts of the month cover the bill and all arrears, or a
      partial activation was approved. It then adds thirty days to the later of today and the expiry date. */
  lemma RenewalIff(m: Money, customer: Customer, c: nat, month: Month, payment: nat, partial: bool, today: Date)
    ensures var r := ApplyRecharge(m, customer, c, month, payment, partial, today);
            var bill := BillAmount(m, customer, c, month);
            && (r.activated <==>
                  customer.status != Terminated && month == today.month && !HasRecharge(m, c, month) && bill > 0
                  && (partial || Sum(m.payments, MrcIn(c, month)) >= bill + PreviousBalance(m, c, month)))
            && (r.activated ==>
                  r.customer.status == Active && r.customer.expiry == Later(today.day, customer.expiry) + 30
                  && HasRecharge(r.money, c, month)
                  && r.outstanding
                     == NonNegative(bill + PreviousBalance(m, c, month) - Sum(m.payments, MrcIn(c, month))))
            && (!r.activated ==> r.customer == customer && r.money.recharges == m.recharges)
  {
    hide PreviousBalance;
    if customer.status != Terminated && month == today.month && !HasRecharge(m, c, month) {
      InvoicingKeepsArrears(m, customer, c, month, today);
      var r := ApplyRecharge(m, customer, c, month, payment, partial, today);
      if r.activated {
        assert RechargeFor(c, month)(r.money.recharges.rows[m.recharges.next]);
      }
    }
  }

  lemma HasRechargeMeans(m: Money, c: nat, month: Month)
    ensures HasRecharge(m, c, month) <==>
            exists k :: k in m.recharges.rows && m.recharges.rows[k].customer == c && m.recharges.rows[k].month == month
  {
    forall k | k in m.recharges.rows
      ensures RechargeFor(c, month)(m.recharges.rows[k]) <==>
              m.recharges.rows[k].customer == c && m.recharges.rows[k].month == month
    {}
  }

  /** What a renewal writes besides the account: the invoice of the month if there was none, and its own row. */
  lemma RenewalWrites(m: Money, customer: Customer, c: nat, month: Month, payment: nat, partial: bool, today: Date)
    ensures var r := ApplyRecharge(m, customer, c, month, payment, partial, today);
            var raised := customer.status != Terminated && month == today.month && !HasRecharge(m, c, month)
                          && !HasInvoice(m.invoices, c, month);
            && r.money == m.(invoices := r.money.invoices, recharges := r.money.recharges)
            && r.money.invoices == (if raised then Insert(m.invoices, Invoice(c, month, customer.fee, today,
                                                                              PreviousBalance(m, c, month)))
                                    else m.invoices)
            && r.money.recharges
               == (if r.activated then
                     Insert(m.recharges, Recharge(c, month, BillAmount(m, customer, c, month),
                                                  NonNegative(Sum(m.payments, MrcIn(c, month))), customer.expiry,
                                                  r.customer.expiry, payment, r.outstanding > 0, r.outstanding))
                   else m.recharges)
            && (!r.activated ==> r.outstanding == 0)
            && (r.activated ==> r.customer == customer.(status := Active, expiry := r.customer.expiry))
  {
    hide PreviousBalance, MrcIn;
    if customer.status != Terminated && month == today.month && !HasRecharge(m, c, month) {
      InvoicingKeepsArrears(m, customer, c, month, today);
    }
  }

  /** A payment just added counts for its own month and for no arrears of it. */
  lemma BookedSums(m: Money, f: PaymentForm, key: Option<Key>)
    requires f.kind == Mrc
    ensures var booked, c := m.(payments := Insert(m.payments, Payment(f, key))), f.customer;
            && Sum(booked.payments, MrcIn(c, f.month)) == Sum(m.payments, MrcIn(c, f.month)) + f.amount
            && PreviousBalance(booked, c, f.month) == PreviousBalance(m, c, f.month)
  {
    SumInsert(m.payments, MrcIn(f.customer, f.month), Payment(f, key));
    SumInsert(m.payments, SettledBefore(m.invoices, f.customer, f.month), Payment(f, key));
  }

  lemma MrcNonneg(payments: Table<Payment>, c: nat, month: Month)
    ensures Sum(payments, MrcIn(c, month)) >= 0
  {
    SumBelowNonneg(payments.rows, MrcIn(c, month), payments.next);
  }

  /** What saving a new payment leaves. It renews if and only if it is a subscription payment for the current month of
      a live account not yet renewed for it, the bill is positive, and partial activation was asked for or the receipts
      of the month, this one included, cover bill and arrears. A renewal adds thirty days to the later of today and the
      expiry, and is recorded; without one the account stays as it was. The receipt shows the account afterwards. */
  ghost predicate PaymentTaken(m: Money, p: People, q: PaymentRequest, today: Date, r: PayOutcome)
    requires q.form.customer in p.customers.rows && r.Saved?
  {
    var f, c := q.form, q.form.customer;
    var customer := p.customers.rows[c];
    var bill, arrears := BillAmount(m, customer, c, f.month), PreviousBalance(m, c, f.month);
    var received := Sum(m.payments, MrcIn(c, f.month)) + f.amount;
    var due := f.kind == Mrc && customer.status != Terminated && f.month == today.month
               && !exists k :: k in m.recharges.rows && m.recharges.rows[k].customer == c
                               && m.recharges.rows[k].month == f.month;
    var renews := due && bill > 0 && (q.partial || received >= bill + arrears);
    var missing := if renews && received < bill + arrears then bill + arrears - received else 0;
    var expiry := (if today.day >= customer.expiry then today.day else customer.expiry) + 30;
    var account := if renews then customer.(status := Active, expiry := expiry) else customer;
    && received >= 0 && missing >= 0
    && r.id == m.payments.next && r.activated == renews
    && r.people == p.(customers := Put(p.customers, c, account))
    && r.money.charges == m.charges
    && r.money.payments == Insert(m.payments, Payment(f, q.key))
    && r.money.invoices == (if due && !HasInvoice(m.invoices, c, f.month) then
                              Insert(m.invoices, Invoice(c, f.month, customer.fee, today, arrears))
                            else m.invoices)
    && r.money.recharges
       == (if renews then
             Insert(m.recharges, Recharge(c, f.month, bill, received, customer.expiry, expiry, r.id, missing > 0,
                                          missing))
           else m.recharges)
    && r.money.receipts
       == m.receipts[r.id := Receipt(c, f.amount, f.month, account.status, account.expiry, renews, missing,
                                     missing > 0)]
  }

  lemma SavedIsKnown(m: Money, p: People, q: PaymentRequest, today: Date)
    requires q.rid.None? && SavePayment(m, p, q, today).Saved?
    ensures q.form.customer in p.customers.rows
    ensures (q.key.Some? ==> First(m.payments, KeyIs(q.key.value)).None?) ==>
              SavePayment(m, p, q, today) == Book(m, p, m.payments.next, Insert(m.payments, Payment(q.form, q.key)),
                                                  q.form, q.partial, today)
  {
    hide Objection, Book;
  }

  /** A new payment under a fresh key does exactly that. */
  lemma PaymentEffects(m: Money, p: People, q: PaymentRequest, today: Date)
    requires MoneyOk(m, p.customers) && q.rid.None?
    requires (q.key.Some? ==> First(m.payments, KeyIs(q.key.value)).None?) && SavePayment(m, p, q, today).Saved?
    ensures q.form.customer in p.customers.rows && PaymentTaken(m, p, q, today, SavePayment(m, p, q, today))
  {
    hide PaymentsOk, NotOver, KeysUnique, RechargesOk, Billing, ApplyRecharge, PreviousBalance, HasRecharge,
         SavePayment;
    SavedIsKnown(m, p, q, today);
    var f, c, id := q.form, q.form.customer, m.payments.next;
    MrcNonneg(m.payments, c, f.month);
    var booked := m.(payments := Insert(m.payments, Payment(f, q.key)));
    assert id !in m.receipts;
    if f.kind.Mrc? {
      BookedSums(m, f, q.key);
      HasRechargeMeans(m, c, f.month);
      HasRechargeMeans(booked, c, f.month);
      RenewalIff(booked, p.customers.rows[c], c, f.month, id, q.partial, today);
      RenewalWrites(booked, p.customers.rows[c], c, f.month, id, q.partial, today);
    }
  }
}
