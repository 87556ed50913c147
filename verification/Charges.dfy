/** Customer charges and the stock issues some of them bill. */
module ChargeRules {
  import opened Tables
  import opened CrmData

  /** A customer issue at a positive price; waived items are free. */
  predicate Billable(i: Issue) {
    i.form.to.ToCustomer? && i.price.Some? && i.price.value > 0
  }

  /** The charge that bills an issue. */
  predicate Bills(c: Charge, id: nat, i: Issue) {
    && c.issue == Some(id) && Billable(i) && c.kind == Equipment && c.key.None?
    && c.customer == i.form.to.customer && c.date == i.form.date
    && c.amount == i.price.value * i.form.quantity
  }

  function ForIssue(id: nat): Charge -> bool {
    (c: Charge) => c.issue == Some(id)
  }

  function ChargeOf(charges: Table<Charge>, id: nat): Option<nat> {
    First(charges, ForIssue(id))
  }

  /** Every charge bills an existing issue or is for a service. */
  ghost predicate ChargesMatch(charges: Table<Charge>, issues: Table<Issue>) {
    forall k :: k in charges.rows ==>
      charges.rows[k].amount > 0 &&
      match charges.rows[k].issue
      case Some(id) => id in issues.rows && Bills(charges.rows[k], id, issues.rows[id])
      case None => charges.rows[k].kind == Service && charges.rows[k].key.Some?
  }

  ghost predicate IssuesBilled(charges: Table<Charge>, issues: Table<Issue>) {
    forall id :: id in issues.rows && Billable(issues.rows[id]) ==> ChargeOf(charges, id).Some?
  }

  ghost predicate OneChargeEach(charges: Table<Charge>) {
    forall k, l :: (k in charges.rows && l in charges.rows && charges.rows[k].issue.Some?
                    && charges.rows[k].issue == charges.rows[l].issue) ==> k == l
  }

  /** Equipment charges and billable issues correspond one to one; every other charge is for a service. */
  ghost predicate ChargesOk(charges: Table<Charge>, issues: Table<Issue>) {
    ChargesMatch(charges, issues) && IssuesBilled(charges, issues) && OneChargeEach(charges)
  }

  /** bill_stock_issue's insert, with its ON CONFLICT DO NOTHING. */
  function Bill(charges: Table<Charge>, id: nat, i: Issue): Table<Charge> {
    if !Billable(i) || ChargeOf(charges, id).Some? then charges
    else Insert(charges, Charge(i.form.to.customer, i.form.date, i.price.value * i.form.quantity, Equipment,
                                Some(id), None, i.form.text))
  }

  lemma BillKeepsCharges(charges: Table<Charge>, issues: Table<Issue>, i: Issue)
    requires ChargesOk(charges, issues) && i.form.quantity > 0
    ensures ChargesOk(Bill(charges, issues.next, i), Insert(issues, i))
  {
    var id := issues.next;
    forall k | k in charges.rows ensures !ForIssue(id)(charges.rows[k]) {}
    BillFound(charges, id, i);
    BillMatches(charges, issues, i);
  }

  lemma BillMatches(charges: Table<Charge>, issues: Table<Issue>, i: Issue)
    requires ChargesMatch(charges, issues) && i.form.quantity > 0
    ensures ChargesMatch(Bill(charges, issues.next, i), Insert(issues, i))
  {
    if Billable(i) {
      assert i.price.value * i.form.quantity > 0;
    }
  }

  lemma BillFound(charges: Table<Charge>, id: nat, i: Issue)
    ensures Billable(i) ==> ChargeOf(Bill(charges, id, i), id).Some?
    ensures forall j: nat :: ChargeOf(charges, j).Some? ==> ChargeOf(Bill(charges, id, i), j).Some?
  {
    var charges' := Bill(charges, id, i);
    if charges' != charges {
      assert ForIssue(id)(charges'.rows[charges.next]);
    }
    forall j: nat | ChargeOf(charges, j).Some? ensures ChargeOf(charges', j).Some? {
      var k := ChargeOf(charges, j).value;
      assert charges'.rows[k] == charges.rows[k] && ForIssue(j)(charges'.rows[k]);
    }
  }

  /** A returned issue keeps its charge. */
  lemma ReturnKeepsCharges(charges: Table<Charge>, issues: Table<Issue>, id: nat)
    requires ChargesOk(charges, issues) && id in issues.rows
    ensures ChargesOk(charges, Put(issues, id, issues.rows[id].(out := false)))
  {
    var issues' := Put(issues, id, issues.rows[id].(out := false));
    forall j | j in issues'.rows && Billable(issues'.rows[j]) ensures ChargeOf(charges, j).Some? {
      assert Billable(issues.rows[j]);
    }
  }

  /** The charge of a deleted issue goes with it. */
  function Unbill(charges: Table<Charge>, id: nat): Table<Charge> {
    if ChargeOf(charges, id).Some? then Drop(charges, ChargeOf(charges, id).value) else charges
  }

  lemma UnbillKeepsCharges(charges: Table<Charge>, issues: Table<Issue>, id: nat)
    requires ChargesOk(charges, issues) && id in issues.rows
    ensures ChargesOk(Unbill(charges, id), Drop(issues, id))
  {
    var charges', issues' := Unbill(charges, id), Drop(issues, id);
    forall j | j in issues'.rows && Billable(issues'.rows[j]) ensures ChargeOf(charges', j).Some? {
      var k := ChargeOf(charges, j).value;
      assert charges'.rows[k] == charges.rows[k] && ForIssue(j)(charges'.rows[k]);
    }
    forall k | k in charges'.rows ensures charges'.rows[k].issue != Some(id) {
      assert ForIssue(id)(charges.rows[k]) <==> charges.rows[k].issue == Some(id);
    }
  }
}
