/** Terminated accounts and the equipment they still have to give back. */
module RecoveryRules {
  import opened Tables
  import opened CrmData

  /** An item the customer must return. */
  predicate Owed(i: Issue, customer: nat) {
    i.out && i.form.recovery && i.form.to == ToCustomer(customer)
  }

  /** pending_items is not empty. */
  predicate HasPending(issues: Table<Issue>, customer: nat) {
    exists i :: i in issues.rows && Owed(issues.rows[i], customer)
  }

  lemma PendingMeans(issues: Table<Issue>, c: nat)
    ensures HasPending(issues, c) <==>
            exists i :: i in issues.rows && issues.rows[i].out && issues.rows[i].form.recovery
                        && issues.rows[i].form.to == ToCustomer(c)
  {
    if i :| i in issues.rows && issues.rows[i].out && issues.rows[i].form.recovery
            && issues.rows[i].form.to == ToCustomer(c) {
      assert Owed(issues.rows[i], c);
    }
  }

  function RowOf(customer: nat): Recovery -> bool {
    (r: Recovery) => r.customer == customer
  }

  function PendingRowOf(customer: nat): Recovery -> bool {
    (r: Recovery) => r.customer == customer && r.status == RecoveryPending
  }

  predicate HasRow(recoveries: Table<Recovery>, customer: nat) {
    Last(recoveries, RowOf(customer)).Some?
  }

  predicate HasPendingRow(recoveries: Table<Recovery>, customer: nat) {
    First(recoveries, PendingRowOf(customer)).Some?
  }

  // ----- the invariant -------------------------------------------------------------

  ghost predicate Known(p: People, issues: Table<Issue>) {
    && (forall i :: i in issues.rows && issues.rows[i].form.to.ToCustomer? ==>
          issues.rows[i].form.to.customer in p.customers.rows)
    && (forall r :: r in p.recoveries.rows ==> p.recoveries.rows[r].customer in p.customers.rows)
  }

  /** A terminated account is pending exactly while a required item is out, and has a recovery row. */
  predicate StatusRight(c: Customer, pending: bool, row: bool, pendingRow: bool) {
    && (c.status == Terminated ==>
          row && c.recovery != NotRequired && (c.recovery == RecoveryPending <==> pending))
    && (c.recovery == RecoveryPending ==> c.status == Terminated)
    && (c.recovery == RecoveryPending <==> pendingRow)
  }

  ghost predicate StatusesRight(p: People, issues: Table<Issue>) {
    forall c :: c in p.customers.rows ==>
      StatusRight(p.customers.rows[c], HasPending(issues, c), HasRow(p.recoveries, c), HasPendingRow(p.recoveries, c))
  }

  ghost predicate OnePendingRow(recoveries: Table<Recovery>) {
    forall r, q :: r in recoveries.rows && q in recoveries.rows && recoveries.rows[r].status == RecoveryPending
                   && recoveries.rows[q].status == RecoveryPending
                   && recoveries.rows[r].customer == recoveries.rows[q].customer ==>
      r == q
  }

  ghost predicate RecoveryOk(p: People, issues: Table<Issue>) {
    Known(p, issues) && StatusesRight(p, issues) && OnePendingRow(p.recoveries)
  }

  // ----- termination -----------------------------------------------------------------

  /** terminate, once the request is found acceptable. A repeated termination keeps the row there is. */
  function Terminate(p: People, issues: Table<Issue>, c: nat, day: int): People
    requires c in p.customers.rows
  {
    var customer := p.customers.rows[c];
    if customer.status == Terminated && HasRow(p.recoveries, c) then p
    else
      var status := if HasPending(issues, c) then RecoveryPending else NothingToRecover;
      People(Put(p.customers, c, customer.(status := Terminated, recovery := status)),
             Insert(p.recoveries, Recovery(c, status, customer.fee, day)))
  }

  lemma TerminateKeepsStatuses(p: People, issues: Table<Issue>, c: nat, day: int)
    requires StatusesRight(p, issues) && c in p.customers.rows
    ensures StatusesRight(Terminate(p, issues, c, day), issues)
  {
    hide HasPending, HasRow, HasPendingRow;
    var p' := Terminate(p, issues, c, day);
    if p' != p {
      var r := p'.recoveries.rows[p.recoveries.next];
      forall d | d in p'.customers.rows
        ensures StatusRight(p'.customers.rows[d], HasPending(issues, d), HasRow(p'.recoveries, d),
                            HasPendingRow(p'.recoveries, d))
      {
        InsertedRow(p.recoveries, r, d);
      }
    }
  }

  lemma TerminateKeepsOnePending(p: People, issues: Table<Issue>, c: nat, day: int)
    requires StatusesRight(p, issues) && OnePendingRow(p.recoveries) && c in p.customers.rows
    ensures OnePendingRow(Terminate(p, issues, c, day).recoveries)
  {
    hide HasPending, HasRow;
    if Terminate(p, issues, c, day) != p {
      assert StatusRight(p.customers.rows[c], HasPending(issues, c), HasRow(p.recoveries, c),
                         HasPendingRow(p.recoveries, c));
      forall k | k in p.recoveries.rows ensures !PendingRowOf(c)(p.recoveries.rows[k]) {}
    }
  }

  lemma TerminateKeepsRecovery(p: People, issues: Table<Issue>, c: nat, day: int)
    requires RecoveryOk(p, issues) && c in p.customers.rows
    ensures RecoveryOk(Terminate(p, issues, c, day), issues)
    ensures Terminate(p, issues, c, day).customers.rows[c].status == Terminated
  {
    hide StatusesRight, OnePendingRow, HasPending, HasRow;
    TerminateKeepsStatuses(p, issues, c, day);
    TerminateKeepsOnePending(p, issues, c, day);
  }

  lemma InsertedRow(recoveries: Table<Recovery>, r: Recovery, d: nat)
    ensures HasRow(Insert(recoveries, r), d) <==> HasRow(recoveries, d) || r.customer == d
    ensures HasPendingRow(Insert(recoveries, r), d)
      <==> HasPendingRow(recoveries, d) || (r.customer == d && r.status == RecoveryPending)
  {
    var after := Insert(recoveries, r);
    assert after.rows[recoveries.next] == r;
    assert RowOf(d)(r) == (r.customer == d);
    assert PendingRowOf(d)(r) == (r.customer == d && r.status == RecoveryPending);
    forall k | k in recoveries.rows ensures after.rows[k] == recoveries.rows[k] {}
  }

  // ----- recovery ----------------------------------------------------------------------

  function Recover(customer: nat): Recovery -> Recovery {
    (r: Recovery) => if r.customer == customer && r.status == RecoveryPending then r.(status := Recovered) else r
  }

  /** refresh_recovery: once nothing required is out, pending rows and the account turn recovered. */
  function Refresh(p: People, issues: Table<Issue>, c: nat): People {
    if HasPending(issues, c) || !HasPendingRow(p.recoveries, c) then p
    else People(if c in p.customers.rows then Put(p.customers, c, p.customers.rows[c].(recovery := Recovered))
                else p.customers,
                Update(p.recoveries, Recover(c)))
  }

  lemma RefreshKeepsStatuses(p: People, issues: Table<Issue>, after: Table<Issue>, c: nat)
    requires StatusesRight(p, issues)
    requires forall d: nat :: d != c ==> (HasPending(after, d) <==> HasPending(issues, d))
    requires HasPending(after, c) ==> HasPending(issues, c)
    ensures StatusesRight(Refresh(p, after, c), after)
  {
    hide HasPending, HasRow, HasPendingRow;
    var p' := Refresh(p, after, c);
    if p' != p {
      forall d: nat
        ensures HasRow(p'.recoveries, d) <==> HasRow(p.recoveries, d)
        ensures HasPendingRow(p'.recoveries, d) <==> HasPendingRow(p.recoveries, d) && d != c
      {
        RecoveredRows(p.recoveries, c, d);
      }
    }
    forall d | d in p'.customers.rows
      ensures StatusRight(p'.customers.rows[d], HasPending(after, d), HasRow(p'.recoveries, d),
                          HasPendingRow(p'.recoveries, d))
    {
      assert StatusRight(p.customers.rows[d], HasPending(issues, d), HasRow(p.recoveries, d),
                         HasPendingRow(p.recoveries, d));
    }
  }

  /** Taking issues back can only shorten one customer's list; refreshing that customer restores the invariant. */
  lemma RefreshKeepsRecovery(p: People, issues: Table<Issue>, after: Table<Issue>, c: nat)
    requires RecoveryOk(p, issues) && Known(p, after)
    requires forall d: nat :: d != c ==> (HasPending(after, d) <==> HasPending(issues, d))
    requires HasPending(after, c) ==> HasPending(issues, c)
    ensures RecoveryOk(Refresh(p, after, c), after)
  {
    hide StatusesRight, HasPending, HasRow, HasPendingRow;
    RefreshKeepsStatuses(p, issues, after, c);
  }

  lemma RecoveredRows(recoveries: Table<Recovery>, c: nat, d: nat)
    ensures var after := Update(recoveries, Recover(c));
            && (HasRow(after, d) <==> HasRow(recoveries, d))
            && (HasPendingRow(after, d) <==> HasPendingRow(recoveries, d) && d != c)
  {
    var after := Update(recoveries, Recover(c));
    forall k | k in recoveries.rows
      ensures RowOf(d)(after.rows[k]) == RowOf(d)(recoveries.rows[k])
      ensures PendingRowOf(d)(after.rows[k]) == (PendingRowOf(d)(recoveries.rows[k]) && d != c)
    {}
  }

  // ----- effects of issue changes ---------------------------------------------------------

  lemma InsertOwesNobody(issues: Table<Issue>, i: Issue, c: nat)
    requires i.form.to != ToCustomer(c)
    ensures HasPending(Insert(issues, i), c) <==> HasPending(issues, c)
  {
    var after := Insert(issues, i);
    if HasPending(issues, c) {
      var k :| k in issues.rows && Owed(issues.rows[k], c);
      assert after.rows[k] == issues.rows[k];
    }
  }

  lemma InsertKeepsRecovery(p: People, issues: Table<Issue>, i: Issue)
    requires RecoveryOk(p, issues)
    requires i.form.to.ToCustomer? ==>
               i.form.to.customer in p.customers.rows && p.customers.rows[i.form.to.customer].status != Terminated
    ensures RecoveryOk(p, Insert(issues, i))
  {
    hide HasPending, HasRow, HasPendingRow;
    var after := Insert(issues, i);
    forall c | c in p.customers.rows
      ensures StatusRight(p.customers.rows[c], HasPending(after, c), HasRow(p.recoveries, c),
                          HasPendingRow(p.recoveries, c))
    {
      assert StatusRight(p.customers.rows[c], HasPending(issues, c), HasRow(p.recoveries, c),
                         HasPendingRow(p.recoveries, c));
      if i.form.to != ToCustomer(c) {
        InsertOwesNobody(issues, i, c);
      }
    }
  }

  function CustomerOf(i: Issue): Option<nat> {
    if i.form.to.ToCustomer? then Some(i.form.to.customer) else None
  }

  /** refresh_recovery is called for the customer of the issue, if there is one. */
  function RefreshFor(p: People, issues: Table<Issue>, i: Issue): People {
    if CustomerOf(i).Some? then Refresh(p, issues, CustomerOf(i).value) else p
  }

  /** Taking one issue back, or deleting it, and refreshing its customer. */
  lemma TakingBackKeepsRecovery(p: People, issues: Table<Issue>, after: Table<Issue>, id: nat)
    requires RecoveryOk(p, issues) && id in issues.rows
    requires after == Put(issues, id, issues.rows[id].(out := false)) || after == Drop(issues, id)
    ensures RecoveryOk(RefreshFor(p, after, issues.rows[id]), after)
  {
    var i := issues.rows[id];
    forall d: nat | CustomerOf(i) != Some(d) ensures HasPending(after, d) <==> HasPending(issues, d) {
      if k :| k in issues.rows && Owed(issues.rows[k], d) {
        assert k in after.rows && after.rows[k] == issues.rows[k];
      }
    }
    forall d: nat | HasPending(after, d) ensures HasPending(issues, d) {
      var k :| k in after.rows && Owed(after.rows[k], d);
      assert issues.rows[k] == after.rows[k];
    }
    if CustomerOf(i).Some? {
      RefreshKeepsRecovery(p, issues, after, CustomerOf(i).value);
    } else {
      forall d: nat ensures HasPending(after, d) <==> HasPending(issues, d) {}
    }
  }
}
