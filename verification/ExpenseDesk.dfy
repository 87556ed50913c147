/** The expense form, through which any expense may be added, edited or deleted by hand. */
module ExpenseDesk {
  import opened Tables
  import opened CrmData
  import opened StockRules
  import opened RecoveryRules
  import opened ChargeRules
  import opened PaymentRules
  import opened NetworkRules
  import opened RecordRules
  import opened RecordLaws
  import opened Invariant

  /** A new expense; `allowed` is the right to write expenses. */
  function AddExpense(db: Db, x: Expense, allowed: bool): Outcome {
    if !allowed then Refused(NotAllowed)
    else if x.amount == 0 then Refused(BadAmount)
    else Done(db.(expenses := Insert(db.expenses, x)), db.expenses.next)
  }

  /** No guard keeps the form from the expense of a paid record. */
  function EditExpense(db: Db, id: nat, x: Expense, allowed: bool): Outcome {
    if !allowed then Refused(NotAllowed)
    else if x.amount == 0 then Refused(BadAmount)
    else if id !in db.expenses.rows then Refused(NoSuchExpense)
    else Done(db.(expenses := Put(db.expenses, id, x)), id)
  }

  /** `allowed` is the right to delete expenses. */
  function DropExpense(db: Db, id: nat, allowed: bool): Outcome {
    if !allowed then Refused(NotAllowed)
    else if id !in db.expenses.rows then Refused(NoSuchExpense)
    else Done(db.(expenses := Drop(db.expenses, id)), id)
  }

  /** What records know of expenses is which ids were handed out. */
  lemma MoreIdsKeepRecords(records: Table<Record>, expenses: Table<Expense>, after: Table<Expense>)
    requires RecordsOk(records, expenses) && expenses.next <= after.next
    ensures RecordsOk(records, after)
  {
    hide FormsOk, StatesOk;
  }

  lemma ExpensesKeepInv(db: Db, after: Db)
    requires Inv(db) && after == db.(expenses := after.expenses) && db.expenses.next <= after.expenses.next
    ensures Inv(after)
  {
    hide StockOk, TransfersOk, RecoveryOk, ChargesOk, MoneyOk, NetworkOk, RecordsOk, LocationsOk, IssueKeysUnique,
         DeviceKeysUnique;
    InvGroups(db);
    InvGroups(after);
    MoreIdsKeepRecords(db.records, db.expenses, after.expenses);
  }

  /** Whatever the expense form does, every invariant stands: no record depends on the row it once paid with. */
  lemma ExpenseFormKeepsInv(db: Db, id: nat, x: Expense, allowed: bool)
    requires Inv(db)
    ensures Inv(Commit(db, AddExpense(db, x, allowed)))
    ensures Inv(Commit(db, EditExpense(db, id, x, allowed)))
    ensures Inv(Commit(db, DropExpense(db, id, allowed)))
  {
    hide Inv;
    ExpensesKeepInv(db, Commit(db, AddExpense(db, x, allowed)));
    ExpensesKeepInv(db, Commit(db, EditExpense(db, id, x, allowed)));
    ExpensesKeepInv(db, Commit(db, DropExpense(db, id, allowed)));
  }
}
