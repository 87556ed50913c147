/** Expenses over a whole run: where they come from, and how long the one of a paid record lasts. */
module Postings {
  import opened Tables
  import opened CrmData
  import opened RecordRules
  import opened RecordLaws
  import opened Invariant
  import opened ExpenseDesk
  import opened CrmMachine
  import opened Conservation
  import opened History

  // ----- one expense per paid record, whatever became of the row ---------------------------

  function PaidUnit(): Record -> int {
    (r: Record) => if r.expense.Some? then 1 else 0
  }

  /** Expenses added by hand. */
  function ByHand(db: Db, events: seq<Event>): nat
    decreases |events|
  {
    if events == [] then 0
    else (if events[0].cmd.CmdAddExpense? && Step(db, events[0]).Done? then 1 else 0)
         + ByHand(After(db, events[0]), events[1..])
  }

  /** Expenses ever created, less those of paid records. */
  function Others(db: Db): int {
    db.expenses.next - Sum(db.records, PaidUnit())
  }

  lemma QuietStepCreates(db: Db, e: Event)
    requires StatesOk(db.records) && (e.cmd.CmdSaveRecord? || e.cmd.CmdArchive? || e.cmd.CmdDeleteRecord?)
    ensures Others(After(db, e)) == Others(db)
  {
    hide SaveRecord, ArchiveRecord, DeleteRecord, StatesOk, Sum;
    RecordLeavesExpenses(db, e);
    match e.cmd
    case CmdSaveRecord(q) => SaveDocuments(db, q, e.today, PaidUnit());
    case CmdArchive(mod, id) => ArchiveDocuments(db, mod, id, PaidUnit());
    case CmdDeleteRecord(mod, id, manager) => DeleteDocuments(db, mod, id, manager, PaidUnit());
    case _ =>
  }

  lemma ReceivingCreatesNone(db: Db, id: nat)
    ensures Others(Commit(db, ReceiveBill(db, id))) == Others(db)
  {
    hide ReceiveBill, Sum, Commit;
    ReceiveDocuments(db, id, PaidUnit());
  }

  lemma PayingCreatesOne(db: Db, mod: Module, id: nat, terms: PayTerms, today: Date)
    ensures Others(Commit(db, PayRecord(db, mod, id, terms, today))) == Others(db)
  {
    hide PayRecord, Sum, Commit;
    PayDocuments(db, mod, id, terms, today, PaidUnit());
  }

  lemma RecordLeavesExpenses(db: Db, e: Event)
    requires RecordCmd(e.cmd) && !e.cmd.CmdPayRecord?
    ensures After(db, e).expenses == db.expenses
  {
    hide SaveRecord, HasParts, HasReceiptsOn, IsReferenced, HoldsStock;
    if e.cmd.CmdSaveRecord? {
      SaveLeavesAccounts(db, e.cmd.record, e.today);
    }
  }

  lemma RecordStepCreates(db: Db, e: Event)
    requires StatesOk(db.records) && RecordCmd(e.cmd)
    ensures Others(After(db, e)) == Others(db)
  {
    hide ReceiveBill, PayRecord, Others, Commit, StatesOk;
    if e.cmd.CmdReceive? {
      ReceivingCreatesNone(db, e.cmd.id);
    } else if e.cmd.CmdPayRecord? {
      PayingCreatesOne(db, e.cmd.mod, e.cmd.id, e.cmd.terms, e.today);
    } else {
      QuietStepCreates(db, e);
    }
  }

  lemma StepCreates(db: Db, e: Event)
    requires Inv(db)
    ensures Others(After(db, e)) == Others(db) + (if e.cmd.CmdAddExpense? && Step(db, e).Done? then 1 else 0)
  {
    hide Inv, After, Step, StatesOk, Sum;
    RecordStates(db);
    if Clerical(e.cmd) {
      ClericalLeavesStock(db, e);
    } else if StockCmd(e.cmd) {
      StockLeavesRecords(db, e);
    } else if ExpenseCmd(e.cmd) {
      ExpenseFormLeavesRest(db, e);
    } else {
      RecordStepCreates(db, e);
    }
  }

  lemma {:induction false} RunCreates(db: Db, events: seq<Event>)
    requires Inv(db)
    ensures Others(Run(db, events)) == Others(db) + ByHand(db, events)
    decreases |events|
  {
    hide Inv, After, Step, Others;
    if events != [] {
      StepCreates(db, events[0]);
      StepKeepsInv(db, events[0]);
      RunCreates(After(db, events[0]), events[1..]);
    }
  }

  /** Every expense ever created, still there or deleted since, was added by hand or is the single one of a record now
      paid: paying creates one expense per record, once. */
  lemma ExpensesAreAccountedFor(start: Db, events: seq<Event>)
    requires start == EmptyDb()
    ensures var db := Run(start, events);
            db.expenses.next == Sum(db.records, PaidUnit()) + ByHand(start, events)
  {
    hide Inv, Run, ByHand, Sum;
    EmptyHolds();
    NothingCreated();
    RunCreates(start, events);
  }

  lemma NothingCreated()
    ensures Others(EmptyDb()) == 0
  {}

  // ----- how long a row lasts ----------------------------------------------------------------

  /** No deletion of row `id` by anyone with the right. */
  predicate NeverDropped(events: seq<Event>, id: nat) {
    forall i :: 0 <= i < |events| ==> events[i].cmd != CmdDropExpense(id, true)
  }

  /** An edit of row `id` that is accepted while the row is there. */
  predicate Rewrites(cmd: Cmd, id: nat) {
    cmd.CmdEditExpense? && cmd.id == id && cmd.allowed && cmd.expense.amount != 0
  }

  /** What the last accepted edit of row `id` wrote; `row` if there was none. */
  function LastWritten(events: seq<Event>, id: nat, row: Expense): Expense
    decreases |events|
  {
    if events == [] then row
    else LastWritten(events[1..], id, if Rewrites(events[0].cmd, id) then events[0].cmd.expense else row)
  }

  /** One request and an id handed out before: the row goes by an accepted deletion alone, never comes back, and changes
      by an accepted edit alone. */
  predicate RowAfter(expenses: Table<Expense>, after: Table<Expense>, cmd: Cmd, id: nat) {
    && expenses.next <= after.next
    && (id in after.rows <==> id in expenses.rows && cmd != CmdDropExpense(id, true))
    && (id in after.rows && id in expenses.rows ==>
          after.rows[id] == if Rewrites(cmd, id) then cmd.expense else expenses.rows[id])
  }

  lemma StepOnExpense(db: Db, e: Event, id: nat)
    requires id < db.expenses.next
    ensures RowAfter(db.expenses, After(db, e).expenses, e.cmd, id)
  {
    hide After;
    if Clerical(e.cmd) {
      ClericalLeavesStock(db, e);
    } else if StockCmd(e.cmd) {
      StockLeavesRecords(db, e);
    } else if ExpenseCmd(e.cmd) {
      FormOnExpense(db, e, id);
    } else if e.cmd.CmdPayRecord? {
      PayLeavesExpense(db, e, id);
    } else {
      RecordLeavesExpenses(db, e);
    }
  }

  lemma FormOnExpense(db: Db, e: Event, id: nat)
    requires id < db.expenses.next && ExpenseCmd(e.cmd)
    ensures RowAfter(db.expenses, After(db, e).expenses, e.cmd, id)
  {}

  lemma PayLeavesExpense(db: Db, e: Event, id: nat)
    requires id < db.expenses.next && e.cmd.CmdPayRecord?
    ensures RowAfter(db.expenses, After(db, e).expenses, e.cmd, id)
  {
    hide TotalOf, Stamp;
  }

  /** Over any run, an expense row is there if and only if it was and nobody deleted it; it then holds what was written
      to it last. */
  lemma {:induction false} ExpenseStandsIff(db: Db, events: seq<Event>, id: nat)
    requires id < db.expenses.next
    ensures var rows, rows' := db.expenses.rows, Run(db, events).expenses.rows;
            && (id in rows' <==> id in rows && NeverDropped(events, id))
            && (id in rows' && id in rows ==> rows'[id] == LastWritten(events, id, rows[id]))
    decreases |events|
  {
    hide After, RowAfter;
    if events != [] {
      var e, rest := events[0], events[1..];
      StepOnExpense(db, e, id);
      assert id < After(db, e).expenses.next by {
        IdsGrow(db, e, id);
      }
      ExpenseStandsIff(After(db, e), rest, id);
      DroppedFirstOrLater(events, id);
      RowFacts(db.expenses, After(db, e).expenses, e.cmd, id);
    }
  }

  lemma IdsGrow(db: Db, e: Event, id: nat)
    requires RowAfter(db.expenses, After(db, e).expenses, e.cmd, id)
    ensures db.expenses.next <= After(db, e).expenses.next
  {
    hide After;
  }

  lemma RowFacts(expenses: Table<Expense>, after: Table<Expense>, cmd: Cmd, id: nat)
    requires RowAfter(expenses, after, cmd, id)
    ensures id in after.rows <==> id in expenses.rows && cmd != CmdDropExpense(id, true)
    ensures id in after.rows && id in expenses.rows ==>
              after.rows[id] == if Rewrites(cmd, id) then cmd.expense else expenses.rows[id]
  {}

  lemma DroppedFirstOrLater(events: seq<Event>, id: nat)
    requires events != []
    ensures NeverDropped(events, id) <==> events[0].cmd != CmdDropExpense(id, true) && NeverDropped(events[1..], id)
  {
    if events[0].cmd != CmdDropExpense(id, true) && NeverDropped(events[1..], id) {
      forall i | 0 <= i < |events| ensures events[i].cmd != CmdDropExpense(id, true) {
        assert i > 0 ==> events[i] == events[1..][i - 1];
      }
    }
    if NeverDropped(events, id) {
      forall i | 0 <= i < |events[1..]| ensures events[1..][i].cmd != CmdDropExpense(id, true) {
        assert events[1..][i] == events[i + 1];
      }
    }
  }

  /** The expense a paid record names is there and shows the total of its form. */
  predicate ExpenseAgrees(db: Db, id: nat) {
    id in db.records.rows && db.records.rows[id].expense.Some?
    && var e := db.records.rows[id].expense.value;
       e in db.expenses.rows && db.expenses.rows[e].amount == TotalOf(db.records.rows[id].form.body)
  }

  /** Exactly when record and expense agree after any further run: the row was there, nobody deleted it, and what was
      written to it last shows the total. */
  lemma PaidRecordAgreesIff(db: Db, id: nat, events: seq<Event>)
    requires Inv(db) && id in db.records.rows && db.records.rows[id].expense.Some?
    ensures var e := db.records.rows[id].expense.value;
            ExpenseAgrees(Run(db, events), id) <==>
              && e in db.expenses.rows && NeverDropped(events, e)
              && LastWritten(events, e, db.expenses.rows[e]).amount == TotalOf(db.records.rows[id].form.body)
  {
    hide Inv, Run, MoneyRemembered, TotalOf, NeverDropped, LastWritten;
    PaidIdKnown(db, id);
    RunRemembers(db, events);
    ExpenseStandsIff(db, events, db.records.rows[id].expense.value);
  }

  lemma PaidIdKnown(db: Db, id: nat)
    requires Inv(db) && id in db.records.rows && db.records.rows[id].expense.Some?
    ensures db.records.rows[id].expense.value < db.expenses.next
  {
    hide FormsOk, StatesOk;
    assert Holds(RecordGroup, db);
  }

  /** From the moment a record is paid, its expense id never changes and it keeps the form it was paid on; the row
      shows the total of that form if and only if it was never deleted and the last accepted edit, if any, wrote that
      amount. */
  lemma PostedExpenseStands(db: Db, mod: Module, id: nat, terms: PayTerms, today: Date, events: seq<Event>)
    requires Inv(db) && PayRecord(db, mod, id, terms, today).Done? && PayRecord(db, mod, id, terms, today).db != db
    ensures id in db.records.rows && TotalOf(db.records.rows[id].form.body) > 0
    ensures var e, total := db.expenses.next, TotalOf(db.records.rows[id].form.body);
            var after := Run(PayRecord(db, mod, id, terms, today).db, events);
            && id in after.records.rows && after.records.rows[id].expense == Some(e)
            && after.records.rows[id].form == db.records.rows[id].form
            && (ExpenseAgrees(after, id) <==>
                  NeverDropped(events, e)
                  && LastWritten(events, e, Expense(Some(id), total, terms.day)).amount == total)
  {
    hide Inv, Run, MoneyRemembered, TotalOf, NeverDropped, LastWritten, ExpenseAgrees;
    var paid := PayRecord(db, mod, id, terms, today).db;
    var event := Event(CmdPayRecord(mod, id, terms), today);
    assert paid == After(db, event);
    StepKeepsInv(db, event);
    RunRemembers(paid, events);
    PaidRecordAgreesIff(paid, id, events);
  }

  /** The expense of a paid record may be edited away or deleted, and nothing notices: the record stays paid and paying
      it again does nothing. */
  lemma DroppedExpenseStaysPaid(db: Db, id: nat, terms: PayTerms, today: Date)
    requires Inv(db) && id in db.records.rows && db.records.rows[id].expense.Some?
    requires db.records.rows[id].expense.value in db.expenses.rows
    ensures var e := db.records.rows[id].expense.value;
            var after := Commit(db, DropExpense(db, e, true));
            && e !in after.expenses.rows && after.records == db.records
            && Commit(after, PayRecord(after, db.records.rows[id].mod, id, terms, today)) == after
  {
    hide Inv, TotalOf;
    assert StatesOk(db.records) by {
      RecordStates(db);
    }
    assert StateOk(db.records.rows[id]);
  }
}
