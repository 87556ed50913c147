/** The CRM as a state machine: one serial transaction at a time, each committed or rolled back. */
module CrmMachine {
  import opened Tables
  import opened CrmData
  import opened PaymentRules
  import opened AccountRules
  import opened RecordRules
  import opened Invariant
  import opened IssueDesk
  import opened WarehouseDesk
  import opened CustomerDesk
  import opened RecordDesk
  import opened ExpenseDesk

  datatype Cmd =
    | CmdAddBatch(batch: Batch, category: Option<bool>)
    | CmdEditBatch(id: nat, batch: Batch, original: Option<nat>, category: Option<bool>)
    | CmdRemoveBatch(id: nat)
    | CmdRegister(device: RegisterRequest)
    | CmdInspect(id: nat, condition: Condition)
    | CmdIssue(issue: IssueRequest)
    | CmdReturn(id: nat)
    | CmdDeleteIssue(id: nat, admin: bool)
    | CmdTransfer(transfer: TransferRequest)
    | CmdAddCustomer(customer: Customer)
    | CmdEditCustomer(id: nat, customer: Customer)
    | CmdRemoveCustomer(id: nat)
    | CmdTerminate(id: nat, reason: string, available: bool)
    | CmdBulkStatus(ids: seq<nat>, status: Status)
    | CmdChange(id: nat, change: Change)
    | CmdCharge(charge: ChargeRequest)
    | CmdPay(payment: PaymentRequest)
    | CmdInvoice(id: nat, month: Month)
    | CmdMonthlyRun
    | CmdSaveRecord(record: SaveRequest)
    | CmdArchive(mod: Module, id: nat)
    | CmdDeleteRecord(mod: Module, id: nat, manager: bool)
    | CmdReceive(id: nat)
    | CmdPayRecord(mod: Module, id: nat, terms: PayTerms)
    | CmdAddExpense(expense: Expense, allowed: bool)
    | CmdEditExpense(id: nat, expense: Expense, allowed: bool)
    | CmdDropExpense(id: nat, allowed: bool)

  /** A request as it arrives, with the date of the day. */
  datatype Event = Event(cmd: Cmd, today: Date)

  function Step(db: Db, e: Event): Outcome {
    match e.cmd
    case CmdAddBatch(b, category) => AddBatch(db, b, category)
    case CmdEditBatch(id, b, original, category) => EditBatch(db, id, b, original, category)
    case CmdRemoveBatch(id) => RemoveBatch(db, id)
    case CmdRegister(q) => Register(db, q)
    case CmdInspect(id, c) => Inspect(db, id, c)
    case CmdIssue(q) => IssueStock(db, q, e.today)
    case CmdReturn(id) => ReturnIssue(db, id)
    case CmdDeleteIssue(id, admin) => DeleteIssue(db, id, admin)
    case CmdTransfer(q) => TransferStock(db, q)
    case CmdAddCustomer(c) => AddCustomer(db, c)
    case CmdEditCustomer(id, c) => EditCustomer(db, id, c, e.today.day)
    case CmdRemoveCustomer(id) => RemoveCustomer(db, id)
    case CmdTerminate(id, reason, available) => TerminateCustomer(db, id, reason, available, e.today.day)
    case CmdBulkStatus(ids, status) => BulkStatus(db, ids, status)
    case CmdChange(id, change) => ApplyChange(db, id, change)
    case CmdCharge(q) => AddCharge(db, q)
    case CmdPay(q) => Pay(db, q, e.today)
    case CmdInvoice(id, month) => RaiseInvoice(db, id, month, e.today)
    case CmdMonthlyRun => MonthlyRun(db, e.today)
    case CmdSaveRecord(q) => SaveRecord(db, q, e.today)
    case CmdArchive(mod, id) => ArchiveRecord(db, mod, id)
    case CmdDeleteRecord(mod, id, manager) => DeleteRecord(db, mod, id, manager)
    case CmdReceive(id) => ReceiveBill(db, id)
    case CmdPayRecord(mod, id, terms) => PayRecord(db, mod, id, terms, e.today)
    case CmdAddExpense(x, allowed) => AddExpense(db, x, allowed)
    case CmdEditExpense(id, x, allowed) => EditExpense(db, id, x, allowed)
    case CmdDropExpense(id, allowed) => DropExpense(db, id, allowed)
  }

  // ----- kinds of requests ------------------------------------------------------------------

  /** On customers and money alone. */
  predicate Clerical(cmd: Cmd) {
    cmd.CmdAddCustomer? || cmd.CmdEditCustomer? || cmd.CmdRemoveCustomer? || cmd.CmdTerminate? || cmd.CmdBulkStatus?
    || cmd.CmdChange? || cmd.CmdCharge? || cmd.CmdPay? || cmd.CmdInvoice? || cmd.CmdMonthlyRun?
  }

  predicate StockCmd(cmd: Cmd) {
    cmd.CmdAddBatch? || cmd.CmdEditBatch? || cmd.CmdRemoveBatch? || cmd.CmdRegister? || cmd.CmdInspect?
    || cmd.CmdIssue? || cmd.CmdReturn? || cmd.CmdDeleteIssue? || cmd.CmdTransfer?
  }

  predicate RecordCmd(cmd: Cmd) {
    cmd.CmdSaveRecord? || cmd.CmdArchive? || cmd.CmdDeleteRecord? || cmd.CmdReceive? || cmd.CmdPayRecord?
  }

  predicate ExpenseCmd(cmd: Cmd) {
    cmd.CmdAddExpense? || cmd.CmdEditExpense? || cmd.CmdDropExpense?
  }

  // ----- runs ---------------------------------------------------------------------------------

  function After(db: Db, e: Event): Db {
    Commit(db, Step(db, e))
  }

  function Run(db: Db, events: seq<Event>): Db
    decreases |events|
  {
    if events == [] then db else Run(After(db, events[0]), events[1..])
  }

  /** Whatever the request, the transaction keeps every invariant. */
  lemma StepKeepsInv(db: Db, e: Event)
    requires Inv(db)
    ensures Inv(After(db, e))
  {
    hide Inv, Commit, AddBatch, EditBatch, RemoveBatch, Register, Inspect, IssueStock, ReturnIssue, DeleteIssue,
         TransferStock, AddCustomer, EditCustomer, RemoveCustomer, TerminateCustomer, BulkStatus, ApplyChange,
         AddCharge, Pay, RaiseInvoice, MonthlyRun, SaveRecord, ArchiveRecord, DeleteRecord, ReceiveBill, PayRecord,
         AddExpense, EditExpense, DropExpense;
    match e.cmd
    case CmdAddBatch(b, category) => AddBatchKeepsInv(db, b, category);
    case CmdEditBatch(id, b, original, category) => EditBatchKeepsInv(db, id, b, original, category);
    case CmdRemoveBatch(id) => RemoveBatchKeepsInv(db, id);
    case CmdRegister(q) => RegisterKeepsInv(db, q);
    case CmdInspect(id, c) => InspectKeepsInv(db, id, c);
    case CmdIssue(q) => IssueKeepsInv(db, q, e.today);
    case CmdReturn(id) => ReturnKeepsInv(db, id);
    case CmdDeleteIssue(id, admin) => DeleteKeepsInv(db, id, admin);
    case CmdTransfer(q) => TransferKeepsInv(db, q);
    case CmdAddCustomer(c) => AddCustomerKeepsInv(db, c);
    case CmdEditCustomer(id, c) => EditCustomerKeepsInv(db, id, c, e.today.day);
    case CmdRemoveCustomer(id) => RemoveCustomerKeepsInv(db, id);
    case CmdTerminate(id, reason, available) => TerminateKeepsInv(db, id, reason, available, e.today.day);
    case CmdBulkStatus(ids, status) => BulkKeepsInv(db, ids, status);
    case CmdChange(id, change) => ChangeKeepsInv(db, id, change);
    case CmdCharge(q) => AddChargeKeepsInv(db, q);
    case CmdPay(q) => PayKeepsInv(db, q, e.today);
    case CmdInvoice(id, month) => InvoiceKeepsInv(db, id, month, e.today);
    case CmdMonthlyRun => MonthlyRunKeepsInv(db, e.today);
    case CmdSaveRecord(q) => SaveRecordKeepsInv(db, q, e.today);
    case CmdArchive(mod, id) => ArchiveKeepsInv(db, mod, id);
    case CmdDeleteRecord(mod, id, manager) => DeleteRecordKeepsInv(db, mod, id, manager);
    case CmdReceive(id) => ReceiveKeepsInv(db, id);
    case CmdPayRecord(mod, id, terms) => PayRecordKeepsInv(db, mod, id, terms, e.today);
    case CmdAddExpense(x, allowed) => ExpenseFormKeepsInv(db, 0, x, allowed);
    case CmdEditExpense(id, x, allowed) => ExpenseFormKeepsInv(db, id, x, allowed);
    case CmdDropExpense(id, allowed) => ExpenseFormKeepsInv(db, id, Expense(None, 0, 0), allowed);
  }

  lemma {:induction false} RunKeepsInv(db: Db, events: seq<Event>)
    requires Inv(db)
    ensures Inv(Run(db, events))
    decreases |events|
  {
    hide Inv, After;
    if events != [] {
      StepKeepsInv(db, events[0]);
      RunKeepsInv(After(db, events[0]), events[1..]);
    }
  }

  /** Every state reachable from empty tables satisfies every invariant. */
  lemma ReachableStatesHold(events: seq<Event>)
    ensures Inv(Run(EmptyDb(), events))
  {
    hide Inv, Run;
    EmptyHolds();
    RunKeepsInv(EmptyDb(), events);
  }
}
