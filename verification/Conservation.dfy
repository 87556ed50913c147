/** Where stock comes from: a closed account of every run. */
module Conservation {
  import opened Tables
  import opened CrmData
  import opened StockRules
  import opened RecoveryRules
  import opened ChargeRules
  import opened BillingRules
  import opened PaymentRules
  import opened AccountRules
  import opened NetworkRules
  import opened RecordRules
  import opened RecordLaws
  import opened Invariant
  import opened IssueDesk
  import opened WarehouseDesk
  import opened CustomerDesk
  import opened RecordDesk
  import opened CrmMachine
  import opened Pricing

  function NewUnit(): Device -> int {
    (d: Device) => if d.receivedNew then 1 else 0
  }

  function ReceivedQuantity(): Record -> int {
    (r: Record) => if r.received && r.form.body.Purchase? then r.form.body.quantity else 0
  }

  /** Stock that came in with a document: devices labelled as new, and purchase bills received. */
  function Documented(devices: Table<Device>, records: Table<Record>): int {
    Sum(devices, NewUnit()) + Sum(records, ReceivedQuantity())
  }

  /** What an inventory form adds or takes away by hand. */
  function Adjustment(db: Db, e: Event): int {
    if Step(db, e).Refused? then 0
    else
      match e.cmd
      case CmdAddBatch(b, _) => b.quantity
      case CmdEditBatch(id, b, _, _) =>
        if id in db.stock.inventory.rows then b.quantity - db.stock.inventory.rows[id].quantity else 0
      case CmdRemoveBatch(id) => if id in db.stock.inventory.rows then 0 - db.stock.inventory.rows[id].quantity else 0
      case _ => 0
  }

  function Adjusted(db: Db, events: seq<Event>): int
    decreases |events|
  {
    if events == [] then 0 else Adjustment(db, events[0]) + Adjusted(After(db, events[0]), events[1..])
  }

  // ----- what the documents of a step come to ----------------------------------------------

  /** Labels keep how they came in. */
  ghost predicate SameLabels(devices: Table<Device>, after: Table<Device>) {
    && after.next == devices.next && after.rows.Keys == devices.rows.Keys
    && forall u :: u in devices.rows ==>
         after.rows[u].receivedNew == devices.rows[u].receivedNew && after.rows[u].key == devices.rows[u].key
         && after.rows[u].serial == devices.rows[u].serial
  }

  lemma SameLabelsSum(devices: Table<Device>, after: Table<Device>)
    requires SameLabels(devices, after)
    ensures Sum(after, NewUnit()) == Sum(devices, NewUnit())
  {
    SumBelowAgree(after.rows, NewUnit(), devices.rows, NewUnit(), devices.next);
  }

  lemma BringBackLabels(s: Stock, id: nat)
    requires id in s.issues.rows
    ensures SameLabels(s.devices, BringBack(s, id).devices) && SameLabels(s.devices, Erase(s, id).devices)
  {
    hide AddQuantity;
  }

  lemma SyncLabels(s: Stock, link: Option<nat>, want: Option<Want>, date: Date, text: string)
    ensures SameLabels(s.devices, GiveBack(s, link).devices)
    ensures var y := SyncStock(s, link, want, date, text); y.Synced? ==> SameLabels(s.devices, y.stock.devices)
  {
    hide SameLabels, BringBack, Shelf;
    LabelsStay(s.devices);
    if link.Some? && link.value in s.issues.rows {
      BringBackLabels(s, link.value);
    }
  }

  lemma LabelsStay(devices: Table<Device>)
    ensures SameLabels(devices, devices)
  {}

  /** Only new labels bring devices in. */
  lemma StepLabels(db: Db, e: Event)
    requires StockCmd(e.cmd) && !e.cmd.CmdRegister?
    ensures SameLabels(db.stock.devices, After(db, e).stock.devices)
  {
    hide BringBack, Erase, RefreshFor, Unbill, IssueStock, TransferStock, SameLabels, Inspect, ActiveWarehouse,
         InUseBy, InTransfers, Shelf;
    LabelsStay(db.stock.devices);
    match e.cmd
    case CmdIssue(q) => IssueLabels(db, q, e.today);
    case CmdReturn(id) =>
      if id in db.stock.issues.rows {
        BringBackLabels(db.stock, id);
      }
    case CmdDeleteIssue(id, _) =>
      if id in db.stock.issues.rows {
        BringBackLabels(db.stock, id);
      }
    case CmdTransfer(q) => TransferLabels(db, q);
    case CmdInspect(u, c) => InspectLabels(db, u, c);
    case _ =>
  }

  lemma IssueLabels(db: Db, q: IssueRequest, today: Date)
    ensures SameLabels(db.stock.devices, Commit(db, IssueStock(db, q, today)).stock.devices)
  {
    hide BillIssue, AddQuantity, StockIssuePrice;
  }

  lemma TransferLabels(db: Db, q: TransferRequest)
    ensures SameLabels(db.stock.devices, Commit(db, TransferStock(db, q)).stock.devices)
  {
    hide ActiveWarehouse, WithRow, RowAt, Moves, SerialsUnique, Surplus, AddQuantity;
  }

  lemma InspectLabels(db: Db, u: nat, c: Condition)
    ensures SameLabels(db.stock.devices, Commit(db, Inspect(db, u, c)).stock.devices)
  {}

  lemma RegisterDocuments(db: Db, q: RegisterRequest)
    ensures Sum(Commit(db, Register(db, q)).stock.devices, NewUnit())
         == Sum(db.stock.devices, NewUnit()) + (if q.receiveNew && Commit(db, Register(db, q)) != db then 1 else 0)
  {
    hide SerialsUnique, Shelf, Sum;
    var o := Register(db, q);
    if o.Done? && o.db != db {
      SumInsert(db.stock.devices, NewUnit(), Device(q.batch, q.serial, false, None, Good, q.key, q.receiveNew));
    }
  }

  // ----- sums over what was posted on records -------------------------------------------------------

  /** An expression that counts posted records only. */
  ghost predicate OnPosted(f: Record -> int) {
    forall r: Record :: !Posted(r) ==> f(r) == 0
  }

  lemma SaveDocuments(db: Db, q: SaveRequest, today: Date, f: Record -> int)
    requires StatesOk(db.records) && OnPosted(f)
    ensures Sum(Commit(db, SaveRecord(db, q, today)).records, f) == Sum(db.records, f)
  {
    hide SaveRecord, Cleared, StatesOk, Sum, OnPosted;
    var o := SaveRecord(db, q, today);
    if o.Done? && o.db != db {
      SavedRow(db, q, today);
      WrittenDocuments(db.records, q, o.db.records.rows[o.id].link, f);
    }
  }

  lemma SaveLabels(db: Db, q: SaveRequest, today: Date)
    ensures SameLabels(db.stock.devices, Commit(db, SaveRecord(db, q, today)).stock.devices)
  {
    hide SaveRecord, SyncStock, SameLabels, Relocated;
    var o := SaveRecord(db, q, today);
    if o.Done? && o.db != db {
      SavedStock(db, q, today);
      var stock := db.stock.(inventory := Relocated(db.records, db.stock.inventory, q));
      SyncLabels(stock, LinkOf(db.records, q.id), WantOf(q.form.body), today, "");
    } else {
      LabelsStay(db.stock.devices);
    }
  }

  lemma WrittenDocuments(records: Table<Record>, q: SaveRequest, link: Option<nat>, f: Record -> int)
    requires StatesOk(records) && OnPosted(f)
    requires q.id.Some? ==> q.id.value in records.rows && records.rows[q.id.value].state == Open
    requires q.id.None? ==> q.key.Some?
    ensures Sum(Written(records, q, link), f) == Sum(records, f)
  {
    hide Sum;
    var after := Written(records, q, link);
    if q.id.Some? {
      assert StateOk(records.rows[q.id.value]);
      SumPut(records, f, q.id.value, after.rows[q.id.value]);
    } else {
      SumInsert(records, f, after.rows[records.next]);
    }
  }

  lemma StampDocuments(records: Table<Record>, id: nat, state: RecordState, received: bool, expense: Option<nat>,
                       f: Record -> int)
    requires id in records.rows
    ensures var after := Stamp(records, id, state, received, expense);
            Sum(after, f) == Sum(records, f) - f(records.rows[id]) + f(after.rows[id])
  {
    SumPut(records, f, id, Stamp(records, id, state, received, expense).rows[id]);
  }

  /** Archiving and deleting leave what was posted. */
  lemma ArchiveDocuments(db: Db, mod: Module, id: nat, f: Record -> int)
    requires StatesOk(db.records) && OnPosted(f)
    ensures Sum(Commit(db, ArchiveRecord(db, mod, id)).records, f) == Sum(db.records, f)
  {
    hide Sum, HasReceiptsOn, HasParts;
    if ArchiveRecord(db, mod, id).Done? {
      assert StateOk(db.records.rows[id]);
      StampDocuments(db.records, id, Archived, db.records.rows[id].received, db.records.rows[id].expense, f);
    }
  }

  lemma DeleteDocuments(db: Db, mod: Module, id: nat, manager: bool, f: Record -> int)
    requires StatesOk(db.records) && OnPosted(f)
    ensures Sum(Commit(db, DeleteRecord(db, mod, id, manager)).records, f) == Sum(db.records, f)
    ensures SameLabels(db.stock.devices, Commit(db, DeleteRecord(db, mod, id, manager)).stock.devices)
  {
    hide Sum, IsReferenced, HoldsStock, GiveBack, SameLabels;
    LabelsStay(db.stock.devices);
    if DeleteRecord(db, mod, id, manager).Done? {
      assert StateOk(db.records.rows[id]);
      SumDrop(db.records, f, id);
      SyncLabels(db.stock, db.records.rows[id].link, None, Date(0, 0), "");
    }
  }

  /** Paying and receiving change the one row. */
  lemma PayDocuments(db: Db, mod: Module, id: nat, terms: PayTerms, today: Date, f: Record -> int)
    ensures var after := Commit(db, PayRecord(db, mod, id, terms, today));
            after != db ==>
              && id in db.records.rows && id in after.records.rows
              && Sum(after.records, f) == Sum(db.records, f) - f(db.records.rows[id]) + f(after.records.rows[id])
              && after.records.rows[id].received == db.records.rows[id].received
              && after.records.rows[id].form == db.records.rows[id].form
              && db.records.rows[id].expense.None? && after.records.rows[id].expense == Some(db.expenses.next)
              && after.expenses.next == db.expenses.next + 1
  {
    hide Sum, TotalOf;
    if Commit(db, PayRecord(db, mod, id, terms, today)) != db {
      StampDocuments(db.records, id, Paid, db.records.rows[id].received, Some(db.expenses.next), f);
    }
  }

  lemma ReceiveDocuments(db: Db, id: nat, f: Record -> int)
    ensures var after := Commit(db, ReceiveBill(db, id));
            after != db ==>
              && id in db.records.rows && id in after.records.rows && db.records.rows[id].form.body.Purchase?
              && Sum(after.records, f) == Sum(db.records, f) - f(db.records.rows[id]) + f(after.records.rows[id])
              && !db.records.rows[id].received && after.records.rows[id].received
              && after.records.rows[id].form == db.records.rows[id].form
              && after.records.rows[id].expense == db.records.rows[id].expense && after.expenses == db.expenses
  {
    hide Sum, AddQuantity;
    if Commit(db, ReceiveBill(db, id)) != db {
      var r := db.records.rows[id];
      StampDocuments(db.records, id, if r.expense.Some? then Paid else Received, true, r.expense, f);
    }
  }

  // ----- the account of a step and of a run ---------------------------------------------------------

  lemma ClericalLeavesStock(db: Db, e: Event)
    requires Clerical(e.cmd)
    ensures After(db, e).stock == db.stock && After(db, e).records == db.records
    ensures After(db, e).transfers == db.transfers && After(db, e).expenses == db.expenses
  {
    hide SavePayment, EnsureInvoice, Generate, Rewrite, Terminate, CustomerInUse, EditObjectionTo;
  }

  /** The expense form touches expenses only, and ids only grow. */
  lemma ExpenseFormLeavesRest(db: Db, e: Event)
    requires ExpenseCmd(e.cmd)
    ensures After(db, e) == db.(expenses := After(db, e).expenses)
    ensures After(db, e).expenses.next
         == db.expenses.next + (if e.cmd.CmdAddExpense? && Step(db, e).Done? then 1 else 0)
  {}

  /** Transactions on stock leave records alone. */
  lemma StockLeavesRecords(db: Db, e: Event)
    requires StockCmd(e.cmd)
    ensures After(db, e).records == db.records && After(db, e).expenses == db.expenses
  {
    hide BringBack, Erase, BillIssue, RefreshFor, Unbill, IssueObjection, IssueRow, Place, Moved, Label,
         SerialsUnique, TransferObjection, Shelf, InUseBy, InTransfers, ActiveWarehouse, StockIssuePrice;
  }

  ghost predicate Balanced(db: Db, after: Db, adjustment: int) {
    (Total(after.stock) - Documented(after.stock.devices, after.records)
     == Total(db.stock) - Documented(db.stock.devices, db.records) + adjustment)
  }

  /** The total moves only with documents and adjustments. */
  lemma BalancedBy(db: Db, after: Db, came: int, adjustment: int)
    requires Total(after.stock) == Total(db.stock) + came + adjustment
    requires Sum(after.stock.devices, NewUnit()) + Sum(after.records, ReceivedQuantity())
          == Sum(db.stock.devices, NewUnit()) + Sum(db.records, ReceivedQuantity()) + came
    ensures Balanced(db, after, adjustment)
  {
    hide Total, Sum;
  }

  lemma StockStepBalances(db: Db, e: Event)
    requires Inv(db)
    requires StockCmd(e.cmd) && !e.cmd.CmdRegister?
    ensures Balanced(db, After(db, e), Adjustment(db, e))
  {
    hide Inv, Total, Sum, Balanced, SameLabels, AddBatch, EditBatch, RemoveBatch, Inspect, IssueStock, ReturnIssue,
         DeleteIssue, TransferStock;
    StepLabels(db, e);
    SameLabelsSum(db.stock.devices, After(db, e).stock.devices);
    StockLeavesRecords(db, e);
    match e.cmd {
      case CmdAddBatch(b, category) => AddBatchKeepsInv(db, b, category);
      case CmdEditBatch(id, b, original, category) => EditBatchKeepsInv(db, id, b, original, category);
      case CmdRemoveBatch(id) => RemoveBatchKeepsInv(db, id);
      case CmdInspect(id, c) => InspectKeepsInv(db, id, c);
      case CmdIssue(q) => IssueConserves(db, q, e.today);
      case CmdReturn(id) => ReturnConserves(db, id);
      case CmdDeleteIssue(id, admin) => DeleteConserves(db, id, admin);
      case CmdTransfer(q) => TransferKeepsInv(db, q);
      case _ =>
    }
    BalancedBy(db, After(db, e), 0, Adjustment(db, e));
  }

  lemma RecordStepBalances(db: Db, e: Event)
    requires Inv(db)
    requires RecordCmd(e.cmd) && !e.cmd.CmdReceive?
    ensures Balanced(db, After(db, e), Adjustment(db, e))
  {
    hide Inv, Total, Sum, Balanced, SameLabels, SaveRecord, ArchiveRecord, DeleteRecord, PayRecord;
    RecordStates(db);
    hide StatesOk;
    match e.cmd {
      case CmdSaveRecord(q) =>
        SaveRecordKeepsInv(db, q, e.today);
        SaveDocuments(db, q, e.today, ReceivedQuantity());
        SaveLabels(db, q, e.today);
      case CmdArchive(mod, id) =>
        ArchiveKeepsInv(db, mod, id);
        ArchiveDocuments(db, mod, id, ReceivedQuantity());
        LabelsStay(db.stock.devices);
      case CmdDeleteRecord(mod, id, manager) =>
        DeleteRecordKeepsInv(db, mod, id, manager);
        DeleteDocuments(db, mod, id, manager, ReceivedQuantity());
      case CmdPayRecord(mod, id, terms) =>
        PayRecordKeepsInv(db, mod, id, terms, e.today);
        PayDocuments(db, mod, id, terms, e.today, ReceivedQuantity());
        LabelsStay(db.stock.devices);
      case _ =>
    }
    SameLabelsSum(db.stock.devices, After(db, e).stock.devices);
    BalancedBy(db, After(db, e), 0, 0);
  }

  lemma RecordStates(db: Db)
    requires Inv(db)
    ensures StatesOk(db.records)
  {
    hide StockOk, TransfersOk, RecoveryOk, ChargesOk, MoneyOk, NetworkOk, LocationsOk, IssueKeysUnique,
         DeviceKeysUnique, StatesOk, FormsOk, ExpensesOk;
    InvGroups(db);
  }

  lemma RegisterBalances(db: Db, q: RegisterRequest)
    requires Inv(db)
    ensures Balanced(db, Commit(db, Register(db, q)), 0)
  {
    hide Inv, Total, Sum, Balanced, Register;
    RegisterKeepsInv(db, q);
    RegisterDocuments(db, q);
    var after := Commit(db, Register(db, q));
    StockLeavesRecords(db, Event(CmdRegister(q), Date(0, 0)));
    BalancedBy(db, after, if q.receiveNew && after != db then 1 else 0, 0);
  }

  lemma ReceiveBalances(db: Db, id: nat)
    requires Inv(db)
    ensures Balanced(db, Commit(db, ReceiveBill(db, id)), 0)
  {
    hide Inv, Total, Sum, Balanced, AddQuantity;
    ReceiveKeepsInv(db, id);
    ReceiveDocuments(db, id, ReceivedQuantity());
    var after := Commit(db, ReceiveBill(db, id));
    var came := if after != db && id in db.records.rows && db.records.rows[id].form.body.Purchase?
                then db.records.rows[id].form.body.quantity else 0;
    BalancedBy(db, after, came, 0);
  }

  /** One step: the total changes by what documents bring in and by hand-made adjustments, and by nothing else. */
  lemma StepBalances(db: Db, e: Event)
    requires Inv(db)
    ensures Balanced(db, After(db, e), Adjustment(db, e))
  {
    hide Inv, Total, Sum, Register, ReceiveBill;
    if Clerical(e.cmd) {
      ClericalLeavesStock(db, e);
    } else if ExpenseCmd(e.cmd) {
      ExpenseFormLeavesRest(db, e);
    } else if e.cmd.CmdRegister? {
      RegisterBalances(db, e.cmd.device);
    } else if e.cmd.CmdReceive? {
      ReceiveBalances(db, e.cmd.id);
    } else if RecordCmd(e.cmd) {
      RecordStepBalances(db, e);
    } else {
      StockStepBalances(db, e);
    }
  }

  lemma {:induction false} RunBalances(db: Db, events: seq<Event>)
    requires Inv(db)
    ensures Balanced(db, Run(db, events), Adjusted(db, events))
    decreases |events|
  {
    hide Inv, After, Adjustment, Total, Documented;
    if events != [] {
      StepBalances(db, events[0]);
      StepKeepsInv(db, events[0]);
      RunBalances(After(db, events[0]), events[1..]);
    }
  }

  lemma EmptyAccount()
    ensures Total(EmptyDb().stock) == 0 && Documented(EmptyDb().stock.devices, EmptyDb().records) == 0
  {}

  lemma AccountedFrom(db: Db, events: seq<Event>)
    requires Inv(db) && Total(db.stock) == Documented(db.stock.devices, db.records)
    ensures var after := Run(db, events);
            Total(after.stock) == Documented(after.stock.devices, after.records) + Adjusted(db, events)
  {
    hide Inv, Run, Adjusted, Total, Documented;
    RunBalances(db, events);
  }

  /** In every reachable state, the stock on shelves and on outstanding issues is exactly the devices registered as
      new, plus the quantities of the purchase bills marked received, each bill once, plus the adjustments made by
      hand along the way. */
  lemma StockIsAccountedFor(start: Db, events: seq<Event>)
    requires start == EmptyDb()
    ensures var db := Run(start, events);
            Total(db.stock) == Documented(db.stock.devices, db.records) + Adjusted(start, events)
  {
    hide Inv, Run, Adjusted, Total, Documented;
    EmptyHolds();
    EmptyAccount();
    AccountedFrom(start, events);
  }
}
