/** Operations records: typed forms that refer to one another, and the actions that post them once. */
module RecordRules {
  import opened Tables
  import opened CrmData
  import opened StockRules
  import opened NetworkRules

  /** One billion rupees, in paisa. */
  const MAX_AMOUNT: nat := 100_000_000_000

  // ----- what a module's form holds ------------------------------------------------------

  function FieldsOf(mod: Module): set<Field> {
    match mod
    case Areas => {CompanyField, ZoneField}
    case Branches => {CompanyField}
    case PurchaseBills => {VendorField}
    case Warehouses => {BranchField}
    case Zones => {BranchField}
    case SubZones => {ZoneField}
    case Pops => {ZoneField}
    case NetworkDevices => {PopField}
    case NetworkLinks => {FromDevice, ToDevice}
    case FiberSegments => {FromDevice, ToDevice}
    case BandwidthBills => {ProviderField, ItemField}
    case ResellerInvoices => {ResellerField}
    case ResellerReceipts => {InvoiceField}
    case CashTransactions => {AccountField}
    case _ => {}
  }

  function Required(mod: Module): set<Field> {
    match mod
    case Areas | Branches | Warehouses | Zones | NetworkDevices | FiberSegments => {}
    case _ => FieldsOf(mod)
  }

  /** The module a `ref:` field points into. */
  function Target(f: Field): Module {
    match f
    case CompanyField => Companies
    case ZoneField => Zones
    case BranchField => Branches
    case VendorField => Vendors
    case PopField => Pops
    case FromDevice => NetworkDevices
    case ToDevice => NetworkDevices
    case ProviderField => BandwidthProviders
    case ItemField => BandwidthItems
    case ResellerField => Resellers
    case InvoiceField => ResellerInvoices
    case AccountField => CashAccounts
  }

  predicate BodyFits(mod: Module, b: Body) {
    match mod
    case Companies | Areas => b.Named?
    case Warehouses => b.Warehouse?
    case NetworkDevices => b.Appliance?
    case FiberSegments => b.Cable?
    case PurchaseBills => b.Purchase?
    case BandwidthBills | ResellerInvoices | ResellerReceipts | CashTransactions => b.Amount?
    case Payroll => b.Payslip?
    case _ => b.Plain?
  }

  /** What validate asks of a form alone. */
  predicate Sound(mod: Module, f: Form) {
    && ((mod == NetworkLinks || mod == FiberSegments) && FromDevice in f.refs && ToDevice in f.refs ==>
          f.refs[FromDevice] != f.refs[ToDevice])
    && (mod == Payroll ==> TotalOf(f.body) >= 0)
    && (f.body.Amount? || f.body.Purchase? ==> Payable(TotalOf(f.body)))
    && NameOf(f.body) != Some("")
  }

  predicate Shape(mod: Module, f: Form) {
    f.refs.Keys <= FieldsOf(mod) && Required(mod) <= f.refs.Keys && BodyFits(mod, f.body)
  }

  /** payroll_total */
  function SalaryTotal(s: Salary): int {
    s.basic + s.allowances + s.bonus + s.overtime + s.incentive - s.deductions
  }

  /** What a record comes to when it is paid. */
  function TotalOf(b: Body): int {
    match b
    case Purchase(_, quantity, unitCost) => unitCost * quantity
    case Amount(amount, _) => amount
    case Payslip(_, _, salary) => SalaryTotal(salary)
    case _ => 0
  }

  /** amount(..., positive=True) */
  predicate Payable(n: int) {
    0 < n <= MAX_AMOUNT
  }

  function ItemOf(b: Body): Option<nat> {
    match b
    case Appliance(item, _) => item
    case Cable(_, item, _, _, _) => item
    case Purchase(stockItem, _, _) => Some(stockItem)
    case _ => None
  }

  function NameOf(b: Body): Option<string> {
    match b
    case Named(name) => Some(name)
    case Warehouse(name, _) => Some(name)
    case _ => None
  }

  function PeriodOf(b: Body): Option<(nat, Month)> {
    match b
    case Payslip(employee, month, _) => Some((employee, month))
    case _ => None
  }

  function LowerChar(c: char): char {
    if 'A' <= c <= 'Z' then c - 'A' + 'a' else c
  }

  /** lower(), on ASCII letters */
  function Lower(s: string): string {
    seq(|s|, i requires 0 <= i < |s| => LowerChar(s[i]))
  }

  predicate RefOk(records: Table<Record>, f: Field, id: nat) {
    id in records.rows && records.rows[id].mod == Target(f)
  }

  /** validate, on typed values */
  function FormObjection(records: Table<Record>, inventory: Table<Batch>, mod: Module, f: Form, today: Date)
    : Option<Error>
  {
    if !Shape(mod, f) then Some(BadForm)
    else if exists k :: k in f.refs && !RefOk(records, k, f.refs[k]) then Some(NoSuchRecord)
    else if exists k :: k in f.refs && records.rows[f.refs[k]].state == Archived then Some(ArchivedRecord)
    else if ItemOf(f.body).Some? && ItemOf(f.body).value !in inventory.rows then Some(NoSuchBatch)
    else if (mod == NetworkLinks || mod == FiberSegments) && FromDevice in f.refs && ToDevice in f.refs
            && f.refs[FromDevice] == f.refs[ToDevice] then Some(BadForm)
    else if mod == Payroll && TotalOf(f.body) < 0 then Some(BadAmount)
    else if mod == ResellerReceipts && f.body.day > today.day then Some(FutureDate)
    else if (f.body.Amount? || f.body.Purchase?) && !Payable(TotalOf(f.body)) then Some(BadAmount)
    else None
  }

  // ----- the invariant -------------------------------------------------------------------

  ghost predicate RefsOk(records: Table<Record>) {
    forall r, k :: r in records.rows && k in records.rows[r].form.refs ==>
             RefOk(records, k, records.rows[r].form.refs[k])
  }

  ghost predicate ShapesOk(records: Table<Record>) {
    forall r :: r in records.rows ==>
      Shape(records.rows[r].mod, records.rows[r].form) && Sound(records.rows[r].mod, records.rows[r].form)
  }

  predicate RefersBy(r: Record, k: Field, id: nat) {
    k in r.form.refs && r.form.refs[k] == id
  }

  /** What a receipt settles of reseller invoice `id`. */
  function ReceiptOn(id: nat): Record -> int {
    (r: Record) =>
      if r.mod == ResellerReceipts && RefersBy(r, InvoiceField, id) && r.form.body.Amount? then r.form.body.amount
         else 0
  }

  ghost predicate ReceiptsWithin(records: Table<Record>) {
    forall i :: i in records.rows && records.rows[i].mod == ResellerInvoices ==>
      Sum(records, ReceiptOn(i)) <= TotalOf(records.rows[i].form.body)
  }

  predicate SameName(a: Record, b: Record) {
    a.mod == b.mod && NameOf(a.form.body).Some? && NameOf(b.form.body).Some?
    && Lower(NameOf(a.form.body).value) == Lower(NameOf(b.form.body).value)
  }

  predicate SamePeriod(a: Record, b: Record) {
    PeriodOf(a.form.body).Some? && PeriodOf(a.form.body) == PeriodOf(b.form.body)
  }

  /** No request key, name or pay period occurs twice. */
  ghost predicate Distinct(records: Table<Record>) {
    forall r, q :: r in records.rows && q in records.rows && r != q ==>
      var a, b := records.rows[r], records.rows[q];
      a.key != b.key && !SameName(a, b) && !SamePeriod(a, b)
  }

  ghost predicate FormsOk(records: Table<Record>) {
    RefsOk(records) && ShapesOk(records) && ReceiptsWithin(records) && Distinct(records)
  }

  /** The modules whose records are paid. */
  predicate PayModule(mod: Module) {
    mod == Payroll || mod == PurchaseBills || mod == BandwidthBills
  }

  /** The state of a record follows from what was posted. */
  predicate StateOk(r: Record) {
    && (r.state == Paid <==> r.expense.Some?)
    && (r.state == Received <==> r.received && r.expense.None?)
    && (r.received ==> r.mod == PurchaseBills)
    && (r.expense.Some? ==> PayModule(r.mod))
  }

  ghost predicate StatesOk(records: Table<Record>) {
    forall r :: r in records.rows ==> StateOk(records.rows[r])
  }

  /** The expense id of a record was handed out, to that record alone. The row itself may be edited or deleted in the
      expense form, and no foreign key holds it. */
  ghost predicate ExpensesOk(records: Table<Record>, expenses: Table<Expense>) {
    && (forall r :: r in records.rows && records.rows[r].expense.Some? ==>
          records.rows[r].expense.value < expenses.next)
    && (forall r, q :: r in records.rows && q in records.rows && r != q && records.rows[r].expense.Some? ==>
          records.rows[r].expense != records.rows[q].expense)
  }

  function WarehouseNamed(name: string): Record -> bool {
    (r: Record) => r.mod == Warehouses && r.form.body.Warehouse? && r.form.body.name == name
  }

  predicate IsWarehouse(records: Table<Record>, name: string) {
    First(records, WarehouseNamed(name)).Some?
  }

  /** Every inventory row stands in a warehouse there is. */
  ghost predicate LocationsOk(inventory: Table<Batch>, records: Table<Record>) {
    forall b :: b in inventory.rows ==> IsWarehouse(records, inventory.rows[b].location)
  }

  // ----- save ----------------------------------------------------------------------------

  /** `id` edits that record; `key` is the request key of a new one. */
  datatype SaveRequest = SaveRequest(id: Option<nat>, mod: Module, form: Form, version: nat, key: Option<Key>)

  predicate IsImmutable(mod: Module) {
    mod == ResellerReceipts || mod == CashTransactions
  }

  predicate HasReceiptsOn(records: Table<Record>, id: nat) {
    exists r :: r in records.rows && records.rows[r].mod == ResellerReceipts
           && RefersBy(records.rows[r], InvoiceField, id)
  }

  predicate HasTransactionsOn(records: Table<Record>, id: nat) {
    exists r :: r in records.rows && records.rows[r].mod == CashTransactions
           && RefersBy(records.rows[r], AccountField, id)
  }

  /** The guards on the record an edit starts from. */
  function EditObjection(records: Table<Record>, mod: Module, id: nat): Option<Error> {
    if id !in records.rows || records.rows[id].mod != mod then Some(NoSuchRecord)
    else if IsImmutable(mod) || records.rows[id].state != Open then Some(Immutable)
    else if mod == ResellerInvoices && HasReceiptsOn(records, id) then Some(HasReceipts)
    else if mod == CashAccounts && HasTransactionsOn(records, id) then Some(HasTransactions)
    else None
  }

  predicate PeriodUsed(records: Table<Record>, q: SaveRequest) {
    exists r :: r in records.rows && q.id != Some(r) && records.rows[r].mod == q.mod
                && PeriodOf(q.form.body).Some? && PeriodOf(q.form.body) == PeriodOf(records.rows[r].form.body)
  }

  predicate NameUsed(records: Table<Record>, q: SaveRequest) {
    exists r :: r in records.rows && q.id != Some(r) && records.rows[r].mod == q.mod
                && NameOf(q.form.body).Some? && NameOf(records.rows[r].form.body).Some?
                && Lower(NameOf(records.rows[r].form.body).value) == Lower(NameOf(q.form.body).value)
  }

  function EarlyObjection(records: Table<Record>, inventory: Table<Batch>, q: SaveRequest, today: Date): Option<Error> {
    var edit := if q.id.Some? then EditObjection(records, q.mod, q.id.value) else None;
    var form := FormObjection(records, inventory, q.mod, q.form, today);
    if edit.Some? then edit
    else if form.Some? then form
    else if NameOf(q.form.body) == Some("") then Some(BadForm)
    else if PeriodUsed(records, q) then Some(PeriodTaken)
    else if q.id.None? && q.key.None? then Some(MissingKey)
    else None
  }

  function LateObjection(records: Table<Record>, q: SaveRequest): Option<Error>
    requires q.id.Some? ==> q.id.value in records.rows
    requires Shape(q.mod, q.form)
    requires q.mod == ResellerReceipts ==> RefOk(records, InvoiceField, q.form.refs[InvoiceField])
  {
    if NameUsed(records, q) then Some(NameTaken)
    else if q.mod == ResellerReceipts
            && var i := q.form.refs[InvoiceField];
               TotalOf(q.form.body) > TotalOf(records.rows[i].form.body) - Sum(records, ReceiptOn(i))
    then Some(OverInvoice)
    else if q.id.Some? && q.version != records.rows[q.id.value].version then Some(StaleVersion)
    else None
  }

  function SavedUnder(key: Key): Record -> bool {
    (r: Record) => r.key == key
  }

  /** The row an edit or a new record leaves. */
  function Written(records: Table<Record>, q: SaveRequest, link: Option<nat>): Table<Record>
    requires q.id.Some? ==> q.id.value in records.rows
    requires q.id.None? ==> q.key.Some?
  {
    if q.id.Some? then
      var r := records.rows[q.id.value];
      Put(records, q.id.value, r.(form := q.form, version := r.version + 1, link := link))
    else
      Insert(records, Record(q.mod, q.form, Open, 1, q.key.value, link, false, None))
  }

  /** A renamed warehouse takes its stock along. */
  function Relocated(records: Table<Record>, inventory: Table<Batch>, q: SaveRequest): Table<Batch> {
    if q.id.Some? && q.id.value in records.rows && records.rows[q.id.value].form.body.Warehouse?
       && q.form.body.Warehouse?
       && records.rows[q.id.value].form.body.name != q.form.body.name
    then Update(inventory, Renamed(records.rows[q.id.value].form.body.name, q.form.body.name))
    else inventory
  }

  function LinkOf(records: Table<Record>, id: Option<nat>): Option<nat> {
    if id.Some? && id.value in records.rows then records.rows[id.value].link else None
  }

  function Store(db: Db, q: SaveRequest, today: Date): Outcome
    requires q.id.Some? ==> q.id.value in db.records.rows
    requires q.id.None? ==> q.key.Some?
  {
    var stock := db.stock.(inventory := Relocated(db.records, db.stock.inventory, q));
    match SyncStock(stock, LinkOf(db.records, q.id), WantOf(q.form.body), today, "")
    case Short(e) => Refused(e)
    case Synced(after, link) =>
      Done(db.(stock := after, records := Written(db.records, q, link)),
           if q.id.Some? then q.id.value else db.records.next)
  }

  /** save */
  function SaveRecord(db: Db, q: SaveRequest, today: Date): Outcome {
    var early := EarlyObjection(db.records, db.stock.inventory, q, today);
    if early.Some? then Refused(early.value)
    else
      var prior := if q.id.None? then First(db.records, SavedUnder(q.key.value)) else None;
      if prior.Some? then
        var r := db.records.rows[prior.value];
        if r.mod == q.mod && r.form == q.form then Done(db, prior.value) else Refused(KeyReused)
      else
        var late := LateObjection(db.records, q);
        if late.Some? then Refused(late.value) else Store(db, q, today)
  }

  // ----- actions ----------------------------------------------------------------------------

  predicate IsRecord(records: Table<Record>, mod: Module, id: nat) {
    id in records.rows && records.rows[id].mod == mod
  }

  /** set_state */
  function Stamp(records: Table<Record>, id: nat, state: RecordState, received: bool,
                 expense: Option<nat>): Table<Record>
    requires id in records.rows
  {
    var r := records.rows[id];
    Put(records, id, r.(state := state, version := r.version + 1, received := received, expense := expense))
  }

  /** A company with areas or branches that are not archived. */
  predicate HasParts(records: Table<Record>, id: nat) {
    exists r :: r in records.rows && (records.rows[r].mod == Areas || records.rows[r].mod == Branches)
                && records.rows[r].state != Archived && RefersBy(records.rows[r], CompanyField, id)
  }

  function ArchiveRecord(db: Db, mod: Module, id: nat): Outcome {
    if !IsRecord(db.records, mod, id) then Refused(NoSuchRecord)
    else
      var r := db.records.rows[id];
      if IsImmutable(mod) || r.state != Open then Refused(Immutable)
      else if mod == ResellerInvoices && HasReceiptsOn(db.records, id) then Refused(HasReceipts)
      else if mod == Companies && HasParts(db.records, id) then Refused(LinkedRecords)
      else Done(db.(records := Stamp(db.records, id, Archived, r.received, r.expense)), id)
  }

  predicate IsReferenced(records: Table<Record>, mod: Module, id: nat) {
    exists r, k :: r in records.rows && k in records.rows[r].form.refs && Target(k) == mod
                   && records.rows[r].form.refs[k] == id
  }

  /** deletable */
  predicate Deletable(r: Record) {
    !IsImmutable(r.mod) && (r.state == Open || r.state == Archived)
  }

  /** Stock still stands in the warehouse this record names. */
  predicate HoldsStock(inventory: Table<Batch>, r: Record) {
    r.mod == Warehouses && r.form.body.Warehouse?
    && exists b :: b in inventory.rows && inventory.rows[b].location == r.form.body.name
  }

  /** delete; `manager` is the right of an administrator or a manager. */
  function DeleteRecord(db: Db, mod: Module, id: nat, manager: bool): Outcome {
    if !IsRecord(db.records, mod, id) then Refused(NoSuchRecord)
    else
      var r := db.records.rows[id];
      if !manager then Refused(NotAllowed)
      else if !Deletable(r) then Refused(Immutable)
      else if IsReferenced(db.records, mod, id) then Refused(InUse)
      else if HoldsStock(db.stock.inventory, r) then Refused(StillStocked)
      else Done(db.(stock := GiveBack(db.stock, r.link), records := Drop(db.records, id)), id)
  }

  /** The receive action of a purchase bill. */
  function ReceiveBill(db: Db, id: nat): Outcome {
    if !IsRecord(db.records, PurchaseBills, id) || !db.records.rows[id].form.body.Purchase? then Refused(NoSuchRecord)
    else
      var r := db.records.rows[id];
      var item := r.form.body.stockItem;
      if r.received then Done(db, id)
      else if r.state == Archived then Refused(ArchivedRecord)
      else if item !in db.stock.inventory.rows then Refused(NoSuchBatch)
      else
        Done(db.(stock := db.stock.(inventory := AddQuantity(db.stock.inventory, item, r.form.body.quantity)),
                 records := Stamp(db.records, id, if r.expense.Some? then Paid else Received, true, r.expense)), id)
  }

  /** The pay action. */
  function PayRecord(db: Db, mod: Module, id: nat, terms: PayTerms, today: Date): Outcome {
    if !IsRecord(db.records, mod, id) then Refused(NoSuchRecord)
    else
      var r := db.records.rows[id];
      if !PayModule(mod) then Refused(NotPayable)
      else if !terms.finance then Refused(NotAllowed)
      else if r.expense.Some? then Done(db, id)
      else if r.state == Archived then Refused(ArchivedRecord)
      else if !Payable(TotalOf(r.form.body)) then Refused(BadAmount)
      else if mod == Payroll && !terms.employed then Refused(NoSuchEmployee)
      else if mod == PurchaseBills && !(VendorField in r.form.refs
                                        && RefOk(db.records, VendorField, r.form.refs[VendorField]))
      then Refused(NoSuchRecord)
      else if terms.day > today.day then Refused(FutureDate)
      else if !terms.supported then Refused(BadMethod)
      else
        Done(db.(expenses := Insert(db.expenses, Expense(Some(id), TotalOf(r.form.body), terms.day)),
                 records := Stamp(db.records, id, Paid, r.received, Some(db.expenses.next))), id)
  }
}
