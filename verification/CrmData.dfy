/** The rows the CRM keeps. Money is in paisa, text fields nothing computes on are folded into one. */
module CrmData {
  import opened Tables

  type Key = string
  /** A billing month, 12 * year + month - 1. */
  type Month = int

  /** A calendar date: its day number and the billing month it falls in. */
  datatype Date = Date(day: int, month: Month)

  // ----- stock -----------------------------------------------------------------

  /** One inventory row: an item of one batch in one warehouse. */
  datatype Batch = Batch(item: string, category: string, batch: string, quantity: nat, minimum: nat,
                         unitCost: nat, location: string, price: nat)

  datatype Condition = Good | Damaged | UnderRepair

  /** A device with a QR label; the label is its id. */
  datatype Device = Device(batch: nat, serial: string, issued: bool, issue: Option<nat>, condition: Condition,
                           key: Key, receivedNew: bool)

  datatype Recipient = ToCustomer(customer: nat) | ToSystem | ToNetwork

  datatype IssueForm = IssueForm(batch: nat, to: Recipient, employee: Option<nat>, quantity: nat,
                                 recovery: bool, date: Date, text: string)

  /** `out` is status Issued; `device` is the label its Issued movement names; `synced` marks an issue made by a
      network record. */
  datatype Issue = Issue(form: IssueForm, out: bool, price: Option<nat>, listPrice: nat, device: Option<nat>,
                         key: Option<Key>, synced: bool)

  datatype Stock = Stock(inventory: Table<Batch>, devices: Table<Device>, issues: Table<Issue>)

  datatype Transfer = Transfer(from: nat, to: nat, quantity: nat, moved: nat, key: Key)

  // ----- customers ---------------------------------------------------------------

  datatype Status = Active | Suspended | Disconnected | Terminated

  datatype RecoveryStatus = NotRequired | RecoveryPending | Recovered | NothingToRecover

  datatype Customer = Customer(status: Status, recovery: RecoveryStatus, fee: nat, installation: nat,
                               joined: Date, expiry: int)

  datatype Recovery = Recovery(customer: nat, status: RecoveryStatus, loss: nat, day: int)

  datatype People = People(customers: Table<Customer>, recoveries: Table<Recovery>)

  // ----- money ---------------------------------------------------------------------

  datatype Category = Other | Installation | Equipment | Service

  datatype Revenue = Mrc | Otc(category: Category)

  datatype Channel = Manual(name: string) | Online(name: string)

  datatype Charge = Charge(customer: nat, date: Date, amount: nat, kind: Category, issue: Option<nat>,
                           key: Option<Key>, text: string)

  datatype Invoice = Invoice(customer: nat, month: Month, amount: nat, issued: Date, previous: nat)

  datatype PaymentForm = PaymentForm(customer: nat, kind: Revenue, amount: nat, date: Date, month: Month,
                                     channel: Channel, reference: string, charge: Option<nat>)

  datatype Payment = Payment(form: PaymentForm, key: Option<Key>)

  datatype Receipt = Receipt(customer: nat, amount: nat, month: Month, status: Status, expiry: int,
                             activated: bool, outstanding: nat, partial: bool)

  datatype Recharge = Recharge(customer: nat, month: Month, fee: nat, received: nat, previousExpiry: int,
                               expiry: int, payment: nat, partial: bool, outstanding: nat)

  datatype Money = Money(charges: Table<Charge>, invoices: Table<Invoice>, payments: Table<Payment>,
                         receipts: map<nat, Receipt>, recharges: Table<Recharge>)

  // ----- operations records ----------------------------------------------------------

  datatype Module =
    | Companies | Areas | Branches | Vendors | PurchaseBills | Warehouses | Zones | SubZones | Pops
    | NetworkDevices | NetworkLinks | FiberSegments | BandwidthProviders | BandwidthItems | BandwidthBills
    | Resellers | ResellerInvoices | ResellerReceipts | CashAccounts | CashTransactions | Payroll

  /** The `ref:` fields; each points into one module. */
  datatype Field =
    | CompanyField | ZoneField | BranchField | VendorField | PopField | FromDevice | ToDevice
    | ProviderField | ItemField | ResellerField | InvoiceField | AccountField

  datatype Salary = Salary(basic: nat, allowances: nat, bonus: nat, overtime: nat, incentive: nat, deductions: nat)

  /** What a form holds besides references. */
  datatype Body =
    | Plain
    | Named(name: string)
    | Warehouse(name: string, active: bool)
    | Appliance(item: Option<nat>, installer: Option<nat>)
    | Cable(planned: bool, item: Option<nat>, used: nat, lengthDm: nat, installer: Option<nat>)
    | Purchase(stockItem: nat, quantity: nat, unitCost: nat)
    | Amount(amount: nat, day: int)
    | Payslip(employee: nat, month: Month, salary: Salary)

  datatype Form = Form(refs: map<Field, nat>, body: Body, text: string)

  datatype RecordState = Open | Received | Paid | Archived

  /** `link` is stock_issue_id, `received` is received_at, `expense` is expense_id. */
  datatype Record = Record(mod: Module, form: Form, state: RecordState, version: nat, key: Key,
                           link: Option<nat>, received: bool, expense: Option<nat>)

  /** `reference` is the record a reference of the form OPS-n names, if the row has one. */
  datatype Expense = Expense(reference: Option<nat>, amount: nat, day: int)

  /** What comes with a request to pay: the payment date, the right of finance, whether the employee of a payroll record
      still has a staff row, and whether the method is one of Cash, Bank transfer and Mobile wallet. */
  datatype PayTerms = PayTerms(day: int, finance: bool, employed: bool, supported: bool)

  // ----- the database ------------------------------------------------------------------

  datatype Db = Db(stock: Stock, transfers: Table<Transfer>, people: People, money: Money,
                   records: Table<Record>, expenses: Table<Expense>)

  /** Why a request is refused; everything it did is rolled back. */
  datatype Error =
    | KeyReused | NoSuchCustomer | CustomerTerminated | NoSuchBatch | NoSuchDevice | DeviceElsewhere
    | DeviceIssued | DeviceNotGood | OneDeviceOneUnit | LabelledStock | InsufficientStock | BadPrice
    | NoSuchIssue | NotAllowed | ChargePaid | SerialTaken | AllLabelled | NoSuchWarehouse | SameWarehouse
    | BadQuantity | StockChanged | StillStocked | RecoveryOutstanding | BelowCollected | BadExpiry
    | InUse | BadReason | BadAmount | FutureDate | OnlineReceipt | NoSuchPayment | ReceiptSaved
    | ChargesDue | ChargeMismatch | OverCharge | OverInstallation | OtcActivates | NoSuchRecord | Immutable
    | BadForm | NameTaken | OverInvoice | HasReceipts | HasTransactions | StaleVersion | ArchivedRecord
    | LinkedRecords | NotPayable | MissingKey | PeriodTaken | NoSuchEmployee | BadMethod | NoSuchExpense
    | NoSuchCategory | InactiveCategory

  datatype Outcome = Done(db: Db, id: nat) | Refused(error: Error)

  /** A transaction commits or leaves everything as it was. */
  function Commit(before: Db, o: Outcome): Db {
    if o.Done? then o.db else before
  }
}
