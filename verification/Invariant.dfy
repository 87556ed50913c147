/** What holds in every reachable state of the CRM, group by group. */
module Invariant {
  import opened Tables
  import opened CrmData
  import opened StockRules
  import opened RecoveryRules
  import opened ChargeRules
  import opened PaymentRules
  import opened LedgerRules
  import opened NetworkRules
  import opened RecordRules
  import opened RecordLaws

  function IssueKey(key: Key): Issue -> bool {
    (i: Issue) => i.key == Some(key)
  }

  function DeviceKey(key: Key): Device -> bool {
    (d: Device) => d.key == key
  }

  function TransferKey(key: Key): Transfer -> bool {
    (t: Transfer) => t.key == key
  }

  ghost predicate IssueKeysUnique(issues: Table<Issue>) {
    forall i, j :: (i in issues.rows && j in issues.rows && issues.rows[i].key.Some?
                    && issues.rows[i].key == issues.rows[j].key) ==> i == j
  }

  ghost predicate DeviceKeysUnique(devices: Table<Device>) {
    forall u, v :: u in devices.rows && v in devices.rows && devices.rows[u].key == devices.rows[v].key ==> u == v
  }

  ghost predicate TransfersOk(transfers: Table<Transfer>, inventory: Table<Batch>) {
    && (forall t :: t in transfers.rows ==>
          transfers.rows[t].from in inventory.rows && transfers.rows[t].to in inventory.rows
          && transfers.rows[t].from != transfers.rows[t].to
          && 0 < transfers.rows[t].quantity && transfers.rows[t].moved <= transfers.rows[t].quantity)
    && (forall t, u :: t in transfers.rows && u in transfers.rows && transfers.rows[t].key == transfers.rows[u].key ==>
          t == u)
  }

  /** The groups of facts the invariant is made of. */
  datatype Group =
    | StockGroup | IssueKeyGroup | DeviceKeyGroup | TransferGroup | RecoveryGroup | ChargeGroup | MoneyGroup
    | NetworkGroup | RecordGroup | LocationGroup

  ghost predicate Holds(g: Group, db: Db) {
    match g
    case StockGroup => StockOk(db.stock)
    case IssueKeyGroup => IssueKeysUnique(db.stock.issues)
    case DeviceKeyGroup => DeviceKeysUnique(db.stock.devices)
    case TransferGroup => TransfersOk(db.transfers, db.stock.inventory)
    case RecoveryGroup => RecoveryOk(db.people, db.stock.issues)
    case ChargeGroup => ChargesOk(db.money.charges, db.stock.issues)
    case MoneyGroup => MoneyOk(db.money, db.people.customers)
    case NetworkGroup => NetworkOk(db.records, db.stock.issues)
    case RecordGroup => RecordsOk(db.records, db.expenses)
    case LocationGroup => LocationsOk(db.stock.inventory, db.records)
  }

  /** What every reachable state satisfies. */
  ghost predicate Inv(db: Db) {
    forall g: Group :: Holds(g, db)
  }

  lemma InvGroups(db: Db)
    ensures Inv(db) <==>
              && StockOk(db.stock)
              && IssueKeysUnique(db.stock.issues)
              && DeviceKeysUnique(db.stock.devices)
              && TransfersOk(db.transfers, db.stock.inventory)
              && RecoveryOk(db.people, db.stock.issues)
              && ChargesOk(db.money.charges, db.stock.issues)
              && MoneyOk(db.money, db.people.customers)
              && NetworkOk(db.records, db.stock.issues)
              && RecordsOk(db.records, db.expenses)
              && LocationsOk(db.stock.inventory, db.records)
  {
    hide StockOk, IssueKeysUnique, DeviceKeysUnique, TransfersOk, RecoveryOk, ChargesOk, MoneyOk, NetworkOk,
         RecordsOk, LocationsOk;
    if Inv(db) {
      assert Holds(StockGroup, db) && Holds(IssueKeyGroup, db) && Holds(DeviceKeyGroup, db) && Holds(TransferGroup, db)
             && Holds(RecoveryGroup, db) && Holds(ChargeGroup, db) && Holds(MoneyGroup, db) && Holds(NetworkGroup, db)
             && Holds(RecordGroup, db) && Holds(LocationGroup, db);
    }
  }

  function EmptyDb(): Db {
    Db(Stock(Empty(), Empty(), Empty()), Empty(), People(Empty(), Empty()),
       Money(Empty(), Empty(), Empty(), map[], Empty()), Empty(), Empty())
  }

  lemma EmptyStock()
    ensures var s := EmptyDb().stock; StockOk(s) && IssueKeysUnique(s.issues) && DeviceKeysUnique(s.devices)
    ensures TransfersOk(Empty(), Empty()) && LocationsOk(Empty(), Empty()) && NetworkOk(Empty(), Empty())
  {}

  lemma EmptyAccounts()
    ensures RecoveryOk(EmptyDb().people, Empty()) && ChargesOk(Empty(), Empty())
    ensures MoneyOk(EmptyDb().money, Empty()) && RecordsOk(Empty(), Empty())
  {}

  lemma EmptyHolds()
    ensures Inv(EmptyDb())
  {
    hide StockOk, RecoveryOk, ChargesOk, MoneyOk, NetworkOk, RecordsOk, LocationsOk, TransfersOk;
    hide IssueKeysUnique, DeviceKeysUnique;
    EmptyStock();
    EmptyAccounts();
    InvGroups(EmptyDb());
  }

  /** Charges are for services and equipment, so every account reconciles. */
  lemma ChargeKinds(db: Db)
    requires Inv(db)
    ensures LinkedKinds(db.money)
  {
    hide StockOk, RecoveryOk, MoneyOk, NetworkOk, RecordsOk, LocationsOk, TransfersOk;
    InvGroups(db);
  }
}
