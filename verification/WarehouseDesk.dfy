/** Inventory rows, QR labels and transfers between warehouses. */
module WarehouseDesk {
  import opened Tables
  import opened CrmData
  import opened StockRules
  import opened RecoveryRules
  import opened ChargeRules
  import opened PaymentRules
  import opened NetworkRules
  import opened RecordRules
  import opened RecordLaws
  import opened Invariant
  import opened IssueDesk

  function ActiveNamed(name: string): Record -> bool {
    (r: Record) => r.mod == Warehouses && r.state != Archived && r.form.body.Warehouse? && r.form.body.active
                   && r.form.body.name == name
  }

  /** The name is among names(db). */
  predicate ActiveWarehouse(records: Table<Record>, name: string) {
    First(records, ActiveNamed(name)).Some?
  }

  lemma ActiveIsWarehouse(records: Table<Record>, name: string)
    requires ActiveWarehouse(records, name)
    ensures IsWarehouse(records, name)
  {
    assert WarehouseNamed(name)(records.rows[First(records, ActiveNamed(name)).value]);
  }

  // ----- inventory rows -------------------------------------------------------------------

  function AddBatch(db: Db, b: Batch, category: Option<bool>): Outcome {
    if category.None? then Refused(NoSuchCategory)
    else if !category.value then Refused(InactiveCategory)
    else if !ActiveWarehouse(db.records, b.location) then Refused(NoSuchWarehouse)
    else Done(db.(stock := db.stock.(inventory := Insert(db.stock.inventory, b))), db.stock.inventory.next)
  }

  /** `original` is the quantity the form was opened with, when it says. */
  function EditBatch(db: Db, id: nat, b: Batch, original: Option<nat>, category: Option<bool>): Outcome {
    if category.None? then Refused(NoSuchCategory)
    else if id !in db.stock.inventory.rows then
      if !category.value then Refused(InactiveCategory)
      else if ActiveWarehouse(db.records, b.location) then Refused(NoSuchBatch) else Refused(NoSuchWarehouse)
    else
      var row := db.stock.inventory.rows[id];
      if b.quantity < Shelf(db.stock.devices, id) then Refused(BadQuantity)
      else if original.Some? && original.value != row.quantity then Refused(StockChanged)
      else if !category.value && row.category != b.category then Refused(InactiveCategory)
      else if b.location != row.location && !ActiveWarehouse(db.records, b.location) then Refused(NoSuchWarehouse)
      else if b.location != row.location && row.quantity > 0 && row.location != "" then Refused(StillStocked)
      else Done(db.(stock := db.stock.(inventory := Put(db.stock.inventory, id, b))), id)
  }

  predicate InTransfers(transfers: Table<Transfer>, id: nat) {
    exists t :: t in transfers.rows && (transfers.rows[t].from == id || transfers.rows[t].to == id)
  }

  /** Foreign keys hold a row that devices, issues or transfers name. */
  function RemoveBatch(db: Db, id: nat): Outcome {
    if id !in db.stock.inventory.rows then Refused(NoSuchBatch)
    else if InUseBy(db.stock, id) || InTransfers(db.transfers, id) then Refused(InUse)
    else Done(db.(stock := db.stock.(inventory := Drop(db.stock.inventory, id))), id)
  }

  /** A row written or rewritten in a warehouse there is. */
  lemma RowKeeps(inventory: Table<Batch>, after: Table<Batch>, id: nat, transfers: Table<Transfer>,
                 records: Table<Record>)
    requires TransfersOk(transfers, inventory) && LocationsOk(inventory, records)
    requires id in after.rows && IsWarehouse(records, after.rows[id].location)
    requires after.rows.Keys == inventory.rows.Keys + {id}
    requires forall b :: b in inventory.rows && b != id ==> after.rows[b] == inventory.rows[b]
    ensures TransfersOk(transfers, after) && LocationsOk(after, records)
  {
    hide IsWarehouse;
  }

  lemma AddBatchKeepsInv(db: Db, b: Batch, category: Option<bool>)
    requires Inv(db)
    ensures Inv(Commit(db, AddBatch(db, b, category)))
    ensures AddBatch(db, b, category).Done? ==>
              Total(Commit(db, AddBatch(db, b, category)).stock) == Total(db.stock) + b.quantity
  {
    hide StockOk, RecoveryOk, ChargesOk, MoneyOk, NetworkOk, RecordsOk, Total, IsWarehouse, IssueKeysUnique,
         DeviceKeysUnique, ActiveWarehouse, TransfersOk, LocationsOk;
    InvGroups(db);
    InvGroups(Commit(db, AddBatch(db, b, category)));
    if AddBatch(db, b, category).Done? {
      AddKeepsStock(db.stock, b);
      ActiveIsWarehouse(db.records, b.location);
      RowKeeps(db.stock.inventory, Insert(db.stock.inventory, b), db.stock.inventory.next, db.transfers, db.records);
    }
  }

  lemma EditBatchKeepsInv(db: Db, id: nat, b: Batch, original: Option<nat>, category: Option<bool>)
    requires Inv(db)
    ensures Inv(Commit(db, EditBatch(db, id, b, original, category)))
    ensures EditBatch(db, id, b, original, category).Done? ==>
              id in db.stock.inventory.rows
              && Total(Commit(db, EditBatch(db, id, b, original, category)).stock)
                 == Total(db.stock) - db.stock.inventory.rows[id].quantity + b.quantity
  {
    hide StockOk, RecoveryOk, ChargesOk, MoneyOk, NetworkOk, RecordsOk, Total, IsWarehouse, IssueKeysUnique,
         DeviceKeysUnique, ActiveWarehouse, TransfersOk, LocationsOk, Shelf;
    InvGroups(db);
    InvGroups(Commit(db, EditBatch(db, id, b, original, category)));
    if EditBatch(db, id, b, original, category).Done? {
      EditKeepsStock(db.stock, id, b);
      assert IsWarehouse(db.records, b.location) by {
        if b.location != db.stock.inventory.rows[id].location {
          ActiveIsWarehouse(db.records, b.location);
        } else {
          LocatedIn(db.stock.inventory, db.records, id);
        }
      }
      RowKeeps(db.stock.inventory, Put(db.stock.inventory, id, b), id, db.transfers, db.records);
    }
  }

  lemma LocatedIn(inventory: Table<Batch>, records: Table<Record>, id: nat)
    requires LocationsOk(inventory, records) && id in inventory.rows
    ensures IsWarehouse(records, inventory.rows[id].location)
  {
    hide IsWarehouse;
  }

  lemma RemoveBatchKeepsInv(db: Db, id: nat)
    requires Inv(db)
    ensures Inv(Commit(db, RemoveBatch(db, id)))
    ensures RemoveBatch(db, id).Done? ==>
              id in db.stock.inventory.rows
              && Total(Commit(db, RemoveBatch(db, id)).stock) == Total(db.stock) - db.stock.inventory.rows[id].quantity
  {
    hide StockOk, RecoveryOk, ChargesOk, MoneyOk, NetworkOk, RecordsOk, Total, IsWarehouse, IssueKeysUnique,
         DeviceKeysUnique, TransfersOk, LocationsOk, InUseBy, InTransfers;
    InvGroups(db);
    InvGroups(Commit(db, RemoveBatch(db, id)));
    if RemoveBatch(db, id).Done? {
      RemoveKeepsStock(db.stock, id);
      RemovalKeeps(db.stock.inventory, id, db.transfers, db.records);
    }
  }

  lemma RemovalKeeps(inventory: Table<Batch>, id: nat, transfers: Table<Transfer>, records: Table<Record>)
    requires TransfersOk(transfers, inventory) && LocationsOk(inventory, records) && !InTransfers(transfers, id)
    ensures TransfersOk(transfers, Drop(inventory, id)) && LocationsOk(Drop(inventory, id), records)
  {
    hide IsWarehouse;
  }

  // ----- labels -----------------------------------------------------------------------------

  datatype RegisterRequest = RegisterRequest(batch: nat, serial: string, key: Key, receiveNew: bool)

  /** register */
  function Register(db: Db, q: RegisterRequest): Outcome {
    var prior := First(db.stock.devices, DeviceKey(q.key));
    if prior.Some? then
      var d := db.stock.devices.rows[prior.value];
      if d.batch == q.batch && d.serial == q.serial && d.receivedNew == q.receiveNew then Done(db, prior.value)
      else Refused(KeyReused)
    else if q.batch !in db.stock.inventory.rows then Refused(NoSuchBatch)
    else if !q.receiveNew && db.stock.inventory.rows[q.batch].quantity <= Shelf(db.stock.devices, q.batch) then
      Refused(AllLabelled)
    else
      var d := Device(q.batch, q.serial, false, None, Good, q.key, q.receiveNew);
      if !SerialsUnique(Insert(db.stock.devices, d)) then Refused(SerialTaken)
      else Done(db.(stock := Label(db.stock, d)), db.stock.devices.next)
  }

  lemma RegisterKeepsInv(db: Db, q: RegisterRequest)
    requires Inv(db)
    ensures Inv(Commit(db, Register(db, q)))
    ensures Total(Commit(db, Register(db, q)).stock)
         == Total(db.stock) + (if q.receiveNew && Commit(db, Register(db, q)) != db then 1 else 0)
  {
    hide StockOk, RecoveryOk, ChargesOk, MoneyOk, NetworkOk, RecordsOk, Total, TransfersOk, LocationsOk,
         IssueKeysUnique, DeviceKeysUnique, Label, SerialsUnique, Shelf;
    InvGroups(db);
    InvGroups(Commit(db, Register(db, q)));
    var o := Register(db, q);
    if o.Done? && o.db != db {
      var d := Device(q.batch, q.serial, false, None, Good, q.key, q.receiveNew);
      LabelKeepsStock(db.stock, d);
      LabelTotal(db.stock, d);
      LabelKeepsKeys(db.stock, d);
      assert o.db == db.(stock := Label(db.stock, d));
      LabelRestocks(db.stock, d);
      RestockingKeeps(db.stock.inventory, o.db.stock.inventory, db.transfers, db.records);
    }
  }

  lemma LabelRestocks(s: Stock, d: Device)
    requires d.batch in s.inventory.rows
    ensures Restocked(s.inventory, Label(s, d).inventory) && Label(s, d).issues == s.issues
  {}

  lemma LabelKeepsKeys(s: Stock, d: Device)
    requires DeviceKeysUnique(s.devices) && d.batch in s.inventory.rows && First(s.devices, DeviceKey(d.key)).None?
    ensures DeviceKeysUnique(Label(s, d).devices)
  {
    forall u | u in s.devices.rows ensures s.devices.rows[u].key != d.key {
      assert !DeviceKey(d.key)(s.devices.rows[u]);
    }
  }

  /** A registration key is used once: asking again changes nothing. */
  lemma RegisterReplayed(db: Db, q: RegisterRequest, u: nat)
    requires u in db.stock.devices.rows && db.stock.devices.rows[u].key == q.key
    ensures Commit(db, Register(db, q)) == db
  {
    assert DeviceKey(q.key)(db.stock.devices.rows[u]);
  }

  /** set_condition */
  function Inspect(db: Db, u: nat, c: Condition): Outcome {
    if u !in db.stock.devices.rows then Refused(NoSuchDevice)
    else
      var d := db.stock.devices.rows[u];
      Done(db.(stock := db.stock.(devices := Put(db.stock.devices, u, d.(condition := c)))), u)
  }

  lemma InspectKeepsInv(db: Db, u: nat, c: Condition)
    requires Inv(db)
    ensures Inv(Commit(db, Inspect(db, u, c))) && Total(Commit(db, Inspect(db, u, c)).stock) == Total(db.stock)
  {
    hide StockOk, RecoveryOk, ChargesOk, MoneyOk, NetworkOk, RecordsOk, TransfersOk, LocationsOk, IssueKeysUnique, Sum;
    InvGroups(db);
    InvGroups(Commit(db, Inspect(db, u, c)));
    if u in db.stock.devices.rows {
      InspectKeepsStock(db.stock, u, c);
    }
  }

  // ----- transfers -----------------------------------------------------------------------------

  /** The same line of goods in the target warehouse. */
  function SameLine(source: Batch, target: string): Batch -> bool {
    (b: Batch) =>
      b.item == source.item && b.category == source.category && b.batch == source.batch && b.location == target
      && b.unitCost == source.unitCost && b.price == source.price
  }

  /** The row the goods go to, created empty the first time. */
  function WithRow(inventory: Table<Batch>, source: Batch, target: string): Table<Batch> {
    if First(inventory, SameLine(source, target)).Some? then inventory
    else Insert(inventory, source.(quantity := 0, location := target))
  }

  function RowAt(inventory: Table<Batch>, source: Batch, target: string): (to: nat)
    ensures to in WithRow(inventory, source, target).rows
    ensures SameLine(source, target)(WithRow(inventory, source, target).rows[to])
  {
    var found := First(inventory, SameLine(source, target));
    if found.Some? then found.value else inventory.next
  }

  datatype TransferRequest = TransferRequest(from: nat, target: string, quantity: int, key: Key)

  function TransferObjection(s: Stock, records: Table<Record>, q: TransferRequest): Option<Error> {
    if q.from !in s.inventory.rows then Some(NoSuchBatch)
    else if !ActiveWarehouse(records, q.target) then Some(NoSuchWarehouse)
    else if q.target == s.inventory.rows[q.from].location then Some(SameWarehouse)
    else if !(0 < q.quantity <= s.inventory.rows[q.from].quantity) then Some(BadQuantity)
    else None
  }

  /** The stock after the move, before the unique index is checked. */
  function Moved(s: Stock, q: TransferRequest): Stock
    requires q.from in s.inventory.rows && 0 < q.quantity <= s.inventory.rows[q.from].quantity
    requires q.target != s.inventory.rows[q.from].location
  {
    var source := s.inventory.rows[q.from];
    Shift(s.(inventory := WithRow(s.inventory, source, q.target)), q.from, RowAt(s.inventory, source, q.target),
          q.quantity)
  }

  /** transfer */
  function TransferStock(db: Db, q: TransferRequest): Outcome {
    var prior := First(db.transfers, TransferKey(q.key));
    var o := TransferObjection(db.stock, db.records, q);
    if prior.Some? then Done(db, prior.value)
    else if o.Some? then Refused(o.value)
    else
      var source := db.stock.inventory.rows[q.from];
      var row := Transfer(q.from, RowAt(db.stock.inventory, source, q.target), q.quantity,
                          Surplus(db.stock, q.from, q.quantity), q.key);
      var after := Moved(db.stock, q);
      if !SerialsUnique(after.devices) then Refused(SerialTaken)
      else Done(db.(stock := after, transfers := Insert(db.transfers, row)), db.transfers.next)
  }

  lemma WithRowKeepsStock(s: Stock, source: Batch, target: string)
    requires StockOk(s)
    ensures StockOk(s.(inventory := WithRow(s.inventory, source, target)))
    ensures Total(s.(inventory := WithRow(s.inventory, source, target))) == Total(s)
  {
    hide StockOk, Total;
    AddKeepsStock(s, source.(quantity := 0, location := target));
  }

  lemma MovedKeepsStock(s: Stock, q: TransferRequest)
    requires StockOk(s) && q.from in s.inventory.rows && 0 < q.quantity <= s.inventory.rows[q.from].quantity
    requires q.target != s.inventory.rows[q.from].location
    requires SerialsUnique(Moved(s, q).devices)
    ensures StockOk(Moved(s, q)) && Total(Moved(s, q)) == Total(s)
  {
    hide StockOk, Total, Shift, SerialsUnique, Surplus;
    var source := s.inventory.rows[q.from];
    var with := s.(inventory := WithRow(s.inventory, source, q.target));
    WithRowKeepsStock(s, source, q.target);
    ShiftKeepsStock(with, q.from, RowAt(s.inventory, source, q.target), q.quantity);
    ShiftConserves(with, q.from, RowAt(s.inventory, source, q.target), q.quantity);
  }

  lemma MovedRows(s: Stock, q: TransferRequest, records: Table<Record>, transfers: Table<Transfer>)
    requires q.from in s.inventory.rows && 0 < q.quantity <= s.inventory.rows[q.from].quantity
    requires q.target != s.inventory.rows[q.from].location
    requires LocationsOk(s.inventory, records) && IsWarehouse(records, q.target) && TransfersOk(transfers, s.inventory)
    ensures LocationsOk(Moved(s, q).inventory, records) && TransfersOk(transfers, Moved(s, q).inventory)
    ensures Moved(s, q).issues == s.issues
    ensures DeviceKeysUnique(s.devices) ==> DeviceKeysUnique(Moved(s, q).devices)
    ensures RowAt(s.inventory, s.inventory.rows[q.from], q.target) in Moved(s, q).inventory.rows
    ensures q.from in Moved(s, q).inventory.rows
  {
    hide IsWarehouse, Surplus, Moves;
  }

  lemma TransferRecorded(transfers: Table<Transfer>, inventory: Table<Batch>, t: Transfer)
    requires TransfersOk(transfers, inventory) && First(transfers, TransferKey(t.key)).None?
    requires t.from in inventory.rows && t.to in inventory.rows && t.from != t.to && 0 < t.quantity
             && t.moved <= t.quantity
    ensures TransfersOk(Insert(transfers, t), inventory)
  {
    forall k | k in transfers.rows ensures transfers.rows[k].key != t.key {
      assert !TransferKey(t.key)(transfers.rows[k]);
    }
  }

  /** A transfer that changed something got past every check. */
  lemma TransferMade(db: Db, q: TransferRequest)
    requires Inv(db) && TransferStock(db, q).Done? && TransferStock(db, q).db != db
    ensures First(db.transfers, TransferKey(q.key)).None?
    ensures q.from in db.stock.inventory.rows && 0 < q.quantity <= db.stock.inventory.rows[q.from].quantity
    ensures q.target != db.stock.inventory.rows[q.from].location && IsWarehouse(db.records, q.target)
    ensures Surplus(db.stock, q.from, q.quantity) <= q.quantity
    ensures var row := Transfer(q.from, RowAt(db.stock.inventory, db.stock.inventory.rows[q.from], q.target),
                                q.quantity,
                                Surplus(db.stock, q.from, q.quantity), q.key);
            TransferStock(db, q).db == db.(stock := Moved(db.stock, q), transfers := Insert(db.transfers, row))
    ensures SerialsUnique(Moved(db.stock, q).devices)
  {
    hide RecoveryOk, ChargesOk, MoneyOk, NetworkOk, RecordsOk, TransfersOk, LocationsOk, IsWarehouse, ActiveWarehouse,
         Homed, Held, Moved;
    InvGroups(db);
    ActiveIsWarehouse(db.records, q.target);
  }

  lemma TransferKeepsInv(db: Db, q: TransferRequest)
    requires Inv(db)
    ensures Inv(Commit(db, TransferStock(db, q)))
    ensures Total(Commit(db, TransferStock(db, q)).stock) == Total(db.stock)
  {
    hide StockOk, RecoveryOk, ChargesOk, MoneyOk, NetworkOk, RecordsOk, TransfersOk, LocationsOk, IssueKeysUnique,
         DeviceKeysUnique, Total, Moved, TransferStock, SerialsUnique, IsWarehouse, Surplus;
    InvGroups(db);
    InvGroups(Commit(db, TransferStock(db, q)));
    var o := TransferStock(db, q);
    if o.Done? && o.db != db {
      TransferMade(db, q);
      MovedKeepsStock(db.stock, q);
      MovedRows(db.stock, q, db.records, db.transfers);
      TransferRecorded(db.transfers, o.db.stock.inventory, o.db.transfers.rows[db.transfers.next]);
    }
  }

  /** A transfer key is used once, whatever the request says. */
  lemma TransferReplayed(db: Db, q: TransferRequest, t: nat)
    requires t in db.transfers.rows && db.transfers.rows[t].key == q.key
    ensures Commit(db, TransferStock(db, q)) == db && TransferStock(db, q).Done?
  {
    assert TransferKey(q.key)(db.transfers.rows[t]);
  }

  predicate SameGoods(a: Batch, b: Batch) {
    a.item == b.item && a.category == b.category && a.batch == b.batch && a.unitCost == b.unitCost && a.price == b.price
  }

  /** The quantity left its row and arrived in a row of the same goods at the target, made if there was none. */
  ghost predicate GoodsMoved(t: Table<Batch>, after: Table<Batch>, from: nat, to: nat, target: string, quantity: nat) {
    && from in t.rows && from in after.rows && to in after.rows && from != to && quantity <= t.rows[from].quantity
    && after.rows[from] == t.rows[from].(quantity := t.rows[from].quantity - quantity)
    && SameGoods(t.rows[from], after.rows[to]) && after.rows[to].location == target
    && (if to in t.rows then
          after.next == t.next && after.rows[to] == t.rows[to].(quantity := t.rows[to].quantity + quantity)
        else
          && to == t.next && after.next == t.next + 1
          && after.rows[to] == t.rows[from].(location := target, quantity := quantity)
          && forall b :: b in t.rows && t.rows[b].location == target ==> !SameGoods(t.rows[from], t.rows[b]))
    && after.rows.Keys == t.rows.Keys + {to}
    && (forall b :: b in t.rows && b != from && b != to ==> after.rows[b] == t.rows[b])
  }

  lemma MovedRowsExactly(s: Stock, q: TransferRequest)
    requires q.from in s.inventory.rows && 0 < q.quantity <= s.inventory.rows[q.from].quantity
    requires q.target != s.inventory.rows[q.from].location
    ensures var s', to := Moved(s, q), RowAt(s.inventory, s.inventory.rows[q.from], q.target);
            && GoodsMoved(s.inventory, s'.inventory, q.from, to, q.target, q.quantity)
            && s'.issues == s.issues
  {
    hide MoveDevices, Surplus;
    var source := s.inventory.rows[q.from];
    forall b | b in s.inventory.rows && s.inventory.rows[b].location == q.target
               && SameGoods(source, s.inventory.rows[b])
      ensures SameLine(source, q.target)(s.inventory.rows[b])
    {}
  }

  /** What a transfer does: the quantity leaves the source row and arrives in a row for the same goods in the target
      warehouse; exactly the labelled devices the source can no longer cover go along, lowest label first, none of
      them issued; no other row, device or issue changes. */
  lemma TransferIsExact(s: Stock, q: TransferRequest)
    requires StockOk(s) && q.from in s.inventory.rows && 0 < q.quantity <= s.inventory.rows[q.from].quantity
    requires q.target != s.inventory.rows[q.from].location
    ensures var s', to := Moved(s, q), RowAt(s.inventory, s.inventory.rows[q.from], q.target);
            var n := Surplus(s, q.from, q.quantity);
            && GoodsMoved(s.inventory, s'.inventory, q.from, to, q.target, q.quantity)
            && s'.issues == s.issues && s'.devices.rows.Keys == s.devices.rows.Keys
            && Shelf(s'.devices, q.from) == Shelf(s.devices, q.from) - n
            && Shelf(s'.devices, to) == Shelf(s.devices, to) + n
            && q.from in s'.inventory.rows
            && (n > 0 ==> Shelf(s'.devices, q.from) == s'.inventory.rows[q.from].quantity)
            && (forall u :: u in s.devices.rows && (s.devices.rows[u].issued || s.devices.rows[u].batch != q.from) ==>
                  s'.devices.rows[u] == s.devices.rows[u])
            && (forall u, v :: u in s.devices.rows && v in s.devices.rows && u < v
                               && s.devices.rows[u].batch == q.from && !s.devices.rows[u].issued
                               && s'.devices.rows[v] != s.devices.rows[v] ==>
                  s'.devices.rows[u] == s.devices.rows[u].(batch := to))
  {
    hide Shelf, StockOk, AddQuantity, SameLine, SameGoods, Moves;
    var source := s.inventory.rows[q.from];
    var with := s.(inventory := WithRow(s.inventory, source, q.target));
    MovedRowsExactly(s, q);
    WithRowKeepsStock(s, source, q.target);
    ShiftIsMinimal(with, q.from, RowAt(s.inventory, source, q.target), q.quantity);
  }
}
