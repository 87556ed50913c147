/** Saving and posting operations records keeps everything else in the CRM right. */
module RecordDesk {
  import opened Tables
  import opened CrmData
  import opened StockRules
  import opened RecoveryRules
  import opened ChargeRules
  import opened PaymentRules
  import opened NetworkRules
  import opened RecordRules
  import opened RecordLaws
  import opened Invariant
  import opened IssueDesk

  // ----- issues a record may change --------------------------------------------------------

  /** Customer issues stay as they are and none is added. */
  ghost predicate OnlyNetwork(issues: Table<Issue>, after: Table<Issue>) {
    && (forall i :: i in issues.rows ==>
          i in after.rows
          && (issues.rows[i].form.to.ToCustomer? ==> after.rows[i] == issues.rows[i])
          && (after.rows[i].form.to.ToCustomer? ==> after.rows[i] == issues.rows[i])
          && after.rows[i].key == issues.rows[i].key)
    && (forall i :: i in after.rows && i !in issues.rows ==>
          !after.rows[i].form.to.ToCustomer? && after.rows[i].key.None?)
  }

  lemma NetworkOwesNothing(issues: Table<Issue>, after: Table<Issue>, d: nat)
    requires OnlyNetwork(issues, after)
    ensures HasPending(after, d) <==> HasPending(issues, d)
  {
    if HasPending(issues, d) {
      var i :| i in issues.rows && Owed(issues.rows[i], d);
      assert i in after.rows && Owed(after.rows[i], d);
    }
    if HasPending(after, d) {
      var i :| i in after.rows && Owed(after.rows[i], d);
      assert i in issues.rows && Owed(issues.rows[i], d);
    }
  }

  lemma NetworkKeepsRecovery(p: People, issues: Table<Issue>, after: Table<Issue>)
    requires RecoveryOk(p, issues) && OnlyNetwork(issues, after)
    ensures RecoveryOk(p, after)
  {
    hide HasRow, HasPendingRow;
    forall d: nat ensures HasPending(after, d) <==> HasPending(issues, d) {
      NetworkOwesNothing(issues, after, d);
    }
  }

  lemma NetworkKeepsCharges(charges: Table<Charge>, issues: Table<Issue>, after: Table<Issue>)
    requires ChargesOk(charges, issues) && OnlyNetwork(issues, after)
    ensures ChargesOk(charges, after)
  {
    forall id | id in after.rows && Billable(after.rows[id]) ensures ChargeOf(charges, id).Some? {
      assert Billable(issues.rows[id]);
    }
  }

  lemma NetworkKeepsKeys(issues: Table<Issue>, after: Table<Issue>)
    requires IssueKeysUnique(issues) && OnlyNetwork(issues, after)
    ensures IssueKeysUnique(after)
  {}

  lemma SyncOnlyNetwork(records: Table<Record>, s: Stock, r: Option<nat>, want: Option<Want>, date: Date, text: string)
    requires NetworkOk(records, s.issues)
    ensures var y := SyncStock(s, LinkOf(records, r), want, date, text);
            y.Synced? ==> OnlyNetwork(s.issues, y.stock.issues)
  {
    hide SyncStock, Linked;
    var link := LinkOf(records, r);
    if link.Some? {
      assert LinkRight(records.rows[r.value], s.issues);
    }
    SyncIssues(s, link, want, date, text);
  }

  lemma GiveBackOnlyNetwork(records: Table<Record>, s: Stock, r: nat)
    requires NetworkOk(records, s.issues) && r in records.rows
    ensures OnlyNetwork(s.issues, GiveBack(s, records.rows[r].link).issues)
  {
    hide Linked;
    assert LinkRight(records.rows[r], s.issues);
  }

  // ----- shelves a record may change ----------------------------------------------------------

  /** Quantities may move, devices may come back; rows, locations and keys stay. */
  ghost predicate SameShelves(s: Stock, after: Stock) {
    && Restocked(s.inventory, after.inventory)
    && (DeviceKeysUnique(s.devices) ==> DeviceKeysUnique(after.devices))
  }

  lemma GiveBackShelves(s: Stock, link: Option<nat>)
    ensures SameShelves(s, GiveBack(s, link))
  {}

  lemma IssueShelves(s: Stock, w: Want, date: Date, text: string)
    ensures IssueNetwork(s, w, date, text).Synced? ==> SameShelves(s, IssueNetwork(s, w, date, text).stock)
  {
    hide Shelf;
  }

  lemma SyncShelves(s: Stock, link: Option<nat>, want: Option<Want>, date: Date, text: string)
    ensures var y := SyncStock(s, link, want, date, text); y.Synced? ==> SameShelves(s, y.stock)
  {
    hide GiveBack, IssueNetwork, DeviceKeysUnique;
    GiveBackShelves(s, link);
    if want.Some? {
      IssueShelves(GiveBack(s, link), want.value, date, text);
    }
  }

  // ----- save ------------------------------------------------------------------------------------

  lemma RelocationKeepsStock(s: Stock, records: Table<Record>, q: SaveRequest)
    requires StockOk(s)
    ensures var after := s.(inventory := Relocated(records, s.inventory, q));
            StockOk(after) && Total(after) == Total(s)
  {
    hide StockOk, Total;
    if Relocated(records, s.inventory, q) != s.inventory {
      RenameKeepsStock(s, records.rows[q.id.value].form.body.name, q.form.body.name);
    }
  }

  lemma NamedIsWarehouse(records: Table<Record>, r: nat, name: string)
    requires r in records.rows && WarehouseNamed(name)(records.rows[r])
    ensures IsWarehouse(records, name)
  {}

  /** A rename moves the rows along, so every row still stands in a warehouse. */
  lemma RelocationKeepsLocations(inventory: Table<Batch>, records: Table<Record>, q: SaveRequest, link: Option<nat>)
    requires LocationsOk(inventory, records) && ShapesOk(records) && Shape(q.mod, q.form)
    requires q.id.Some? ==> q.id.value in records.rows && records.rows[q.id.value].mod == q.mod
    requires q.id.None? ==> q.key.Some?
    ensures LocationsOk(Relocated(records, inventory, q), Written(records, q, link))
  {
    WrittenRow(records, q, link);
    hide Written, IsWarehouse, LocationsOk;
    var after, moved := Written(records, q, link), Relocated(records, inventory, q);
    assert q.id.Some? ==> Shape(records.rows[q.id.value].mod, records.rows[q.id.value].form);
    assert LocationsOk(moved, after) by {
      Relocate(inventory, moved, records, after, q);
    }
  }

  /** Where stock of a warehouse stands after the save. */
  function NewPlace(records: Table<Record>, q: SaveRequest, place: string): string {
    if q.id.Some? && q.id.value in records.rows && records.rows[q.id.value].form.body.Warehouse?
       && q.form.body.Warehouse?
       && records.rows[q.id.value].form.body.name == place
    then q.form.body.name else place
  }

  lemma NewPlaceStands(records: Table<Record>, after: Table<Record>, q: SaveRequest, place: string)
    requires IsWarehouse(records, place) && BodyFits(q.mod, q.form.body)
    requires q.id.Some? ==>
               q.id.value in records.rows && q.id.value in after.rows && records.rows[q.id.value].mod == q.mod
               && after.rows[q.id.value].mod == q.mod && after.rows[q.id.value].form == q.form
               && BodyFits(q.mod, records.rows[q.id.value].form.body)
    requires forall r :: r in records.rows && q.id != Some(r) ==> r in after.rows && after.rows[r] == records.rows[r]
    requires q.mod == Warehouses || NewPlace(records, q, place) == place
    ensures IsWarehouse(after, NewPlace(records, q, place))
  {
    hide IsWarehouse;
    var w := WarehouseAt(records, place);
    if NewPlace(records, q, place) != place || q.id == Some(w) {
      NamedIsWarehouse(after, q.id.value, NewPlace(records, q, place));
    } else {
      NamedIsWarehouse(after, w, place);
    }
  }

  lemma WarehouseAt(records: Table<Record>, place: string) returns (w: nat)
    requires IsWarehouse(records, place)
    ensures w in records.rows && WarehouseNamed(place)(records.rows[w])
  {
    w := First(records, WarehouseNamed(place)).value;
  }

  lemma OnlyWarehousesMove(records: Table<Record>, q: SaveRequest, place: string)
    requires BodyFits(q.mod, q.form.body)
    ensures q.mod == Warehouses || NewPlace(records, q, place) == place
  {}

  lemma Relocate(inventory: Table<Batch>, moved: Table<Batch>, records: Table<Record>, after: Table<Record>,
                 q: SaveRequest)
    requires LocationsOk(inventory, records) && moved == Relocated(records, inventory, q)
    requires BodyFits(q.mod, q.form.body)
    requires q.id.Some? ==>
               q.id.value in records.rows && q.id.value in after.rows && records.rows[q.id.value].mod == q.mod
               && after.rows[q.id.value].mod == q.mod && after.rows[q.id.value].form == q.form
               && BodyFits(q.mod, records.rows[q.id.value].form.body)
    requires forall r :: r in records.rows && q.id != Some(r) ==> r in after.rows && after.rows[r] == records.rows[r]
    ensures LocationsOk(moved, after)
  {
    hide IsWarehouse, BodyFits;
    forall b | b in moved.rows ensures IsWarehouse(after, moved.rows[b].location) {
      var place := inventory.rows[b].location;
      assert moved.rows[b].location == NewPlace(records, q, place);
      OnlyWarehousesMove(records, q, place);
      NewPlaceStands(records, after, q, place);
    }
  }

  lemma SaveRecordKeepsStock(db: Db, q: SaveRequest, today: Date)
    requires Inv(db)
    ensures var after := Commit(db, SaveRecord(db, q, today));
            && StockOk(after.stock) && Total(after.stock) == Total(db.stock)
            && OnlyNetwork(db.stock.issues, after.stock.issues)
            && NetworkOk(after.records, after.stock.issues)
            && DeviceKeysUnique(after.stock.devices)
            && TransfersOk(db.transfers, after.stock.inventory) && LocationsOk(after.stock.inventory, after.records)
  {
    hide StockOk, TransfersOk, RecoveryOk, ChargesOk, MoneyOk, NetworkOk, RecordsOk, LocationsOk, IssueKeysUnique,
         DeviceKeysUnique, Total, SaveRecord, Restocked, OnlyNetwork;
    InvGroups(db);
    var o := SaveRecord(db, q, today);
    if o.Done? && o.db != db {
      SavedStock(db, q, today);
      var stock := db.stock.(inventory := Relocated(db.records, db.stock.inventory, q));
      var link := LinkOf(db.records, q.id);
      RelocationKeepsStock(db.stock, db.records, q);
      SyncKeepsStock(stock, link, WantOf(q.form.body), today, "");
      SyncOnlyNetwork(db.records, stock, q.id, WantOf(q.form.body), today, "");
      SyncShelves(stock, link, WantOf(q.form.body), today, "");
      SaveKeepsNetwork(db.records, o.db.records, o.id, stock, link, q.form.body, today, "");
      SaveKeepsPlaces(db, q, today);
    } else {
      NothingChanged(db.stock.issues);
    }
  }

  lemma NothingChanged(issues: Table<Issue>)
    ensures OnlyNetwork(issues, issues)
  {}

  /** The stock a save leaves, and the row it wrote. */
  lemma SavedStock(db: Db, q: SaveRequest, today: Date)
    requires SaveRecord(db, q, today).Done? && SaveRecord(db, q, today).db != db
    ensures var o := SaveRecord(db, q, today);
            var stock := db.stock.(inventory := Relocated(db.records, db.stock.inventory, q));
            var y := SyncStock(stock, LinkOf(db.records, q.id), WantOf(q.form.body), today, "");
            && y.Synced? && o.db.stock == y.stock
            && o.id == (if q.id.Some? then q.id.value else db.records.next)
            && Rewritten(db.records, o.db.records, o.id, y.link, q.form.body)
            && LinkOf(db.records, q.id) == (if o.id in db.records.rows then db.records.rows[o.id].link else None)
  {
    SavedRow(db, q, today);
    hide SyncStock, Relocated, EarlyObjection, LateObjection, WantOf, Cleared;
  }

  lemma SaveKeepsPlaces(db: Db, q: SaveRequest, today: Date)
    requires Inv(db) && SaveRecord(db, q, today).Done? && SaveRecord(db, q, today).db != db
    ensures var after := SaveRecord(db, q, today).db;
            TransfersOk(db.transfers, after.stock.inventory) && LocationsOk(after.stock.inventory, after.records)
  {
    hide StockOk, TransfersOk, RecoveryOk, ChargesOk, MoneyOk, NetworkOk, RecordsOk, LocationsOk, IssueKeysUnique,
         DeviceKeysUnique, SaveRecord, Restocked, SyncStock, Relocated, EarlyObjection, Written, LateObjection;
    InvGroups(db);
    var o := SaveRecord(db, q, today);
    SavedRow(db, q, today);
    SavedStock(db, q, today);
    EarlyMeans(db.records, db.stock.inventory, q, today);
    var stock := db.stock.(inventory := Relocated(db.records, db.stock.inventory, q));
    assert ShapesOk(db.records) by {
      RecordParts(db.records, db.expenses);
    }
    RelocationKeepsLocations(db.stock.inventory, db.records, q, o.db.records.rows[o.id].link);
    SyncShelves(stock, LinkOf(db.records, q.id), WantOf(q.form.body), today, "");
    RelocatedTransfers(db.transfers, db.stock.inventory, db.records, q);
    RestockingKeeps(stock.inventory, o.db.stock.inventory, db.transfers, o.db.records);
  }

  lemma RelocatedTransfers(transfers: Table<Transfer>, inventory: Table<Batch>, records: Table<Record>, q: SaveRequest)
    requires TransfersOk(transfers, inventory)
    ensures TransfersOk(transfers, Relocated(records, inventory, q))
  {}

  lemma RecordParts(records: Table<Record>, expenses: Table<Expense>)
    requires RecordsOk(records, expenses)
    ensures RefsOk(records) && ShapesOk(records) && StatesOk(records)
  {
    hide RefsOk, ShapesOk, StatesOk, Distinct, ReceiptsWithin, ExpensesOk;
  }

  lemma SaveRecordKeepsInv(db: Db, q: SaveRequest, today: Date)
    requires Inv(db)
    ensures Inv(Commit(db, SaveRecord(db, q, today)))
    ensures Total(Commit(db, SaveRecord(db, q, today)).stock) == Total(db.stock)
  {
    hide StockOk, TransfersOk, RecoveryOk, ChargesOk, MoneyOk, NetworkOk, RecordsOk, LocationsOk, IssueKeysUnique,
         DeviceKeysUnique, Total, SaveRecord, OnlyNetwork;
    InvGroups(db);
    InvGroups(Commit(db, SaveRecord(db, q, today)));
    var o := SaveRecord(db, q, today);
    if o.Done? && o.db != db {
      SaveRecordKeepsStock(db, q, today);
      NetworkKeepsRecovery(db.people, db.stock.issues, o.db.stock.issues);
      NetworkKeepsCharges(db.money.charges, db.stock.issues, o.db.stock.issues);
      NetworkKeepsKeys(db.stock.issues, o.db.stock.issues);
      SaveKeepsRecords(db, q, today);
      SavedRow(db, q, today);
    }
  }

  // ----- actions ------------------------------------------------------------------------------------

  lemma StampKeepsLocations(inventory: Table<Batch>, records: Table<Record>, id: nat, row: Record)
    requires LocationsOk(inventory, records) && id in records.rows
    requires row.form == records.rows[id].form && row.mod == records.rows[id].mod
    ensures LocationsOk(inventory, Put(records, id, row))
  {
    hide First;
    var after := Put(records, id, row);
    forall b | b in inventory.rows ensures IsWarehouse(after, inventory.rows[b].location) {
      NamedIsWarehouse(after, First(records, WarehouseNamed(inventory.rows[b].location)).value,
                       inventory.rows[b].location);
    }
  }

  lemma ArchiveKeepsInv(db: Db, mod: Module, id: nat)
    requires Inv(db)
    ensures Inv(Commit(db, ArchiveRecord(db, mod, id))) && Commit(db, ArchiveRecord(db, mod, id)).stock == db.stock
  {
    hide StockOk, TransfersOk, RecoveryOk, ChargesOk, MoneyOk, NetworkOk, RecordsOk, LocationsOk, IssueKeysUnique,
         DeviceKeysUnique, HasParts, HasReceiptsOn;
    InvGroups(db);
    InvGroups(Commit(db, ArchiveRecord(db, mod, id)));
    var o := ArchiveRecord(db, mod, id);
    if o.Done? {
      ArchiveKeepsRecords(db, mod, id);
      TouchKeepsNetwork(db.records, db.stock.issues, id, o.db.records.rows[id]);
      StampKeepsLocations(db.stock.inventory, db.records, id, o.db.records.rows[id]);
    }
  }

  lemma PayRecordKeepsInv(db: Db, mod: Module, id: nat, terms: PayTerms, today: Date)
    requires Inv(db)
    ensures Inv(Commit(db, PayRecord(db, mod, id, terms, today)))
    ensures Commit(db, PayRecord(db, mod, id, terms, today)).stock == db.stock
  {
    hide StockOk, TransfersOk, RecoveryOk, ChargesOk, MoneyOk, NetworkOk, RecordsOk, LocationsOk, IssueKeysUnique,
         DeviceKeysUnique, TotalOf;
    InvGroups(db);
    InvGroups(Commit(db, PayRecord(db, mod, id, terms, today)));
    var o := PayRecord(db, mod, id, terms, today);
    if o.Done? && o.db != db {
      PayKeepsRecords(db, mod, id, terms, today);
      TouchKeepsNetwork(db.records, db.stock.issues, id, o.db.records.rows[id]);
      StampKeepsLocations(db.stock.inventory, db.records, id, o.db.records.rows[id]);
    }
  }

  /** Receiving a bill adds its quantity to its item, the first time only. */
  lemma ReceiveKeepsInv(db: Db, id: nat)
    requires Inv(db)
    ensures var after := Commit(db, ReceiveBill(db, id));
            && Inv(after)
            && Total(after.stock) == Total(db.stock)
               + (if after != db && id in db.records.rows && db.records.rows[id].form.body.Purchase?
                  then db.records.rows[id].form.body.quantity else 0)
  {
    hide StockOk, TransfersOk, RecoveryOk, ChargesOk, MoneyOk, NetworkOk, RecordsOk, LocationsOk, IssueKeysUnique,
         DeviceKeysUnique, Total, AddQuantity;
    InvGroups(db);
    var o := ReceiveBill(db, id);
    if o.Done? && o.db != db {
      var body := db.records.rows[id].form.body;
      ReceiveKeepsRecords(db, id);
      ReceiveKeepsStock(db.stock, body.stockItem, body.quantity);
      TouchKeepsNetwork(db.records, db.stock.issues, id, o.db.records.rows[id]);
      StampKeepsLocations(db.stock.inventory, db.records, id, o.db.records.rows[id]);
      AddingRestocks(db.stock.inventory, body.stockItem, body.quantity);
      RestockingKeeps(db.stock.inventory, o.db.stock.inventory, db.transfers, o.db.records);
    }
  }

  lemma AddingRestocks(inventory: Table<Batch>, id: nat, n: nat)
    ensures Restocked(inventory, AddQuantity(inventory, id, n))
  {}

  lemma DroppingKeepsLocations(inventory: Table<Batch>, records: Table<Record>, id: nat)
    requires LocationsOk(inventory, records) && id in records.rows && !HoldsStock(inventory, records.rows[id])
    ensures LocationsOk(inventory, Drop(records, id))
  {
    var after := Drop(records, id);
    forall b | b in inventory.rows ensures IsWarehouse(after, inventory.rows[b].location) {
      NamedIsWarehouse(after, First(records, WarehouseNamed(inventory.rows[b].location)).value,
                       inventory.rows[b].location);
    }
  }

  lemma DeleteRecordKeepsInv(db: Db, mod: Module, id: nat, manager: bool)
    requires Inv(db)
    ensures Inv(Commit(db, DeleteRecord(db, mod, id, manager)))
    ensures Total(Commit(db, DeleteRecord(db, mod, id, manager)).stock) == Total(db.stock)
  {
    hide StockOk, TransfersOk, RecoveryOk, ChargesOk, MoneyOk, NetworkOk, RecordsOk, LocationsOk, IssueKeysUnique,
         DeviceKeysUnique, Total, OnlyNetwork, IsReferenced, HoldsStock, GiveBack, Restocked;
    InvGroups(db);
    InvGroups(Commit(db, DeleteRecord(db, mod, id, manager)));
    var o := DeleteRecord(db, mod, id, manager);
    if o.Done? {
      var link := db.records.rows[id].link;
      DeleteKeepsRecords(db, mod, id, manager);
      GiveBackKeepsStock(db.stock, link);
      GiveBackShelves(db.stock, link);
      GiveBackOnlyNetwork(db.records, db.stock, id);
      DeleteKeepsNetwork(db.records, id, db.stock);
      NetworkKeepsRecovery(db.people, db.stock.issues, o.db.stock.issues);
      NetworkKeepsCharges(db.money.charges, db.stock.issues, o.db.stock.issues);
      NetworkKeepsKeys(db.stock.issues, o.db.stock.issues);
      DroppingKeepsLocations(db.stock.inventory, db.records, id);
      RestockingKeeps(db.stock.inventory, o.db.stock.inventory, db.transfers, o.db.records);
    }
  }
}
