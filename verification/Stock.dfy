/** Bulk quantities, labelled devices and stock issues, and the invariant the operations on them share. */
module StockRules {
  import opened Tables
  import opened CrmData

  // ----- counting ----------------------------------------------------------------

  /** Labelled devices waiting on the shelf of a batch row. */
  function ShelfUnit(batch: nat): Device -> int {
    (d: Device) => if d.batch == batch && !d.issued then 1 else 0
  }

  function Shelf(devices: Table<Device>, batch: nat): int {
    Sum(devices, ShelfUnit(batch))
  }

  /** The number of labelled devices of a row on the shelf. */
  function Labelled(devices: Table<Device>, batch: nat): nat {
    |set u | u in devices.rows && devices.rows[u].batch == batch && !devices.rows[u].issued|
  }

  lemma {:induction false} ShelfBelow(devices: Table<Device>, batch: nat, n: nat)
    ensures SumBelow(devices.rows, ShelfUnit(batch), n)
         == |set u | u in devices.rows && u < n && devices.rows[u].batch == batch && !devices.rows[u].issued|
  {
    var below := set u | u in devices.rows && u < n && devices.rows[u].batch == batch && !devices.rows[u].issued;
    if n == 0 {
      assert below == {};
    } else {
      ShelfBelow(devices, batch, n - 1);
      var before := set u | u in devices.rows && u < n - 1 && devices.rows[u].batch == batch
                            && !devices.rows[u].issued;
      assert below == if n - 1 in devices.rows && devices.rows[n - 1].batch == batch && !devices.rows[n - 1].issued
                      then before + {n - 1} else before;
    }
  }

  lemma ShelfCounts(devices: Table<Device>, batch: nat)
    ensures Shelf(devices, batch) == Labelled(devices, batch)
  {
    ShelfBelow(devices, batch, devices.next);
    assert (set u | u in devices.rows && u < devices.next && devices.rows[u].batch == batch && !devices.rows[u].issued)
        == (set u | u in devices.rows && devices.rows[u].batch == batch && !devices.rows[u].issued);
  }

  function Quantity(): Batch -> int {
    (b: Batch) => b.quantity
  }

  function OutQuantity(): Issue -> int {
    (i: Issue) => if i.out then i.form.quantity else 0
  }

  /** All stock the company has: on shelves and out on issues. */
  function Total(s: Stock): int {
    Sum(s.inventory, Quantity()) + Sum(s.issues, OutQuantity())
  }

  // ----- the invariant -------------------------------------------------------------

  ghost predicate Homed(s: Stock) {
    && (forall u :: u in s.devices.rows ==> s.devices.rows[u].batch in s.inventory.rows)
    && (forall u :: u in s.devices.rows && s.devices.rows[u].issue.Some? ==>
          s.devices.rows[u].issue.value in s.issues.rows)
    && (forall i :: i in s.issues.rows ==> s.issues.rows[i].form.batch in s.inventory.rows)
  }

  /** Every labelled device on the shelf is covered by the quantity of its row. */
  ghost predicate Covered(inventory: Table<Batch>, devices: Table<Device>) {
    forall b :: b in inventory.rows ==> Shelf(devices, b) <= inventory.rows[b].quantity
  }

  /** The issue an issued device names is out, for one unit, from the row the device belongs to. */
  predicate HeldBy(d: Device, issues: Table<Issue>) {
    d.issue.Some? && d.issue.value in issues.rows
    && var i := issues.rows[d.issue.value];
       i.out && i.form.quantity == 1 && i.form.batch == d.batch
  }

  /** No two issued devices name the same issue. */
  ghost predicate OneEach(devices: Table<Device>) {
    forall u, v :: (u in devices.rows && v in devices.rows && devices.rows[u].issued && devices.rows[v].issued
                    && devices.rows[u].issue == devices.rows[v].issue) ==> u == v
  }

  /** Every issued device belongs to exactly one outstanding one-unit issue of its row, and no two to the same. */
  ghost predicate Held(devices: Table<Device>, issues: Table<Issue>) {
    && (forall u :: u in devices.rows && devices.rows[u].issued ==> HeldBy(devices.rows[u], issues))
    && OneEach(devices)
  }

  /** The unique index on (inventory_id, serial_number). */
  predicate SerialsUnique(devices: Table<Device>) {
    forall u, v :: u in devices.rows && v in devices.rows && u != v && devices.rows[u].serial != ""
                   && devices.rows[u].batch == devices.rows[v].batch ==>
      devices.rows[u].serial != devices.rows[v].serial
  }

  ghost predicate StockOk(s: Stock) {
    && Homed(s)
    && Covered(s.inventory, s.devices)
    && Held(s.devices, s.issues)
    && SerialsUnique(s.devices)
  }

  // ----- rows in bulk --------------------------------------------------------------

  /** UPDATE inventory SET quantity=quantity+n WHERE id=... */
  function AddQuantity(inventory: Table<Batch>, id: nat, n: int): Table<Batch>
    requires id in inventory.rows ==> inventory.rows[id].quantity + n >= 0
  {
    if id !in inventory.rows then inventory
    else Put(inventory, id, inventory.rows[id].(quantity := inventory.rows[id].quantity + n))
  }

  // ----- issuing -------------------------------------------------------------------

  predicate CanPlace(s: Stock, i: Issue) {
    && i.form.batch in s.inventory.rows
    && i.form.quantity <= s.inventory.rows[i.form.batch].quantity
    && (i.device.Some? ==> i.device.value in s.devices.rows)
  }

  /** A new issue: its row is written, its device if any is marked, its quantity leaves the shelf. */
  function Place(s: Stock, i: Issue): Stock
    requires CanPlace(s, i)
  {
    Stock(AddQuantity(s.inventory, i.form.batch, 0 - i.form.quantity),
          if i.device.None? then s.devices
          else Put(s.devices, i.device.value,
                   s.devices.rows[i.device.value].(issued := true, issue := Some(s.issues.next))),
          Insert(s.issues, i))
  }

  /** What the operations check before they place an issue. */
  predicate Placeable(s: Stock, i: Issue)
    requires CanPlace(s, i)
  {
    match i.device
    case Some(u) => i.form.quantity == 1 && s.devices.rows[u].batch == i.form.batch && !s.devices.rows[u].issued
    case None => i.form.quantity <= s.inventory.rows[i.form.batch].quantity - Shelf(s.devices, i.form.batch)
  }

  lemma PlaceShelf(s: Stock, i: Issue, b: nat)
    requires CanPlace(s, i)
    ensures Shelf(Place(s, i).devices, b)
         == Shelf(s.devices, b)
          - (if i.device.Some? then ShelfUnit(b)(s.devices.rows[i.device.value]) else 0)
  {
    if i.device.Some? {
      var d := s.devices.rows[i.device.value];
      SumPut(s.devices, ShelfUnit(b), i.device.value, d.(issued := true, issue := Some(s.issues.next)));
    }
  }

  lemma PlaceCovers(s: Stock, i: Issue)
    requires CanPlace(s, i) && Placeable(s, i) && Covered(s.inventory, s.devices)
    ensures Covered(Place(s, i).inventory, Place(s, i).devices)
  {
    forall b | b in s.inventory.rows
      ensures Shelf(Place(s, i).devices, b) <= Place(s, i).inventory.rows[b].quantity
    {
      PlaceShelf(s, i, b);
    }
  }

  lemma PlaceHolds(s: Stock, i: Issue)
    requires CanPlace(s, i) && Placeable(s, i) && i.out && Held(s.devices, s.issues)
    ensures Held(Place(s, i).devices, Place(s, i).issues)
  {
    var s' := Place(s, i);
    forall u | u in s.devices.rows && s.devices.rows[u].issued
      ensures s.devices.rows[u].issue != Some(s.issues.next) && HeldBy(s.devices.rows[u], s'.issues)
    {
      assert HeldBy(s.devices.rows[u], s.issues);
    }
  }

  lemma PlaceKeepsStock(s: Stock, i: Issue)
    requires StockOk(s) && CanPlace(s, i) && Placeable(s, i) && i.out
    ensures StockOk(Place(s, i))
  {
    hide Held, Covered;
    PlaceCovers(s, i);
    PlaceHolds(s, i);
  }

  lemma PlaceConserves(s: Stock, i: Issue)
    requires CanPlace(s, i) && i.out
    ensures Total(Place(s, i)) == Total(s)
  {
    var b := s.inventory.rows[i.form.batch];
    SumPut(s.inventory, Quantity(), i.form.batch, b.(quantity := b.quantity - i.form.quantity));
    SumInsert(s.issues, OutQuantity(), i);
  }

  // ----- returning -----------------------------------------------------------------

  /** A device of the returned issue goes back on the shelf; the link to the issue stays. */
  function BackOnShelf(issue: nat): Device -> Device {
    (d: Device) => if d.issued && d.issue == Some(issue) then d.(issued := false) else d
  }

  function BringBack(s: Stock, id: nat): Stock
    requires id in s.issues.rows
  {
    var i := s.issues.rows[id];
    if !i.out then s
    else Stock(AddQuantity(s.inventory, i.form.batch, i.form.quantity),
               Update(s.devices, BackOnShelf(id)),
               Put(s.issues, id, i.(out := false)))
  }

  /** At most one device answers to an issue, so taking an issue back touches at most one. */
  lemma BackOnShelfIsOne(s: Stock, id: nat)
    requires Held(s.devices, s.issues)
    ensures var devices' := Update(s.devices, BackOnShelf(id));
            devices' == s.devices
            || exists u :: u in s.devices.rows && s.devices.rows[u].issued && s.devices.rows[u].issue == Some(id)
                           && devices' == Put(s.devices, u, s.devices.rows[u].(issued := false))
  {
    var devices' := Update(s.devices, BackOnShelf(id));
    if u :| u in s.devices.rows && s.devices.rows[u].issued && s.devices.rows[u].issue == Some(id) {
      assert devices'.rows == s.devices.rows[u := s.devices.rows[u].(issued := false)];
    } else {
      assert devices'.rows == s.devices.rows;
    }
  }

  lemma BringBackShelf(s: Stock, id: nat, b: nat)
    requires StockOk(s) && id in s.issues.rows && s.issues.rows[id].out
    ensures var i := s.issues.rows[id];
            Shelf(BringBack(s, id).devices, b)
              <= Shelf(s.devices, b) + (if b == i.form.batch then i.form.quantity else 0)
  {
    BackOnShelfIsOne(s, id);
    var devices' := Update(s.devices, BackOnShelf(id));
    if devices' != s.devices {
      var u :| u in s.devices.rows && s.devices.rows[u].issued && s.devices.rows[u].issue == Some(id)
               && devices' == Put(s.devices, u, s.devices.rows[u].(issued := false));
      assert HeldBy(s.devices.rows[u], s.issues);
      SumPut(s.devices, ShelfUnit(b), u, s.devices.rows[u].(issued := false));
    }
  }

  lemma BringBackHolds(s: Stock, id: nat)
    requires StockOk(s) && id in s.issues.rows
    ensures Held(BringBack(s, id).devices, BringBack(s, id).issues)
  {
    hide Covered;
    var s' := BringBack(s, id);
    if s.issues.rows[id].out {
      forall u | u in s'.devices.rows && s'.devices.rows[u].issued
        ensures s'.devices.rows[u] == s.devices.rows[u] && HeldBy(s'.devices.rows[u], s'.issues)
      {
        assert HeldBy(s.devices.rows[u], s.issues);
      }
    }
  }

  lemma BringBackCovers(s: Stock, id: nat)
    requires StockOk(s) && id in s.issues.rows
    ensures Covered(BringBack(s, id).inventory, BringBack(s, id).devices)
  {
    hide SerialsUnique;
    var s' := BringBack(s, id);
    if s.issues.rows[id].out {
      forall b | b in s'.inventory.rows
        ensures Shelf(s'.devices, b) <= s'.inventory.rows[b].quantity
      {
        BringBackShelf(s, id, b);
      }
    }
  }

  lemma BringBackHomes(s: Stock, id: nat)
    requires Homed(s) && SerialsUnique(s.devices) && id in s.issues.rows
    ensures Homed(BringBack(s, id)) && SerialsUnique(BringBack(s, id).devices)
  {}

  lemma BringBackKeepsStock(s: Stock, id: nat)
    requires StockOk(s) && id in s.issues.rows
    ensures StockOk(BringBack(s, id))
  {
    hide Held, Covered, SerialsUnique;
    BringBackHolds(s, id);
    BringBackCovers(s, id);
    BringBackHomes(s, id);
  }

  lemma BringBackConserves(s: Stock, id: nat)
    requires id in s.issues.rows && s.issues.rows[id].form.batch in s.inventory.rows
    ensures Total(BringBack(s, id)) == Total(s)
  {
    var i := s.issues.rows[id];
    if i.out {
      var b := s.inventory.rows[i.form.batch];
      SumPut(s.inventory, Quantity(), i.form.batch, b.(quantity := b.quantity + i.form.quantity));
      SumPut(s.issues, OutQuantity(), id, i.(out := false));
    }
  }

  /** Returning twice is returning once. */
  lemma BringBackTwice(s: Stock, id: nat)
    requires id in s.issues.rows
    ensures var s' := BringBack(s, id);
            s'.issues.rows[id].form == s.issues.rows[id].form && BringBack(s', id) == s'
  {}

  // ----- deleting an issue ------------------------------------------------------------

  function WithoutIssue(issue: nat): Device -> Device {
    (d: Device) => if d.issue == Some(issue) then d.(issue := None) else d
  }

  /** Stock still out comes back first; then no device names the issue and its row is gone. */
  function Erase(s: Stock, id: nat): Stock
    requires id in s.issues.rows
  {
    Forget(BringBack(s, id), id)
  }

  lemma EraseKeepsStock(s: Stock, id: nat)
    requires StockOk(s) && id in s.issues.rows
    ensures StockOk(Erase(s, id))
  {
    BringBackKeepsStock(s, id);
    ForgetKeepsStock(BringBack(s, id), id);
  }

  function Forget(s: Stock, id: nat): Stock {
    Stock(s.inventory, Update(s.devices, WithoutIssue(id)), Drop(s.issues, id))
  }

  lemma ForgetHolds(s: Stock, id: nat)
    requires Held(s.devices, s.issues) && id in s.issues.rows && !s.issues.rows[id].out
    ensures Held(Forget(s, id).devices, Forget(s, id).issues)
  {
    var s' := Forget(s, id);
    forall u | u in s.devices.rows && s.devices.rows[u].issued
      ensures s.devices.rows[u].issue != Some(id) && s'.devices.rows[u] == s.devices.rows[u]
      ensures HeldBy(s'.devices.rows[u], s'.issues)
    {
      assert HeldBy(s.devices.rows[u], s.issues);
    }
  }

  lemma ForgetCovers(s: Stock, id: nat)
    requires Covered(s.inventory, s.devices)
    ensures Covered(Forget(s, id).inventory, Forget(s, id).devices)
  {
    var s' := Forget(s, id);
    forall b | b in s'.inventory.rows
      ensures Shelf(s'.devices, b) <= s'.inventory.rows[b].quantity
    {
      SumBelowAgree(s.devices.rows, ShelfUnit(b), s'.devices.rows, ShelfUnit(b), s.devices.next);
    }
  }

  lemma ForgetHomes(s: Stock, id: nat)
    requires Homed(s) && SerialsUnique(s.devices)
    ensures Homed(Forget(s, id)) && SerialsUnique(Forget(s, id).devices)
  {}

  lemma ForgetKeepsStock(s: Stock, id: nat)
    requires StockOk(s) && id in s.issues.rows && !s.issues.rows[id].out
    ensures StockOk(Forget(s, id))
  {
    hide Held, Covered, Homed, SerialsUnique;
    ForgetHolds(s, id);
    ForgetCovers(s, id);
    ForgetHomes(s, id);
  }

  lemma EraseConserves(s: Stock, id: nat)
    requires id in s.issues.rows && s.issues.rows[id].form.batch in s.inventory.rows
    ensures Total(Erase(s, id)) == Total(s)
  {
    BringBackConserves(s, id);
    SumDrop(BringBack(s, id).issues, OutQuantity(), id);
  }

  // ----- labelling ---------------------------------------------------------------------

  /** A new label, on a device just received or on one already counted in the row. */
  function Label(s: Stock, d: Device): Stock
    requires d.batch in s.inventory.rows
  {
    s.(inventory := if d.receivedNew then AddQuantity(s.inventory, d.batch, 1) else s.inventory,
       devices := Insert(s.devices, d))
  }

  lemma LabelKeepsStock(s: Stock, d: Device)
    requires StockOk(s) && d.batch in s.inventory.rows && !d.issued && d.issue.None?
    requires d.receivedNew || Shelf(s.devices, d.batch) < s.inventory.rows[d.batch].quantity
    requires SerialsUnique(Insert(s.devices, d))
    ensures StockOk(Label(s, d))
  {
    var s' := Label(s, d);
    forall b | b in s'.inventory.rows
      ensures Shelf(s'.devices, b) <= s'.inventory.rows[b].quantity
    {
      SumInsert(s.devices, ShelfUnit(b), d);
    }
  }

  lemma LabelTotal(s: Stock, d: Device)
    requires d.batch in s.inventory.rows
    ensures Total(Label(s, d)) == Total(s) + (if d.receivedNew then 1 else 0)
  {
    var b := s.inventory.rows[d.batch];
    SumPut(s.inventory, Quantity(), d.batch, b.(quantity := b.quantity + 1));
  }

  // ----- transfers ---------------------------------------------------------------------

  /** The n lowest-numbered shelf devices of the source row (ORDER BY id LIMIT n). */
  predicate Moves(devices: Table<Device>, from: nat, n: int, u: nat) {
    u in devices.rows && ShelfUnit(from)(devices.rows[u]) == 1 && SumBelow(devices.rows, ShelfUnit(from), u) < n
  }

  function MoveDevices(devices: Table<Device>, from: nat, to: nat, n: int): Table<Device> {
    RawTable(map u | u in devices.rows ::
               if Moves(devices, from, n, u) then devices.rows[u].(batch := to) else devices.rows[u],
             devices.next)
  }

  function Least(a: int, b: int): int {
    if a <= b then a else b
  }

  lemma {:induction false} MoveCounts(devices: Table<Device>, from: nat, to: nat, n: nat, b: nat, k: nat)
    requires from != to
    ensures SumBelow(MoveDevices(devices, from, to, n).rows, ShelfUnit(b), k)
         == SumBelow(devices.rows, ShelfUnit(b), k)
          + Least(SumBelow(devices.rows, ShelfUnit(from), k), n)
            * (if b == from then -1 else if b == to then 1 else 0)
    ensures SumBelow(devices.rows, ShelfUnit(from), k) >= 0
  {
    if k > 0 {
      MoveCounts(devices, from, to, n, b, k - 1);
    }
  }

  /** As many devices move as the source row can no longer cover; the rest stay. */
  function Surplus(s: Stock, from: nat, quantity: nat): nat
    requires from in s.inventory.rows
  {
    var n := Shelf(s.devices, from) - (s.inventory.rows[from].quantity - quantity);
    if n > 0 then n else 0
  }

  predicate CanShift(s: Stock, from: nat, to: nat, quantity: nat) {
    from in s.inventory.rows && to in s.inventory.rows && from != to && quantity <= s.inventory.rows[from].quantity
  }

  function Shift(s: Stock, from: nat, to: nat, quantity: nat): Stock
    requires CanShift(s, from, to, quantity)
  {
    s.(inventory := AddQuantity(AddQuantity(s.inventory, from, 0 - quantity), to, quantity),
       devices := MoveDevices(s.devices, from, to, Surplus(s, from, quantity)))
  }

  lemma ShiftKeepsStock(s: Stock, from: nat, to: nat, quantity: nat)
    requires StockOk(s) && CanShift(s, from, to, quantity)
    requires SerialsUnique(Shift(s, from, to, quantity).devices)
    ensures StockOk(Shift(s, from, to, quantity))
  {
    var s' := Shift(s, from, to, quantity);
    forall b | b in s'.inventory.rows
      ensures Shelf(s'.devices, b) <= s'.inventory.rows[b].quantity
    {
      MoveCounts(s.devices, from, to, Surplus(s, from, quantity), b, s.devices.next);
    }
    forall u | u in s'.devices.rows && s'.devices.rows[u].issued
      ensures HeldBy(s'.devices.rows[u], s'.issues)
    {
      assert s'.devices.rows[u] == s.devices.rows[u] && HeldBy(s.devices.rows[u], s.issues);
    }
  }

  lemma ShiftConserves(s: Stock, from: nat, to: nat, quantity: nat)
    requires CanShift(s, from, to, quantity)
    ensures Total(Shift(s, from, to, quantity)) == Total(s)
  {
    var a, b := s.inventory.rows[from], s.inventory.rows[to];
    SumPut(s.inventory, Quantity(), from, a.(quantity := a.quantity - quantity));
    SumPut(AddQuantity(s.inventory, from, 0 - quantity), Quantity(), to, b.(quantity := b.quantity + quantity));
  }

  /** A transfer moves exactly the devices the source row can no longer cover, the lowest ids first, and never an
      issued one; every other device stays as it was. */
  lemma ShiftIsMinimal(s: Stock, from: nat, to: nat, quantity: nat)
    requires StockOk(s) && CanShift(s, from, to, quantity)
    ensures var s' := Shift(s, from, to, quantity);
            var n := Surplus(s, from, quantity);
            && Shelf(s'.devices, from) == Shelf(s.devices, from) - n
            && Shelf(s'.devices, to) == Shelf(s.devices, to) + n
            && (n > 0 ==> Shelf(s'.devices, from) == s'.inventory.rows[from].quantity)
            && (forall u :: u in s.devices.rows && (s.devices.rows[u].issued || s.devices.rows[u].batch != from) ==>
                  s'.devices.rows[u] == s.devices.rows[u])
            && (forall u, v :: u in s.devices.rows && v in s.devices.rows && u < v
                               && s.devices.rows[u].batch == from && !s.devices.rows[u].issued
                               && s'.devices.rows[v] != s.devices.rows[v] ==>
                  s'.devices.rows[u] == s.devices.rows[u].(batch := to))
  {
    var n := Surplus(s, from, quantity);
    MoveCounts(s.devices, from, to, n, from, s.devices.next);
    MoveCounts(s.devices, from, to, n, to, s.devices.next);
    forall u, v | u < v
      ensures SumBelow(s.devices.rows, ShelfUnit(from), u) <= SumBelow(s.devices.rows, ShelfUnit(from), v)
    {
      CountGrows(s.devices, from, u, v);
    }
  }

  lemma {:induction false} CountGrows(devices: Table<Device>, b: nat, u: nat, v: nat)
    requires u <= v
    ensures SumBelow(devices.rows, ShelfUnit(b), u) <= SumBelow(devices.rows, ShelfUnit(b), v)
    decreases v - u
  {
    if u < v {
      CountGrows(devices, b, u, v - 1);
    }
  }

  // ----- editing the inventory table --------------------------------------------------

  lemma EditKeepsStock(s: Stock, id: nat, b: Batch)
    requires StockOk(s) && id in s.inventory.rows && Shelf(s.devices, id) <= b.quantity
    ensures StockOk(s.(inventory := Put(s.inventory, id, b)))
    ensures Total(s.(inventory := Put(s.inventory, id, b))) == Total(s) - s.inventory.rows[id].quantity + b.quantity
  {
    hide Held, SerialsUnique;
    SumPut(s.inventory, Quantity(), id, b);
  }

  lemma {:induction false} ShelfEmpty(devices: Table<Device>, b: nat, n: nat)
    requires forall u :: u in devices.rows ==> devices.rows[u].batch != b
    ensures SumBelow(devices.rows, ShelfUnit(b), n) == 0
  {
    if n > 0 {
      ShelfEmpty(devices, b, n - 1);
    }
  }

  lemma AddKeepsStock(s: Stock, b: Batch)
    requires StockOk(s)
    ensures StockOk(s.(inventory := Insert(s.inventory, b)))
    ensures Total(s.(inventory := Insert(s.inventory, b))) == Total(s) + b.quantity
  {
    hide Held, SerialsUnique;
    ShelfEmpty(s.devices, s.inventory.next, s.devices.next);
    SumInsert(s.inventory, Quantity(), b);
  }

  /** A row with devices or issues is held by foreign keys. */
  predicate InUseBy(s: Stock, id: nat) {
    (exists u :: u in s.devices.rows && s.devices.rows[u].batch == id)
    || (exists i :: i in s.issues.rows && s.issues.rows[i].form.batch == id)
  }

  lemma RemoveKeepsStock(s: Stock, id: nat)
    requires StockOk(s) && id in s.inventory.rows && !InUseBy(s, id)
    ensures StockOk(s.(inventory := Drop(s.inventory, id)))
    ensures Total(s.(inventory := Drop(s.inventory, id))) == Total(s) - s.inventory.rows[id].quantity
  {
    hide Held, SerialsUnique;
    SumDrop(s.inventory, Quantity(), id);
  }

  lemma ReceiveKeepsStock(s: Stock, id: nat, n: nat)
    requires StockOk(s) && id in s.inventory.rows
    ensures StockOk(s.(inventory := AddQuantity(s.inventory, id, n)))
    ensures Total(s.(inventory := AddQuantity(s.inventory, id, n))) == Total(s) + n
  {
    var b := s.inventory.rows[id];
    EditKeepsStock(s, id, b.(quantity := b.quantity + n));
  }

  /** Inspecting a device changes its condition only. */
  lemma InspectKeepsStock(s: Stock, u: nat, c: Condition)
    requires StockOk(s) && u in s.devices.rows
    ensures StockOk(s.(devices := Put(s.devices, u, s.devices.rows[u].(condition := c))))
  {
    var d := s.devices.rows[u];
    var devices := Put(s.devices, u, d.(condition := c));
    forall b | b in s.inventory.rows ensures Shelf(devices, b) <= s.inventory.rows[b].quantity {
      SumPut(s.devices, ShelfUnit(b), u, d.(condition := c));
    }
    forall v | v in devices.rows && devices.rows[v].issued ensures HeldBy(devices.rows[v], s.issues) {
      assert HeldBy(s.devices.rows[v], s.issues);
    }
  }

  /** A renamed warehouse takes its rows along. */
  function Renamed(name: string, to: string): Batch -> Batch {
    (b: Batch) => if b.location == name then b.(location := to) else b
  }

  lemma RenameKeepsStock(s: Stock, name: string, to: string)
    requires StockOk(s)
    ensures StockOk(s.(inventory := Update(s.inventory, Renamed(name, to))))
    ensures Total(s.(inventory := Update(s.inventory, Renamed(name, to)))) == Total(s)
  {
    hide Held, SerialsUnique;
    var inventory := Update(s.inventory, Renamed(name, to));
    SumBelowAgree(s.inventory.rows, Quantity(), inventory.rows, Quantity(), s.inventory.next);
  }
}
