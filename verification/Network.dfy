/** Network records own the stock issue of the cable or device they show on the map. */
module NetworkRules {
  import opened Tables
  import opened CrmData
  import opened StockRules

  /** The issue a record calls for. */
  datatype Want = Want(item: nat, quantity: nat, installer: Option<nat>)

  /** Metres, rounded up, from the route length in decimetres. */
  function WholeMetres(lengthDm: nat): nat {
    (lengthDm + 9) / 10
  }

  function WantOf(b: Body): Option<Want> {
    match b
    case Appliance(item, installer) => if item.Some? then Some(Want(item.value, 1, installer)) else None
    case Cable(planned, item, used, lengthDm, installer) =>
      if planned || item.None? then None
      else Some(Want(item.value, if used > 0 then used else WholeMetres(lengthDm), installer))
    case _ => None
  }

  /** A body that takes stock: a device or a cable already laid, with an item chosen. */
  predicate TakesStock(b: Body) {
    (b.Appliance? && b.item.Some?) || (b.Cable? && !b.planned && b.item.Some?)
  }

  /** The issue such a body takes: one device, the metres of cable used, or else the least whole number of metres that
      covers the route. */
  predicate Supplies(i: IssueForm, b: Body)
    requires TakesStock(b)
  {
    && b.item == Some(i.batch) && i.employee == b.installer
    && (if b.Appliance? then i.quantity == 1
        else if b.used > 0 then i.quantity == b.used
        else 10 * (i.quantity - 1) < b.lengthDm <= 10 * i.quantity)
  }

  lemma WantMeans(b: Body)
    ensures WantOf(b).Some? <==> TakesStock(b)
    ensures WantOf(b).Some? ==> forall i: Issue :: Serves(i, WantOf(b).value) <==> Supplies(i.form, b)
  {
    if WantOf(b).Some? && b.Cable? {
      assert 10 * (WholeMetres(b.lengthDm) - 1) < b.lengthDm <= 10 * WholeMetres(b.lengthDm);
    }
  }

  predicate Serves(i: Issue, w: Want) {
    i.form.batch == w.item && i.form.quantity == w.quantity && i.form.employee == w.installer
  }

  function NetworkIssue(w: Want, date: Date, text: string): Issue {
    Issue(IssueForm(w.item, ToNetwork, w.installer, w.quantity, false, date, text), true, None, 0, None, None, true)
  }

  // ----- sync_stock ------------------------------------------------------------------

  datatype Synced = Synced(stock: Stock, link: Option<nat>) | Short(error: Error)

  /** The linked issue still serves the record. */
  predicate StillServed(issues: Table<Issue>, link: Option<nat>, want: Option<Want>) {
    want.Some? && link.Some? && link.value in issues.rows && issues.rows[link.value].out
    && Serves(issues.rows[link.value], want.value)
  }

  /** return_stock */
  function GiveBack(s: Stock, link: Option<nat>): Stock {
    if link.Some? && link.value in s.issues.rows then BringBack(s, link.value) else s
  }

  /** issue_stock */
  function IssueNetwork(s: Stock, w: Want, date: Date, text: string): Synced {
    if w.item !in s.inventory.rows then Short(NoSuchBatch)
    else if w.quantity > s.inventory.rows[w.item].quantity - Shelf(s.devices, w.item) then Short(InsufficientStock)
    else if w.quantity > s.inventory.rows[w.item].quantity then Short(InsufficientStock)
    else Synced(Place(s, NetworkIssue(w, date, text)), Some(s.issues.next))
  }

  function SyncStock(s: Stock, link: Option<nat>, want: Option<Want>, date: Date, text: string): Synced {
    if StillServed(s.issues, link, want) then Synced(s, link)
    else if want.None? then Synced(GiveBack(s, link), None)
    else IssueNetwork(GiveBack(s, link), want.value, date, text)
  }

  lemma GiveBackKeepsStock(s: Stock, link: Option<nat>)
    requires StockOk(s)
    ensures StockOk(GiveBack(s, link)) && Total(GiveBack(s, link)) == Total(s)
  {
    if link.Some? && link.value in s.issues.rows {
      BringBackKeepsStock(s, link.value);
      BringBackConserves(s, link.value);
    }
  }

  /** Synchronising a record moves stock between shelf and issue, and keeps the stock invariant. */
  lemma SyncKeepsStock(s: Stock, link: Option<nat>, want: Option<Want>, date: Date, text: string)
    requires StockOk(s)
    ensures var r := SyncStock(s, link, want, date, text);
            r.Synced? ==> StockOk(r.stock) && Total(r.stock) == Total(s)
  {
    hide StockOk, Total, BringBack, Shelf, Place, GiveBack;
    GiveBackKeepsStock(s, link);
    var t := GiveBack(s, link);
    if want.Some? && !StillServed(s.issues, link, want) && IssueNetwork(t, want.value, date, text).Synced? {
      var i := NetworkIssue(want.value, date, text);
      PlaceKeepsStock(t, i);
      PlaceConserves(t, i);
    }
  }

  // ----- the invariant ------------------------------------------------------------------

  function LinksTo(issue: nat): Record -> bool {
    (r: Record) => r.link == Some(issue)
  }

  predicate Linked(records: Table<Record>, issue: nat) {
    First(records, LinksTo(issue)).Some?
  }

  /** What a record says about the issue it links to; it links to one exactly when it calls for stock. */
  predicate LinkRight(r: Record, issues: Table<Issue>) {
    && (r.link.Some? <==> WantOf(r.form.body).Some?)
    && (r.link.Some? ==>
          r.link.value < issues.next
          && (r.link.value in issues.rows ==>
                var i := issues.rows[r.link.value];
                i.synced && (i.out ==> Serves(i, WantOf(r.form.body).value))))
  }

  ghost predicate LinksRight(records: Table<Record>, issues: Table<Issue>) {
    forall r :: r in records.rows ==> LinkRight(records.rows[r], issues)
  }

  ghost predicate LinksDistinct(records: Table<Record>) {
    forall r, q :: (r in records.rows && q in records.rows && records.rows[r].link.Some?
                    && records.rows[r].link == records.rows[q].link) ==> r == q
  }

  ghost predicate SyncedLinked(records: Table<Record>, issues: Table<Issue>) {
    forall i :: i in issues.rows && issues.rows[i].synced ==>
      issues.rows[i].form.to == ToNetwork && issues.rows[i].device.None?
      && (issues.rows[i].out ==> Linked(records, i))
  }

  /** Outstanding synchronised issues map one to one into records, and serve exactly what the record calls for; a
      record that calls for nothing links to nothing. */
  ghost predicate NetworkOk(records: Table<Record>, issues: Table<Issue>) {
    LinksRight(records, issues) && LinksDistinct(records) && SyncedLinked(records, issues)
  }

  // ----- issue changes made elsewhere ---------------------------------------------------------

  lemma InsertKeepsNetwork(records: Table<Record>, issues: Table<Issue>, i: Issue)
    requires NetworkOk(records, issues) && !i.synced
    ensures NetworkOk(records, Insert(issues, i))
  {}

  lemma ReturnKeepsNetwork(records: Table<Record>, issues: Table<Issue>, id: nat)
    requires NetworkOk(records, issues) && id in issues.rows
    ensures NetworkOk(records, Put(issues, id, issues.rows[id].(out := false)))
  {}

  lemma DropKeepsNetwork(records: Table<Record>, issues: Table<Issue>, id: nat)
    requires NetworkOk(records, issues)
    ensures NetworkOk(records, Drop(issues, id))
  {}

  // ----- record changes -----------------------------------------------------------------------

  lemma LinkedBy(records: Table<Record>, r: nat, i: nat)
    requires r in records.rows && records.rows[r].link == Some(i)
    ensures Linked(records, i)
  {
    assert LinksTo(i)(records.rows[r]);
  }

  /** A record other than r keeps its link when only r is rewritten. */
  lemma LinkedElsewhere(records: Table<Record>, after: Table<Record>, r: nat, i: nat)
    requires Linked(records, i) && !(r in records.rows && records.rows[r].link == Some(i))
    requires forall k :: k in records.rows && k != r ==> k in after.rows && after.rows[k].link == records.rows[k].link
    ensures Linked(after, i)
  {
    var k := First(records, LinksTo(i)).value;
    LinkedBy(after, k, i);
  }

  /** The issues a sync leaves: the old link is no longer out unless it still serves, a new one may be added. */
  lemma SyncIssues(s: Stock, link: Option<nat>, want: Option<Want>, date: Date, text: string)
    requires link.Some? ==> link.value < s.issues.next
    ensures var r := SyncStock(s, link, want, date, text);
            r.Synced? ==>
              var issues, after := s.issues, r.stock.issues;
              && (r.link.Some? && r.link != link ==>
                    r.link == Some(issues.next) && want.Some? && after.next == issues.next + 1
                    && issues.next in after.rows && after.rows[issues.next] == NetworkIssue(want.value, date, text))
              && (r.link.None? || r.link == link ==> after.next == issues.next && after.rows.Keys == issues.rows.Keys)
              && (forall k :: k in issues.rows ==>
                    k in after.rows
                    && after.rows[k] == (if link == Some(k) && r.link != link then issues.rows[k].(out := false)
                                         else issues.rows[k]))
              && (forall k :: k in after.rows ==> k in issues.rows || k == issues.next)
              && (r.link.Some? <==> want.Some?)
              && (r.link.Some? && r.link == link ==> StillServed(issues, link, want))
  {
    hide Shelf, AddQuantity;
  }

  ghost predicate Rewritten(records: Table<Record>, after: Table<Record>, r: nat, link: Option<nat>, body: Body) {
    && r in after.rows && after.rows[r].link == link && after.rows[r].form.body == body
    && (forall k :: k in records.rows && k != r ==> k in after.rows && after.rows[k] == records.rows[k])
    && (forall k :: k in after.rows && k != r ==> k in records.rows)
  }

  /** What a synchronisation of record r does to the issues, and the row it leaves. */
  ghost predicate Resynced(records: Table<Record>, after: Table<Record>, issues: Table<Issue>, issues': Table<Issue>,
                           r: nat, body: Body)
  {
    && r in after.rows && after.rows[r].form.body == body
    && (forall k :: k in records.rows && k != r ==> k in after.rows && after.rows[k] == records.rows[k])
    && (forall k :: k in after.rows && k != r ==> k in records.rows)
    && var was, link := if r in records.rows then records.rows[r].link else None, after.rows[r].link;
       && (link.Some? <==> WantOf(body).Some?)
       && (link.Some? && link == was ==> StillServed(issues, link, WantOf(body)))
       && (link.Some? && link != was ==>
             link == Some(issues.next) && issues.next in issues'.rows && issues'.next == issues.next + 1
             && issues'.rows[issues.next].synced && issues'.rows[issues.next].form.to == ToNetwork
             && issues'.rows[issues.next].device.None? && Serves(issues'.rows[issues.next], WantOf(body).value))
       && issues.next <= issues'.next
       && (forall k :: k in issues.rows ==>
             k in issues'.rows
             && issues'.rows[k] == (if was == Some(k) && link != was then issues.rows[k].(out := false)
                                    else issues.rows[k]))
       && (forall k :: k in issues'.rows && k !in issues.rows ==> link == Some(k) && k == issues.next && link != was)
  }

  lemma ResyncedLinks(records: Table<Record>, after: Table<Record>, issues: Table<Issue>, issues': Table<Issue>, r: nat,
                      body: Body)
    requires LinksRight(records, issues) && LinksDistinct(records) && Resynced(records, after, issues, issues', r, body)
    ensures LinksRight(after, issues')
  {
    hide Linked;
    assert r in records.rows ==> LinkRight(records.rows[r], issues);
    forall k | k in after.rows ensures LinkRight(after.rows[k], issues') {
      assert k != r ==> LinkRight(records.rows[k], issues);
    }
  }

  lemma ResyncedDistinct(records: Table<Record>, after: Table<Record>, issues: Table<Issue>, issues': Table<Issue>,
                         r: nat,
                         body: Body)
    requires LinksRight(records, issues) && LinksDistinct(records) && Resynced(records, after, issues, issues', r, body)
    ensures LinksDistinct(after)
  {
    forall k | k in records.rows && k != r && records.rows[k].link.Some?
      ensures records.rows[k].link != after.rows[r].link
    {
      assert LinkRight(records.rows[k], issues);
    }
  }

  lemma ResyncedLinked(records: Table<Record>, after: Table<Record>, issues: Table<Issue>, issues': Table<Issue>,
                       r: nat,
                       body: Body)
    requires SyncedLinked(records, issues) && Resynced(records, after, issues, issues', r, body)
    ensures SyncedLinked(after, issues')
  {
    hide Linked, WantOf, Serves;
    forall i | i in issues'.rows && issues'.rows[i].synced && issues'.rows[i].out ensures Linked(after, i) {
      if after.rows[r].link == Some(i) {
        LinkedBy(after, r, i);
      } else {
        LinkedElsewhere(records, after, r, i);
      }
    }
  }

  /** Saving record r, new or edited, and synchronising it keeps records and issues in step. */
  lemma SaveKeepsNetwork(records: Table<Record>, after: Table<Record>, r: nat, s: Stock, link: Option<nat>, body: Body,
                         date: Date, text: string)
    requires NetworkOk(records, s.issues)
    requires link == if r in records.rows then records.rows[r].link else None
    requires var y := SyncStock(s, link, WantOf(body), date, text);
             y.Synced? && Rewritten(records, after, r, y.link, body)
    ensures NetworkOk(after, SyncStock(s, link, WantOf(body), date, text).stock.issues)
  {
    hide SyncStock, LinksDistinct, SyncedLinked, WantOf;
    var issues, issues' := s.issues, SyncStock(s, link, WantOf(body), date, text).stock.issues;
    assert r in records.rows ==> LinkRight(records.rows[r], issues);
    SyncIssues(s, link, WantOf(body), date, text);
    hide LinksRight;
    ResyncedLinks(records, after, issues, issues', r, body);
    ResyncedDistinct(records, after, issues, issues', r, body);
    ResyncedLinked(records, after, issues, issues', r, body);
  }

  /** A rewrite that leaves link and body alone, such as archiving. */
  lemma TouchKeepsNetwork(records: Table<Record>, issues: Table<Issue>, r: nat, row: Record)
    requires NetworkOk(records, issues) && r in records.rows
    requires row.link == records.rows[r].link && row.form.body == records.rows[r].form.body
    ensures NetworkOk(Put(records, r, row), issues)
  {
    var after := Put(records, r, row);
    forall i | i in issues.rows && issues.rows[i].synced && issues.rows[i].out ensures Linked(after, i) {
      var k := First(records, LinksTo(i)).value;
      LinkedBy(after, k, i);
    }
  }

  /** Deleting a record gives its stock back. */
  lemma DeleteKeepsNetwork(records: Table<Record>, r: nat, s: Stock)
    requires NetworkOk(records, s.issues) && r in records.rows
    ensures NetworkOk(Drop(records, r), GiveBack(s, records.rows[r].link).issues)
  {
    var after, issues' := Drop(records, r), GiveBack(s, records.rows[r].link).issues;
    var link := records.rows[r].link;
    forall i | i in issues'.rows && issues'.rows[i].synced && issues'.rows[i].out ensures Linked(after, i) {
      assert link != Some(i);
      LinkedElsewhere(records, after, r, i);
    }
  }
}
