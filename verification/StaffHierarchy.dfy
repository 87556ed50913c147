/** The reporting tree: who reports to whom, and the walk that guards every save of an employee. */
module StaffHierarchy {
  import opened Tables

  /** reports_to, by employee id. */
  type Staff = Table<Option<nat>>

  datatype Verdict = Accepted | Cycle | NoSuchManager

  /** The walk up the chain of managers; `visited` grows with every employee met. */
  function Walk(staff: Staff, visited: set<nat>, current: Option<nat>): Verdict
    decreases staff.rows.Keys - visited
  {
    if current.None? then Accepted
    else if current.value in visited then Cycle
    else if current.value !in staff.rows then NoSuchManager
    else Walk(staff, visited + {current.value}, staff.rows[current.value])
  }

  function Start(rid: Option<nat>): set<nat> {
    if rid.Some? then {rid.value} else {}
  }

  /** A save of employee `rid` (None for a new one) under `manager`. */
  function Check(staff: Staff, manager: Option<nat>, rid: Option<nat>): Verdict {
    Walk(staff, Start(rid), manager)
  }

  function Saved(staff: Staff, manager: Option<nat>, rid: Option<nat>): Staff
    requires rid.Some? ==> rid.value in staff.rows
  {
    if rid.None? then Insert(staff, manager) else Put(staff, rid.value, manager)
  }

  /** A row that another employee reports to is held by the foreign key. */
  predicate Referenced(staff: Staff, id: nat) {
    exists s :: s in staff.rows && staff.rows[s] == Some(id)
  }

  // ----- what a forest is --------------------------------------------------------

  /** From `c` up, at most n managers lead to one who reports to nobody, and `avoid` is not among them. */
  predicate Ends(staff: map<nat, Option<nat>>, c: Option<nat>, avoid: Option<nat>, n: nat)
    decreases n
  {
    c.None? || (n > 0 && c != avoid && c.value in staff && Ends(staff, staff[c.value], avoid, n - 1))
  }

  ghost predicate ChainEnds(staff: Staff, c: Option<nat>, avoid: Option<nat>) {
    exists n: nat :: Ends(staff.rows, c, avoid, n)
  }

  lemma ChainEndsBy(staff: Staff, c: Option<nat>, avoid: Option<nat>, n: nat)
    requires Ends(staff.rows, c, avoid, n)
    ensures ChainEnds(staff, c, avoid)
  {}

  /** Every chain of managers ends; so there is no cycle and no manager who does not exist. */
  ghost predicate Forest(staff: Staff) {
    forall id :: id in staff.rows ==> ChainEnds(staff, Some(id), None)
  }

  lemma {:induction false} EndsMore(staff: map<nat, Option<nat>>, c: Option<nat>, avoid: Option<nat>, n: nat, m: nat)
    requires Ends(staff, c, avoid, n) && n <= m
    ensures Ends(staff, c, avoid, m) && Ends(staff, c, None, m)
    decreases n
  {
    if c.Some? {
      EndsMore(staff, staff[c.value], avoid, n - 1, m - 1);
    }
  }

  /** n steps up from `c`. */
  function Above(staff: map<nat, Option<nat>>, c: Option<nat>, n: nat): Option<nat>
    decreases n
  {
    if n == 0 || c.None? then c
    else if c.value !in staff then None
    else Above(staff, staff[c.value], n - 1)
  }

  /** In a forest nobody is above himself. */
  lemma {:induction false} EndsAcyclic(staff: map<nat, Option<nat>>, c: Option<nat>, n: nat, k: nat)
    requires Ends(staff, c, None, n) && c.Some? && k > 0
    ensures Above(staff, c, k) != c
    decreases n
  {
    if Above(staff, c, k) == c {
      AboveEnds(staff, c, n, k);
      EndsAcyclic(staff, c, n - 1, k);
    }
  }

  lemma {:induction false} AboveEnds(staff: map<nat, Option<nat>>, c: Option<nat>, n: nat, k: nat)
    requires Ends(staff, c, None, n) && c.Some? && k > 0
    ensures n > 0 && Ends(staff, Above(staff, c, k), None, n - 1)
    decreases n
  {
    var up := staff[c.value];
    if k > 1 && up.Some? {
      AboveEnds(staff, up, n - 1, k - 1);
      EndsMore(staff, Above(staff, up, k - 1), None, n - 2, n - 1);
    }
  }

  lemma ForestHasNoCycle(staff: Staff, id: nat, k: nat)
    requires Forest(staff) && id in staff.rows && k > 0
    ensures Above(staff.rows, Some(id), k) != Some(id)
  {
    var n: nat :| Ends(staff.rows, Some(id), None, n);
    EndsAcyclic(staff.rows, Some(id), n, k);
  }

  // ----- the walk decides --------------------------------------------------------

  lemma {:induction false} AcceptedEnds(staff: Staff, visited: set<nat>, c: Option<nat>,
                                        rid: Option<nat>) returns (n: nat)
    requires Walk(staff, visited, c) == Accepted && Start(rid) <= visited
    ensures Ends(staff.rows, c, rid, n)
    decreases staff.rows.Keys - visited
  {
    n := 0;
    if c.Some? {
      var m := AcceptedEnds(staff, visited + {c.value}, staff.rows[c.value], rid);
      n := m + 1;
    }
  }

  /** Whoever was met before is no longer ahead: his own chain is longer than what is left. */
  ghost predicate Behind(staff: Staff, visited: set<nat>, rid: Option<nat>, n: nat) {
    forall v :: v in visited && Some(v) != rid ==> !Ends(staff.rows, Some(v), rid, n)
  }

  lemma {:induction false} EndsAccepted(staff: Staff, visited: set<nat>, c: Option<nat>, rid: Option<nat>, n: nat)
    requires Ends(staff.rows, c, rid, n) && (n > 0 ==> !Ends(staff.rows, c, rid, n - 1))
    requires Behind(staff, visited, rid, n)
    ensures Walk(staff, visited, c) == Accepted
    decreases n
  {
    if c.Some? {
      var up := staff.rows[c.value];
      forall v | v in visited + {c.value} && Some(v) != rid
        ensures !Ends(staff.rows, Some(v), rid, n - 1)
      {
        if Ends(staff.rows, Some(v), rid, n - 1) {
          EndsMore(staff.rows, Some(v), rid, n - 1, n);
        }
      }
      EndsAccepted(staff, visited + {c.value}, up, rid, n - 1);
    }
  }

  lemma {:induction false} Shortest(staff: map<nat, Option<nat>>, c: Option<nat>, rid: Option<nat>,
                                    n: nat) returns (m: nat)
    requires Ends(staff, c, rid, n)
    ensures Ends(staff, c, rid, m) && (m > 0 ==> !Ends(staff, c, rid, m - 1))
  {
    m := n;
    if n > 0 && Ends(staff, c, rid, n - 1) {
      m := Shortest(staff, c, rid, n - 1);
    }
  }

  /** On any table, also one that already holds a cycle: the walk accepts exactly the managers whose chain ends
      without meeting the employee being saved. */
  lemma WalkDecides(staff: Staff, manager: Option<nat>, rid: Option<nat>)
    ensures Check(staff, manager, rid) == Accepted <==> ChainEnds(staff, manager, rid)
  {
    if Check(staff, manager, rid) == Accepted {
      var n := AcceptedEnds(staff, Start(rid), manager, rid);
      ChainEndsBy(staff, manager, rid, n);
    } else if ChainEnds(staff, manager, rid) {
      var n: nat :| Ends(staff.rows, manager, rid, n);
      var m := Shortest(staff.rows, manager, rid, n);
      EndsAccepted(staff, Start(rid), manager, rid, m);
    }
  }

  // ----- saves keep the forest -----------------------------------------------------

  /** Chains that avoid the saved row are the same before and after. */
  lemma {:induction false} EndsElsewhere(staff: map<nat, Option<nat>>, c: Option<nat>, id: nat, up: Option<nat>, n: nat)
    ensures Ends(staff, c, Some(id), n) <==> Ends(staff[id := up], c, Some(id), n)
    decreases n
  {
    if c.Some? && n > 0 && c.value != id && c.value in staff {
      EndsElsewhere(staff, staff[c.value], id, up, n - 1);
    }
  }

  /** A chain that ended before still ends when the row `id` on it gets a manager whose chain ends without it. */
  lemma {:induction false} EndsAfterSave(staff: map<nat, Option<nat>>, c: Option<nat>, id: nat, up: Option<nat>,
                                         n: nat, m: nat)
    requires Ends(staff, c, None, n) || c == Some(id)
    requires Ends(staff, up, Some(id), m)
    ensures Ends(staff[id := up], c, None, n + m + 1)
    decreases n
  {
    var after := staff[id := up];
    if c == Some(id) {
      EndsElsewhere(staff, up, id, up, m);
      EndsMore(after, up, Some(id), m, n + m);
    } else if c.Some? {
      EndsAfterSave(staff, staff[c.value], id, up, n - 1, m);
    }
  }

  /** In the saved table a chain that ends and starts at the employee's manager cannot meet him again. */
  lemma {:induction false} EndsAvoids(staff: map<nat, Option<nat>>, c: Option<nat>, id: nat, n: nat)
    requires Ends(staff, c, None, n) && !Ends(staff, Some(id), None, n)
    ensures Ends(staff, c, Some(id), n)
    decreases n
  {
    if c.Some? {
      if Ends(staff, Some(id), None, n - 1) {
        EndsMore(staff, Some(id), None, n - 1, n);
      }
      EndsAvoids(staff, staff[c.value], id, n - 1);
    }
  }

  /** The guard is exact: a save keeps the table a forest if and only if the walk accepts it. */
  lemma GuardIsExact(staff: Staff, manager: Option<nat>, rid: Option<nat>)
    requires Forest(staff) && (rid.Some? ==> rid.value in staff.rows)
    ensures Forest(Saved(staff, manager, rid)) <==> Check(staff, manager, rid) == Accepted
  {
    WalkDecides(staff, manager, rid);
    var after := Saved(staff, manager, rid);
    var id := if rid.Some? then rid.value else staff.next;
    assert after.rows == staff.rows[id := manager];
    if Check(staff, manager, rid) == Accepted {
      var m: nat :| Ends(staff.rows, manager, rid, m);
      if rid.None? {
        NewIdAvoided(staff, manager, m);
      }
      forall s | s in after.rows
        ensures ChainEnds(after, Some(s), None)
      {
        if s == id {
          EndsAfterSave(staff.rows, Some(id), id, manager, 0, m);
          ChainEndsBy(after, Some(s), None, m + 1);
        } else {
          var n: nat :| Ends(staff.rows, Some(s), None, n);
          EndsAfterSave(staff.rows, Some(s), id, manager, n, m);
          ChainEndsBy(after, Some(s), None, n + m + 1);
        }
      }
    } else if Forest(after) {
      var n: nat :| Ends(after.rows, Some(id), None, n);
      var m := Shortest(after.rows, Some(id), None, n);
      EndsAvoids(after.rows, manager, id, m - 1);
      EndsElsewhere(staff.rows, manager, id, manager, m - 1);
      assert false;
    }
  }

  /** Nobody reports to an id that was never given out. */
  lemma {:induction false} NewIdAvoided(staff: Staff, c: Option<nat>, n: nat)
    requires Ends(staff.rows, c, None, n)
    ensures Ends(staff.rows, c, Some(staff.next), n)
    decreases n
  {
    if c.Some? {
      NewIdAvoided(staff, staff.rows[c.value], n - 1);
    }
  }

  lemma {:induction false} EndsWithout(staff: Staff, c: Option<nat>, id: nat, n: nat)
    requires Ends(staff.rows, c, None, n) && c != Some(id) && !Referenced(staff, id)
    ensures Ends(staff.rows - {id}, c, None, n)
    decreases n
  {
    if c.Some? {
      EndsWithout(staff, staff.rows[c.value], id, n - 1);
    }
  }

  lemma LeavingKeepsForest(staff: Staff, id: nat)
    requires Forest(staff) && !Referenced(staff, id)
    ensures Forest(Drop(staff, id))
  {
    forall s | s in Drop(staff, id).rows
      ensures ChainEnds(Drop(staff, id), Some(s), None)
    {
      var n: nat :| Ends(staff.rows, Some(s), None, n);
      EndsWithout(staff, Some(s), id, n);
      ChainEndsBy(Drop(staff, id), Some(s), None, n);
    }
  }

  // ----- runs ------------------------------------------------------------------------

  datatype Request = Save(rid: Option<nat>, manager: Option<nat>) | Leave(id: nat)

  function Step(staff: Staff, q: Request): Staff {
    match q
    case Save(rid, manager) =>
      if rid.Some? && rid.value !in staff.rows then staff
      else if Check(staff, manager, rid) != Accepted then staff
      else Saved(staff, manager, rid)
    case Leave(id) => if Referenced(staff, id) then staff else Drop(staff, id)
  }

  function Run(staff: Staff, requests: seq<Request>): Staff
    decreases requests
  {
    if requests == [] then staff else Run(Step(staff, requests[0]), requests[1..])
  }

  /** Over any sequence of saves and deletions the reporting table stays a forest. */
  lemma {:induction false} RunKeepsForest(staff: Staff, requests: seq<Request>)
    requires Forest(staff)
    ensures Forest(Run(staff, requests))
    decreases requests
  {
    if requests != [] {
      match requests[0] {
        case Save(rid, manager) =>
          if rid.Some? ==> rid.value in staff.rows {
            GuardIsExact(staff, manager, rid);
          }
        case Leave(id) =>
          if !Referenced(staff, id) {
            LeavingKeepsForest(staff, id);
          }
      }
      RunKeepsForest(Step(staff, requests[0]), requests[1..]);
    }
  }

  class StaffTable {
    var staff: Staff

    constructor ()
      ensures staff == Empty()
    {
      staff := Empty();
    }

    /** validate_staff_hierarchy followed by the write: the loop ends on every table, whatever it holds. */
    method SaveEmployee(rid: Option<nat>, manager: Option<nat>) returns (verdict: Verdict)
      requires rid.Some? ==> rid.value in staff.rows
      modifies this
      ensures verdict == Check(old(staff), manager, rid)
      ensures staff == Step(old(staff), Save(rid, manager))
    {
      var visited := if rid.Some? then {rid.value} else {};
      var current := manager;
      while current.Some?
        invariant staff == old(staff)
        invariant Walk(staff, visited, current) == Check(staff, manager, rid)
        decreases staff.rows.Keys - visited, current.Some?
      {
        if current.value in visited {
          return Cycle;
        }
        visited := visited + {current.value};
        if current.value !in staff.rows {
          return NoSuchManager;
        }
        current := staff.rows[current.value];
      }
      verdict := Accepted;
      staff := if rid.Some? then Put(staff, rid.value, manager) else Insert(staff, manager);
    }
  }
}
