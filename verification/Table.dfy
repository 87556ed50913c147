/** A relational table keyed by a serial id, with the aggregates the program asks of it. */
module Tables {

  datatype Option<+T> = None | Some(value: T)

  datatype RawTable<T> = RawTable(rows: map<nat, T>, next: nat) {

    ghost predicate Wf() {
      forall k :: k in rows ==> k < next
    }
  }

  /** Rows are keyed by ids below `next`; an id is handed out once and never reused. */
  type Table<T> = t: RawTable<T> | t.Wf() witness RawTable(map[], 0)

  function Empty<T>(): Table<T> {
    RawTable(map[], 0)
  }

  function Insert<T>(t: Table<T>, row: T): Table<T> {
    RawTable(t.rows[t.next := row], t.next + 1)
  }

  function Put<T>(t: Table<T>, id: nat, row: T): Table<T>
    requires id in t.rows
  {
    RawTable(t.rows[id := row], t.next)
  }

  function Drop<T>(t: Table<T>, id: nat): Table<T> {
    RawTable(t.rows - {id}, t.next)
  }

  /** The column expression `f` summed over the rows with ids below `n`. */
  function SumBelow<T>(rows: map<nat, T>, f: T -> int, n: nat): int {
    if n == 0 then 0
    else SumBelow(rows, f, n - 1) + (if n - 1 in rows then f(rows[n - 1]) else 0)
  }

  /** SELECT SUM(f) over the whole table. */
  function Sum<T>(t: Table<T>, f: T -> int): int {
    SumBelow(t.rows, f, t.next)
  }

  lemma {:induction false} SumBelowPut<T>(rows: map<nat, T>, f: T -> int, n: nat, id: nat, row: T)
    ensures SumBelow(rows[id := row], f, n)
         == SumBelow(rows, f, n)
          + (if id < n then f(row) - (if id in rows then f(rows[id]) else 0) else 0)
  {
    if n > 0 {
      SumBelowPut(rows, f, n - 1, id, row);
    }
  }

  lemma {:induction false} SumBelowDrop<T>(rows: map<nat, T>, f: T -> int, n: nat, id: nat)
    ensures SumBelow(rows - {id}, f, n)
         == SumBelow(rows, f, n) - (if id < n && id in rows then f(rows[id]) else 0)
  {
    if n > 0 {
      SumBelowDrop(rows, f, n - 1, id);
    }
  }

  lemma SumInsert<T>(t: Table<T>, f: T -> int, row: T)
    ensures Sum(Insert(t, row), f) == Sum(t, f) + f(row)
  {
    SumBelowPut(t.rows, f, t.next + 1, t.next, row);
    assert SumBelow(t.rows, f, t.next + 1) == SumBelow(t.rows, f, t.next);
  }

  lemma SumPut<T>(t: Table<T>, f: T -> int, id: nat, row: T)
    requires id in t.rows
    ensures Sum(Put(t, id, row), f) == Sum(t, f) - f(t.rows[id]) + f(row)
  {
    SumBelowPut(t.rows, f, t.next, id, row);
  }

  lemma SumDrop<T>(t: Table<T>, f: T -> int, id: nat)
    ensures Sum(Drop(t, id), f) == Sum(t, f) - (if id in t.rows then f(t.rows[id]) else 0)
  {
    SumBelowDrop(t.rows, f, t.next, id);
  }

  /** Two expressions that agree on every row have the same sum, also over two versions of the rows. */
  lemma {:induction false} SumBelowAgree<T, U>(r: map<nat, T>, f: T -> int, s: map<nat, U>, g: U -> int, n: nat)
    requires forall k :: 0 <= k < n ==> (if k in r then f(r[k]) else 0) == (if k in s then g(s[k]) else 0)
    ensures SumBelow(r, f, n) == SumBelow(s, g, n)
  {
    if n > 0 {
      SumBelowAgree(r, f, s, g, n - 1);
    }
  }

  lemma {:induction false} SumBelowNonneg<T>(rows: map<nat, T>, f: T -> int, n: nat)
    requires forall k :: k in rows ==> f(rows[k]) >= 0
    ensures SumBelow(rows, f, n) >= 0
    ensures forall k :: k in rows && k < n ==> f(rows[k]) <= SumBelow(rows, f, n)
  {
    if n > 0 {
      SumBelowNonneg(rows, f, n - 1);
    }
  }

  /** f = g + h row by row, so it is also in the sums. */
  lemma {:induction false} SumBelowSplit<T>(rows: map<nat, T>, f: T -> int, g: T -> int, h: T -> int, n: nat)
    requires forall k :: k in rows ==> f(rows[k]) == g(rows[k]) + h(rows[k])
    ensures SumBelow(rows, f, n) == SumBelow(rows, g, n) + SumBelow(rows, h, n)
  {
    if n > 0 {
      SumBelowSplit(rows, f, g, h, n - 1);
    }
  }

  /** The row with the lowest id that satisfies the condition (ORDER BY id LIMIT 1). */
  function FirstFrom<T>(rows: map<nat, T>, p: T -> bool, from: nat, n: nat): (r: Option<nat>)
    requires from <= n
    ensures r.Some? ==> from <= r.value < n && r.value in rows && p(rows[r.value])
    ensures r.Some? ==> forall k :: from <= k < r.value && k in rows ==> !p(rows[k])
    ensures r.None? ==> forall k :: from <= k < n && k in rows ==> !p(rows[k])
    decreases n - from
  {
    if from == n then None
    else if from in rows && p(rows[from]) then Some(from)
    else FirstFrom(rows, p, from + 1, n)
  }

  function First<T>(t: Table<T>, p: T -> bool): (r: Option<nat>)
    ensures r.Some? ==> r.value in t.rows && p(t.rows[r.value])
    ensures r.Some? ==> forall k :: k in t.rows && k < r.value ==> !p(t.rows[k])
    ensures r.None? <==> forall k :: k in t.rows ==> !p(t.rows[k])
  {
    FirstFrom(t.rows, p, 0, t.next)
  }

  /** The row with the highest id that satisfies the condition (ORDER BY id DESC LIMIT 1). */
  function LastBelow<T>(rows: map<nat, T>, p: T -> bool, n: nat): (r: Option<nat>)
    ensures r.Some? ==> r.value < n && r.value in rows && p(rows[r.value])
    ensures r.None? ==> forall k :: 0 <= k < n && k in rows ==> !p(rows[k])
  {
    if n == 0 then None
    else if n - 1 in rows && p(rows[n - 1]) then Some(n - 1)
    else LastBelow(rows, p, n - 1)
  }

  function Last<T>(t: Table<T>, p: T -> bool): (r: Option<nat>)
    ensures r.Some? ==> r.value in t.rows && p(t.rows[r.value])
    ensures r.None? <==> forall k :: k in t.rows ==> !p(t.rows[k])
  {
    LastBelow(t.rows, p, t.next)
  }

  /** UPDATE ... SET: f applied to every row. */
  function Update<T>(t: Table<T>, f: T -> T): Table<T> {
    RawTable(map k | k in t.rows :: f(t.rows[k]), t.next)
  }
}
