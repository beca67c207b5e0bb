/**
 * The store behind the SDK, as in-memory tables: one sequence of records per
 * table name. A query filters a table by a conjunction of conditions, an
 * insert appends, and naming a table the store does not have is the store's
 * error.
 */
module Store {
  import opened JsValues
  import opened Results

  type Record = Object
  type Tables = map<string, seq<Record>>

  predicate HasTable(tables: Tables, name: Value) {
    name.Str? && name.s in tables
  }

  /** `.from(name).select(...)`: the rows of the table, or None when the query fails. */
  function Rows(tables: Tables, name: Value): (r: Option<seq<Record>>)
    ensures r.Some? <==> HasTable(tables, name)
    ensures r.Some? ==> r.value == tables[name.s]
  {
    if HasTable(tables, name) then Some(tables[name.s]) else None
  }

  /** The tables after a successful insert of `record` into `name`; unchanged when the insert fails. */
  function Appended(tables: Tables, name: Value, record: Record): (r: Tables)
    ensures r.Keys == tables.Keys
    ensures HasTable(tables, name) ==> r[name.s] == tables[name.s] + [record]
    ensures forall n :: n in tables && !(name.Str? && n == name.s) ==> r[n] == tables[n]
  {
    if HasTable(tables, name) then tables[name.s := tables[name.s] + [record]] else tables
  }

  /** One filter of the query builder: `.eq`, `.gte` or `.lte` on a column. */
  datatype Cond =
    | Eq(column: string, value: Value)
    | AtLeast(column: string, bound: int)
    | AtMost(column: string, bound: int)

  /**
   * Whether a row passes one filter. Equality never holds against null or
   * undefined (SQL NULL is equal to nothing); range filters compare instants.
   */
  predicate Holds(r: Record, c: Cond) {
    match c
    case Eq(col, v) => v != Null && v != Undefined && Get(r, col) == v
    case AtLeast(col, b) => Get(r, col).Instant? && Get(r, col).ms >= b
    case AtMost(col, b) => Get(r, col).Instant? && Get(r, col).ms <= b
  }

  predicate Satisfies(r: Record, q: seq<Cond>) {
    forall c <- q :: Holds(r, c)
  }

  /** The rows that pass every filter of `q`, in table order. */
  function Where(rows: seq<Record>, q: seq<Cond>): (sel: seq<Record>)
    ensures |sel| <= |rows|
  {
    if rows == [] then []
    else
      var init := Where(rows[..|rows| - 1], q);
      var last := rows[|rows| - 1];
      if Satisfies(last, q) then init + [last] else init
  }

  /** The selected rows are exactly the rows of the table that pass every filter. */
  lemma {:induction false} WhereMembers(rows: seq<Record>, q: seq<Cond>)
    ensures forall r <- Where(rows, q) :: r in rows && Satisfies(r, q)
    ensures forall r <- rows :: Satisfies(r, q) ==> r in Where(rows, q)
  {
    if rows != [] {
      var init := rows[..|rows| - 1];
      WhereMembers(init, q);
      assert rows == init + [rows[|rows| - 1]];
    }
  }

  lemma WhereAppend(rows: seq<Record>, q: seq<Cond>, x: Record)
    ensures Where(rows + [x], q) == Where(rows, q) + (if Satisfies(x, q) then [x] else [])
  {
    assert (rows + [x])[..|rows|] == rows;
  }

  /**
   * `SupabaseClient.fetch(table, { column, value })` with its default limit 1:
   * the first row whose column equals a truthy value, or the first row of the
   * table when the value is falsy (no filter is applied then). It throws when
   * the query fails.
   */
  function Fetch(tables: Tables, name: Value, column: string, value: Value): (r: Result<Option<Record>>)
    ensures r.Err? <==> !HasTable(tables, name)
    ensures r.Err? ==> r.error == QueryFailed(name)
    ensures r.Ok? && r.value.Some? ==>
      r.value.value in tables[name.s] && (Truthy(value) ==> Get(r.value.value, column) == value)
    ensures r.Ok? && r.value.None? && Truthy(value) ==>
      forall x <- tables[name.s] :: Get(x, column) != value
    ensures r.Ok? && r.value.None? && !Truthy(value) ==> tables[name.s] == []
  {
    match Rows(tables, name)
    case None => Err(QueryFailed(name))
    case Some(rows) =>
      var hits := if Truthy(value) then Where(rows, [Eq(column, value)]) else rows;
      WhereMembers(rows, [Eq(column, value)]);
      assert Truthy(value) ==> forall x <- rows :: Get(x, column) == value ==> Satisfies(x, [Eq(column, value)]);
      if |hits| == 0 then Ok(None)
      else
        assert Truthy(value) ==> Satisfies(hits[0], [Eq(column, value)]) && Holds(hits[0], Eq(column, value));
        Ok(Some(hits[0]))
  }

  /**
   * A fetch that found a row keeps finding the same row after any insert:
   * inserts append, and the fetch takes the first match.
   */
  lemma FetchAfterAppend(tables: Tables, target: Value, x: Record, name: Value, column: string, value: Value)
    requires Fetch(tables, name, column, value).Ok? && Fetch(tables, name, column, value).value.Some?
    ensures Fetch(Appended(tables, target, x), name, column, value) == Fetch(tables, name, column, value)
  {
    var rows := tables[name.s];
    if HasTable(tables, target) && target.s == name.s {
      assert Appended(tables, target, x)[name.s] == rows + [x];
      if Truthy(value) {
        WhereAppend(rows, [Eq(column, value)], x);
      } else {
        assert (rows + [x])[0] == rows[0];
      }
    }
  }

  /** A numeric column read as the SDK adds it up: a number counts, null or a missing column counts 0. */
  function NumberIn(r: Record, column: string): int {
    match Get(r, column)
    case Num(n) => n
    case _ => 0
  }

  /** `rows.reduce((sum, row) => sum + (row[column] || 0), 0)`. */
  function Sum(rows: seq<Record>, column: string): int {
    if rows == [] then 0 else Sum(rows[..|rows| - 1], column) + NumberIn(rows[|rows| - 1], column)
  }

  lemma {:induction false} SumConcat(a: seq<Record>, b: seq<Record>, column: string)
    ensures Sum(a + b, column) == Sum(a, column) + Sum(b, column)
  {
    if b == [] {
      assert a + b == a;
    } else {
      var b' := b[..|b| - 1];
      assert (a + b)[..|a + b| - 1] == a + b';
      SumConcat(a, b', column);
    }
  }

  /** The instant in a record's `timestamp` column (rows reaching the sort all carry one). */
  function Timestamp(r: Record): int {
    if Get(r, "timestamp").Instant? then Get(r, "timestamp").ms else 0
  }

  predicate SortedByTimestamp(rows: seq<Record>) {
    forall i, j :: 0 <= i < j < |rows| ==> Timestamp(rows[i]) <= Timestamp(rows[j])
  }

  /** Places `x` after every row that is not later than it. */
  function InsertByTimestamp(x: Record, sorted: seq<Record>): (r: seq<Record>)
    ensures |r| == |sorted| + 1
    ensures multiset(r) == multiset(sorted) + multiset{x}
    ensures r[0] == x || (sorted != [] && r[0] == sorted[0])
  {
    if sorted == [] then [x]
    else if Timestamp(x) < Timestamp(sorted[0]) then [x] + sorted
    else
      assert sorted == [sorted[0]] + sorted[1..];
      [sorted[0]] + InsertByTimestamp(x, sorted[1..])
  }

  lemma {:induction false} InsertByTimestampSorted(x: Record, sorted: seq<Record>)
    requires SortedByTimestamp(sorted)
    ensures SortedByTimestamp(InsertByTimestamp(x, sorted))
  {
    if sorted != [] && Timestamp(x) >= Timestamp(sorted[0]) {
      var rest := InsertByTimestamp(x, sorted[1..]);
      InsertByTimestampSorted(x, sorted[1..]);
      var r := [sorted[0]] + rest;
      forall i, j | 0 <= i < j < |r| ensures Timestamp(r[i]) <= Timestamp(r[j]) {
        if i == 0 {
          if j == 1 {
            assert rest[0] == x || rest[0] == sorted[1];
          } else {
            assert Timestamp(rest[0]) <= Timestamp(rest[j - 1]);
            assert rest[0] == x || rest[0] == sorted[1];
          }
        }
      }
    }
  }

  /** `.order('timestamp', { ascending: true })`, as a stable insertion sort. */
  function OrderByTimestamp(rows: seq<Record>): (r: seq<Record>)
    ensures SortedByTimestamp(r)
    ensures multiset(r) == multiset(rows)
  {
    if rows == [] then []
    else
      assert rows == rows[..|rows| - 1] + [rows[|rows| - 1]];
      var init := OrderByTimestamp(rows[..|rows| - 1]);
      InsertByTimestampSorted(rows[|rows| - 1], init);
      InsertByTimestamp(rows[|rows| - 1], init)
  }

  lemma {:induction false} InsertByTimestampSum(x: Record, sorted: seq<Record>, column: string)
    ensures Sum(InsertByTimestamp(x, sorted), column) == Sum(sorted, column) + NumberIn(x, column)
  {
    if sorted == [] {
    } else if Timestamp(x) < Timestamp(sorted[0]) {
      SumConcat([x], sorted, column);
      assert Sum([x], column) == NumberIn(x, column) by {
        assert [x][..0] == [];
      }
    } else {
      InsertByTimestampSum(x, sorted[1..], column);
      SumConcat([sorted[0]], InsertByTimestamp(x, sorted[1..]), column);
      SumConcat([sorted[0]], sorted[1..], column);
      assert [sorted[0]] + sorted[1..] == sorted;
    }
  }

  /** Ordering the rows does not change any column total. */
  lemma {:induction false} OrderByTimestampSum(rows: seq<Record>, column: string)
    ensures Sum(OrderByTimestamp(rows), column) == Sum(rows, column)
  {
    if rows != [] {
      var init := rows[..|rows| - 1];
      OrderByTimestampSum(init, column);
      InsertByTimestampSum(rows[|rows| - 1], OrderByTimestamp(init), column);
    }
  }

  /** The store as one object whose tables the SDK's inserts extend. */
  class Store {
    var tables: Tables

    constructor (tables: Tables)
      ensures this.tables == tables
    {
      this.tables := tables;
    }

    /** `insert(table, record)`: appends the record, or fails and changes nothing when the table does not exist. */
    method Insert(name: Value, record: Record) returns (r: Result<()>)
      modifies this
      ensures r.Ok? <==> HasTable(old(tables), name)
      ensures r.Err? ==> r.error == QueryFailed(name)
      ensures tables == Appended(old(tables), name, record)
    {
      if HasTable(tables, name) {
        tables := tables[name.s := tables[name.s] + [record]];
        r := Ok(());
      } else {
        r := Err(QueryFailed(name));
      }
    }
  }
}
