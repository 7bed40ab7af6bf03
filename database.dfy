/**
 * The SQLite `leads` table of utils/database.py as an in-memory object: its column set (empty
 * while the table does not exist), its rows in insertion order, and the AUTOINCREMENT counter
 * that numbers them.  Each operation of the module opens the database, runs its statements and
 * closes it again; here each is a method on the one `LeadStore`.
 */
module Database {
  import opened Wrappers
  import opened Text

  /** One row; SQL NULL is `None`.  `ts` is an ISO-8601 UTC timestamp. */
  datatype Lead = Lead(id: nat, convId: string, name: Option<string>, email: Option<string>, ts: Option<string>)

  /** Why a statement fails: SQLite's "no such table" and "no such column" errors. */
  datatype DbError = NoSuchTable | NoSuchColumn(column: string)

  /** The columns `CREATE TABLE IF NOT EXISTS leads (...)` creates. */
  const BaseColumns: set<string> := {"id", "conv_id", "name", "email"}

  /** The columns the INSERT of `save_lead` and the SELECTs name besides the base ones. */
  const TsColumn := "ts"

  /** The schema after `init_db`: the base table if there was none, then `ts` if it was missing. */
  function MigratedColumns(columns: set<string>): (r: set<string>)
    ensures TsColumn in r
    ensures columns != {} ==> r == columns + {TsColumn}
    ensures columns == {} ==> r == BaseColumns + {TsColumn}
  {
    (if columns == {} then BaseColumns else columns) + {TsColumn}
  }

  /** `init_db` run a second time changes nothing. */
  lemma MigrationIdempotent(columns: set<string>)
    ensures MigratedColumns(MigratedColumns(columns)) == MigratedColumns(columns)
  {
    assert MigratedColumns(columns) != {} by { assert TsColumn in MigratedColumns(columns); }
  }

  /** Row ids grow strictly along insertion order. */
  predicate IdsIncreasing(rows: seq<Lead>) {
    forall i, j :: 0 <= i < j < |rows| ==> rows[i].id < rows[j].id
  }

  /** `a` comes no later than `b` under `ORDER BY ts DESC`: later text first, NULLs last. */
  predicate TsAtLeast(a: Lead, b: Lead) {
    match (a.ts, b.ts)
    case (Some(x), Some(y)) => LexLe(y, x)
    case (Some(_), None) => true
    case (None, Some(_)) => false
    case (None, None) => true
  }

  lemma TsAtLeastTotal(a: Lead, b: Lead)
    ensures TsAtLeast(a, b) || TsAtLeast(b, a)
  {
    if a.ts.Some? && b.ts.Some? {
      LexLeTotal(a.ts.value, b.ts.value);
    }
  }

  lemma TsAtLeastTransitive(a: Lead, b: Lead, c: Lead)
    requires TsAtLeast(a, b) && TsAtLeast(b, c)
    ensures TsAtLeast(a, c)
  {
    if a.ts.Some? && b.ts.Some? && c.ts.Some? {
      LexLeTransitive(c.ts.value, b.ts.value, a.ts.value);
    }
  }

  predicate SortedByTsDesc(rows: seq<Lead>) {
    forall i, j :: 0 <= i < j < |rows| ==> TsAtLeast(rows[i], rows[j])
  }

  /** Insert `x` into a list ordered by `ts` descending, before the first row it is not later than. */
  function InsertByTs(sorted: seq<Lead>, x: Lead): (r: seq<Lead>)
    ensures multiset(r) == multiset(sorted) + multiset{x}
  {
    if sorted == [] then [x]
    else if TsAtLeast(x, sorted[0]) then [x] + sorted
    else
      var r := [sorted[0]] + InsertByTs(sorted[1..], x);
      assert sorted == [sorted[0]] + sorted[1..];
      r
  }

  lemma {:induction false} InsertByTsSorted(sorted: seq<Lead>, x: Lead)
    requires SortedByTsDesc(sorted)
    ensures SortedByTsDesc(InsertByTs(sorted, x))
  {
    if sorted != [] {
      if TsAtLeast(x, sorted[0]) {
        forall j | 0 <= j < |sorted| ensures TsAtLeast(x, sorted[j]) {
          if j > 0 { TsAtLeastTransitive(x, sorted[0], sorted[j]); }
        }
      } else {
        InsertByTsSorted(sorted[1..], x);
        TsAtLeastTotal(x, sorted[0]);
        HeadPrecedesInsert(sorted, x);
      }
    }
  }

  /** The head of a sorted list that is later than `x` precedes every row of the tail with `x` inserted. */
  lemma HeadPrecedesInsert(sorted: seq<Lead>, x: Lead)
    requires sorted != [] && SortedByTsDesc(sorted) && TsAtLeast(sorted[0], x)
    ensures forall j :: 0 <= j < |InsertByTs(sorted[1..], x)| ==> TsAtLeast(sorted[0], InsertByTs(sorted[1..], x)[j])
  {
    var tail := sorted[1..];
    var r := InsertByTs(tail, x);
    forall j | 0 <= j < |r| ensures TsAtLeast(sorted[0], r[j]) {
      assert r[j] in multiset(r);
      assert r[j] == x || r[j] in multiset(tail);
      if r[j] != x {
        var m :| 0 <= m < |tail| && tail[m] == r[j];
        assert sorted[m + 1] == r[j];
      }
    }
  }

  /** The rows in `ORDER BY ts DESC` order; rows with equal `ts` come in an unspecified order. */
  method SortByTsDesc(rows: seq<Lead>) returns (sorted: seq<Lead>)
    ensures SortedByTsDesc(sorted)
    ensures multiset(sorted) == multiset(rows)
  {
    sorted := [];
    var i := 0;
    while i < |rows|
      invariant 0 <= i <= |rows|
      invariant SortedByTsDesc(sorted)
      invariant multiset(sorted) == multiset(rows[..i])
    {
      InsertByTsSorted(sorted, rows[i]);
      sorted := InsertByTs(sorted, rows[i]);
      assert rows[..i + 1] == rows[..i] + [rows[i]];
      i := i + 1;
    }
    assert rows[..i] == rows;
  }

  /** `ts BETWEEN start AND end`: both bounds inclusive, and a NULL `ts` is never in range. */
  predicate InRange(row: Lead, start: string, end: string) {
    row.ts.Some? && LexLe(start, row.ts.value) && LexLe(row.ts.value, end)
  }

  /** The rows in range, in insertion order. */
  function RowsInRange(rows: seq<Lead>, start: string, end: string): (r: seq<Lead>)
    ensures forall x :: x in r <==> x in rows && InRange(x, start, end)
  {
    if rows == [] then []
    else RowsInRange(rows[..|rows| - 1], start, end)
         + (if InRange(rows[|rows| - 1], start, end) then [rows[|rows| - 1]] else [])
  }

  class LeadStore {
    /** The table's columns; empty while the table does not exist. */
    var columns: set<string>
    /** The rows in insertion (rowid) order. */
    var rows: seq<Lead>
    /** The value SQLite keeps in `sqlite_sequence` for `leads`: the largest id ever handed out. */
    var counter: nat

    ghost predicate Valid()
      reads this
    {
      (columns == {} ==> rows == [])
      && (columns != {} ==> BaseColumns <= columns)
      && (TsColumn !in columns ==> forall k :: 0 <= k < |rows| ==> rows[k].ts.None?)
      && IdsIncreasing(rows)
      && forall k :: 0 <= k < |rows| ==> rows[k].id <= counter
    }

    /** A database file that has no `leads` table yet. */
    constructor Empty()
      ensures Valid()
      ensures columns == {} && rows == [] && counter == 0
    {
      columns := {};
      rows := [];
      counter := 0;
    }

    /** An existing database file, possibly created before the `ts` column was introduced. */
    constructor Open(columns: set<string>, rows: seq<Lead>, counter: nat)
      requires columns == {} ==> rows == []
      requires columns != {} ==> BaseColumns <= columns
      requires TsColumn !in columns ==> forall k :: 0 <= k < |rows| ==> rows[k].ts.None?
      requires IdsIncreasing(rows)
      requires forall k :: 0 <= k < |rows| ==> rows[k].id <= counter
      ensures Valid()
      ensures this.columns == columns && this.rows == rows && this.counter == counter
    {
      this.columns := columns;
      this.rows := rows;
      this.counter := counter;
    }

    /** `init_db`: create the table when absent, then add `ts` when missing; rows stay as they are. */
    method InitDb()
      requires Valid()
      modifies this
      ensures Valid()
      ensures columns == MigratedColumns(old(columns))
      ensures rows == old(rows) && counter == old(counter)
    {
      if columns == {} {
        columns := BaseColumns;
      }
      if TsColumn !in columns {
        columns := columns + {TsColumn};
      }
    }

    /**
     * `save_lead`: insert one row stamped `now` (`datetime.utcnow().isoformat()`), with the next
     * AUTOINCREMENT id; the existing rows are untouched.
     */
    method SaveLead(convId: string, name: Option<string>, email: Option<string>, now: string)
      returns (r: Result<(), DbError>)
      requires Valid()
      modifies this
      ensures Valid()
      ensures old(columns) == {} ==> r == Err(NoSuchTable)
      ensures old(columns) != {} && TsColumn !in old(columns) ==> r == Err(NoSuchColumn(TsColumn))
      ensures r.Err? ==> unchanged(this)
      ensures r.Ok? <==> old(columns) != {} && TsColumn in old(columns)
      ensures r.Ok? ==> counter == old(counter) + 1 && columns == old(columns)
                        && rows == old(rows) + [Lead(old(counter) + 1, convId, name, email, Some(now))]
    {
      if columns == {} {
        return Err(NoSuchTable);
      }
      if TsColumn !in columns {
        return Err(NoSuchColumn(TsColumn));
      }
      counter := counter + 1;
      rows := rows + [Lead(counter, convId, name, email, Some(now))];
      return Ok(());
    }

    /** The check both SELECTs share: the table and every selected column must exist. */
    function SelectError(): (e: Option<DbError>)
      reads this
      ensures e.None? <==> columns != {} && TsColumn in columns
    {
      if columns == {} then Some(NoSuchTable)
      else if TsColumn !in columns then Some(NoSuchColumn(TsColumn))
      else None
    }

    /** `get_all_leads`: every row exactly once, latest `ts` first, NULL timestamps last. */
    method GetAllLeads() returns (r: Result<seq<Lead>, DbError>)
      requires Valid()
      ensures SelectError().Some? ==> r == Err(SelectError().value)
      ensures SelectError().None? ==> r.Ok?
      ensures r.Ok? ==> SortedByTsDesc(r.value) && multiset(r.value) == multiset(rows)
      ensures r.Ok? ==> |r.value| == |rows|
    {
      var e := SelectError();
      if e.Some? {
        return Err(e.value);
      }
      var sorted := SortByTsDesc(rows);
      assert |sorted| == |multiset(sorted)| == |multiset(rows)| == |rows|;
      return Ok(sorted);
    }

    /** `get_lead_count`: `SELECT COUNT(*)` needs only the table. */
    method GetLeadCount() returns (r: Result<nat, DbError>)
      requires Valid()
      ensures columns == {} ==> r == Err(NoSuchTable)
      ensures columns != {} ==> r == Ok(|rows|)
    {
      if columns == {} {
        return Err(NoSuchTable);
      }
      return Ok(|rows|);
    }

    /**
     * `get_leads_by_date_range`: with both bounds truthy, exactly the rows whose `ts` lies
     * between them (inclusive, lexicographic), latest first; otherwise every row, as `get_all_leads`.
     */
    method GetLeadsByDateRange(start: Option<string>, end: Option<string>) returns (r: Result<seq<Lead>, DbError>)
      requires Valid()
      ensures SelectError().Some? ==> r == Err(SelectError().value)
      ensures SelectError().None? ==> r.Ok?
      ensures r.Ok? ==> SortedByTsDesc(r.value)
      ensures r.Ok? && Truthy(start) && Truthy(end) ==>
                multiset(r.value) == multiset(RowsInRange(rows, start.value, end.value))
      ensures r.Ok? && !(Truthy(start) && Truthy(end)) ==> multiset(r.value) == multiset(rows)
    {
      var e := SelectError();
      if e.Some? {
        return Err(e.value);
      }
      if Truthy(start) && Truthy(end) {
        var selected: seq<Lead> := [];
        var i := 0;
        while i < |rows|
          invariant 0 <= i <= |rows|
          invariant selected == RowsInRange(rows[..i], start.value, end.value)
        {
          assert rows[..i + 1][..i] == rows[..i];
          if InRange(rows[i], start.value, end.value) {
            selected := selected + [rows[i]];
          }
          i := i + 1;
        }
        assert rows[..i] == rows;
        var sorted := SortByTsDesc(selected);
        return Ok(sorted);
      }
      var sorted := SortByTsDesc(rows);
      return Ok(sorted);
    }
  }

  /** A result holds exactly the rows in range: membership in both directions. */
  lemma RangeResultMembers(result: seq<Lead>, rows: seq<Lead>, start: string, end: string)
    requires multiset(result) == multiset(RowsInRange(rows, start, end))
    ensures forall x :: x in result <==> x in rows && InRange(x, start, end)
  {
    forall x ensures x in result <==> x in RowsInRange(rows, start, end) {
      assert x in result <==> x in multiset(result);
      assert x in RowsInRange(rows, start, end) <==> x in multiset(RowsInRange(rows, start, end));
    }
  }

  /** Inserting a row with the next id keeps ids increasing, so two equal inserts give distinct ids. */
  lemma {:induction false} NextIdFresh(rows: seq<Lead>, counter: nat, x: Lead)
    requires IdsIncreasing(rows)
    requires forall k :: 0 <= k < |rows| ==> rows[k].id <= counter
    requires x.id == counter + 1
    ensures IdsIncreasing(rows + [x])
    ensures forall k :: 0 <= k < |rows| ==> rows[k].id != x.id
  {
    var r := rows + [x];
    forall i, j | 0 <= i < j < |r| ensures r[i].id < r[j].id {
      if j == |rows| {
        assert r[i] == rows[i];
      } else {
        assert r[i] == rows[i] && r[j] == rows[j];
      }
    }
  }
}
