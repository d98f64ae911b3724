/**
 The batch loader: rows become tuples over the union of their columns and are written with
 INSERT IGNORE, in chunks, inside one transaction.
 */
module Loader {
  import opened Wrappers
  import opened Records

  /** The columns an INSERT names, with their values. */
  type Stored = map<string, Value>

  /**
   All monthly tables at once. A row whose unique key is complete stands under that key. A table
   without a unique index, or with a NULL in the key, repeats the row as often as it is inserted.
   */
  datatype Tables<K(==)> = Tables(keyed: map<(string, K), Stored>, keyless: multiset<(string, Stored)>)

  /** The unique key of a row of a table, None if the table has no unique index or a part of the key is NULL. */
  type KeyOf<K> = (string, Stored) -> Option<K>

  function Size<K(==)>(db: Tables<K>): nat {
    |db.keyed| + |db.keyless|
  }

  const CHUNK_SIZE: nat := 1000

  function ToStored(r: Record, columns: seq<string>): Stored {
    map c | c in columns :: Get(r, c)
  }

  function InsertIgnore<K(==)>(db: Tables<K>, table: string, row: Stored, keyOf: KeyOf<K>): Tables<K> {
    match keyOf(table, row)
    case None => db.(keyless := db.keyless + multiset{(table, row)})
    case Some(k) => if (table, k) in db.keyed then db else db.(keyed := db.keyed[(table, k) := row])
  }

  function InsertAll<K(==)>(db: Tables<K>, table: string, rows: seq<Stored>, keyOf: KeyOf<K>): Tables<K> {
    if rows == [] then db
    else InsertIgnore(InsertAll(db, table, rows[..|rows| - 1], keyOf), table, rows[|rows| - 1], keyOf)
  }

  predicate AllKeyed<K(==)>(table: string, rows: seq<Stored>, keyOf: KeyOf<K>) {
    forall row :: row in rows ==> keyOf(table, row).Some?
  }

  /** Whether the row, or another one under its key, is in the table. */
  predicate Has<K(==)>(db: Tables<K>, table: string, row: Stored, keyOf: KeyOf<K>) {
    match keyOf(table, row)
    case None => (table, row) in db.keyless
    case Some(k) => (table, k) in db.keyed
  }

  /** The rows that a load inserts however often it runs. */
  function KeylessRows<K(==)>(table: string, rows: seq<Stored>, keyOf: KeyOf<K>)
    : multiset<(string, Stored)>
  {
    if rows == [] then multiset{}
    else
      var p, last := rows[..|rows| - 1], rows[|rows| - 1];
      KeylessRows(table, p, keyOf) + (if keyOf(table, last).None? then multiset{(table, last)} else multiset{})
  }

  /** Row i has a key that was not taken before and that no row before it has. */
  ghost predicate IsFirst<K>(db: Tables<K>, table: string, rows: seq<Stored>, i: nat, keyOf: KeyOf<K>)
    requires i < |rows|
  {
    && keyOf(table, rows[i]).Some? && (table, keyOf(table, rows[i]).value) !in db.keyed
    && forall j :: 0 <= j < i ==> keyOf(table, rows[j]) != keyOf(table, rows[i])
  }

  ghost predicate OldStays<K>(before: Tables<K>, after: Tables<K>) {
    forall key :: key in before.keyed ==> key in after.keyed && after.keyed[key] == before.keyed[key]
  }

  ghost predicate FirstIsStored<K>(
      before: Tables<K>, after: Tables<K>, table: string, rows: seq<Stored>, keyOf: KeyOf<K>)
  {
    forall i :: 0 <= i < |rows| && IsFirst(before, table, rows, i, keyOf) ==>
      var key := (table, keyOf(table, rows[i]).value);
      key in after.keyed && after.keyed[key] == rows[i]
  }

  ghost predicate NothingElse<K>(
      before: Tables<K>, after: Tables<K>, table: string, rows: seq<Stored>, keyOf: KeyOf<K>)
  {
    forall key :: key in after.keyed && key !in before.keyed ==>
      exists i :: 0 <= i < |rows| && IsFirst(before, table, rows, i, keyOf)
        && key == (table, keyOf(table, rows[i]).value)
  }

  ghost predicate KeylessAdded<K>(
      before: Tables<K>, after: Tables<K>, table: string, rows: seq<Stored>, keyOf: KeyOf<K>)
  {
    forall t, row :: after.keyless[(t, row)]
      == before.keyless[(t, row)] + (if t == table && keyOf(t, row).None? then multiset(rows)[row] else 0)
  }

  /**
   What an INSERT IGNORE of these rows does: what is there stays as it is, the first row of every
   new key is stored under it as it is, nothing else gets a key, and every row without one is added.
   */
  ghost predicate Inserted<K>(
      before: Tables<K>, after: Tables<K>, table: string, rows: seq<Stored>, keyOf: KeyOf<K>)
  {
    && OldStays(before, after)
    && FirstIsStored(before, after, table, rows, keyOf)
    && NothingElse(before, after, table, rows, keyOf)
    && KeylessAdded(before, after, table, rows, keyOf)
  }

  lemma NothingInserted<K>(db: Tables<K>, table: string, keyOf: KeyOf<K>)
    ensures Inserted(db, db, table, [], keyOf)
  {
  }

  lemma FirstOfMore<K>(db: Tables<K>, table: string, rows: seq<Stored>, last: Stored, i: nat, keyOf: KeyOf<K>)
    requires i < |rows|
    ensures IsFirst(db, table, rows + [last], i, keyOf) <==> IsFirst(db, table, rows, i, keyOf)
  {
    var all := rows + [last];
    assert forall j :: 0 <= j <= i ==> all[j] == rows[j];
  }

  /** The last row is the first of its key iff the key is still free after the others. */
  lemma LastIsFirstIff<K>(
      db: Tables<K>, mid: Tables<K>, table: string, rows: seq<Stored>, last: Stored, keyOf: KeyOf<K>)
    requires Inserted(db, mid, table, rows, keyOf) && keyOf(table, last).Some?
    ensures IsFirst(db, table, rows + [last], |rows|, keyOf)
       <==> (table, keyOf(table, last).value) !in mid.keyed
  {
    var all, key := rows + [last], (table, keyOf(table, last).value);
    assert forall j :: 0 <= j < |rows| ==> all[j] == rows[j];
    if key in mid.keyed && key !in db.keyed {
      var i :| 0 <= i < |rows| && IsFirst(db, table, rows, i, keyOf) && key == (table, keyOf(table, rows[i]).value);
      assert keyOf(table, all[i]) == keyOf(table, last);
    }
    if key !in mid.keyed {
      forall j | 0 <= j < |rows| ensures keyOf(table, rows[j]) != keyOf(table, last) {
        if keyOf(table, rows[j]) == keyOf(table, last) {
          var i := FirstWithKey(table, rows, j, keyOf);
          assert IsFirst(db, table, rows, i, keyOf);
        }
      }
    }
  }

  lemma {:induction false} FirstWithKey<K>(table: string, rows: seq<Stored>, j: nat, keyOf: KeyOf<K>)
    returns (i: nat)
    requires j < |rows|
    ensures i <= j && keyOf(table, rows[i]) == keyOf(table, rows[j])
    ensures forall k :: 0 <= k < i ==> keyOf(table, rows[k]) != keyOf(table, rows[i])
  {
    i := j;
    if k :| 0 <= k < j && keyOf(table, rows[k]) == keyOf(table, rows[j]) {
      i := FirstWithKey(table, rows, k, keyOf);
    }
  }

  lemma OneMoreKeyless<K>(
      db: Tables<K>, mid: Tables<K>, table: string, rows: seq<Stored>, last: Stored, keyOf: KeyOf<K>)
    requires KeylessAdded(db, mid, table, rows, keyOf)
    ensures KeylessAdded(db, InsertIgnore(mid, table, last, keyOf), table, rows + [last], keyOf)
  {
  }

  lemma OneMoreFirst<K>(
      db: Tables<K>, mid: Tables<K>, table: string, rows: seq<Stored>, last: Stored, keyOf: KeyOf<K>)
    requires Inserted(db, mid, table, rows, keyOf)
    ensures FirstIsStored(db, InsertIgnore(mid, table, last, keyOf), table, rows + [last], keyOf)
  {
    var all, after := rows + [last], InsertIgnore(mid, table, last, keyOf);
    forall i | 0 <= i < |all| && IsFirst(db, table, all, i, keyOf)
      ensures var key := (table, keyOf(table, all[i]).value); key in after.keyed && after.keyed[key] == all[i]
    {
      if i < |rows| {
        FirstOfMore(db, table, rows, last, i, keyOf);
      } else {
        LastIsFirstIff(db, mid, table, rows, last, keyOf);
      }
    }
  }

  lemma OneMoreEntry<K>(
      db: Tables<K>, mid: Tables<K>, table: string, rows: seq<Stored>, last: Stored, keyOf: KeyOf<K>)
    requires Inserted(db, mid, table, rows, keyOf)
    ensures NothingElse(db, InsertIgnore(mid, table, last, keyOf), table, rows + [last], keyOf)
  {
    var all, after := rows + [last], InsertIgnore(mid, table, last, keyOf);
    forall key | key in after.keyed && key !in db.keyed
      ensures exists i :: 0 <= i < |all| && IsFirst(db, table, all, i, keyOf)
                && key == (table, keyOf(table, all[i]).value)
    {
      if key in mid.keyed {
        var i :| 0 <= i < |rows| && IsFirst(db, table, rows, i, keyOf) && key == (table, keyOf(table, rows[i]).value);
        FirstOfMore(db, table, rows, last, i, keyOf);
        assert all[i] == rows[i];
      } else {
        LastIsFirstIff(db, mid, table, rows, last, keyOf);
        assert all[|rows|] == last;
      }
    }
  }

  /** The insertion, row by row, does exactly that. */
  lemma {:induction false} InsertAllIs<K>(db: Tables<K>, table: string, rows: seq<Stored>, keyOf: KeyOf<K>)
    ensures Inserted(db, InsertAll(db, table, rows, keyOf), table, rows, keyOf)
  {
    if rows == [] {
      NothingInserted(db, table, keyOf);
    } else {
      var p, last := rows[..|rows| - 1], rows[|rows| - 1];
      assert p + [last] == rows;
      InsertAllIs(db, table, p, keyOf);
      var mid := InsertAll(db, table, p, keyOf);
      OneMoreKeyless(db, mid, table, p, last, keyOf);
      OneMoreFirst(db, mid, table, p, last, keyOf);
      OneMoreEntry(db, mid, table, p, last, keyOf);
    }
  }

  /** The keys of the rows in the order in which they are first seen. */
  function Columns(rows: seq<Record>): seq<string> {
    if rows == [] then [] else AddNames(Columns(rows[..|rows| - 1]), rows[|rows| - 1].names)
  }

  function AddNames(seen: seq<string>, names: seq<string>): seq<string> {
    if names == [] then seen
    else
      var s := AddNames(seen, names[..|names| - 1]);
      if names[|names| - 1] in s then s else s + [names[|names| - 1]]
  }

  function StoredRows(rows: seq<Record>): seq<Stored> {
    seq(|rows|, i requires 0 <= i < |rows| => ToStored(rows[i], Columns(rows)))
  }

  lemma {:induction false} AddNamesIsUnion(seen: seq<string>, names: seq<string>)
    ensures forall c :: c in AddNames(seen, names) <==> c in seen || c in names
    ensures Distinct(seen) ==> Distinct(AddNames(seen, names))
    ensures seen <= AddNames(seen, names)
  {
    if names != [] {
      assert names == names[..|names| - 1] + [names[|names| - 1]];
      AddNamesIsUnion(seen, names[..|names| - 1]);
    }
  }

  lemma {:induction false} ColumnsAreUnion(rows: seq<Record>)
    ensures Distinct(Columns(rows))
    ensures forall c :: c in Columns(rows) <==> exists r :: r in rows && c in r.names
  {
    if rows != [] {
      var p, last := rows[..|rows| - 1], rows[|rows| - 1];
      assert rows == p + [last];
      ColumnsAreUnion(p);
      AddNamesIsUnion(Columns(p), last.names);
      forall c
        ensures c in Columns(rows) <==> exists r :: r in rows && c in r.names
      {
        if c in last.names {
          assert last in rows;
        }
      }
    }
  }

  /** Nothing is truncated: every cell of every row can be read back from what is stored for it. */
  lemma CellsAreRecoverable(rows: seq<Record>, i: nat, name: string)
    requires AllWellFormed(rows) && i < |rows|
    ensures name in rows[i].cells ==> name in StoredRows(rows)[i] && StoredRows(rows)[i][name] == rows[i].cells[name]
    ensures name !in rows[i].cells && name in StoredRows(rows)[i] ==> StoredRows(rows)[i][name] == Null
    ensures name in StoredRows(rows)[i] <==> exists r :: r in rows && name in r.cells
  {
    ColumnsAreUnion(rows);
    assert rows[i] in rows;
    assert name in StoredRows(rows)[i] <==> name in Columns(rows);
    if r :| r in rows && name in r.cells {
      assert name in r.names;
    }
  }

  /** An error the driver raises while the statements run. */
  datatype DbError = Transient | Permanent

  class Warehouse<K(==)> {
    var tables: Tables<K>

    constructor ()
      ensures tables == Tables(map[], multiset{})
    {
      tables := Tables(map[], multiset{});
    }
  }

  class BatchLoader<K(==)> {
    const db: Warehouse<K>
    const keyOf: KeyOf<K>

    constructor (db: Warehouse<K>, keyOf: KeyOf<K>)
      ensures this.db == db && this.keyOf == keyOf
    {
      this.db := db;
      this.keyOf := keyOf;
    }

    static method PrepareRows(rows: seq<Record>) returns (columns: seq<string>, data: seq<seq<Value>>)
      ensures columns == Columns(rows)
      ensures |data| == |rows|
      ensures forall i :: 0 <= i < |rows| ==> |data[i]| == |columns|
      ensures forall i, j :: 0 <= i < |rows| && 0 <= j < |columns| ==> data[i][j] == Get(rows[i], columns[j])
    {
      var seen: seq<string> := [];
      for i := 0 to |rows|
        invariant seen == Columns(rows[..i])
      {
        var names := rows[i].names;
        for k := 0 to |names|
          invariant seen == AddNames(Columns(rows[..i]), names[..k])
        {
          assert names[..k + 1][..k] == names[..k];
          if names[k] !in seen {
            seen := seen + [names[k]];
          }
        }
        assert names[..|names|] == names;
        assert rows[..i + 1][..i] == rows[..i];
      }
      assert rows[..|rows|] == rows;
      columns := seen;
      data := [];
      for i := 0 to |rows|
        invariant |data| == i
        invariant forall k :: 0 <= k < i ==> |data[k]| == |columns|
        invariant forall k, j :: 0 <= k < i && 0 <= j < |columns| ==> data[k][j] == Get(rows[k], columns[j])
      {
        data := data + [seq(|columns|, j requires 0 <= j < |columns| => Get(rows[i], columns[j]))];
      }
    }

    /** The cursor's executemany on a working copy of the tables. */
    method ExecuteMany(db: Tables<K>, table: string, rows: seq<Stored>) returns (next: Tables<K>, rowcount: int)
      ensures next == InsertAll(db, table, rows, keyOf)
      ensures rowcount == Size(next) - Size(db)
    {
      next, rowcount := db, 0;
      for j := 0 to |rows|
        invariant next == InsertAll(db, table, rows[..j], keyOf)
        invariant rowcount == Size(next) - Size(db)
      {
        assert rows[..j + 1][..j] == rows[..j];
        InsertionCount(next, table, rows[j], keyOf);
        var key := keyOf(table, rows[j]);
        if key.None? {
          next := next.(keyless := next.keyless + multiset{(table, rows[j])});
          rowcount := rowcount + 1;
        } else if (table, key.value) !in next.keyed {
          next := next.(keyed := next.keyed[(table, key.value) := rows[j]]);
          rowcount := rowcount + 1;
        }
      }
      assert rows[..|rows|] == rows;
    }

    /** The first i rows are in, and counted. */
    ghost predicate Written(db0: Tables<K>, working: Tables<K>, total: int, table: string, rows: seq<Stored>, i: nat)
      requires i <= |rows|
    {
      working == InsertAll(db0, table, rows[..i], keyOf) && total == Size(working) - Size(db0)
    }

    /** One more chunk on top of the rows before it. */
    method ExecuteChunk(
        ghost db0: Tables<K>, working: Tables<K>, total: int, table: string, rows: seq<Stored>, i: nat, end: nat)
      returns (next: Tables<K>, sum: int)
      requires i <= end <= |rows| && Written(db0, working, total, table, rows, i)
      ensures Written(db0, next, sum, table, rows, end)
    {
      NextChunk(db0, table, rows, i, end, keyOf);
      var rowcount;
      next, rowcount := ExecuteMany(working, table, rows[i..end]);
      sum := total + rowcount;
    }

    /** failsAt: the chunk at which the driver raises, if it does. Then nothing is committed. */
    method ExecuteBatch(table: string, rows: seq<Stored>, failsAt: Option<nat>) returns (written: Option<int>)
      modifies db
      ensures written.Some? ==>
        && db.tables == InsertAll(old(db.tables), table, rows, keyOf)
        && written.value == Size(db.tables) - Size(old(db.tables))
      ensures written.Some? ==> Inserted(old(db.tables), db.tables, table, rows, keyOf)
      ensures written.None? ==> db.tables == old(db.tables)
      ensures written.None? <==> failsAt.Some? && failsAt.value * CHUNK_SIZE < |rows|
    {
      ghost var db0 := db.tables;
      var working, total := db.tables, 0;
      var i, chunk := 0, 0;
      assert rows[..0] == [];
      while i < |rows|
        invariant i == chunk * CHUNK_SIZE
        invariant Written(db0, working, total, table, rows, Capped(i, |rows|))
        invariant failsAt.Some? ==> chunk <= failsAt.value
        invariant db.tables == db0
        decreases |rows| - i
      {
        if failsAt == Some(chunk) {
          return None;
        }
        working, total := ExecuteChunk(db0, working, total, table, rows, i, Capped(i + CHUNK_SIZE, |rows|));
        i := i + CHUNK_SIZE;
        chunk := chunk + 1;
      }
      assert rows[..|rows|] == rows;
      InsertAllIs(db0, table, rows, keyOf);
      db.tables := working;
      return Some(total);
    }

    method LoadBatch(table: string, rows: seq<Record>, failsAt: Option<nat>) returns (written: Option<int>)
      modifies db
      ensures written.Some? ==>
        && db.tables == InsertAll(old(db.tables), table, StoredRows(rows), keyOf)
        && written.value == Size(db.tables) - Size(old(db.tables))
      ensures written.Some? ==> Inserted(old(db.tables), db.tables, table, StoredRows(rows), keyOf)
      ensures written.None? ==> db.tables == old(db.tables)
      ensures written.None? <==> failsAt.Some? && failsAt.value * CHUNK_SIZE < |rows|
    {
      if rows == [] {
        NothingInserted(db.tables, table, keyOf);
        return Some(0);
      }
      var columns, data := PrepareRows(rows);
      TuplesAreStoredRows(rows, columns, data);
      written := ExecuteBatch(table, Tuples(columns, data), failsAt);
    }
  }

  /** What the INSERT stores for each tuple. */
  function Tuples(columns: seq<string>, data: seq<seq<Value>>): seq<Stored>
    requires forall i :: 0 <= i < |data| ==> |data[i]| == |columns|
  {
    seq(|data|, i requires 0 <= i < |data| => Zip(columns, data[i]))
  }

  lemma TuplesAreStoredRows(rows: seq<Record>, columns: seq<string>, data: seq<seq<Value>>)
    requires columns == Columns(rows) && |data| == |rows|
    requires forall i :: 0 <= i < |rows| ==> |data[i]| == |columns|
    requires forall i, j :: 0 <= i < |rows| && 0 <= j < |columns| ==> data[i][j] == Get(rows[i], columns[j])
    ensures Tuples(columns, data) == StoredRows(rows)
  {
    forall k | 0 <= k < |rows| ensures Zip(columns, data[k]) == ToStored(rows[k], columns) {
    }
  }

  lemma NextChunk<K>(db: Tables<K>, table: string, rows: seq<Stored>, i: nat, end: nat, keyOf: KeyOf<K>)
    requires i <= end <= |rows|
    ensures InsertAll(InsertAll(db, table, rows[..i], keyOf), table, rows[i..end], keyOf)
         == InsertAll(db, table, rows[..end], keyOf)
  {
    InsertInTwo(db, table, rows[..i], rows[i..end], keyOf);
    assert rows[..i] + rows[i..end] == rows[..end];
  }

  function Capped(i: nat, n: nat): nat { if i < n then i else n }

  function Zip(columns: seq<string>, values: seq<Value>): Stored
    requires |values| == |columns|
  {
    map c | c in columns :: values[IndexOf(columns, c)]
  }

  lemma {:induction false} InsertInTwo<K>(
      db: Tables<K>, table: string, a: seq<Stored>, b: seq<Stored>, keyOf: KeyOf<K>)
    ensures InsertAll(InsertAll(db, table, a, keyOf), table, b, keyOf) == InsertAll(db, table, a + b, keyOf)
  {
    if b == [] {
      assert a + b == a;
    } else {
      InsertInTwo(db, table, a, b[..|b| - 1], keyOf);
      assert (a + b)[..|a + b| - 1] == a + b[..|b| - 1];
    }
  }

  function IndexOf(s: seq<string>, c: string): (k: nat)
    requires c in s
    ensures k < |s| && s[k] == c
  {
    if s[|s| - 1] == c then |s| - 1 else IndexOf(s[..|s| - 1], c)
  }

  lemma InsertionCount<K>(db: Tables<K>, table: string, row: Stored, keyOf: KeyOf<K>)
    ensures Size(InsertIgnore(db, table, row, keyOf))
         == Size(db) + (if keyOf(table, row).Some? && (table, keyOf(table, row).value) in db.keyed then 0 else 1)
  {
    var next := InsertIgnore(db, table, row, keyOf);
    if keyOf(table, row).Some? && (table, keyOf(table, row).value) !in db.keyed {
      assert next.keyed.Keys == db.keyed.Keys + {(table, keyOf(table, row).value)};
      assert |next.keyed.Keys| == |db.keyed.Keys| + 1;
    }
  }
}
