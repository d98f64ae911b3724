/**
 What happens to the tables when a file is processed more than once: restarted after a crash,
 claimed by two instances, or both at the same time.
 */
module ExactlyOnce {
  import opened Wrappers
  import opened Records
  import opened Loader

  /** One load_batch call, committed as a whole or not at all. */
  datatype Load = Load(table: string, rows: seq<Record>)

  function Commit<K(==)>(db: Tables<K>, load: Load, keyOf: KeyOf<K>): Tables<K> {
    InsertAll(db, load.table, StoredRows(load.rows), keyOf)
  }

  /** One clean, uninterrupted run. */
  function RunAll<K(==)>(db: Tables<K>, plan: seq<Load>, keyOf: KeyOf<K>): Tables<K> {
    if plan == [] then db else Commit(RunAll(db, plan[..|plan| - 1], keyOf), plan[|plan| - 1], keyOf)
  }

  type Worker = nat

  /** A turn of one of the file's workers, or a load of some other file into the same tables. */
  datatype Turn = Own(worker: Worker) | Foreign(load: Load)

  /** How far a worker is after a schedule: each of its turns commits its next load. */
  function Progress(plan: seq<Load>, schedule: seq<Turn>, w: Worker): nat {
    if schedule == [] then 0
    else
      var n := Progress(plan, schedule[..|schedule| - 1], w);
      if schedule[|schedule| - 1] == Own(w) && n < |plan| then n + 1 else n
  }

  /** Any number of workers, each with its plan, interleaved; a worker that stops gets no more turns. */
  function Interleaved<K(==)>(
      db: Tables<K>, plans: Worker -> seq<Load>, schedule: seq<Turn>, keyOf: KeyOf<K>): Tables<K> {
    if schedule == [] then db
    else
      var p := schedule[..|schedule| - 1];
      var now := Interleaved(db, plans, p, keyOf);
      match schedule[|schedule| - 1]
      case Own(w) =>
        var n := Progress(plans(w), p, w);
        if n < |plans(w)| then Commit(now, plans(w)[n], keyOf) else now
      case Foreign(load) => Commit(now, load, keyOf)
  }

  /** The progress of the worker that got furthest. */
  function Furthest(plan: seq<Load>, schedule: seq<Turn>): (n: nat)
    ensures n <= |plan|
    ensures forall w :: Progress(plan, schedule, w) <= n
  {
    if schedule == [] then 0
    else
      var p := schedule[..|schedule| - 1];
      var n := Furthest(plan, p);
      match schedule[|schedule| - 1]
      case Own(w) => if Progress(plan, p, w) == n && n < |plan| then n + 1 else n
      case Foreign(_) => n
  }

  /** The loads of the other files, in order. */
  function ForeignLoads(schedule: seq<Turn>): seq<Load> {
    if schedule == [] then []
    else
      var before, last := ForeignLoads(schedule[..|schedule| - 1]), schedule[|schedule| - 1];
      if last.Foreign? then before + [last.load] else before
  }

  /** The same schedule as a serial run: each load of the file only at its first turn. */
  function Once(plan: seq<Load>, schedule: seq<Turn>): seq<Load> {
    if schedule == [] then []
    else
      var p := schedule[..|schedule| - 1];
      match schedule[|schedule| - 1]
      case Own(w) =>
        var m := Progress(plan, p, w);
        if m == Furthest(plan, p) && m < |plan| then Once(plan, p) + [plan[m]] else Once(plan, p)
      case Foreign(load) => Once(plan, p) + [load]
  }

  /** The loads of `own` and those of `foreign`, each in their order and each once. */
  predicate IsMerge(all: seq<Load>, own: seq<Load>, foreign: seq<Load>) {
    if all == [] then own == [] && foreign == []
    else
      var p, last := all[..|all| - 1], all[|all| - 1];
      || (own != [] && own[|own| - 1] == last && IsMerge(p, own[..|own| - 1], foreign))
      || (foreign != [] && foreign[|foreign| - 1] == last && IsMerge(p, own, foreign[..|foreign| - 1]))
  }

  /** Every row of the load has its unique key. */
  predicate Keyed<K(==)>(load: Load, keyOf: KeyOf<K>) {
    AllKeyed(load.table, StoredRows(load.rows), keyOf)
  }

  predicate PlanKeyed<K(==)>(plan: seq<Load>, keyOf: KeyOf<K>) {
    forall load :: load in plan ==> Keyed(load, keyOf)
  }

  function KeylessOf<K(==)>(load: Load, keyOf: KeyOf<K>): multiset<(string, Stored)> {
    KeylessRows(load.table, StoredRows(load.rows), keyOf)
  }

  function KeylessOfPlan<K(==)>(plan: seq<Load>, keyOf: KeyOf<K>): multiset<(string, Stored)> {
    if plan == [] then multiset{}
    else KeylessOfPlan(plan[..|plan| - 1], keyOf) + KeylessOf(plan[|plan| - 1], keyOf)
  }

  /** The keyless rows of all turns that commit a load which another attempt had committed before. */
  function Repeated<K(==)>(plan: seq<Load>, schedule: seq<Turn>, keyOf: KeyOf<K>): multiset<(string, Stored)> {
    if schedule == [] then multiset{}
    else
      var p := schedule[..|schedule| - 1];
      match schedule[|schedule| - 1]
      case Own(w) =>
        var m := Progress(plan, p, w);
        Repeated(plan, p, keyOf) + (if m < Furthest(plan, p) then KeylessOf(plan[m], keyOf) else multiset{})
      case Foreign(_) => Repeated(plan, p, keyOf)
  }

  // ---------------------------------------------------------------- one insertion

  lemma {:induction false} KeylessAddUp<K>(
      db: Tables<K>, table: string, rows: seq<Stored>, keyOf: KeyOf<K>)
    ensures InsertAll(db, table, rows, keyOf).keyless == db.keyless + KeylessRows(table, rows, keyOf)
  {
    if rows != [] {
      KeylessAddUp(db, table, rows[..|rows| - 1], keyOf);
    }
  }

  lemma {:induction false} NoKeylessIff<K>(table: string, rows: seq<Stored>, keyOf: KeyOf<K>)
    ensures KeylessRows(table, rows, keyOf) == multiset{} <==> AllKeyed(table, rows, keyOf)
  {
    if rows != [] {
      var p, last := rows[..|rows| - 1], rows[|rows| - 1];
      assert rows == p + [last];
      NoKeylessIff(table, p, keyOf);
      if keyOf(table, last).None? {
        assert (table, last) in KeylessRows(table, rows, keyOf);
      }
    }
  }

  /** What is stored under the keys depends only on what was stored under the keys. */
  lemma {:induction false} SameKeyed<K>(
      a: Tables<K>, b: Tables<K>, table: string, rows: seq<Stored>, keyOf: KeyOf<K>)
    requires a.keyed == b.keyed
    ensures InsertAll(a, table, rows, keyOf).keyed == InsertAll(b, table, rows, keyOf).keyed
  {
    if rows != [] {
      SameKeyed(a, b, table, rows[..|rows| - 1], keyOf);
    }
  }

  /** Nothing that is in the tables is lost. */
  predicate Within<K(==)>(a: Tables<K>, b: Tables<K>) {
    a.keyed.Keys <= b.keyed.Keys && a.keyless <= b.keyless
  }

  lemma InsertOneStays<K>(db: Tables<K>, table: string, row: Stored, keyOf: KeyOf<K>)
    ensures Within(db, InsertIgnore(db, table, row, keyOf))
    ensures Has(InsertIgnore(db, table, row, keyOf), table, row, keyOf)
  {
  }

  lemma HasStays<K>(a: Tables<K>, b: Tables<K>, table: string, row: Stored, keyOf: KeyOf<K>)
    requires Within(a, b) && Has(a, table, row, keyOf)
    ensures Has(b, table, row, keyOf)
  {
  }

  lemma {:induction false} InsertedStays<K>(
      db: Tables<K>, table: string, rows: seq<Stored>, keyOf: KeyOf<K>)
    ensures Within(db, InsertAll(db, table, rows, keyOf))
    ensures forall row :: row in rows ==> Has(InsertAll(db, table, rows, keyOf), table, row, keyOf)
  {
    if rows != [] {
      var p, last := rows[..|rows| - 1], rows[|rows| - 1];
      assert rows == p + [last];
      InsertedStays(db, table, p, keyOf);
      var mid := InsertAll(db, table, p, keyOf);
      InsertOneStays(mid, table, last, keyOf);
      forall row | row in rows ensures Has(InsertAll(db, table, rows, keyOf), table, row, keyOf) {
        if row in p {
          HasStays(mid, InsertAll(db, table, rows, keyOf), table, row, keyOf);
        }
      }
    }
  }

  /** The keyed rows are there already. */
  predicate KeysTaken<K(==)>(db: Tables<K>, table: string, rows: seq<Stored>, keyOf: KeyOf<K>) {
    forall row :: row in rows && keyOf(table, row).Some? ==> (table, keyOf(table, row).value) in db.keyed
  }

  lemma {:induction false} InsertedAgain<K>(
      db: Tables<K>, table: string, rows: seq<Stored>, keyOf: KeyOf<K>)
    requires KeysTaken(db, table, rows, keyOf)
    ensures InsertAll(db, table, rows, keyOf).keyed == db.keyed
  {
    if rows != [] {
      InsertedAgain(db, table, rows[..|rows| - 1], keyOf);
      assert rows[|rows| - 1] in rows;
    }
  }

  // ---------------------------------------------------------------- whole runs

  lemma RunLast<K>(db: Tables<K>, plan: seq<Load>, n: nat, keyOf: KeyOf<K>)
    requires n < |plan|
    ensures RunAll(db, plan[..n + 1], keyOf) == Commit(RunAll(db, plan[..n], keyOf), plan[n], keyOf)
  {
    assert plan[..n + 1][..n] == plan[..n];
  }

  lemma {:induction false} CommittedStays<K>(
      db: Tables<K>, plan: seq<Load>, i: nat, row: Stored, keyOf: KeyOf<K>)
    requires i < |plan| && row in StoredRows(plan[i].rows)
    ensures Has(RunAll(db, plan, keyOf), plan[i].table, row, keyOf)
    decreases |plan|
  {
    var p, last := plan[..|plan| - 1], plan[|plan| - 1];
    InsertedStays(RunAll(db, p, keyOf), last.table, StoredRows(last.rows), keyOf);
    if i < |p| {
      CommittedStays(db, p, i, row, keyOf);
      HasStays(RunAll(db, p, keyOf), RunAll(db, plan, keyOf), plan[i].table, row, keyOf);
    }
  }

  // ---------------------------------------------------------------- what the tables hold after a run

  /** The value under the key was there before, or is a row with this key that a load brought. */
  ghost predicate ComesFrom<K>(
      db: Tables<K>, loads: seq<Load>, key: (string, K), value: Stored, keyOf: KeyOf<K>)
  {
    || (key in db.keyed && db.keyed[key] == value)
    || exists load :: load in loads && load.table == key.0 && value in StoredRows(load.rows)
         && keyOf(key.0, value) == Some(key.1)
  }

  lemma ComesFromMore<K>(
      db: Tables<K>, loads: seq<Load>, more: seq<Load>, key: (string, K), value: Stored, keyOf: KeyOf<K>)
    requires ComesFrom(db, loads, key, value, keyOf) && forall load :: load in loads ==> load in more
    ensures ComesFrom(db, more, key, value, keyOf)
  {
  }

  lemma CommitIs<K>(db: Tables<K>, load: Load, keyOf: KeyOf<K>)
    ensures Inserted(db, Commit(db, load, keyOf), load.table, StoredRows(load.rows), keyOf)
  {
    InsertAllIs(db, load.table, StoredRows(load.rows), keyOf);
  }

  /** No entry is invented: each one was there before or is a row as some load brought it. */
  lemma {:induction false} EntriesComeFromRows<K>(
      db: Tables<K>, loads: seq<Load>, key: (string, K), keyOf: KeyOf<K>)
    requires key in RunAll(db, loads, keyOf).keyed
    ensures ComesFrom(db, loads, key, RunAll(db, loads, keyOf).keyed[key], keyOf)
  {
    if loads != [] {
      var p, last := loads[..|loads| - 1], loads[|loads| - 1];
      assert loads == p + [last];
      var mid, rows := RunAll(db, p, keyOf), StoredRows(last.rows);
      CommitIs(mid, last, keyOf);
      if key in mid.keyed {
        EntriesComeFromRows(db, p, key, keyOf);
        ComesFromMore(db, p, loads, key, mid.keyed[key], keyOf);
      } else {
        var i :| 0 <= i < |rows| && IsFirst(mid, last.table, rows, i, keyOf)
          && key == (last.table, keyOf(last.table, rows[i]).value);
        assert last in loads && rows[i] in rows;
      }
    }
  }

  lemma {:induction false} RunInTwo<K>(db: Tables<K>, a: seq<Load>, b: seq<Load>, keyOf: KeyOf<K>)
    ensures RunAll(RunAll(db, a, keyOf), b, keyOf) == RunAll(db, a + b, keyOf)
  {
    if b == [] {
      assert a + b == a;
    } else {
      RunInTwo(db, a, b[..|b| - 1], keyOf);
      assert (a + b)[..|a + b| - 1] == a + b[..|b| - 1];
    }
  }

  /** The key is free until load i, and row j is the first of that load to have it. */
  ghost predicate ComesFirst<K>(db: Tables<K>, loads: seq<Load>, i: nat, j: nat, keyOf: KeyOf<K>)
    requires i < |loads| && j < |loads[i].rows|
  {
    IsFirst(RunAll(db, loads[..i], keyOf), loads[i].table, StoredRows(loads[i].rows), j, keyOf)
  }

  /** The j-th row of the load stands in the tables as it is. */
  ghost predicate StoredAs<K>(now: Tables<K>, load: Load, j: nat, keyOf: KeyOf<K>)
    requires j < |load.rows|
  {
    var row := StoredRows(load.rows)[j];
    && keyOf(load.table, row).Some?
    && (load.table, keyOf(load.table, row).value) in now.keyed
    && now.keyed[(load.table, keyOf(load.table, row).value)] == row
  }

  lemma CommitStoresFirst<K>(mid: Tables<K>, load: Load, j: nat, keyOf: KeyOf<K>)
    requires j < |load.rows| && IsFirst(mid, load.table, StoredRows(load.rows), j, keyOf)
    ensures StoredAs(Commit(mid, load, keyOf), load, j, keyOf)
  {
    CommitIs(mid, load, keyOf);
  }

  lemma CommitKeepsStored<K>(mid: Tables<K>, next: Load, load: Load, j: nat, keyOf: KeyOf<K>)
    requires j < |load.rows| && StoredAs(mid, load, j, keyOf)
    ensures StoredAs(Commit(mid, next, keyOf), load, j, keyOf)
  {
    CommitIs(mid, next, keyOf);
  }

  /** The first row to come with a key is stored under it as it is, and stays there. */
  lemma {:induction false} FirstComeIsStored<K>(db: Tables<K>, loads: seq<Load>, i: nat, j: nat, keyOf: KeyOf<K>)
    requires i < |loads| && j < |loads[i].rows| && ComesFirst(db, loads, i, j, keyOf)
    ensures StoredAs(RunAll(db, loads, keyOf), loads[i], j, keyOf)
    decreases |loads|
  {
    var p, last := loads[..|loads| - 1], loads[|loads| - 1];
    if i < |p| {
      assert p[..i] == loads[..i];
      FirstComeIsStored(db, p, i, j, keyOf);
      CommitKeepsStored(RunAll(db, p, keyOf), last, loads[i], j, keyOf);
    } else {
      CommitStoresFirst(RunAll(db, p, keyOf), last, j, keyOf);
    }
  }

  /** So every cell of a first-come row can be read back from the tables. */
  lemma CellsAreInTables<K>(db: Tables<K>, loads: seq<Load>, i: nat, j: nat, name: string, keyOf: KeyOf<K>)
    requires i < |loads| && j < |loads[i].rows| && AllWellFormed(loads[i].rows)
    requires ComesFirst(db, loads, i, j, keyOf) && name in loads[i].rows[j].cells
    ensures var key := (loads[i].table, keyOf(loads[i].table, StoredRows(loads[i].rows)[j]).value);
      var tables := RunAll(db, loads, keyOf);
      && key in tables.keyed && name in tables.keyed[key]
      && tables.keyed[key][name] == loads[i].rows[j].cells[name]
  {
    FirstComeIsStored(db, loads, i, j, keyOf);
    CellsAreRecoverable(loads[i].rows, j, name);
  }

  /** The row itself without a key, and else a row with its key that came from somewhere. */
  ghost predicate Kept<K>(
      now: Tables<K>, db: Tables<K>, loads: seq<Load>, table: string, row: Stored, keyOf: KeyOf<K>)
  {
    match keyOf(table, row)
    case None => (table, row) in now.keyless
    case Some(k) => (table, k) in now.keyed && ComesFrom(db, loads, (table, k), now.keyed[(table, k)], keyOf)
  }

  lemma KeysTakenByRun<K>(db: Tables<K>, plan: seq<Load>, i: nat, keyOf: KeyOf<K>)
    requires i < |plan|
    ensures KeysTaken(RunAll(db, plan, keyOf), plan[i].table, StoredRows(plan[i].rows), keyOf)
  {
    forall row | row in StoredRows(plan[i].rows) && keyOf(plan[i].table, row).Some?
      ensures (plan[i].table, keyOf(plan[i].table, row).value) in RunAll(db, plan, keyOf).keyed
    {
      CommittedStays(db, plan, i, row, keyOf);
    }
  }

  /** A load that a run has already committed adds its keyless rows once more, and nothing else. */
  lemma CommitAgain<K>(db: Tables<K>, plan: seq<Load>, i: nat, keyOf: KeyOf<K>)
    requires i < |plan|
    ensures var now := RunAll(db, plan, keyOf);
      Commit(now, plan[i], keyOf) == now.(keyless := now.keyless + KeylessOf(plan[i], keyOf))
  {
    var now := RunAll(db, plan, keyOf);
    KeysTakenByRun(db, plan, i, keyOf);
    InsertedAgain(now, plan[i].table, StoredRows(plan[i].rows), keyOf);
    KeylessAddUp(now, plan[i].table, StoredRows(plan[i].rows), keyOf);
  }

  lemma AddsNothing<T>(a: multiset<T>, b: multiset<T>)
    ensures a + b == a <==> b == multiset{}
  {
    if a + b == a {
      forall x ensures b[x] == 0 {
        assert (a + b)[x] == a[x] + b[x];
      }
    }
  }

  lemma SumIsEmpty<T>(a: multiset<T>, b: multiset<T>)
    ensures a + b == multiset{} <==> a == multiset{} && b == multiset{}
  {
    if a + b == multiset{} {
      forall x ensures a[x] == 0 && b[x] == 0 {
        assert (a + b)[x] == a[x] + b[x];
      }
    }
  }

  /** So loading again changes nothing iff every row of the load has its key. */
  lemma CommitAgainIff<K>(db: Tables<K>, plan: seq<Load>, i: nat, keyOf: KeyOf<K>)
    requires i < |plan|
    ensures Commit(RunAll(db, plan, keyOf), plan[i], keyOf) == RunAll(db, plan, keyOf) <==> Keyed(plan[i], keyOf)
  {
    CommitAgain(db, plan, i, keyOf);
    NoKeylessIff(plan[i].table, StoredRows(plan[i].rows), keyOf);
    AddsNothing(RunAll(db, plan, keyOf).keyless, KeylessOf(plan[i], keyOf));
  }

  /** Every row of these loads has its key, and the key is taken. */
  predicate AllStored<K(==)>(db: Tables<K>, plan: seq<Load>, keyOf: KeyOf<K>) {
    forall load :: load in plan ==>
      Keyed(load, keyOf) && KeysTaken(db, load.table, StoredRows(load.rows), keyOf)
  }

  lemma {:induction false} KeylessOfRun<K>(db: Tables<K>, plan: seq<Load>, keyOf: KeyOf<K>)
    ensures RunAll(db, plan, keyOf).keyless == db.keyless + KeylessOfPlan(plan, keyOf)
  {
    if plan != [] {
      var p, last := plan[..|plan| - 1], plan[|plan| - 1];
      KeylessOfRun(db, p, keyOf);
      KeylessAddUp(RunAll(db, p, keyOf), last.table, StoredRows(last.rows), keyOf);
    }
  }

  lemma PlanKeyedLast<K>(p: seq<Load>, last: Load, keyOf: KeyOf<K>)
    ensures PlanKeyed(p + [last], keyOf) <==> PlanKeyed(p, keyOf) && Keyed(last, keyOf)
  {
    if PlanKeyed(p + [last], keyOf) {
      assert last in p + [last];
      forall load | load in p ensures Keyed(load, keyOf) {
        assert load in p + [last];
      }
    }
  }

  lemma {:induction false} NoKeylessInPlanIff<K>(plan: seq<Load>, keyOf: KeyOf<K>)
    ensures KeylessOfPlan(plan, keyOf) == multiset{} <==> PlanKeyed(plan, keyOf)
  {
    if plan != [] {
      var p, last := plan[..|plan| - 1], plan[|plan| - 1];
      assert plan == p + [last];
      NoKeylessInPlanIff(p, keyOf);
      assert KeylessOfPlan(plan, keyOf) == KeylessOfPlan(p, keyOf) + KeylessOf(last, keyOf);
      NoKeylessIff(last.table, StoredRows(last.rows), keyOf);
      SumIsEmpty(KeylessOfPlan(p, keyOf), KeylessOf(last, keyOf));
      PlanKeyedLast(p, last, keyOf);
    }
  }

  lemma {:induction false} RunOfTakenKeys<K>(db: Tables<K>, plan: seq<Load>, keyOf: KeyOf<K>)
    requires forall load :: load in plan ==> KeysTaken(db, load.table, StoredRows(load.rows), keyOf)
    ensures RunAll(db, plan, keyOf).keyed == db.keyed
  {
    if plan != [] {
      var p, last := plan[..|plan| - 1], plan[|plan| - 1];
      assert last in plan;
      RunOfTakenKeys(db, p, keyOf);
      InsertedAgain(RunAll(db, p, keyOf), last.table, StoredRows(last.rows), keyOf);
    }
  }

  /** A run changes nothing iff every row it loads has a key that is already taken. */
  lemma RunChangesNothingIff<K>(db: Tables<K>, plan: seq<Load>, keyOf: KeyOf<K>)
    ensures RunAll(db, plan, keyOf) == db <==> AllStored(db, plan, keyOf)
  {
    KeylessOfRun(db, plan, keyOf);
    NoKeylessInPlanIff(plan, keyOf);
    AddsNothing(db.keyless, KeylessOfPlan(plan, keyOf));
    if AllStored(db, plan, keyOf) {
      RunOfTakenKeys(db, plan, keyOf);
    } else if RunAll(db, plan, keyOf) == db {
      forall load | load in plan ensures KeysTaken(db, load.table, StoredRows(load.rows), keyOf) {
        var i :| 0 <= i < |plan| && plan[i] == load;
        KeysTakenByRun(db, plan, i, keyOf);
      }
    }
  }

  /** Processing a file again adds every keyless row of it once more, and nothing else. */
  lemma RunAgain<K>(db: Tables<K>, plan: seq<Load>, keyOf: KeyOf<K>)
    ensures var once := RunAll(db, plan, keyOf);
      RunAll(once, plan, keyOf) == once.(keyless := once.keyless + KeylessOfPlan(plan, keyOf))
  {
    var once := RunAll(db, plan, keyOf);
    forall load | load in plan ensures KeysTaken(once, load.table, StoredRows(load.rows), keyOf) {
      var i :| 0 <= i < |plan| && plan[i] == load;
      KeysTakenByRun(db, plan, i, keyOf);
    }
    RunOfTakenKeys(once, plan, keyOf);
    KeylessOfRun(once, plan, keyOf);
  }

  /** Without a unique index every row of the file is there once more after every run. */
  lemma KeylessRowIsStoredTwice<K>(
      db: Tables<K>, plan: seq<Load>, i: nat, row: Stored, keyOf: KeyOf<K>)
    requires i < |plan| && row in StoredRows(plan[i].rows) && keyOf(plan[i].table, row).None?
    ensures RunAll(RunAll(db, plan, keyOf), plan, keyOf).keyless[(plan[i].table, row)] >= 2
    ensures RunAll(RunAll(db, plan, keyOf), plan, keyOf) != RunAll(db, plan, keyOf)
  {
    var none: Tables<K> := Tables(map[], multiset{});
    RunAgain(db, plan, keyOf);
    KeylessOfRun(db, plan, keyOf);
    KeylessOfRun(none, plan, keyOf);
    CommittedStays(none, plan, i, row, keyOf);
    assert KeylessOfPlan(plan, keyOf)[(plan[i].table, row)] >= 1;
    AddsNothing(RunAll(db, plan, keyOf).keyless, KeylessOfPlan(plan, keyOf));
  }

  // ---------------------------------------------------------------- interleaved attempts

  lemma MergeOwn(all: seq<Load>, own: seq<Load>, foreign: seq<Load>, load: Load)
    requires IsMerge(all, own, foreign)
    ensures IsMerge(all + [load], own + [load], foreign)
  {
    assert (all + [load])[..|all|] == all && (own + [load])[..|own|] == own;
  }

  lemma MergeForeign(all: seq<Load>, own: seq<Load>, foreign: seq<Load>, load: Load)
    requires IsMerge(all, own, foreign)
    ensures IsMerge(all + [load], own, foreign + [load])
  {
    assert (all + [load])[..|all|] == all && (foreign + [load])[..|foreign|] == foreign;
  }

  lemma {:induction false} MergeHasOwn(all: seq<Load>, own: seq<Load>, foreign: seq<Load>, load: Load)
    requires IsMerge(all, own, foreign) && load in own
    ensures load in all
  {
    var p, last := all[..|all| - 1], all[|all| - 1];
    assert all == p + [last];
    if own[|own| - 1] == last && IsMerge(p, own[..|own| - 1], foreign) {
      assert own == own[..|own| - 1] + [last];
      if load != last {
        MergeHasOwn(p, own[..|own| - 1], foreign, load);
      }
    } else {
      MergeHasOwn(p, own, foreign[..|foreign| - 1], load);
    }
  }

  lemma {:induction false} MergeAlone(all: seq<Load>, own: seq<Load>)
    requires IsMerge(all, own, [])
    ensures all == own
  {
    if all != [] {
      MergeAlone(all[..|all| - 1], own[..|own| - 1]);
      assert own == own[..|own| - 1] + [own[|own| - 1]];
    }
  }

  /** The serial run is made up of the file's loads so far, each once and in order, and all foreign ones. */
  lemma {:induction false} OnceIsMerge(plan: seq<Load>, schedule: seq<Turn>)
    ensures IsMerge(Once(plan, schedule), plan[..Furthest(plan, schedule)], ForeignLoads(schedule))
  {
    if schedule != [] {
      var p, last := schedule[..|schedule| - 1], schedule[|schedule| - 1];
      OnceIsMerge(plan, p);
      var n := Furthest(plan, p);
      match last
      case Own(w) =>
        if Progress(plan, p, w) == n && n < |plan| {
          MergeOwn(Once(plan, p), plan[..n], ForeignLoads(p), plan[n]);
          assert plan[..n] + [plan[n]] == plan[..n + 1];
        }
      case Foreign(load) => MergeForeign(Once(plan, p), plan[..n], ForeignLoads(p), load);
    }
  }

  /** The tables of a serial run, with some keyless rows on top. */
  predicate IsRun<K(==)>(
      now: Tables<K>, db: Tables<K>, loads: seq<Load>, extra: multiset<(string, Stored)>, keyOf: KeyOf<K>)
  {
    var one := RunAll(db, loads, keyOf);
    now == one.(keyless := one.keyless + extra)
  }

  lemma CommitNext<K>(
      now: Tables<K>, db: Tables<K>, loads: seq<Load>, extra: multiset<(string, Stored)>, load: Load, keyOf: KeyOf<K>)
    requires IsRun(now, db, loads, extra, keyOf)
    ensures IsRun(Commit(now, load, keyOf), db, loads + [load], extra, keyOf)
  {
    var one, rows := RunAll(db, loads, keyOf), StoredRows(load.rows);
    SameKeyed(now, one, load.table, rows, keyOf);
    KeylessAddUp(now, load.table, rows, keyOf);
    KeylessAddUp(one, load.table, rows, keyOf);
    assert (loads + [load])[..|loads|] == loads;
  }

  lemma CommitRepeated<K>(
      now: Tables<K>, db: Tables<K>, loads: seq<Load>, extra: multiset<(string, Stored)>, load: Load, keyOf: KeyOf<K>)
    requires IsRun(now, db, loads, extra, keyOf) && load in loads
    ensures IsRun(Commit(now, load, keyOf), db, loads, extra + KeylessOf(load, keyOf), keyOf)
  {
    var one, rows := RunAll(db, loads, keyOf), StoredRows(load.rows);
    var i :| 0 <= i < |loads| && loads[i] == load;
    CommitAgain(db, loads, i, keyOf);
    SameKeyed(now, one, load.table, rows, keyOf);
    KeylessAddUp(now, load.table, rows, keyOf);
  }

  /** Every row of every load of the run is in the tables, or one that came before under its key. */
  lemma RunHasRow<K>(
      now: Tables<K>, db: Tables<K>, loads: seq<Load>, extra: multiset<(string, Stored)>, load: Load, row: Stored,
      keyOf: KeyOf<K>)
    requires IsRun(now, db, loads, extra, keyOf) && load in loads && row in StoredRows(load.rows)
    ensures Kept(now, db, loads, load.table, row, keyOf)
  {
    var i :| 0 <= i < |loads| && loads[i] == load;
    CommittedStays(db, loads, i, row, keyOf);
    HasStays(RunAll(db, loads, keyOf), now, load.table, row, keyOf);
    if keyOf(load.table, row).Some? {
      EntriesComeFromRows(db, loads, (load.table, keyOf(load.table, row).value), keyOf);
    }
  }

  /**
   Under every interleaving of every number of attempts with each other and with the loads of
   other files, the tables are at each moment those of a serial run in which each load of the
   file comes once, plus the keyless rows of every load of the file that was committed again.
   */
  lemma {:induction false} AttemptsAreSerial<K>(
      db: Tables<K>, plans: Worker -> seq<Load>, plan: seq<Load>, schedule: seq<Turn>, keyOf: KeyOf<K>)
    requires forall w :: Own(w) in schedule ==> plans(w) == plan
    ensures IsRun(Interleaved(db, plans, schedule, keyOf), db, Once(plan, schedule), Repeated(plan, schedule, keyOf),
                  keyOf)
    ensures IsMerge(Once(plan, schedule), plan[..Furthest(plan, schedule)], ForeignLoads(schedule))
  {
    OnceIsMerge(plan, schedule);
    if schedule != [] {
      var p, last := schedule[..|schedule| - 1], schedule[|schedule| - 1];
      AttemptsAreSerial(db, plans, plan, p, keyOf);
      var now, done, extra := Interleaved(db, plans, p, keyOf), Once(plan, p), Repeated(plan, p, keyOf);
      match last
      case Own(w) =>
        assert last in schedule;
        var m, n := Progress(plan, p, w), Furthest(plan, p);
        if m < n {
          assert plan[m] in plan[..n];
          MergeHasOwn(done, plan[..n], ForeignLoads(p), plan[m]);
          CommitRepeated(now, db, done, extra, plan[m], keyOf);
        } else if m < |plan| {
          CommitNext(now, db, done, extra, plan[m], keyOf);
        }
      case Foreign(load) => CommitNext(now, db, done, extra, load, keyOf);
    }
  }

  /**
   Exactly-once effect: once one attempt is complete, the tables are those of a serial run with
   the whole file in it once, iff no keyless row of it was committed again. Without loads of
   other files in between this is the clean run of the file.
   */
  lemma ExactlyOnceEffect<K>(
      db: Tables<K>, plans: Worker -> seq<Load>, plan: seq<Load>, schedule: seq<Turn>, finisher: Worker,
      keyOf: KeyOf<K>)
    requires forall w :: Own(w) in schedule ==> plans(w) == plan
    requires Progress(plan, schedule, finisher) == |plan|
    ensures IsMerge(Once(plan, schedule), plan, ForeignLoads(schedule))
    ensures Interleaved(db, plans, schedule, keyOf) == RunAll(db, Once(plan, schedule), keyOf)
       <==> Repeated(plan, schedule, keyOf) == multiset{}
    ensures PlanKeyed(plan, keyOf) ==> Repeated(plan, schedule, keyOf) == multiset{}
    ensures ForeignLoads(schedule) == [] ==> Once(plan, schedule) == plan
  {
    AttemptsAreSerial(db, plans, plan, schedule, keyOf);
    assert Furthest(plan, schedule) == |plan| && plan[..|plan|] == plan;
    SameIff(RunAll(db, Once(plan, schedule), keyOf), Repeated(plan, schedule, keyOf));
    if PlanKeyed(plan, keyOf) {
      NothingRepeated(plan, schedule, keyOf);
    }
    if ForeignLoads(schedule) == [] {
      MergeAlone(Once(plan, schedule), plan);
    }
  }

  lemma SameIff<K>(db: Tables<K>, more: multiset<(string, Stored)>)
    ensures db.(keyless := db.keyless + more) == db <==> more == multiset{}
  {
    AddsNothing(db.keyless, more);
  }

  lemma {:induction false} NothingRepeated<K>(plan: seq<Load>, schedule: seq<Turn>, keyOf: KeyOf<K>)
    requires PlanKeyed(plan, keyOf)
    ensures Repeated(plan, schedule, keyOf) == multiset{}
  {
    if schedule != [] {
      var p, last := schedule[..|schedule| - 1], schedule[|schedule| - 1];
      NothingRepeated(plan, p, keyOf);
      if last.Own? && Progress(plan, p, last.worker) < Furthest(plan, p) {
        var load := plan[Progress(plan, p, last.worker)];
        assert load in plan;
        NoKeylessIff(load.table, StoredRows(load.rows), keyOf);
      }
    }
  }
}
