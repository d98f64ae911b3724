/**
 Routing of rows to monthly tables. The date parser is a partial function from a cell to the
 YYYYMM suffix; the current month is what the clock says when the row is looked at.
 */
module TableRouter {
  import opened Wrappers
  import opened Records
  import opened ExactlyOnce

  datatype RoutingConfig = RoutingConfig(baseTable: string, partitionField: string, parse: string -> Option<string>)

  /** The month the row itself names. An absent, NULL or empty cell is not even parsed. */
  function OwnMonth(row: Record, cfg: RoutingConfig): Option<string> {
    if cfg.partitionField != "" && cfg.partitionField in row.cells then
      match row.cells[cfg.partitionField]
      case Null => None
      case Text(t) => if t == "" then None else cfg.parse(t)
    else None
  }

  function ResolveTable(row: Record, cfg: RoutingConfig, now: string): string {
    cfg.baseTable + "_" + match OwnMonth(row, cfg) { case Some(month) => month case None => now }
  }

  datatype Routed = Routed(table: string, row: Record)

  /** The clock is read once per row. */
  function Route(rows: seq<Record>, cfg: RoutingConfig, now: nat -> string): seq<Routed> {
    seq(|rows|, i requires 0 <= i < |rows| => Routed(ResolveTable(rows[i], cfg, now(i)), rows[i]))
  }

  /** The tables in the order in which they are first met: the key order of the groups dict. */
  function TablesOf(routed: seq<Routed>): seq<string> {
    if routed == [] then []
    else
      var seen, t := TablesOf(routed[..|routed| - 1]), routed[|routed| - 1].table;
      if t in seen then seen else seen + [t]
  }

  function RowsFor(routed: seq<Routed>, table: string): seq<Record> {
    if routed == [] then []
    else
      var p, last := routed[..|routed| - 1], routed[|routed| - 1];
      if last.table == table then RowsFor(p, table) + [last.row] else RowsFor(p, table)
  }

  function GroupLoads(routed: seq<Routed>, tables: seq<string>): seq<Load> {
    seq(|tables|, k requires 0 <= k < |tables| => Load(tables[k], RowsFor(routed, tables[k])))
  }

  /** The loads of one batch: a load per group, in dict order. */
  function BatchLoads(rows: seq<Record>, cfg: RoutingConfig, now: nat -> string): seq<Load> {
    GroupLoads(Route(rows, cfg, now), TablesOf(Route(rows, cfg, now)))
  }

  method GroupByTable(rows: seq<Record>, cfg: RoutingConfig, now: nat -> string)
    returns (order: seq<string>, groups: map<string, seq<Record>>)
    ensures order == TablesOf(Route(rows, cfg, now))
    ensures forall t :: t in groups <==> t in order
    ensures forall t :: t in groups ==> groups[t] == RowsFor(Route(rows, cfg, now), t)
  {
    ghost var routed := Route(rows, cfg, now);
    order, groups := [], map[];
    for i := 0 to |rows|
      invariant order == TablesOf(routed[..i])
      invariant forall t :: t in groups <==> t in order
      invariant forall t :: t in groups ==> groups[t] == RowsFor(routed[..i], t)
    {
      assert routed[..i + 1][..i] == routed[..i];
      var table := ResolveTable(rows[i], cfg, now(i));
      if table !in groups {
        NoRowsYet(routed[..i], table);
        order := order + [table];
        groups := groups[table := []];
      }
      groups := groups[table := groups[table] + [rows[i]]];
    }
    assert routed[..|rows|] == routed;
  }

  lemma {:induction false} NoRowsYet(routed: seq<Routed>, table: string)
    requires table !in TablesOf(routed)
    ensures RowsFor(routed, table) == []
  {
    if routed != [] {
      NoRowsYet(routed[..|routed| - 1], table);
    }
  }

  // ---------------------------------------------------------------- conservation and order

  function RowsOf(loads: seq<Load>): seq<Record> {
    if loads == [] then [] else RowsOf(loads[..|loads| - 1]) + loads[|loads| - 1].rows
  }

  function Plain(routed: seq<Routed>): seq<Record> {
    seq(|routed|, i requires 0 <= i < |routed| => routed[i].row)
  }

  lemma {:induction false} TablesAreDistinct(routed: seq<Routed>)
    ensures Distinct(TablesOf(routed))
    ensures forall r :: r in routed ==> r.table in TablesOf(routed)
    ensures forall t :: t in TablesOf(routed) ==> RowsFor(routed, t) != []
  {
    if routed != [] {
      var p, last := routed[..|routed| - 1], routed[|routed| - 1];
      assert routed == p + [last];
      TablesAreDistinct(p);
    }
  }

  /** One more row goes to exactly one group. */
  lemma {:induction false} OneMoreRow(routed: seq<Routed>, last: Routed, tables: seq<string>)
    requires Distinct(tables)
    ensures multiset(RowsOf(GroupLoads(routed + [last], tables)))
         == multiset(RowsOf(GroupLoads(routed, tables)))
          + (if last.table in tables then multiset{last.row} else multiset{})
  {
    if tables != [] {
      var ts, t := tables[..|tables| - 1], tables[|tables| - 1];
      assert tables == ts + [t];
      OneMoreRow(routed, last, ts);
      RowsOfLast(routed, tables);
      RowsOfLast(routed + [last], tables);
      RowsForLast(routed, last, t);
    }
  }

  lemma RowsOfLast(routed: seq<Routed>, tables: seq<string>)
    requires tables != []
    ensures RowsOf(GroupLoads(routed, tables))
         == RowsOf(GroupLoads(routed, tables[..|tables| - 1])) + RowsFor(routed, tables[|tables| - 1])
  {
    var a := GroupLoads(routed, tables);
    assert a[..|a| - 1] == GroupLoads(routed, tables[..|tables| - 1]);
  }

  lemma RowsForLast(routed: seq<Routed>, last: Routed, table: string)
    ensures RowsFor(routed + [last], table)
         == if last.table == table then RowsFor(routed, table) + [last.row] else RowsFor(routed, table)
  {
    assert (routed + [last])[..|routed|] == routed;
  }

  lemma {:induction false} EmptyGroups(tables: seq<string>)
    ensures RowsOf(GroupLoads([], tables)) == []
  {
    if tables != [] {
      var a := GroupLoads([], tables);
      assert a[..|a| - 1] == GroupLoads([], tables[..|tables| - 1]);
      EmptyGroups(tables[..|tables| - 1]);
    }
  }

  lemma {:induction false} GroupsKeepRows(routed: seq<Routed>, tables: seq<string>)
    requires Distinct(tables) && forall r :: r in routed ==> r.table in tables
    ensures multiset(RowsOf(GroupLoads(routed, tables))) == multiset(Plain(routed))
  {
    if routed == [] {
      EmptyGroups(tables);
    } else {
      var p, last := routed[..|routed| - 1], routed[|routed| - 1];
      assert routed == p + [last];
      assert last in routed;
      GroupsKeepRows(p, tables);
      OneMoreRow(p, last, tables);
      PlainLast(p, last);
    }
  }

  lemma PlainLast(routed: seq<Routed>, last: Routed)
    ensures Plain(routed + [last]) == Plain(routed) + [last.row]
  {
  }

  /** Grouping neither loses nor duplicates a row. */
  lemma BatchLoadsConserveRows(rows: seq<Record>, cfg: RoutingConfig, now: nat -> string)
    ensures multiset(RowsOf(BatchLoads(rows, cfg, now))) == multiset(rows)
    ensures forall load :: load in BatchLoads(rows, cfg, now) ==> load.rows != []
  {
    var routed := Route(rows, cfg, now);
    TablesAreDistinct(routed);
    GroupsKeepRows(routed, TablesOf(routed));
    assert Plain(routed) == rows;
  }

  function Positions(routed: seq<Routed>, table: string): seq<nat> {
    if routed == [] then []
    else
      var ps, n := Positions(routed[..|routed| - 1], table), |routed| - 1;
      if routed[n].table == table then ps + [n] else ps
  }

  /** The rows of a group stand in their original order. */
  lemma {:induction false} GroupKeepsOrder(routed: seq<Routed>, table: string)
    ensures var ps := Positions(routed, table);
      && |ps| == |RowsFor(routed, table)|
      && (forall k :: 0 <= k < |ps| ==> ps[k] < |routed| && routed[ps[k]] == Routed(table, RowsFor(routed, table)[k]))
      && (forall j, k :: 0 <= j < k < |ps| ==> ps[j] < ps[k])
  {
    if routed != [] {
      GroupKeepsOrder(routed[..|routed| - 1], table);
    }
  }

  lemma {:induction false} RowIsInItsGroup(routed: seq<Routed>, i: nat)
    requires i < |routed|
    ensures routed[i].row in RowsFor(routed, routed[i].table)
  {
    if i < |routed| - 1 {
      RowIsInItsGroup(routed[..|routed| - 1], i);
    }
  }

  /**
   Where each row of a batch goes: with a cell in the partition field that is neither NULL nor
   empty and can be parsed, to the table of that month, and otherwise to that of the current one.
   */
  lemma RowGoesToItsMonth(rows: seq<Record>, cfg: RoutingConfig, now: nat -> string, i: nat)
    requires i < |rows|
    ensures var field, cells := cfg.partitionField, rows[i].cells;
      var groups := Route(rows, cfg, now);
      if field != "" && field in cells && cells[field].Text? && cells[field].text != ""
         && cfg.parse(cells[field].text).Some?
      then rows[i] in RowsFor(groups, cfg.baseTable + "_" + cfg.parse(cells[field].text).value)
      else rows[i] in RowsFor(groups, cfg.baseTable + "_" + now(i))
  {
    var routed := Route(rows, cfg, now);
    assert routed[i] == Routed(ResolveTable(rows[i], cfg, now(i)), rows[i]);
    RowIsInItsGroup(routed, i);
    TableOfRow(rows[i], cfg, now(i));
  }

  lemma TableOfRow(row: Record, cfg: RoutingConfig, now: string)
    ensures var field, cells := cfg.partitionField, row.cells;
      if field != "" && field in cells && cells[field].Text? && cells[field].text != ""
         && cfg.parse(cells[field].text).Some?
      then ResolveTable(row, cfg, now) == cfg.baseTable + "_" + cfg.parse(cells[field].text).value
      else ResolveTable(row, cfg, now) == cfg.baseTable + "_" + now
  {
  }

  // ---------------------------------------------------------------- the fallback to the current month

  predicate AllDated(rows: seq<Record>, cfg: RoutingConfig) {
    forall i :: 0 <= i < |rows| ==> OwnMonth(rows[i], cfg).Some?
  }

  lemma DatedRowsIgnoreClock(rows: seq<Record>, cfg: RoutingConfig, now: nat -> string, later: nat -> string)
    requires AllDated(rows, cfg)
    ensures Route(rows, cfg, now) == Route(rows, cfg, later)
    ensures BatchLoads(rows, cfg, now) == BatchLoads(rows, cfg, later)
  {
    forall i | 0 <= i < |rows| ensures Route(rows, cfg, now)[i] == Route(rows, cfg, later)[i] {
      assert OwnMonth(rows[i], cfg).Some?;
      assert ResolveTable(rows[i], cfg, now(i)) == ResolveTable(rows[i], cfg, later(i));
    }
    assert Route(rows, cfg, now) == Route(rows, cfg, later);
  }

  lemma MonthsNameTables(cfg: RoutingConfig, month: string, other: string)
    requires month != other
    ensures cfg.baseTable + "_" + month != cfg.baseTable + "_" + other
  {
    var prefix := cfg.baseTable + "_";
    assert (prefix + month)[|prefix|..] == month;
    assert (prefix + other)[|prefix|..] == other;
  }

  /** A clock that stays in one month. */
  function Always(month: string): nat -> string {
    (i: nat) => month
  }

  lemma AllDatedLast(rows: seq<Record>, cfg: RoutingConfig)
    requires rows != []
    ensures AllDated(rows, cfg) <==> AllDated(rows[..|rows| - 1], cfg) && OwnMonth(rows[|rows| - 1], cfg).Some?
  {
    var p := rows[..|rows| - 1];
    if AllDated(rows, cfg) {
      forall i | 0 <= i < |p| ensures OwnMonth(p[i], cfg).Some? {
        assert OwnMonth(rows[i], cfg).Some?;
      }
    } else {
      var i :| 0 <= i < |rows| && OwnMonth(rows[i], cfg).None?;
      assert i < |p| ==> OwnMonth(p[i], cfg).None?;
    }
  }

  lemma RouteLast(rows: seq<Record>, cfg: RoutingConfig, month: string)
    requires rows != []
    ensures var n := |rows| - 1;
      Route(rows, cfg, Always(month))
      == Route(rows[..n], cfg, Always(month)) + [Routed(ResolveTable(rows[n], cfg, month), rows[n])]
  {
  }

  /** In another month an undated row is no longer routed to the table it went to before. */
  lemma {:induction false} UndatedRowsMove(rows: seq<Record>, cfg: RoutingConfig, month: string, other: string)
    requires month != other
    ensures var t := cfg.baseTable + "_" + month;
      var a, b := RowsFor(Route(rows, cfg, Always(month)), t), RowsFor(Route(rows, cfg, Always(other)), t);
      |a| >= |b| && (|a| > |b| <==> !AllDated(rows, cfg))
  {
    if rows != [] {
      UndatedRowsMove(rows[..|rows| - 1], cfg, month, other);
      MonthsNameTables(cfg, month, other);
      RouteLast(rows, cfg, month);
      RouteLast(rows, cfg, other);
      AllDatedLast(rows, cfg);
    }
  }

  /** How many rows these loads bring to the table. */
  function RowsTo(loads: seq<Load>, table: string): nat {
    if loads == [] then 0
    else
      var last := loads[|loads| - 1];
      RowsTo(loads[..|loads| - 1], table) + (if last.table == table then |last.rows| else 0)
  }

  lemma {:induction false} RowsToGroups(routed: seq<Routed>, tables: seq<string>, table: string)
    requires Distinct(tables)
    ensures RowsTo(GroupLoads(routed, tables), table) == if table in tables then |RowsFor(routed, table)| else 0
  {
    if tables != [] {
      var ts, t := tables[..|tables| - 1], tables[|tables| - 1];
      assert tables == ts + [t];
      RowsToGroups(routed, ts, table);
      var loads := GroupLoads(routed, tables);
      assert loads[..|loads| - 1] == GroupLoads(routed, ts);
    }
  }

  lemma RowsToBatch(rows: seq<Record>, cfg: RoutingConfig, now: nat -> string, table: string)
    ensures RowsTo(BatchLoads(rows, cfg, now), table) == |RowsFor(Route(rows, cfg, now), table)|
  {
    var routed := Route(rows, cfg, now);
    TablesAreDistinct(routed);
    RowsToGroups(routed, TablesOf(routed), table);
    if table !in TablesOf(routed) {
      NoRowsYet(routed, table);
    }
  }

  /** The loads of a batch are the same in two different months iff every row names its own month. */
  lemma PlanIgnoresMonthIff(rows: seq<Record>, cfg: RoutingConfig, month: string, other: string)
    requires month != other
    ensures BatchLoads(rows, cfg, Always(month)) == BatchLoads(rows, cfg, Always(other)) <==> AllDated(rows, cfg)
  {
    if AllDated(rows, cfg) {
      DatedRowsIgnoreClock(rows, cfg, Always(month), Always(other));
    } else if BatchLoads(rows, cfg, Always(month)) == BatchLoads(rows, cfg, Always(other)) {
      UndatedRowsMove(rows, cfg, month, other);
      RowsToBatch(rows, cfg, Always(month), cfg.baseTable + "_" + month);
      RowsToBatch(rows, cfg, Always(other), cfg.baseTable + "_" + month);
    }
  }
}
