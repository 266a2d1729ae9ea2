/** The risk dashboard: rows computed from Findings, and the tables built from them, which must all add up to the same count. */
module RiskProjection {
  import opened Basics
  import Decimals

  // ----- rows -----

  datatype Level = High | Medium | Low | VeryLow

  /** The week of an issue date: the year and the week number as the program prints them, or no date at all. */
  datatype Week = NoDate | InWeek(year: string, number: string)

  /** `managerRiskWeek`. */
  function WeekName(w: Week): string {
    match w
    case NoDate => "Unknown"
    case InWeek(year, number) => year + "-W" + Decimals.PadStart(number, 2)
  }

  /** What the projection reads of a Finding; `late` compares its due date with today. */
  datatype Finding = Finding(severity: int, closed: bool, capRequired: bool, late: bool, department: string, week: Week)

  datatype Row = Row(department: string, week: string, level: Level, likelihood: nat, impact: nat, overdue: bool)

  function LevelOf(severity: int): Level {
    if severity == 1 then High else if severity == 2 then Medium else if severity == 3 then Low else VeryLow
  }

  function RowOf(f: Finding): (r: Row)
    ensures InMatrix(r)
  {
    var overdue := !f.closed && f.capRequired && f.late;
    var (likelihood, impact) :=
      if f.severity == 1 then (if overdue then 5 else 4, 5)
      else if f.severity == 2 then (if overdue then 4 else 3, 4)
      else if f.severity == 3 then (if overdue then 3 else 2, 3)
      else (if f.closed then 1 else 2, 2);
    Row(f.department, WeekName(f.week), LevelOf(f.severity), likelihood, impact, overdue)
  }

  predicate InMatrix(r: Row) { 1 <= r.likelihood <= 5 && 1 <= r.impact <= 5 }

  /** The rows of the Findings that pass the filters, whatever the filters are. */
  function Rows(findings: seq<Finding>, keep: Row -> bool): (rows: seq<Row>)
    ensures forall i :: 0 <= i < |rows| ==> InMatrix(rows[i]) && keep(rows[i]) && exists w :: rows[i].week == WeekName(w)
  {
    if findings == [] then []
    else
      var r := RowOf(findings[|findings| - 1]);
      Rows(findings[..|findings| - 1], keep) + if keep(r) then [r] else []
  }

  function Count(rows: seq<Row>, p: Row -> bool): nat {
    if rows == [] then 0 else Count(rows[..|rows| - 1], p) + if p(rows[|rows| - 1]) then 1 else 0
  }

  // ----- the matrix -----

  datatype Cell = Cell(likelihood: nat, impact: nat, count: nat)

  function At(likelihood: nat, impact: nat): Row -> bool { (r: Row) => r.likelihood == likelihood && r.impact == impact }

  /** The k-th cell of the matrix, row by row from the highest likelihood. */
  function CellAt(rows: seq<Row>, k: nat): Cell
    requires k < 25
  {
    Cell(5 - k / 5, 1 + k % 5, Count(rows, At(5 - k / 5, 1 + k % 5)))
  }

  function CellSum(rows: seq<Row>, n: nat): nat
    requires n <= 25
  {
    if n == 0 then 0 else CellSum(rows, n - 1) + CellAt(rows, n - 1).count
  }

  function Place(r: Row): nat
    requires InMatrix(r)
  {
    (5 - r.likelihood) * 5 + (r.impact - 1)
  }

  lemma {:induction false} OneCellEach(rows: seq<Row>, r: Row, n: nat)
    requires n <= 25 && InMatrix(r)
    ensures CellSum(rows + [r], n) == CellSum(rows, n) + if Place(r) < n then 1 else 0
  {
    if n > 0 {
      var k := n - 1;
      OneCellEach(rows, r, k);
      assert At(5 - k / 5, 1 + k % 5)(r) <==> Place(r) == k;
    }
  }

  /** The 25 cells add up to the number of rows. */
  lemma {:induction false} MatrixAddsUp(rows: seq<Row>)
    requires forall i :: 0 <= i < |rows| ==> InMatrix(rows[i])
    ensures CellSum(rows, 25) == |rows|
  {
    if rows == [] {
      NoCells(25);
    } else {
      var front, r := rows[..|rows| - 1], rows[|rows| - 1];
      MatrixAddsUp(front);
      OneCellEach(front, r, 25);
      assert front + [r] == rows;
    }
  }

  lemma {:induction false} NoCells(n: nat)
    requires n <= 25
    ensures CellSum([], n) == 0
  {
    if n > 0 { NoCells(n - 1); }
  }

  /** The two nested loops of the program. */
  method BuildMatrix(rows: seq<Row>) returns (matrix: seq<Cell>)
    ensures |matrix| == 25 && forall k :: 0 <= k < 25 ==> matrix[k] == CellAt(rows, k)
  {
    matrix := [];
    var likelihood := 5;
    while likelihood >= 1
      invariant 0 <= likelihood <= 5 && |matrix| == 5 * (5 - likelihood)
      invariant forall k :: 0 <= k < |matrix| ==> matrix[k] == CellAt(rows, k)
    {
      var impact := 1;
      while impact <= 5
        invariant 1 <= impact <= 6 && |matrix| == 5 * (5 - likelihood) + impact - 1
        invariant forall k :: 0 <= k < |matrix| ==> matrix[k] == CellAt(rows, k)
      {
        var k := |matrix|;
        assert k / 5 == 5 - likelihood && k % 5 == impact - 1;
        matrix := matrix + [Cell(likelihood, impact, Count(rows, At(likelihood, impact)))];
        impact := impact + 1;
      }
      likelihood := likelihood - 1;
    }
  }

  // ----- levels -----

  function Of(level: Level): Row -> bool { (r: Row) => r.level == level }

  function OverdueOf(level: Level): Row -> bool { (r: Row) => r.overdue && r.level == level }

  function Overdue(): Row -> bool { (r: Row) => r.overdue }

  /** The four levels add up to all rows, and the overdue rows by level to all overdue rows. */
  lemma {:induction false} LevelsAddUp(rows: seq<Row>)
    ensures Count(rows, Of(High)) + Count(rows, Of(Medium)) + Count(rows, Of(Low)) + Count(rows, Of(VeryLow)) == |rows|
    ensures Count(rows, OverdueOf(High)) + Count(rows, OverdueOf(Medium)) + Count(rows, OverdueOf(Low))
              + Count(rows, OverdueOf(VeryLow)) == Count(rows, Overdue())
  {
    if rows != [] { LevelsAddUp(rows[..|rows| - 1]); }
  }

  // ----- tables keyed by a name -----

  datatype Tally = Tally(high: nat, medium: nat, low: nat, veryLow: nat, total: nat)

  const ZERO := Tally(0, 0, 0, 0, 0)

  function Counted(t: Tally, level: Level): Tally {
    match level
    case High => t.(high := t.high + 1, total := t.total + 1)
    case Medium => t.(medium := t.medium + 1, total := t.total + 1)
    case Low => t.(low := t.low + 1, total := t.total + 1)
    case VeryLow => t.(veryLow := t.veryLow + 1, total := t.total + 1)
  }

  /** Own entries of the program's object, in the order they were made. */
  type Table = seq<(string, Tally)>

  function Entry(table: Table, key: string): (k: Option<nat>)
    ensures k.Some? ==> k.value < |table| && table[k.value].0 == key
    ensures k.None? ==> forall i :: 0 <= i < |table| ==> table[i].0 != key
  {
    if table == [] then None
    else if table[|table| - 1].0 == key then Some(|table| - 1)
    else Entry(table[..|table| - 1], key)
  }

  /** The names of the properties every object of the program's language inherits. */
  const INHERITED: set<string> := {
    "constructor", "hasOwnProperty", "isPrototypeOf", "propertyIsEnumerable", "toLocaleString", "toString", "valueOf", "__proto__",
    "__defineGetter__", "__defineSetter__", "__lookupGetter__", "__lookupSetter__"}

  predicate Inherited(key: string) { key in INHERITED }

  /** Adds a row under its key. A key that names a property every object inherits finds that property already there, so the
      row is counted on it and no entry of its own is made. */
  function Add(table: Table, key: string, level: Level): Table {
    if Inherited(key) then table
    else match Entry(table, key)
      case Some(k) => table[k := (key, Counted(table[k].1, level))]
      case None => table + [(key, Counted(ZERO, level))]
  }

  function Tabulate(rows: seq<Row>, key: Row -> string): Table {
    if rows == [] then []
    else
      var r := rows[|rows| - 1];
      Add(Tabulate(rows[..|rows| - 1], key), key(r), r.level)
  }

  /** The loop over the rows that fills the object. */
  method BuildTable(rows: seq<Row>, key: Row -> string) returns (table: Table)
    ensures table == Tabulate(rows, key)
  {
    hide Add;
    table := [];
    for i := 0 to |rows|
      invariant table == Tabulate(rows[..i], key)
    {
      assert rows[..i + 1][..i] == rows[..i];
      table := Add(table, key(rows[i]), rows[i].level);
    }
    assert rows[..|rows|] == rows;
  }

  function Total(table: Table): nat { if table == [] then 0 else Total(table[..|table| - 1]) + table[|table| - 1].1.total }

  predicate DistinctKeys(table: Table) { forall i, j :: 0 <= i < j < |table| ==> table[i].0 != table[j].0 }

  predicate Balanced(t: Tally) { t.total == t.high + t.medium + t.low + t.veryLow }

  lemma {:induction false} TotalUpdate(table: Table, k: nat, entry: (string, Tally))
    requires k < |table|
    ensures Total(table[k := entry]) + table[k].1.total == Total(table) + entry.1.total
    decreases |table|
  {
    var front := table[..|table| - 1];
    var table' := table[k := entry];
    if k < |front| {
      TotalUpdate(front, k, entry);
      assert table'[..|table'| - 1] == front[k := entry];
    } else {
      assert table'[..|table'| - 1] == front;
    }
  }

  lemma AddTotal(table: Table, key: string, level: Level)
    requires DistinctKeys(table) && AllBalanced(table)
    ensures var table' := Add(table, key, level);
            && Total(table') == Total(table) + (if Inherited(key) then 0 else 1)
            && DistinctKeys(table') && AllBalanced(table')
  {
    hide INHERITED;
    if !Inherited(key) {
      match Entry(table, key)
      case Some(k) => TotalUpdate(table, k, (key, Counted(table[k].1, level)));
      case None => assert (table + [(key, Counted(ZERO, level))])[..|table|] == table;
    }
  }

  /** How many rows a table counts. */
  function Countable(rows: seq<Row>, key: Row -> string): nat {
    if rows == [] then 0
    else Countable(rows[..|rows| - 1], key) + if Inherited(key(rows[|rows| - 1])) then 0 else 1
  }

  predicate AllBalanced(table: Table) { forall i :: 0 <= i < |table| ==> Balanced(table[i].1) }

  /** For every key and row list: the table's totals add up to the rows whose key is not inherited; keys are distinct, and each
      entry's total is the sum of its four levels. */
  lemma {:induction false} TableCounts(rows: seq<Row>, key: Row -> string)
    ensures Total(Tabulate(rows, key)) == Countable(rows, key)
    ensures DistinctKeys(Tabulate(rows, key)) && AllBalanced(Tabulate(rows, key))
  {
    hide Add, Total, Balanced;
    NoTotal();
    if rows != [] {
      var front, r := rows[..|rows| - 1], rows[|rows| - 1];
      TableCounts(front, key);
      AddTotal(Tabulate(front, key), key(r), r.level);
    }
  }

  predicate NoneInherited(rows: seq<Row>, key: Row -> string) {
    forall i :: 0 <= i < |rows| ==> !Inherited(key(rows[i]))
  }

  /** So they add up to all rows exactly when no row's key is inherited. */
  lemma TableAddsUp(rows: seq<Row>, key: Row -> string)
    ensures Total(Tabulate(rows, key)) == |rows| <==> NoneInherited(rows, key)
  {
    hide Tabulate, Total, Countable;
    TableCounts(rows, key);
    AllCountable(rows, key);
  }

  lemma NoTotal()
    ensures Total([]) == 0
  {
  }

  lemma {:induction false} AllCountable(rows: seq<Row>, key: Row -> string)
    ensures Countable(rows, key) <= |rows|
    ensures Countable(rows, key) == |rows| <==> NoneInherited(rows, key)
  {
    if rows != [] {
      var front := rows[..|rows| - 1];
      AllCountable(front, key);
      assert forall i :: 0 <= i < |front| ==> front[i] == rows[i];
    }
  }

  /** The entry of a key, or an empty one. */
  function TallyOf(table: Table, key: string): Tally {
    match Entry(table, key)
    case Some(k) => table[k].1
    case None => ZERO
  }

  function KeyAndLevel(key: Row -> string, k: string, level: Level): Row -> bool { (r: Row) => key(r) == k && r.level == level }

  function HasKey(key: Row -> string, k: string): Row -> bool { (r: Row) => key(r) == k }

  lemma AddTally(table: Table, added: string, level: Level, k: string)
    requires DistinctKeys(table)
    ensures TallyOf(Add(table, added, level), k)
         == if added == k && !Inherited(k) then Counted(TallyOf(table, k), level) else TallyOf(table, k)
  {
    hide Inherited, Counted;
    if !Inherited(added) {
      match Entry(table, added)
      case Some(n) => UpdatedEntry(table, n, (added, Counted(table[n].1, level)), k);
      case None => assert (table + [(added, Counted(ZERO, level))])[..|table|] == table;
    }
  }

  lemma {:induction false} UpdatedEntry(table: Table, n: nat, entry: (string, Tally), k: string)
    requires n < |table| && table[n].0 == entry.0 && DistinctKeys(table)
    ensures Entry(table[n := entry], k) == Entry(table, k)
    decreases |table|
  {
    var last := |table| - 1;
    var table' := table[n := entry];
    if n < last {
      assert table'[..last] == table[..last][n := entry];
      UpdatedEntry(table[..last], n, entry, k);
    } else {
      assert table'[..last] == table[..last];
    }
  }

  /** Every entry counts its key's rows, level by level. */
  lemma {:induction false} TalliesCount(rows: seq<Row>, key: Row -> string, k: string)
    requires !Inherited(k)
    ensures TallyOf(Tabulate(rows, key), k)
         == Tally(Count(rows, KeyAndLevel(key, k, High)), Count(rows, KeyAndLevel(key, k, Medium)),
              Count(rows, KeyAndLevel(key, k, Low)), Count(rows, KeyAndLevel(key, k, VeryLow)), Count(rows, HasKey(key, k)))
  {
    hide Add, TallyOf, Inherited;
    if rows == [] {
      assert TallyOf([], k) == ZERO by { NoTally(k); }
    } else {
      var front, r := rows[..|rows| - 1], rows[|rows| - 1];
      TalliesCount(front, key, k);
      TableCounts(front, key);
      AddTally(Tabulate(front, key), key(r), r.level, k);
    }
  }

  lemma NoTally(k: string)
    ensures TallyOf([], k) == ZERO
  {
  }

  lemma WeekNotInherited(w: Week)
    ensures !Inherited(WeekName(w))
  {
    match w
    case NoDate =>
    case InWeek(year, number) => assert WeekName(w)[|year|] == '-';
  }

  /** The weeks add up to the rows, whatever the Findings and the filters. */
  lemma WeeksAddUp(findings: seq<Finding>, keep: Row -> bool)
    ensures Total(Tabulate(Rows(findings, keep), (r: Row) => r.week)) == |Rows(findings, keep)|
  {
    hide Tabulate, Total, Inherited, WeekName;
    var rows := Rows(findings, keep);
    forall i | 0 <= i < |rows| ensures !Inherited(rows[i].week) {
      var w :| rows[i].week == WeekName(w);
      WeekNotInherited(w);
    }
    TableAddsUp(rows, (r: Row) => r.week);
  }

  // ----- the General Manager's departments -----

  function TotalOf(table: Table, key: string): nat {
    match Entry(table, key)
    case Some(k) => table[k].1.total
    case None => 0
  }

  function SumOver(table: Table, names: seq<string>): nat {
    if names == [] then 0 else SumOver(table, names[..|names| - 1]) + TotalOf(table, names[|names| - 1])
  }

  predicate NoRepeats(names: seq<string>) { forall i, j :: 0 <= i < j < |names| ==> names[i] != names[j] }

  lemma {:induction false} SumWithout(table: Table, names: seq<string>, last: (string, Tally))
    requires DistinctKeys(table + [last]) && NoRepeats(names)
    ensures SumOver(table + [last], names) == SumOver(table, names) + (if last.0 in names then last.1.total else 0)
  {
    if names != [] {
      var front, name := names[..|names| - 1], names[|names| - 1];
      SumWithout(table, front, last);
      assert (table + [last])[..|table|] == table;
      assert last.0 in names <==> last.0 in front || last.0 == name;
      if name == last.0 { NotThere(table, name); }
    }
  }

  lemma NotThere(table: Table, key: string)
    requires forall i :: 0 <= i < |table| ==> table[i].0 != key
    ensures Entry(table, key).None?
  {
  }

  /** Over any list of different department names that includes every department of the table, in any order, the totals shown
      add up to the table's total. */
  lemma {:induction false} DepartmentsAddUp(table: Table, names: seq<string>)
    requires DistinctKeys(table) && NoRepeats(names) && forall i :: 0 <= i < |table| ==> table[i].0 in names
    ensures SumOver(table, names) == Total(table)
    decreases |table|
  {
    if table == [] {
      NothingToSum(names);
    } else {
      var front, last := table[..|table| - 1], table[|table| - 1];
      assert table == front + [last];
      DepartmentsAddUp(front, names);
      SumWithout(front, names, last);
    }
  }

  lemma {:induction false} NothingToSum(names: seq<string>)
    ensures SumOver([], names) == 0
  {
    if names != [] { NothingToSum(names[..|names| - 1]); }
  }

  /** The unfiltered dashboard of the General Manager: its department totals add up to the number of Findings exactly when no
      department is named like an inherited property. */
  lemma GeneralManagerTotals(findings: seq<Finding>, names: seq<string>)
    requires var table := Tabulate(Rows(findings, (r: Row) => true), (r: Row) => r.department);
             NoRepeats(names) && forall i :: 0 <= i < |table| ==> table[i].0 in names
    ensures var rows := Rows(findings, (r: Row) => true);
            && |rows| == |findings|
            && (SumOver(Tabulate(rows, (r: Row) => r.department), names) == |findings|
                <==> NoneInherited(rows, (r: Row) => r.department))
  {
    hide Tabulate, SumOver;
    var rows := Rows(findings, (r: Row) => true);
    AllKept(findings);
    TableAddsUp(rows, (r: Row) => r.department);
    TableCounts(rows, (r: Row) => r.department);
    DepartmentsAddUp(Tabulate(rows, (r: Row) => r.department), names);
  }

  lemma {:induction false} AllKept(findings: seq<Finding>)
    ensures |Rows(findings, (r: Row) => true)| == |findings|
  {
    if findings != [] { AllKept(findings[..|findings| - 1]); }
  }

  /** One late Finding of a department called "constructor": it counts as a row, in the matrix and among the levels, and the
      department table stays empty. */
  lemma InheritedNameIsLost(week: Week)
    ensures var f := Finding(1, false, true, true, "constructor", week);
            var rows := Rows([f], (r: Row) => true);
            && |rows| == 1 && CellSum(rows, 25) == 1 && Count(rows, OverdueOf(High)) == 1
            && Tabulate(rows, (r: Row) => r.department) == []
  {
    hide CellSum, Tabulate;
    var f := Finding(1, false, true, true, "constructor", week);
    var rows := Rows([f], (r: Row) => true);
    assert Rows([], (r: Row) => true) == [];
    assert rows == [RowOf(f)];
    MatrixAddsUp(rows);
    OnlyRow(RowOf(f));
  }

  lemma OnlyRow(r: Row)
    requires r.department == "constructor" && r.overdue && r.level.High?
    ensures Tabulate([r], (q: Row) => q.department) == [] && Count([r], OverdueOf(High)) == 1
  {
    var key := (q: Row) => q.department;
    assert [r][..0] == [];
    assert Tabulate([], key) == [];
    assert Inherited(key(r));
    assert Tabulate([r], key) == Add(Tabulate([], key), key(r), r.level);
  }

  // ----- what a row says of its Finding -----

  /** The level is that of the severity; the cell is that of the severity too, an open overdue Finding of level 1 to 3 one step
      more likely, a closed observation one less. */
  lemma RowMeans(f: Finding)
    ensures var r := RowOf(f); var late := !f.closed && f.capRequired && f.late;
            && r.department == f.department && r.overdue == late
            && (f.severity == 1 ==> r.level == High && r.impact == 5 && r.likelihood == if late then 5 else 4)
            && (f.severity == 2 ==> r.level == Medium && r.impact == 4 && r.likelihood == if late then 4 else 3)
            && (f.severity == 3 ==> r.level == Low && r.impact == 3 && r.likelihood == if late then 3 else 2)
            && (f.severity !in {1, 2, 3} ==> r.level == VeryLow && r.impact == 2 && r.likelihood == if f.closed then 1 else 2)
  {
  }

  lemma WeekNames(year: string, n: nat)
    ensures WeekName(NoDate) == "Unknown"
    ensures n < 10 ==> WeekName(InWeek(year, Decimals.Dec(n))) == year + "-W0" + Decimals.Dec(n)
    ensures n >= 10 ==> WeekName(InWeek(year, Decimals.Dec(n))) == year + "-W" + Decimals.Dec(n)
  {
  }

  ghost predicate Among(findings: seq<Finding>, r: Row) { exists i :: 0 <= i < |findings| && RowOf(findings[i]) == r }

  lemma AmongLast(front: seq<Finding>, last: Finding, r: Row)
    ensures Among(front + [last], r) <==> Among(front, r) || RowOf(last) == r
  {
    hide RowOf;
    var all := front + [last];
    if Among(front, r) {
      var i :| 0 <= i < |front| && RowOf(front[i]) == r;
      assert all[i] == front[i];
    }
    assert all[|front|] == last;
    if Among(all, r) {
      var i :| 0 <= i < |all| && RowOf(all[i]) == r;
      assert i < |front| ==> all[i] == front[i];
    }
  }

  /** The rows shown are those of the Findings that the filter keeps. */
  lemma {:induction false} RowsShown(findings: seq<Finding>, keep: Row -> bool, r: Row)
    ensures r in Rows(findings, keep) <==> keep(r) && Among(findings, r)
  {
    hide RowOf, Among;
    if findings == [] {
      assert !Among([], r) by { NobodyAmong(r); }
    } else {
      var front, last := findings[..|findings| - 1], findings[|findings| - 1];
      RowsShown(front, keep, r);
      AmongLast(front, last, r);
      assert front + [last] == findings;
    }
  }

  lemma NobodyAmong(r: Row)
    ensures !Among([], r)
  {
  }
}
