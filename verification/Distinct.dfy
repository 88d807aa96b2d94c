/**
 The de-duplicating scan behind the "distinct values" queries: one pass over the rows, a set
 of seen values per requested field, and one row buffer reused for every row.
 */
module Distinct {
  import opened Uint64

  type int64 = x: int | -0x8000_0000_0000_0000 <= x < 0x8000_0000_0000_0000

  /** What a driver scans into an interface{}. */
  datatype Value = Int64(i: int64) | Text(s: string)

  type Row = seq<Value>

  /** The columns a result has a list for, by the type of their values. */
  datatype Schema = Schema(numbers: set<string>, texts: set<string>)

  const PERMANENT_BLOCKS: Schema := Schema({"slot"}, {"block_root", "network"})

  const BEACON_STATES: Schema := Schema(
    {"slot", "epoch"},
    {"node", "state_root", "node_version", "location", "network", "beacon_implementation"})

  /** The lists of a result, by column. */
  datatype Results = Results(numbers: map<string, seq<uint64>>, texts: map<string, seq<string>>)

  /** The Go conversion uint64(x) of an int64. */
  function ToUint64(x: int64): uint64 {
    x % TWO_64
  }

  // The specification: the scan as a stream of cells, and the first occurrences in it.

  datatype Cell = Cell(field: string, value: Value)

  function RowCells(fields: seq<string>, row: Row): (cells: seq<Cell>)
    requires |row| == |fields|
  {
    seq(|fields|, i requires 0 <= i < |fields| => Cell(fields[i], row[i]))
  }

  function AllCells(fields: seq<string>, rows: seq<Row>): seq<Cell>
    requires forall k :: 0 <= k < |rows| ==> |rows[k]| == |fields|
  {
    if rows == [] then [] else AllCells(fields, rows[..|rows| - 1]) + RowCells(fields, rows[|rows| - 1])
  }

  /** The values scanned for one field, in scanning order. */
  function ValuesOf(cells: seq<Cell>, field: string): seq<Value> {
    if cells == [] then []
    else
      var n := |cells| - 1;
      ValuesOf(cells[..n], field) + (if cells[n].field == field then [cells[n].value] else [])
  }

  function FirstSeen<T(==)>(s: seq<T>): seq<T> {
    if s == [] then []
    else
      var n := |s| - 1;
      FirstSeen(s[..n]) + (if s[n] in s[..n] then [] else [s[n]])
  }

  /** The type assertions of the switch; the schema makes the other cases impossible. */
  function AsNumber(v: Value): uint64 {
    match v
    case Int64(i) => ToUint64(i)
    case Text(_) => 0
  }

  function AsText(v: Value): string {
    match v
    case Int64(_) => ""
    case Text(s) => s
  }

  function Map<A, B>(f: A -> B, s: seq<A>): seq<B> {
    seq(|s|, k requires 0 <= k < |s| => f(s[k]))
  }

  /** What the scan is to return: per column, the scanned values in first-seen order. */
  function DistinctCells(schema: Schema, cells: seq<Cell>): Results {
    Results(Columns(AsNumber, cells, schema.numbers), Columns(AsText, cells, schema.texts))
  }

  function Columns<B>(f: Value -> B, cells: seq<Cell>, names: set<string>): map<string, seq<B>> {
    map field | field in names :: DistinctColumn(f, cells, field)
  }

  function DistinctColumn<B>(f: Value -> B, cells: seq<Cell>, field: string): seq<B> {
    Map(f, FirstSeen(ValuesOf(cells, field)))
  }

  lemma FirstSeenPush<T>(s: seq<T>, v: T)
    ensures FirstSeen(s + [v]) == if v in s then FirstSeen(s) else FirstSeen(s) + [v]
  {
    assert (s + [v])[..|s|] == s;
  }

  /** Exactly the values of the sequence, each once, in the order they first occur. */
  lemma {:induction false} FirstSeenIsDistinct<T>(s: seq<T>)
    ensures forall v :: v in FirstSeen(s) <==> v in s
    ensures forall i, j :: 0 <= i < j < |FirstSeen(s)| ==> FirstSeen(s)[i] != FirstSeen(s)[j]
  {
    if s != [] {
      var n := |s| - 1;
      FirstSeenIsDistinct(s[..n]);
      assert s == s[..n] + [s[n]];
    }
  }

  lemma ValuesOfPush(cells: seq<Cell>, cell: Cell, field: string)
    ensures ValuesOf(cells + [cell], field) ==
            ValuesOf(cells, field) + (if cell.field == field then [cell.value] else [])
  {
    assert (cells + [cell])[..|cells|] == cells;
  }

  /** The switch of the inner loop: a name that is no column of the results adds nothing. */
  function Append(r: Results, cell: Cell): Results {
    if cell.field in r.numbers then
      r.(numbers := r.numbers[cell.field := r.numbers[cell.field] + [AsNumber(cell.value)]])
    else if cell.field in r.texts then
      r.(texts := r.texts[cell.field := r.texts[cell.field] + [AsText(cell.value)]])
    else r
  }

  lemma ColumnPush<B>(f: Value -> B, cells: seq<Cell>, cell: Cell, field: string)
    ensures var isNew := cell.value !in ValuesOf(cells, cell.field);
            DistinctColumn(f, cells + [cell], field) ==
            if isNew && cell.field == field then DistinctColumn(f, cells, field) + [f(cell.value)]
            else DistinctColumn(f, cells, field)
  {
    ValuesOfPush(cells, cell, field);
    if cell.field == field {
      FirstSeenPush(ValuesOf(cells, field), cell.value);
      MapPush(f, FirstSeen(ValuesOf(cells, field)), cell.value);
    } else {
      assert ValuesOf(cells, field) + [] == ValuesOf(cells, field);
    }
  }

  lemma MapPush<A, B>(f: A -> B, s: seq<A>, v: A)
    ensures Map(f, s + [v]) == Map(f, s) + [f(v)]
  {
  }

  lemma ColumnsAt<B>(f: Value -> B, cells: seq<Cell>, cell: Cell, names: set<string>, field: string)
    requires field in names
    ensures var isNew := cell.value !in ValuesOf(cells, cell.field);
            Columns(f, cells + [cell], names)[field] ==
            if isNew && cell.field == field then Columns(f, cells, names)[field] + [f(cell.value)]
            else Columns(f, cells, names)[field]
  {
    ColumnPush(f, cells, cell, field);
  }

  /** Two maps of lists that differ by one element at the end of one list. */
  lemma OneListGrows<B>(before: map<string, seq<B>>, after: map<string, seq<B>>, grows: bool, field: string, x: B)
    requires before.Keys == after.Keys
    requires forall k :: k in before ==> after[k] == if grows && k == field then before[k] + [x] else before[k]
    ensures after == if grows && field in before then before[field := before[field] + [x]] else before
  {
  }

  lemma ColumnsPush<B>(f: Value -> B, cells: seq<Cell>, cell: Cell, names: set<string>)
    ensures var isNew := cell.value !in ValuesOf(cells, cell.field);
            var columns := Columns(f, cells, names);
            Columns(f, cells + [cell], names) ==
            if isNew && cell.field in columns then columns[cell.field := columns[cell.field] + [f(cell.value)]] else columns
  {
    var isNew := cell.value !in ValuesOf(cells, cell.field);
    var before, after := Columns(f, cells, names), Columns(f, cells + [cell], names);
    assert before.Keys == names && after.Keys == names;
    forall k | k in before
      ensures after[k] == if isNew && k == cell.field then before[k] + [f(cell.value)] else before[k]
    {
      ColumnsAt(f, cells, cell, names, k);
    }
    OneListGrows(before, after, isNew, cell.field, f(cell.value));
  }

  lemma AppendStep(schema: Schema, cells: seq<Cell>, cell: Cell)
    requires schema.numbers !! schema.texts
    ensures DistinctCells(schema, cells + [cell]) ==
            var r := DistinctCells(schema, cells);
            if cell.value in ValuesOf(cells, cell.field) then r else Append(r, cell)
  {
    ColumnsPush(AsNumber, cells, cell, schema.numbers);
    ColumnsPush(AsText, cells, cell, schema.texts);
  }

  /** `seen` holds, for every field asked for, exactly the values scanned so far. */
  ghost predicate Tracks(seen: map<string, set<Value>>, fields: seq<string>, cells: seq<Cell>) {
    forall field :: field in fields ==> field in seen && forall v :: v in seen[field] <==> v in ValuesOf(cells, field)
  }

  lemma TrackStep(seen: map<string, set<Value>>, fields: seq<string>, cells: seq<Cell>, cell: Cell)
    requires Tracks(seen, fields, cells) && cell.field in fields
    ensures cell.field in seen
    ensures cell.value in seen[cell.field] <==> cell.value in ValuesOf(cells, cell.field)
    ensures Tracks(seen[cell.field := seen[cell.field] + {cell.value}], fields, cells + [cell])
  {
    var seen' := seen[cell.field := seen[cell.field] + {cell.value}];
    forall field | field in fields
      ensures field in seen' && forall v :: v in seen'[field] <==> v in ValuesOf(cells + [cell], field)
    {
      ValuesOfPush(cells, cell, field);
    }
  }

  ghost predicate Collected(seen: map<string, set<Value>>, results: Results, schema: Schema, fields: seq<string>, cells: seq<Cell>) {
    schema.numbers !! schema.texts && Tracks(seen, fields, cells) && results == DistinctCells(schema, cells)
  }

  /** One turn of the inner loop keeps the sets and the lists in step with the cells scanned. */
  lemma CollectStep(seen: map<string, set<Value>>, results: Results, schema: Schema, fields: seq<string>,
                    cells: seq<Cell>, cell: Cell)
    requires Collected(seen, results, schema, fields, cells) && cell.field in fields
    ensures cell.field in seen
    ensures cell.value in seen[cell.field] ==> Collected(seen, results, schema, fields, cells + [cell])
    ensures cell.value !in seen[cell.field] ==>
              Collected(seen[cell.field := seen[cell.field] + {cell.value}], Append(results, cell), schema, fields, cells + [cell])
  {
    AppendStep(schema, cells, cell);
    TrackStep(seen, fields, cells, cell);
    if cell.value in seen[cell.field] {
      assert seen[cell.field] + {cell.value} == seen[cell.field];
      assert seen == seen[cell.field := seen[cell.field] + {cell.value}];
    }
  }

  /** Scanning one row overwrites the whole buffer through its pointers. */
  method Scan(values: array<Value>, row: Row)
    requires values.Length == |row|
    modifies values
    ensures values[..] == row
  {
    for i := 0 to |row|
      invariant values[..i] == row[..i]
    {
      values[i] := row[i];
    }
  }

  /** The valueSets before the scan: an empty set for every field, repeated ones included. */
  method EmptySets(fields: seq<string>) returns (seen: map<string, set<Value>>)
    ensures Tracks(seen, fields, [])
  {
    seen := map[];
    for i := 0 to |fields|
      invariant forall j :: 0 <= j < i ==> fields[j] in seen && seen[fields[j]] == {}
    {
      seen := seen[fields[i] := {}];
    }
  }

  /** One turn of the inner loop. */
  method CollectCell(cell: Cell, seen0: map<string, set<Value>>, results0: Results,
                     ghost schema: Schema, ghost fields: seq<string>, ghost cells: seq<Cell>)
    returns (seen: map<string, set<Value>>, results: Results)
    requires cell.field in fields && Collected(seen0, results0, schema, fields, cells)
    ensures Collected(seen, results, schema, fields, cells + [cell])
  {
    seen, results := seen0, results0;
    CollectStep(seen, results, schema, fields, cells, cell);
    if cell.value !in seen[cell.field] {
      results := Append(results, cell);
      seen := seen[cell.field := seen[cell.field] + {cell.value}];
    }
  }

  lemma PrefixStep(cells: seq<Cell>, row: seq<Cell>, i: nat)
    requires i < |row|
    ensures cells + row[..i] + [row[i]] == cells + row[..i + 1]
  {
  }

  /** The inner loop: one scanned row, read out of the buffer. */
  method CollectRow(fields: seq<string>, values: array<Value>, seen0: map<string, set<Value>>, results0: Results,
                    ghost schema: Schema, ghost cells: seq<Cell>)
    returns (seen: map<string, set<Value>>, results: Results)
    requires values.Length == |fields|
    requires Collected(seen0, results0, schema, fields, cells)
    ensures Collected(seen, results, schema, fields, cells + RowCells(fields, values[..]))
  {
    seen, results := seen0, results0;
    ghost var row := RowCells(fields, values[..]);
    ghost var done := cells;
    assert cells + row[..0] == cells;
    for i := 0 to |fields|
      invariant done == cells + row[..i]
      invariant Collected(seen, results, schema, fields, done)
    {
      var cell := Cell(fields[i], values[i]);
      assert cell == row[i];
      seen, results := CollectCell(cell, seen, results, schema, fields, done);
      PrefixStep(cells, row, i);
      done := done + [cell];
    }
    assert row[..|fields|] == row;
  }

  function Empty(schema: Schema): Results {
    Results(map field | field in schema.numbers :: [], map field | field in schema.texts :: [])
  }

  lemma EmptyIsDistinct(schema: Schema)
    ensures Empty(schema) == DistinctCells(schema, [])
  {
    assert Empty(schema).numbers == DistinctCells(schema, []).numbers;
    assert Empty(schema).texts == DistinctCells(schema, []).texts;
  }

  lemma ResultKeys(schema: Schema, cells: seq<Cell>)
    ensures DistinctCells(schema, cells).numbers.Keys == schema.numbers
    ensures DistinctCells(schema, cells).texts.Keys == schema.texts
  {
  }

  /**
   DistinctPermanentBlockValues over the rows the query yields.  Fields may be repeated or
   unknown; the one buffer is overwritten by every row.
   */
  method DistinctValues(fields: seq<string>, rows: seq<Row>) returns (results: Results)
    requires forall k :: 0 <= k < |rows| ==> |rows[k]| == |fields|
    ensures results == DistinctCells(PERMANENT_BLOCKS, AllCells(fields, rows))
    ensures results.numbers.Keys == {"slot"} && results.texts.Keys == {"block_root", "network"}
  {
    results := Empty(PERMANENT_BLOCKS);
    EmptyIsDistinct(PERMANENT_BLOCKS);
    if |fields| == 0 {
      NoFieldsNoCells(fields, rows);
      ResultKeys(PERMANENT_BLOCKS, []);
      return;
    }
    var seen := EmptySets(fields);
    var values := new Value[|fields|](_ => Int64(0));
    for r := 0 to |rows|
      invariant Collected(seen, results, PERMANENT_BLOCKS, fields, AllCells(fields, rows[..r]))
    {
      Scan(values, rows[r]);
      assert rows[..r + 1][..r] == rows[..r];
      seen, results := CollectRow(fields, values, seen, results, PERMANENT_BLOCKS, AllCells(fields, rows[..r]));
    }
    assert rows[..|rows|] == rows;
    ResultKeys(PERMANENT_BLOCKS, AllCells(fields, rows));
  }

  /** The scan of DistinctBeaconStateValues, with eight lists and a new buffer for every row. */
  method DistinctStateValues(fields: seq<string>, rows: seq<Row>) returns (results: Results)
    requires forall k :: 0 <= k < |rows| ==> |rows[k]| == |fields|
    ensures results == DistinctCells(BEACON_STATES, AllCells(fields, rows))
    ensures results.numbers.Keys == {"slot", "epoch"}
    ensures results.texts.Keys ==
            {"node", "state_root", "node_version", "location", "network", "beacon_implementation"}
  {
    results := Empty(BEACON_STATES);
    EmptyIsDistinct(BEACON_STATES);
    var seen := EmptySets(fields);
    for r := 0 to |rows|
      invariant Collected(seen, results, BEACON_STATES, fields, AllCells(fields, rows[..r]))
    {
      var values := new Value[|fields|](_ => Int64(0));
      Scan(values, rows[r]);
      assert rows[..r + 1][..r] == rows[..r];
      seen, results := CollectRow(fields, values, seen, results, BEACON_STATES, AllCells(fields, rows[..r]));
    }
    assert rows[..|rows|] == rows;
    ResultKeys(BEACON_STATES, AllCells(fields, rows));
  }

  lemma {:induction false} NoFieldsNoCells(fields: seq<string>, rows: seq<Row>)
    requires fields == [] && forall k :: 0 <= k < |rows| ==> |rows[k]| == |fields|
    ensures AllCells(fields, rows) == []
  {
    if rows != [] {
      NoFieldsNoCells(fields, rows[..|rows| - 1]);
    }
  }

  // What the lists mean.

  /** Every cell has the type its column's schema gives it. */
  ghost predicate WellTyped(schema: Schema, cells: seq<Cell>) {
    forall cell :: cell in cells ==>
      && (cell.field in schema.numbers ==> cell.value.Int64?)
      && (cell.field in schema.texts ==> cell.value.Text?)
  }

  lemma {:induction false} ValuesAreCells(cells: seq<Cell>, field: string, v: Value)
    ensures v in ValuesOf(cells, field) <==> Cell(field, v) in cells
  {
    if cells != [] {
      var n := |cells| - 1;
      ValuesAreCells(cells[..n], field, v);
      assert cells == cells[..n] + [cells[n]];
    }
  }

  /** Slots of 2^63 and more are stored as negative numbers, and come back as they were. */
  lemma ToUint64Value(x: int64)
    ensures ToUint64(x) == if 0 <= x then x else x + TWO_64
  {
  }

  lemma ToUint64Injective(a: int64, b: int64)
    requires ToUint64(a) == ToUint64(b)
    ensures a == b
  {
  }

  lemma DistinctUnderMap<B>(f: Value -> B, s: seq<Value>)
    requires forall a, b :: a in s && b in s && f(a) == f(b) ==> a == b
    ensures forall i, j :: 0 <= i < j < |Map(f, FirstSeen(s))| ==> Map(f, FirstSeen(s))[i] != Map(f, FirstSeen(s))[j]
  {
    FirstSeenIsDistinct(s);
    var t := FirstSeen(s);
    forall i, j | 0 <= i < j < |t| ensures f(t[i]) != f(t[j]) {
      assert t[i] in t && t[j] in t;
    }
  }

  ghost predicate NoDuplicates<T>(s: seq<T>) {
    forall i, j :: 0 <= i < j < |s| ==> s[i] != s[j]
  }

  ghost predicate ShowsNumber(cells: seq<Cell>, field: string, x: uint64) {
    exists i: int64 :: Cell(field, Int64(i)) in cells && x == if 0 <= i then i else i + TWO_64
  }

  /** A list of numbers: no duplicates, and exactly the numbers in the scanned column. */
  lemma NumberListIsTheColumn(schema: Schema, cells: seq<Cell>, field: string)
    requires WellTyped(schema, cells) && field in schema.numbers
    ensures var numbers := DistinctCells(schema, cells).numbers[field];
            NoDuplicates(numbers) && forall x: uint64 :: x in numbers <==> ShowsNumber(cells, field, x)
  {
    var column := ValuesOf(cells, field);
    var numbers := DistinctCells(schema, cells).numbers[field];
    FirstSeenIsDistinct(column);
    forall v | v in column ensures Cell(field, v) in cells && v.Int64? {
      ValuesAreCells(cells, field, v);
    }
    forall a, b | a in column && b in column && AsNumber(a) == AsNumber(b) ensures a == b {
      ToUint64Injective(a.i, b.i);
    }
    DistinctUnderMap(AsNumber, column);
    forall x: uint64 ensures x in numbers <==> ShowsNumber(cells, field, x) {
      if x in numbers {
        var k :| 0 <= k < |numbers| && numbers[k] == x;
        var v := FirstSeen(column)[k];
        assert v in FirstSeen(column);
        assert Cell(field, Int64(v.i)) in cells;
        ToUint64Value(v.i);
      }
      if ShowsNumber(cells, field, x) {
        var i: int64 :| Cell(field, Int64(i)) in cells && x == if 0 <= i then i else i + TWO_64;
        ToUint64Value(i);
        ValuesAreCells(cells, field, Int64(i));
        var k :| 0 <= k < |FirstSeen(column)| && FirstSeen(column)[k] == Int64(i);
        assert numbers[k] == x;
      }
    }
  }

  /** A list of texts: no duplicates, and exactly the texts in the scanned column. */
  lemma TextListIsTheColumn(schema: Schema, cells: seq<Cell>, field: string)
    requires WellTyped(schema, cells) && field in schema.texts
    ensures var texts := DistinctCells(schema, cells).texts[field];
            NoDuplicates(texts) && forall x :: x in texts <==> Cell(field, Text(x)) in cells
  {
    var column := ValuesOf(cells, field);
    var texts := Map(AsText, FirstSeen(column));
    FirstSeenIsDistinct(column);
    forall v | v in column ensures Cell(field, v) in cells && v.Text? {
      ValuesAreCells(cells, field, v);
    }
    DistinctUnderMap(AsText, column);
    forall x ensures x in texts <==> Cell(field, Text(x)) in cells {
      ValuesAreCells(cells, field, Text(x));
      if x in texts {
        var k :| 0 <= k < |texts| && texts[k] == x;
        assert FirstSeen(column)[k] in FirstSeen(column);
      }
      if Cell(field, Text(x)) in cells {
        var k :| 0 <= k < |FirstSeen(column)| && FirstSeen(column)[k] == Text(x);
        assert texts[k] == x;
      }
    }
  }

  // The order of the lists.

  /** The scan goes row by row, and in each row field by field. */
  lemma {:induction false} CellPosition(fields: seq<string>, rows: seq<Row>, r: nat, i: nat)
    requires forall k :: 0 <= k < |rows| ==> |rows[k]| == |fields|
    requires r < |rows| && i < |fields|
    ensures |AllCells(fields, rows)| == |rows| * |fields| && 0 <= r * |fields| + i < |rows| * |fields|
    ensures AllCells(fields, rows)[r * |fields| + i] == Cell(fields[i], rows[r][i])
  {
    var n := |rows| - 1;
    AllCellsLength(fields, rows[..n]);
    AllCellsLength(fields, rows);
    assert |rows| * |fields| == n * |fields| + |fields|;
    if r < n {
      CellPosition(fields, rows[..n], r, i);
    }
  }

  lemma {:induction false} AllCellsLength(fields: seq<string>, rows: seq<Row>)
    requires forall k :: 0 <= k < |rows| ==> |rows[k]| == |fields|
    ensures |AllCells(fields, rows)| == |rows| * |fields|
  {
    if rows != [] {
      AllCellsLength(fields, rows[..|rows| - 1]);
      assert |rows| * |fields| == (|rows| - 1) * |fields| + |fields|;
    }
  }

  /** The `k`-th entry of a list is the value of the `k`-th first occurrence. */
  lemma ListEntry<B>(f: Value -> B, cells: seq<Cell>, field: string, k: nat)
    requires k < |DistinctColumn(f, cells, field)|
    ensures k < |FirstSeen(ValuesOf(cells, field))|
    ensures DistinctColumn(f, cells, field)[k] == f(FirstSeen(ValuesOf(cells, field))[k])
  {
  }

  /** Lists are in first-seen order: an earlier entry was scanned before any cell of a later one. */
  lemma {:induction false} FirstSeenOrder(cells: seq<Cell>, field: string, i: nat, j: nat) returns (p: nat)
    requires i < j < |FirstSeen(ValuesOf(cells, field))|
    ensures var list := FirstSeen(ValuesOf(cells, field));
            && p < |cells| && cells[p] == Cell(field, list[i])
            && forall q :: 0 <= q <= p ==> cells[q] != Cell(field, list[j])
  {
    var n := |cells| - 1;
    var init, list := cells[..n], FirstSeen(ValuesOf(cells[..n], field));
    assert cells == init + [cells[n]];
    FirstSeenOfCells(init, cells[n], field);
    var full := FirstSeen(ValuesOf(cells, field));
    assert full == list || full == list + [cells[n].value];
    assert full[i] == list[i];
    if j < |list| {
      assert full[j] == list[j];
      p := FirstSeenOrder(init, field, i, j);
    } else {
      assert full[j] == cells[n].value;
      p := BeforeTheLast(init, field, i, cells[n].value);
    }
    assert cells[p] == init[p] && forall q :: 0 <= q <= p ==> cells[q] == init[q];
  }

  lemma FirstSeenOfCells(cells: seq<Cell>, cell: Cell, field: string)
    ensures var list := FirstSeen(ValuesOf(cells, field));
            FirstSeen(ValuesOf(cells + [cell], field)) ==
            if cell.field == field && cell.value !in ValuesOf(cells, field) then list + [cell.value] else list
  {
    ValuesOfPush(cells, cell, field);
    if cell.field == field {
      FirstSeenPush(ValuesOf(cells, field), cell.value);
    } else {
      assert ValuesOf(cells, field) + [] == ValuesOf(cells, field);
    }
  }

  /** A value not scanned so far comes after every entry of the list. */
  lemma BeforeTheLast(cells: seq<Cell>, field: string, i: nat, v: Value) returns (p: nat)
    requires i < |FirstSeen(ValuesOf(cells, field))| && v !in ValuesOf(cells, field)
    ensures p < |cells| && cells[p] == Cell(field, FirstSeen(ValuesOf(cells, field))[i])
    ensures forall q :: 0 <= q < |cells| ==> cells[q] != Cell(field, v)
  {
    var w := FirstSeen(ValuesOf(cells, field))[i];
    FirstSeenIsDistinct(ValuesOf(cells, field));
    ValuesAreCells(cells, field, w);
    ValuesAreCells(cells, field, v);
    p :| 0 <= p < |cells| && cells[p] == Cell(field, w);
  }

  // The grouped form: SELECT ... GROUP BY the same fields, at most 1000 rows.

  const GROUP_LIMIT: nat := 1000

  /** Some of the table's distinct tuples, each once: all of them if the limit allows. */
  ghost predicate IsGrouped(table: seq<Row>, rows: seq<Row>) {
    && (forall i, j :: 0 <= i < j < |rows| ==> rows[i] != rows[j])
    && (forall r :: r in rows ==> r in table)
    && |rows| == if |FirstSeen(table)| <= GROUP_LIMIT then |FirstSeen(table)| else GROUP_LIMIT
  }

  ghost function Elements<T(!new)>(s: seq<T>): set<T> {
    set v | v in s
  }

  lemma {:induction false} DistinctCardinality<T(!new)>(s: seq<T>)
    requires forall i, j :: 0 <= i < j < |s| ==> s[i] != s[j]
    ensures |Elements(s)| == |s|
  {
    if s != [] {
      var n := |s| - 1;
      DistinctCardinality(s[..n]);
      assert s == s[..n] + [s[n]];
      assert Elements(s) == Elements(s[..n]) + {s[n]};
      assert s[n] !in s[..n];
    } else {
      assert Elements(s) == {};
    }
  }

  lemma SubsetOfSameSize<T>(a: set<T>, b: set<T>)
    requires a <= b && |a| == |b|
    ensures a == b
  {
    if v :| v in b && v !in a {
      assert a <= b - {v};
      SubsetIsSmaller(a, b - {v});
    }
  }

  lemma {:induction false} SubsetIsSmaller<T>(a: set<T>, b: set<T>)
    requires a <= b
    ensures |a| <= |b|
  {
    if v :| v in a {
      SubsetIsSmaller(a - {v}, b - {v});
    }
  }

  /** The grouped rows lose nothing exactly when the table has at most 1000 distinct tuples. */
  lemma GroupedIsCompleteIff(table: seq<Row>, rows: seq<Row>)
    requires IsGrouped(table, rows)
    ensures (forall r :: r in table ==> r in rows) <==> |FirstSeen(table)| <= 1000
  {
    FirstSeenIsDistinct(table);
    DistinctCardinality(FirstSeen(table));
    DistinctCardinality(rows);
    assert Elements(rows) <= Elements(FirstSeen(table));
    if |FirstSeen(table)| <= GROUP_LIMIT {
      SubsetOfSameSize(Elements(rows), Elements(FirstSeen(table)));
      forall r | r in table ensures r in rows {
        assert r in Elements(FirstSeen(table));
      }
    }
    if forall r :: r in table ==> r in rows {
      assert Elements(FirstSeen(table)) <= Elements(rows);
      SubsetIsSmaller(Elements(FirstSeen(table)), Elements(rows));
    }
  }

  lemma {:induction false} CellsOfRows(fields: seq<string>, rows: seq<Row>, cell: Cell)
    requires forall k :: 0 <= k < |rows| ==> |rows[k]| == |fields|
    ensures cell in AllCells(fields, rows) <==> exists r :: r in rows && |r| == |fields| && cell in RowCells(fields, r)
  {
    if rows != [] {
      var n := |rows| - 1;
      CellsOfRows(fields, rows[..n], cell);
      assert rows == rows[..n] + [rows[n]];
    }
  }

  lemma GroupedCells(fields: seq<string>, table: seq<Row>, rows: seq<Row>, cell: Cell)
    requires forall k :: 0 <= k < |table| ==> |table[k]| == |fields|
    requires forall k :: 0 <= k < |rows| ==> |rows[k]| == |fields|
    requires IsGrouped(table, rows) && |FirstSeen(table)| <= GROUP_LIMIT
    ensures cell in AllCells(fields, rows) <==> cell in AllCells(fields, table)
  {
    GroupedIsCompleteIff(table, rows);
    CellsOfRows(fields, rows, cell);
    CellsOfRows(fields, table, cell);
  }

  /**
   So with at most 1000 distinct tuples each of the eight lists of a state query holds exactly
   the values of its column in the whole table, each once.
   */
  lemma GroupedListsAreComplete(fields: seq<string>, table: seq<Row>, rows: seq<Row>)
    requires forall k :: 0 <= k < |table| ==> |table[k]| == |fields|
    requires forall k :: 0 <= k < |rows| ==> |rows[k]| == |fields|
    requires IsGrouped(table, rows) && |FirstSeen(table)| <= 1000
    requires WellTyped(BEACON_STATES, AllCells(fields, table))
    ensures var results := DistinctCells(BEACON_STATES, AllCells(fields, rows));
            && (forall field :: field in BEACON_STATES.numbers ==>
                 && NoDuplicates(results.numbers[field])
                 && forall x: uint64 :: x in results.numbers[field] <==> ShowsNumber(AllCells(fields, table), field, x))
            && (forall field :: field in BEACON_STATES.texts ==>
                 && NoDuplicates(results.texts[field])
                 && forall x :: x in results.texts[field] <==> Cell(field, Text(x)) in AllCells(fields, table))
  {
    var cells, all := AllCells(fields, rows), AllCells(fields, table);
    forall cell ensures cell in cells <==> cell in all {
      GroupedCells(fields, table, rows, cell);
    }
    forall field | field in BEACON_STATES.numbers
      ensures var numbers := DistinctCells(BEACON_STATES, cells).numbers[field];
              NoDuplicates(numbers) && forall x: uint64 :: x in numbers <==> ShowsNumber(all, field, x)
    {
      NumberListIsTheColumn(BEACON_STATES, cells, field);
      assert forall x: uint64 :: ShowsNumber(cells, field, x) <==> ShowsNumber(all, field, x);
    }
    forall field | field in BEACON_STATES.texts
      ensures var texts := DistinctCells(BEACON_STATES, cells).texts[field];
              NoDuplicates(texts) && forall x :: x in texts <==> Cell(field, Text(x)) in all
    {
      TextListIsTheColumn(BEACON_STATES, cells, field);
    }
  }
}
