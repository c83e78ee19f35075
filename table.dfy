/**
 * burning::profiling::Table: a sparse grid that grows on access. Rows hold the cells
 * (_table); the column records (_columns) hold a name and the row count the column has seen.
 */
module Tables {
  import opened Strings
  import opened Attributes
  import opened Values

  datatype Column = Column(name: string, rows: nat)

  /** The two vectors of a Table, as one value. */
  datatype TableState = TableState(grid: seq<seq<Value>>, columns: seq<Column>)

  function Max(a: nat, b: nat): nat
  {
    if a >= b then a else b
  }

  /** No row is longer than the column list, and no column counts more rows than the grid has. */
  predicate Shaped(s: TableState)
  {
    (forall r :: 0 <= r < |s.grid| ==> |s.grid[r]| <= |s.columns|) &&
    (forall c :: 0 <= c < |s.columns| ==> s.columns[c].rows <= |s.grid|)
  }

  /** What a read through a proxy sees: the stored cell, or the default Value that padding would create. */
  function Cell(s: TableState, r: nat, c: nat): Value
  {
    if r < |s.grid| && c < |s.grid[r]| then s.grid[r][c] else DefaultValue
  }

  /** vector::resize on the rows: new rows are empty. */
  function GrowRows(g: seq<seq<Value>>, len: nat): (r: seq<seq<Value>>)
    ensures |r| == Max(|g|, len) && r[..|g|] == g
    ensures forall i :: |g| <= i < |r| ==> r[i] == []
  {
    if |g| >= len then g else g + seq(len - |g|, _ => [])
  }

  /** vector::resize on the column records: new columns are unnamed with no rows. */
  function GrowColumns(cs: seq<Column>, len: nat): (r: seq<Column>)
    ensures |r| == Max(|cs|, len) && r[..|cs|] == cs
    ensures forall i :: |cs| <= i < |r| ==> r[i] == Column("", 0)
  {
    if |cs| >= len then cs else cs + seq(len - |cs|, _ => Column("", 0))
  }

  /** vector::resize on one row: new cells are default Values. */
  function PadTo(row: seq<Value>, len: nat): (r: seq<Value>)
    ensures |r| == Max(|row|, len) && r[..|row|] == row
    ensures forall i :: |row| <= i < |r| ==> r[i] == DefaultValue
  {
    if |row| >= len then row else row + seq(len - |row|, _ => DefaultValue)
  }

  const Empty: TableState := TableState([], [])

  /** Table::row(index): the grid grows to index + 1 rows; nothing is read or written. */
  function RowStep(s: TableState, index: nat): (t: TableState)
    requires Shaped(s)
    ensures Shaped(t) && t.columns == s.columns
    ensures |t.grid| == Max(|s.grid|, index + 1) && t.grid[..|s.grid|] == s.grid
    ensures forall i :: |s.grid| <= i < |t.grid| ==> t.grid[i] == []
    ensures forall i, j :: Cell(t, i, j) == Cell(s, i, j)
  {
    TableState(GrowRows(s.grid, index + 1), s.columns)
  }

  /** row(index) of an existing row changes nothing. */
  lemma RowStepExisting(s: TableState, index: nat)
    requires Shaped(s) && index < |s.grid|
    ensures RowStep(s, index) == s
  {
    assert RowStep(s, index).grid == RowStep(s, index).grid[..|s.grid|];
  }

  /** Table::column(index): the column records grow to index + 1; nothing is read or written. */
  function ColumnStep(s: TableState, index: nat): (t: TableState)
    requires Shaped(s)
    ensures Shaped(t) && t.grid == s.grid
    ensures |t.columns| == Max(|s.columns|, index + 1) && t.columns[..|s.columns|] == s.columns
    ensures forall i :: |s.columns| <= i < |t.columns| ==> t.columns[i] == Column("", 0)
  {
    TableState(s.grid, GrowColumns(s.columns, index + 1))
  }

  /** The position of the first column with a given name, or the column count when there is none. */
  function NamedIndex(cs: seq<Column>, name: string): (k: nat)
    ensures k <= |cs| && forall i :: 0 <= i < k ==> cs[i].name != name
    ensures k < |cs| ==> cs[k].name == name
    decreases |cs|
  {
    if |cs| == 0 then 0
    else if cs[0].name == name then 0
    else 1 + NamedIndex(cs[1..], name)
  }

  /**
   * Table::column(name) and the search in RowProxy::operator[](name): the first column with
   * that name, else exactly one new column with that name and no rows, appended at the end.
   */
  function ColumnByName(s: TableState, name: string): (t: TableState)
    requires Shaped(s)
    ensures Shaped(t) && t.grid == s.grid
    ensures NamedIndex(s.columns, name) < |s.columns| ==> t == s
    ensures NamedIndex(s.columns, name) == |s.columns| ==> t.columns == s.columns + [Column(name, 0)]
    ensures NamedIndex(t.columns, name) == NamedIndex(s.columns, name) < |t.columns|
  {
    if NamedIndex(s.columns, name) < |s.columns| then s
    else
      NamedIndexAppend(s.columns, name);
      TableState(s.grid, s.columns + [Column(name, 0)])
  }

  lemma {:induction false} NamedIndexAppend(cs: seq<Column>, name: string)
    requires NamedIndex(cs, name) == |cs|
    ensures NamedIndex(cs + [Column(name, 0)], name) == |cs|
    decreases |cs|
  {
    if |cs| > 0 {
      assert (cs + [Column(name, 0)])[1..] == cs[1..] + [Column(name, 0)];
      NamedIndexAppend(cs[1..], name);
    }
  }

  /**
   * RowProxy::operator[](c) on row r: a row shorter than c + 1 is padded to c + 1 cells, the
   * column records grow to at least c + 1, and only then is column c's row count raised to r + 1.
   * No other row, and no cell as read through Cell, changes.
   */
  function RowCellStep(s: TableState, r: nat, c: nat): (t: TableState)
    requires Shaped(s) && r < |s.grid|
    ensures Shaped(t) && |t.grid| == |s.grid|
    ensures |t.grid[r]| == Max(|s.grid[r]|, c + 1)
    ensures |t.columns| >= c + 1 && |t.columns| >= |s.columns|
    ensures forall i :: 0 <= i < |s.grid| && i != r ==> t.grid[i] == s.grid[i]
    ensures forall i, j :: Cell(t, i, j) == Cell(s, i, j)
    ensures forall i :: 0 <= i < |s.columns| && i != c ==> t.columns[i] == s.columns[i]
    ensures forall i :: |s.columns| <= i < |t.columns| && i != c ==> t.columns[i] == Column("", 0)
    ensures t.columns[c].name == if c < |s.columns| then s.columns[c].name else ""
    ensures |s.grid[r]| <= c ==> t.columns[c].rows == Max(if c < |s.columns| then s.columns[c].rows else 0, r + 1)
    ensures |s.grid[r]| > c ==> t == s
  {
    if |s.grid[r]| <= c then
      var cols := GrowColumns(s.columns, c + 1);
      var t := TableState(s.grid[r := PadTo(s.grid[r], c + 1)], cols[c := cols[c].(rows := Max(cols[c].rows, r + 1))]);
      assert forall i, j :: Cell(t, i, j) == Cell(s, i, j) by {
        forall i: nat, j: nat
          ensures Cell(t, i, j) == Cell(s, i, j)
        {
          if i == r && j < |t.grid[r]| && j >= |s.grid[r]| {
            assert t.grid[r][j] == DefaultValue;
          } else if i == r && j < |s.grid[r]| {
            assert t.grid[r][j] == PadTo(s.grid[r], c + 1)[..|s.grid[r]|][j];
          }
        }
      }
      t
    else s
  }

  /**
   * ColumnProxy::operator[](r) on column c: the grid grows to r + 1 rows, row r alone is padded
   * to c + 1 cells, and column c's row count becomes at least r + 1.
   */
  function ColumnCellStep(s: TableState, c: nat, r: nat): (t: TableState)
    requires Shaped(s) && c < |s.columns|
    ensures Shaped(t) && |t.columns| == |s.columns|
    ensures |t.grid| == Max(|s.grid|, r + 1) && |t.grid[r]| >= c + 1
    ensures forall i :: 0 <= i < |s.grid| && i != r ==> t.grid[i] == s.grid[i]
    ensures forall i :: |s.grid| <= i < |t.grid| && i != r ==> t.grid[i] == []
    ensures forall i, j :: Cell(t, i, j) == Cell(s, i, j)
    ensures forall i :: 0 <= i < |s.columns| && i != c ==> t.columns[i] == s.columns[i]
    ensures t.columns[c] == s.columns[c].(rows := Max(s.columns[c].rows, r + 1))
    ensures r < s.columns[c].rows && c < |s.grid[r]| ==> t == s
  {
    var g := GrowRows(s.grid, r + 1);
    var g2 := if |g[r]| <= c then g[r := PadTo(g[r], c + 1)] else g;
    var cols := if s.columns[c].rows <= r then s.columns[c := s.columns[c].(rows := r + 1)] else s.columns;
    var t := TableState(g2, cols);
    assert forall i, j :: Cell(t, i, j) == Cell(s, i, j) by {
      forall i: nat, j: nat
        ensures Cell(t, i, j) == Cell(s, i, j)
      {
        if i < |s.grid| && i != r {
          assert g[i] == s.grid[i];
        } else if i == r && r < |s.grid| && j < |s.grid[r]| {
          assert g[r] == s.grid[r];
          assert g2[r][j] == g2[r][..|g[r]|][j];
        }
      }
    }
    t
  }

  /** Assignment through the reference a proxy returns. */
  function SetCell(s: TableState, r: nat, c: nat, v: Value): (t: TableState)
    requires Shaped(s) && r < |s.grid| && c < |s.grid[r]|
    ensures Shaped(t) && t.columns == s.columns && |t.grid| == |s.grid|
    ensures forall i :: 0 <= i < |s.grid| ==> |t.grid[i]| == |s.grid[i]|
    ensures forall i, j :: Cell(t, i, j) == if i == r && j == c then v else Cell(s, i, j)
  {
    TableState(s.grid[r := s.grid[r][c := v]], s.columns)
  }

  /** RowProxy::pushBack: the row gains v as its last cell; every other row is as it was. */
  function RowPushBack(s: TableState, r: nat, v: Value): (t: TableState)
    requires Shaped(s) && r < |s.grid|
    ensures Shaped(t) && |t.grid| == |s.grid| && t.grid[r] == s.grid[r] + [v]
    ensures forall i :: 0 <= i < |s.grid| && i != r ==> t.grid[i] == s.grid[i]
    ensures |t.columns| == Max(|s.columns|, |s.grid[r]| + 1)
  {
    var k := |s.grid[r]|;
    var t1 := RowCellStep(s, r, k);
    var t := SetCell(t1, r, k, v);
    assert t.grid[r] == s.grid[r] + [v] by {
      assert t1.grid[r][..k] == s.grid[r] by {
        forall j | 0 <= j < k
          ensures t1.grid[r][j] == s.grid[r][j]
        {
          assert Cell(t1, r, j) == Cell(s, r, j);
        }
      }
    }
    assert |t1.columns| == Max(|s.columns|, k + 1) by {
      assert k <= |s.columns|;
    }
    t
  }

  /**
   * ColumnProxy::pushBack: v is written at the row given by the column's row count, which then
   * grows by one; so successive pushes fill rows 0, 1, 2, ... of the column.
   */
  function ColumnPushBack(s: TableState, c: nat, v: Value): (t: TableState)
    requires Shaped(s) && c < |s.columns|
    ensures Shaped(t) && |t.columns| == |s.columns|
    ensures t.columns[c] == s.columns[c].(rows := s.columns[c].rows + 1)
    ensures forall i :: 0 <= i < |s.columns| && i != c ==> t.columns[i] == s.columns[i]
    ensures forall i, j :: Cell(t, i, j) == if i == s.columns[c].rows && j == c then v else Cell(s, i, j)
    ensures |t.grid| == Max(|s.grid|, s.columns[c].rows + 1)
  {
    var k := s.columns[c].rows;
    var t1 := ColumnCellStep(s, c, k);
    SetCell(t1, k, c, v)
  }

  /** ColumnProxy::name() = name. */
  function Rename(s: TableState, c: nat, name: string): (t: TableState)
    requires Shaped(s) && c < |s.columns|
    ensures Shaped(t) && t.grid == s.grid && |t.columns| == |s.columns|
    ensures t.columns[c] == s.columns[c].(name := name)
    ensures forall i :: 0 <= i < |s.columns| && i != c ==> t.columns[i] == s.columns[i]
  {
    TableState(s.grid, s.columns[c := s.columns[c].(name := name)])
  }

  // ---------------------------------------------------------------- reading back what was written

  /**
   * table.row(r)[c] = v: the cell reads back as v, no other cell changes, and when the write
   * created the cell, reading it back through column(c)[r] changes nothing more.
   */
  lemma RowAssignThenRead(s: TableState, r: nat, c: nat, v: Value)
    requires Shaped(s) && r < |s.grid|
    ensures Cell(SetCell(RowCellStep(s, r, c), r, c, v), r, c) == v
    ensures forall i, j :: (i != r || j != c) ==> Cell(SetCell(RowCellStep(s, r, c), r, c, v), i, j) == Cell(s, i, j)
    ensures |SetCell(RowCellStep(s, r, c), r, c, v).columns| >= c + 1
    ensures |s.grid[r]| <= c ==>
      ColumnCellStep(SetCell(RowCellStep(s, r, c), r, c, v), c, r) == SetCell(RowCellStep(s, r, c), r, c, v)
  {
    var t1 := RowCellStep(s, r, c);
    var t := SetCell(t1, r, c, v);
    if |s.grid[r]| <= c {
      assert t.columns[c].rows >= r + 1;
      assert |t.grid[r]| == |t1.grid[r]| > c;
    }
  }

  /**
   * table.column(c)[r] = v: the cell reads back as v, no other cell changes, the table has at
   * least r + 1 rows and the column counts them, and table[r][c] then reads it without growing.
   */
  lemma ColumnAssignThenRead(s: TableState, c: nat, r: nat, v: Value)
    requires Shaped(s) && c < |s.columns|
    ensures Cell(SetCell(ColumnCellStep(s, c, r), r, c, v), r, c) == v
    ensures forall i, j :: (i != r || j != c) ==> Cell(SetCell(ColumnCellStep(s, c, r), r, c, v), i, j) == Cell(s, i, j)
    ensures |SetCell(ColumnCellStep(s, c, r), r, c, v).grid| >= r + 1
    ensures SetCell(ColumnCellStep(s, c, r), r, c, v).columns[c].rows >= r + 1
    ensures RowCellStep(SetCell(ColumnCellStep(s, c, r), r, c, v), r, c) == SetCell(ColumnCellStep(s, c, r), r, c, v)
  {
    var t1 := ColumnCellStep(s, c, r);
    assert |t1.grid[r]| > c;
  }

  /** Repeated ColumnProxy::pushBack of vs, in order. */
  function PushAll(s: TableState, c: nat, vs: seq<Value>): (t: TableState)
    requires Shaped(s) && c < |s.columns|
    ensures Shaped(t) && |t.columns| == |s.columns|
    decreases |vs|
  {
    if |vs| == 0 then s else PushAll(ColumnPushBack(s, c, vs[0]), c, vs[1..])
  }

  /** Pushing vs onto a column counts every pushed value in that column and no other. */
  lemma {:induction false} PushAllColumns(s: TableState, c: nat, vs: seq<Value>)
    requires Shaped(s) && c < |s.columns|
    ensures PushAll(s, c, vs).columns[c] == s.columns[c].(rows := s.columns[c].rows + |vs|)
    ensures forall i :: 0 <= i < |s.columns| && i != c ==> PushAll(s, c, vs).columns[i] == s.columns[i]
    decreases |vs|
  {
    if |vs| > 0 {
      PushAllColumns(ColumnPushBack(s, c, vs[0]), c, vs[1..]);
    }
  }

  /**
   * Pushing vs onto a column puts vs[k] k rows below the column's old row count, and leaves
   * every cell of other columns and every earlier cell of this one alone.
   */
  lemma {:induction false} PushAllCell(s: TableState, c: nat, vs: seq<Value>, i: nat, j: nat)
    requires Shaped(s) && c < |s.columns|
    ensures Cell(PushAll(s, c, vs), i, j) ==
              if j == c && s.columns[c].rows <= i < s.columns[c].rows + |vs| then vs[i - s.columns[c].rows] else Cell(s, i, j)
    decreases |vs|
  {
    if |vs| > 0 {
      var s1 := ColumnPushBack(s, c, vs[0]);
      var n := s.columns[c].rows;
      PushAllCell(s1, c, vs[1..], i, j);
      assert PushAll(s, c, vs) == PushAll(s1, c, vs[1..]);
      assert s1.columns[c].rows == n + 1;
      if j == c && n + 1 <= i < n + |vs| {
        assert vs[1..][i - (n + 1)] == vs[i - n];
      }
    }
  }

  /** Pushing vs onto column c fills its next |vs| rows with vs, in order, and changes no other cell. */
  lemma PushAllCells(s: TableState, c: nat, vs: seq<Value>)
    requires Shaped(s) && c < |s.columns|
    ensures forall i: nat :: s.columns[c].rows <= i < s.columns[c].rows + |vs| ==>
              Cell(PushAll(s, c, vs), i, c) == vs[i - s.columns[c].rows]
    ensures forall i: nat, j: nat :: (j != c || i < s.columns[c].rows || i >= s.columns[c].rows + |vs|) ==>
              Cell(PushAll(s, c, vs), i, j) == Cell(s, i, j)
  {
    forall i: nat, j: nat {
      PushAllCell(s, c, vs, i, j);
    }
  }

  // ---------------------------------------------------------------- uniform measures

  /**
   * The loop of isEqualMeasured from row k on: each step reads col[k] and col[0], which pads
   * those rows, and the scan stops at the first row whose measure differs from m0.
   */
  function ScanFrom(s: TableState, c: nat, k: nat, m0: string): (res: (bool, TableState))
    requires Shaped(s) && c < |s.columns| && s.columns[c].rows > 0
    ensures Shaped(res.1) && res.1.columns == s.columns && |res.1.grid| == |s.grid|
    ensures forall i, j :: Cell(res.1, i, j) == Cell(s, i, j)
    ensures forall i :: 0 <= i < |s.grid| ==> |res.1.grid[i]| >= |s.grid[i]|
    ensures k < s.columns[c].rows ==> |res.1.grid| > 0 && |res.1.grid[0]| > c
    decreases s.columns[c].rows - k
  {
    if k >= s.columns[c].rows then (true, s)
    else
      var s0 := ColumnCellStep(s, c, k);
      var s1 := ColumnCellStep(s0, c, 0);
      assert s1.columns == s.columns;
      if Cell(s, k, c).measure != m0 then (false, s1)
      else
        var res := ScanFrom(s1, c, k + 1, m0);
        assert forall i :: 0 <= i < |s.grid| ==> |res.1.grid[i]| >= |s1.grid[i]| >= |s.grid[i]|;
        res
  }

  /** The scan answers whether every row from k on has measure m0. */
  lemma {:induction false} ScanFromAnswer(s: TableState, c: nat, k: nat, m0: string)
    requires Shaped(s) && c < |s.columns| && s.columns[c].rows > 0
    ensures ScanFrom(s, c, k, m0).0 <==> forall i :: k <= i < s.columns[c].rows ==> Cell(s, i, c).measure == m0
    decreases s.columns[c].rows - k
  {
    if k < s.columns[c].rows && Cell(s, k, c).measure == m0 {
      var s1 := ColumnCellStep(ColumnCellStep(s, c, k), c, 0);
      ScanFromAnswer(s1, c, k + 1, m0);
    }
  }

  /** isEqualMeasured(column(c)) together with the padding its reads cause. */
  function EqualMeasured(s: TableState, c: nat): (res: (bool, TableState))
    requires Shaped(s) && c < |s.columns|
    ensures Shaped(res.1) && res.1.columns == s.columns && |res.1.grid| == |s.grid|
    ensures forall i, j :: Cell(res.1, i, j) == Cell(s, i, j)
    ensures forall i :: 0 <= i < |s.grid| ==> |res.1.grid[i]| >= |s.grid[i]|
    ensures res.0 <==> UniformColumn(s, c)
    ensures res.0 ==> |res.1.grid| > 0 && |res.1.grid[0]| > c
  {
    if s.columns[c].name == "" then (false, s)
    else if s.columns[c].rows == 0 then (false, s)
    else
      ScanFromAnswer(s, c, 0, Cell(s, 0, c).measure);
      ScanFrom(s, c, 0, Cell(s, 0, c).measure)
  }

  /** The equalMeasured flags doPrint computes for columns i.., and the padded table it leaves. */
  function ScanColumns(s: TableState, i: nat): (res: (seq<bool>, TableState))
    requires Shaped(s) && i <= |s.columns|
    ensures Shaped(res.1) && res.1.columns == s.columns && |res.1.grid| == |s.grid|
    ensures forall r, j :: Cell(res.1, r, j) == Cell(s, r, j)
    ensures forall r :: 0 <= r < |s.grid| ==> |res.1.grid[r]| >= |s.grid[r]|
    ensures |res.0| == |s.columns| - i
    decreases |s.columns| - i
  {
    if i == |s.columns| then ([], s)
    else
      var e := EqualMeasured(s, i);
      var rest := ScanColumns(e.1, i + 1);
      ([e.0] + rest.0, rest.1)
  }

  /** Two tables with the same columns and the same readable cells agree on uniformity. */
  lemma UniformSame(s: TableState, t: TableState, c: nat)
    requires c < |s.columns| && t.columns == s.columns
    requires forall r, j :: Cell(t, r, j) == Cell(s, r, j)
    ensures UniformColumn(s, c) == UniformColumn(t, c)
  {
  }

  /** doPrint's flags: scanned from column i, the flag of column j says whether j is uniformly measured. */
  lemma {:induction false} ScanColumnsFlag(s: TableState, i: nat, j: nat)
    requires Shaped(s) && i <= j < |s.columns|
    ensures ScanColumns(s, i).0[j - i] <==> UniformColumn(s, j)
    decreases j - i
  {
    var e := EqualMeasured(s, i);
    if j > i {
      ScanColumnsFlag(e.1, i + 1, j);
      assert ScanColumns(s, i).0[j - i] == ScanColumns(e.1, i + 1).0[j - (i + 1)];
      UniformSame(s, e.1, j);
    }
  }

  /** After the scan, a flagged column's first-row cell exists, so the header reads it without padding. */
  lemma {:induction false} ScanColumnFirstRow(s: TableState, i: nat, j: nat)
    requires Shaped(s) && i <= j < |s.columns| && ScanColumns(s, i).0[j - i]
    ensures |ScanColumns(s, i).1.grid| > 0 && |ScanColumns(s, i).1.grid[0]| > j
    decreases j - i
  {
    var e := EqualMeasured(s, i);
    var rest := ScanColumns(e.1, i + 1);
    var all := ScanColumns(s, i);
    assert all.0 == [e.0] + rest.0 && all.1 == rest.1;
    if j > i {
      assert all.0[j - i] == rest.0[j - (i + 1)];
      ScanColumnFirstRow(e.1, i + 1, j);
    } else {
      assert e.0;
      assert |rest.1.grid[0]| >= |e.1.grid[0]|;
    }
  }

  /** A column found uniformly measured has had its first cell created by the scan. */
  lemma ScanColumnsFirstRow(s: TableState, i: nat)
    requires Shaped(s) && i <= |s.columns|
    ensures forall j :: 0 <= j < |ScanColumns(s, i).0| && ScanColumns(s, i).0[j] ==>
      |ScanColumns(s, i).1.grid| > 0 && |ScanColumns(s, i).1.grid[0]| > i + j
  {
    forall j | 0 <= j < |ScanColumns(s, i).0| && ScanColumns(s, i).0[j]
      ensures |ScanColumns(s, i).1.grid| > 0 && |ScanColumns(s, i).1.grid[0]| > i + j
    {
      ScanColumnFirstRow(s, i, i + j);
    }
  }


  /** A named column with rows whose every cell has the first cell's measure. */
  predicate UniformColumn(s: TableState, c: nat)
    requires c < |s.columns|
  {
    s.columns[c].name != "" && s.columns[c].rows > 0 &&
    forall r :: 0 <= r < s.columns[c].rows ==> Cell(s, r, c).measure == Cell(s, 0, c).measure
  }


  // ---------------------------------------------------------------- printers' output

  /** TextPrinter::begin / HtmlPrinter::begin. */
  function BeginText(html: bool): string
  {
    if html then "<table border=1>\n" else ""
  }

  /** TextPrinter::end / HtmlPrinter::end. */
  function EndText(html: bool): string
  {
    if html then "</table>\n" else ""
  }

  /** beginRow and beginHeader write the same text in both printers. */
  function LineOpen(html: bool): string
  {
    if html then "<tr>" else ""
  }

  /** endRow and endHeader write the same text in both printers. */
  function LineClose(html: bool): string
  {
    if html then "</tr>\n" else "\n"
  }

  /** beginValue: a header cell inside beginHeader/endHeader, a data cell otherwise. */
  function ValueOpen(html: bool, inHeader: bool): string
  {
    if !html then "" else if inHeader then "<th>" else "<td>"
  }

  function ValueClose(html: bool, inHeader: bool): string
  {
    if !html then "\t" else if inHeader then "</th>" else "</td>"
  }

  /** printValue: the value, then " (measure)" when the measure is not empty. */
  function ValueText(text: string, measure: string): string
  {
    text + (if measure != "" then " (" + measure + ")" else "")
  }

  function CellText(html: bool, inHeader: bool, text: string, measure: string): string
  {
    ValueOpen(html, inHeader) + ValueText(text, measure) + ValueClose(html, inHeader)
  }

  /** haveHeader: some column has a name. */
  predicate HasHeader(cs: seq<Column>)
  {
    exists i :: 0 <= i < |cs| && cs[i].name != ""
  }

  /** The first n cells printHeader writes: the raw name, with the unit of a uniformly measured column. */
  function HeaderCells(html: bool, s: TableState, flags: seq<bool>, n: nat): string
    requires |flags| == |s.columns| && n <= |s.columns|
  {
    if n == 0 then ""
    else
      HeaderCells(html, s, flags, n - 1) +
      CellText(html, true, s.columns[n - 1].name, if flags[n - 1] then Cell(s, 0, n - 1).measure else "")
  }

  function HeaderText(html: bool, s: TableState, flags: seq<bool>): string
    requires |flags| == |s.columns|
  {
    LineOpen(html) + HeaderCells(html, s, flags, |s.columns|) + LineClose(html)
  }

  /** The first n cells of row r as doPrint writes them: toString of the payload, and the unit unless the header has it. */
  /** Whether column j's unit is shown once in the header; a column past the flags has none. */
  function Flag(flags: seq<bool>, j: nat): bool
  {
    j < |flags| && flags[j]
  }

  function RowCells(html: bool, s: TableState, flags: seq<bool>, r: nat, n: nat): string
    requires r < |s.grid| && n <= |s.grid[r]|
  {
    if n == 0 then ""
    else
      RowCells(html, s, flags, r, n - 1) +
      CellText(html, false, ToString(s.grid[r][n - 1].payload), if Flag(flags, n - 1) then "" else s.grid[r][n - 1].measure)
  }

  /** Text written cell after cell is the text of the cells so far followed by the next one. */
  lemma RowCellsNext(written: string, start: string, html: bool, s: TableState, flags: seq<bool>, r: nat, j: nat)
    requires r < |s.grid| && j < |s.grid[r]| && written == start + RowCells(html, s, flags, r, j)
    ensures written + CellText(html, false, ToString(s.grid[r][j].payload), if Flag(flags, j) then "" else s.grid[r][j].measure) ==
              start + RowCells(html, s, flags, r, j + 1)
  {
    Joined(start, RowCells(html, s, flags, r, j),
           CellText(html, false, ToString(s.grid[r][j].payload), if Flag(flags, j) then "" else s.grid[r][j].measure));
  }

  /** The row's cells written after beginRow and followed by endRow make up its line. */
  lemma RowLineClosed(written: string, before: string, html: bool, s: TableState, flags: seq<bool>, r: nat)
    requires r < |s.grid| && written == before + LineOpen(html) + RowCells(html, s, flags, r, |s.grid[r]|)
    ensures written + LineClose(html) == before + RowLine(html, s, flags, r)
  {
    var cells := RowCells(html, s, flags, r, |s.grid[r]|);
    Joined(before + LineOpen(html), cells, LineClose(html));
    Joined(before, LineOpen(html), cells + LineClose(html));
    Joined(LineOpen(html), cells, LineClose(html));
  }

  /** Row r between beginRow and endRow. */
  function RowLine(html: bool, s: TableState, flags: seq<bool>, r: nat): string
    requires r < |s.grid|
  {
    LineOpen(html) + RowCells(html, s, flags, r, |s.grid[r]|) + LineClose(html)
  }

  /** The first n rows of the table, each between beginRow and endRow. */
  function RowsText(html: bool, s: TableState, flags: seq<bool>, n: nat): string
    requires n <= |s.grid|
  {
    if n == 0 then "" else RowsText(html, s, flags, n - 1) + RowLine(html, s, flags, n - 1)
  }

  /** Text written row after row is the text of the rows so far followed by the next one. */
  lemma RowsTextNext(written: string, before: string, start: string, html: bool, s: TableState, flags: seq<bool>, r: nat)
    requires r < |s.grid| && before == start + RowsText(html, s, flags, r) && written == before + RowLine(html, s, flags, r)
    ensures written == start + RowsText(html, s, flags, r + 1)
  {
    Joined(start, RowsText(html, s, flags, r), RowLine(html, s, flags, r));
  }

  /** The header line when some column is named, then the rows. */
  function BodyText(html: bool, s: TableState, flags: seq<bool>): string
    requires Shaped(s) && |flags| == |s.columns|
  {
    (if HasHeader(s.columns) then HeaderText(html, s, flags) else "") + RowsText(html, s, flags, |s.grid|)
  }

  /**
   * What doPrint writes: begin, the header line when some column is named, one line per row
   * of the table as the measure scan left it, then end.
   */
  function Printed(html: bool, s: TableState): string
    requires Shaped(s)
  {
    var scan := ScanColumns(s, 0);
    BeginText(html) + BodyText(html, scan.1, scan.0) + EndText(html)
  }

  /** An empty table prints nothing as text, and an empty table element as HTML. */
  lemma EmptyTablePrints()
    ensures Printed(false, Empty) == ""
    ensures Printed(true, Empty) == "<table border=1>\n</table>\n"
  {
    assert !HasHeader(Empty.columns);
  }

  // ---------------------------------------------------------------- layout of the text output

  /** No column name, cell text or cell unit of the table contains ch. */
  ghost predicate Clean(s: TableState, ch: char)
  {
    (forall i :: 0 <= i < |s.columns| ==> ch !in s.columns[i].name) &&
    forall r, c :: ch !in ToString(Cell(s, r, c).payload) && ch !in Cell(s, r, c).measure
  }

  /** A text line: the text, then a line break. */
  lemma TextLineCount(ch: char, text: string)
    requires ch == '\n' || ch == '\t'
    ensures Count(ch, LineOpen(false) + text + LineClose(false)) == Count(ch, text) + (if ch == '\n' then 1 else 0)
  {
    assert LineOpen(false) + text + LineClose(false) == text + "\n";
    CountAppend(ch, text, "\n");
    assert "\n"[1..] == "";
  }

  /** Cells written by the text printer hold no line break and end in exactly one tab. */
  lemma TextCellCounts(ch: char, inHeader: bool, text: string, measure: string)
    requires ch == '\n' || ch == '\t'
    requires ch !in text && ch !in measure
    ensures Count(ch, CellText(false, inHeader, text, measure)) == if ch == '\t' then 1 else 0
  {
    var suffix := if measure != "" then " (" + measure + ")" else "";
    assert ch !in suffix;
    CountAbsent(ch, text + suffix);
    assert ValueText(text, measure) == text + suffix;
    assert CellText(false, inHeader, text, measure) == (text + suffix) + "\t";
    CountAppend(ch, text + suffix, "\t");
    assert "\t"[1..] == "";
  }

  /** The number of cells in the first n rows. */
  function CellsUpTo(s: TableState, n: nat): nat
    requires n <= |s.grid|
  {
    if n == 0 then 0 else CellsUpTo(s, n - 1) + |s.grid[n - 1]|
  }

  lemma {:induction false} HeaderCellsCount(ch: char, s: TableState, flags: seq<bool>, n: nat)
    requires ch == '\n' || ch == '\t'
    requires Clean(s, ch) && |flags| == |s.columns| && n <= |s.columns|
    ensures Count(ch, HeaderCells(false, s, flags, n)) == if ch == '\t' then n else 0
  {
    if n > 0 {
      var m := if flags[n - 1] then Cell(s, 0, n - 1).measure else "";
      TextCellCounts(ch, true, s.columns[n - 1].name, m);
      HeaderCellsCount(ch, s, flags, n - 1);
      CountAppend(ch, HeaderCells(false, s, flags, n - 1), CellText(false, true, s.columns[n - 1].name, m));
    }
  }

  lemma {:induction false} RowCellsCount(ch: char, s: TableState, flags: seq<bool>, r: nat, n: nat)
    requires ch == '\n' || ch == '\t'
    requires Clean(s, ch) && r < |s.grid| && n <= |s.grid[r]| <= |flags|
    ensures Count(ch, RowCells(false, s, flags, r, n)) == if ch == '\t' then n else 0
  {
    if n > 0 {
      var v := s.grid[r][n - 1];
      assert v == Cell(s, r, n - 1);
      var m := if Flag(flags, n - 1) then "" else v.measure;
      TextCellCounts(ch, false, ToString(v.payload), m);
      RowCellsCount(ch, s, flags, r, n - 1);
      CountAppend(ch, RowCells(false, s, flags, r, n - 1), CellText(false, false, ToString(v.payload), m));
    }
  }

  lemma {:induction false} RowsTextCount(ch: char, s: TableState, flags: seq<bool>, n: nat)
    requires ch == '\n' || ch == '\t'
    requires Clean(s, ch) && Shaped(s) && |flags| == |s.columns| && n <= |s.grid|
    ensures Count(ch, RowsText(false, s, flags, n)) == if ch == '\t' then CellsUpTo(s, n) else n
  {
    if n > 0 {
      RowCellsCount(ch, s, flags, n - 1, |s.grid[n - 1]|);
      TextLineCount(ch, RowCells(false, s, flags, n - 1, |s.grid[n - 1]|));
      RowsTextCount(ch, s, flags, n - 1);
      CountAppend(ch, RowsText(false, s, flags, n - 1), RowLine(false, s, flags, n - 1));
    }
  }

  /** The measure scan changes no readable cell, so it keeps a table clean. */
  lemma ScanKeepsClean(s: TableState, ch: char)
    requires Shaped(s) && Clean(s, ch)
    ensures Clean(ScanColumns(s, 0).1, ch)
  {
  }

  /** Counts of ch in a text header line (when there is one) followed by the text rows. */
  lemma TextPartsCount(ch: char, t: TableState, flags: seq<bool>, header: bool)
    requires ch == '\n' || ch == '\t'
    requires Shaped(t) && Clean(t, ch) && |flags| == |t.columns|
    ensures Count(ch, (if header then HeaderText(false, t, flags) else "") + RowsText(false, t, flags, |t.grid|)) ==
              (if ch == '\t' then CellsUpTo(t, |t.grid|) else |t.grid|) +
              (if !header then 0 else if ch == '\t' then |t.columns| else 1)
  {
    if header {
      HeaderCellsCount(ch, t, flags, |t.columns|);
      TextLineCount(ch, HeaderCells(false, t, flags, |t.columns|));
    }
    RowsTextCount(ch, t, flags, |t.grid|);
    CountAppend(ch, if header then HeaderText(false, t, flags) else "", RowsText(false, t, flags, |t.grid|));
  }

  /** The text printer writes nothing around the table: only the header line and the rows. */
  lemma TextPrinted(s: TableState)
    requires Shaped(s)
    ensures Printed(false, s) ==
              (if HasHeader(s.columns) then HeaderText(false, ScanColumns(s, 0).1, ScanColumns(s, 0).0) else "") +
              RowsText(false, ScanColumns(s, 0).1, ScanColumns(s, 0).0, |s.grid|)
  {
    var scan := ScanColumns(s, 0);
    assert scan.1.columns == s.columns && |scan.1.grid| == |s.grid|;
    var body := BodyText(false, scan.1, scan.0);
    assert body == (if HasHeader(s.columns) then HeaderText(false, scan.1, scan.0) else "") + RowsText(false, scan.1, scan.0, |s.grid|);
    assert Printed(false, s) == "" + body + "";
    Unwrapped(body);
  }

  /**
   * The text layout: one line per row plus one for the header when some column is named, and
   * one tab after every header cell and every cell of the (padded) rows.
   */
  lemma TextLayout(s: TableState)
    requires Shaped(s) && Clean(s, '\n') && Clean(s, '\t')
    ensures Count('\n', Printed(false, s)) == |s.grid| + (if HasHeader(s.columns) then 1 else 0)
    ensures Count('\t', Printed(false, s)) ==
              CellsUpTo(ScanColumns(s, 0).1, |s.grid|) + (if HasHeader(s.columns) then |s.columns| else 0)
  {
    var scan := ScanColumns(s, 0);
    ScanKeepsClean(s, '\n');
    ScanKeepsClean(s, '\t');
    TextPrinted(s);
    TextPartsCount('\n', scan.1, scan.0, HasHeader(s.columns));
    TextPartsCount('\t', scan.1, scan.0, HasHeader(s.columns));
  }

  // ---------------------------------------------------------------- output stream and printers

  /** The std::ostream the printers write to: only the text written so far is modelled. */
  class Stream {
    var text: string

    constructor()
      ensures text == ""
    {
      text := "";
    }

    method Write(t: string)
      modifies this
      ensures text == old(text) + t
    {
      text := text + t;
    }
  }

  /**
   * TextPrinter (html false) and HtmlPrinter (html true): the same calls, different markup.
   * Only the HTML printer tells header cells from data cells; the flag is kept for both.
   */
  class Printer {
    const html: bool
    const out: Stream
    var inHeader: bool

    constructor(html: bool, out: Stream)
      ensures this.html == html && this.out == out && !inHeader
    {
      this.html := html;
      this.out := out;
      inHeader := false;
    }

    method Begin()
      modifies out
      ensures out.text == old(out.text) + BeginText(html)
    {
      out.Write(BeginText(html));
    }

    method End()
      modifies out
      ensures out.text == old(out.text) + EndText(html)
    {
      out.Write(EndText(html));
    }

    method BeginRow()
      modifies out
      ensures out.text == old(out.text) + LineOpen(html)
    {
      out.Write(LineOpen(html));
    }

    method EndRow()
      modifies out
      ensures out.text == old(out.text) + LineClose(html)
    {
      out.Write(LineClose(html));
    }

    method BeginValue()
      modifies out
      ensures out.text == old(out.text) + ValueOpen(html, inHeader)
    {
      if html {
        out.Write(if inHeader then "<th>" else "<td>");
      }
    }

    method EndValue()
      modifies out
      ensures out.text == old(out.text) + ValueClose(html, inHeader)
    {
      if html {
        out.Write(if inHeader then "</th>" else "</td>");
      } else {
        out.Write("\t");
      }
    }

    method BeginHeader()
      modifies this, out
      ensures out.text == old(out.text) + LineOpen(html) && inHeader
    {
      out.Write(LineOpen(html));
      inHeader := true;
    }

    method EndHeader()
      modifies this, out
      ensures out.text == old(out.text) + LineClose(html) && !inHeader
    {
      out.Write(LineClose(html));
      inHeader := false;
    }
  }

  /** printValue: the value, then the unit in parentheses when there is one. */
  method PrintValue(text: string, measure: string, out: Stream)
    modifies out
    ensures out.text == old(out.text) + ValueText(text, measure)
  {
    out.Write(text);
    if measure != "" {
      out.Write(" (");
      out.Write(measure);
      out.Write(")");
    }
  }

  /** beginValue, printValue, endValue: one cell as doPrint and printHeader write it. */
  method PrintCell(printer: Printer, text: string, measure: string)
    modifies printer.out
    ensures printer.out.text == old(printer.out.text) + CellText(printer.html, printer.inHeader, text, measure)
  {
    printer.BeginValue();
    PrintValue(text, measure, printer.out);
    printer.EndValue();
  }


  // ---------------------------------------------------------------- the table object

  /** One cell of body row r: its value, with its unit unless the column header shows it. */
  method PrintRowCell(printer: Printer, s: TableState, r: nat, j: nat, flags: seq<bool>)
    requires r < |s.grid| && j < |s.grid[r]| <= |flags| && !printer.inHeader
    modifies printer.out
    ensures printer.out.text == old(printer.out.text) +
              CellText(printer.html, false, ToString(s.grid[r][j].payload), if Flag(flags, j) then "" else s.grid[r][j].measure)
  {
    var measure := "";
    if !flags[j] {
      measure := s.grid[r][j].measure;
    }
    PrintCell(printer, ToString(s.grid[r][j].payload), measure);
  }

  /** Row r of doPrint's body, between beginRow and endRow. */
  method PrintRow(printer: Printer, s: TableState, r: nat, flags: seq<bool>)
    requires r < |s.grid| && |s.grid[r]| <= |flags| && !printer.inHeader
    modifies printer.out
    ensures printer.out.text == old(printer.out.text) + RowLine(printer.html, s, flags, r)
  {
    var out := printer.out;
    var html := printer.html;
    ghost var before := out.text;
    var n := |s.grid[r]|;
    printer.BeginRow();
    ghost var start := out.text;
    Unwrapped(start);
    var j := 0;
    while j < n
      invariant 0 <= j <= n
      invariant out.text == start + RowCells(html, s, flags, r, j)
    {
      ghost var written := out.text;
      PrintRowCell(printer, s, r, j, flags);
      RowCellsNext(written, start, html, s, flags, r, j);
      j := j + 1;
    }
    ghost var written := out.text;
    printer.EndRow();
    RowLineClosed(written, before, html, s, flags, r);
  }

  /**
   * The loop of doPrint over the rows. It reaches row r through row(r), which for an existing
   * row changes nothing (RowStepExisting), so the rows are read from the table's state as it is.
   */
  method PrintRows(printer: Printer, s: TableState, flags: seq<bool>)
    requires (forall r :: 0 <= r < |s.grid| ==> |s.grid[r]| <= |flags|) && !printer.inHeader
    modifies printer.out
    ensures printer.out.text == old(printer.out.text) + RowsText(printer.html, s, flags, |s.grid|)
  {
    var out := printer.out;
    var html := printer.html;
    ghost var start := out.text;
    Unwrapped(start);
    var n := |s.grid|;
    var r := 0;
    while r < n
      invariant 0 <= r <= n
      invariant out.text == start + RowsText(html, s, flags, r)
    {
      ghost var before := out.text;
      PrintRow(printer, s, r, flags);
      RowsTextNext(out.text, before, start, html, s, flags, r);
      r := r + 1;
    }
  }

  /**
   * Table: rows of cells and the column records. A proxy returned by row(), column() or
   * operator[] is modelled by the row and column indexes it stands for; a Value& a proxy
   * returns is the cell position, written through Store.
   */
  class Table {
    var grid: seq<seq<Value>>
    var columns: seq<Column>

    function State(): TableState
      reads this
    {
      TableState(grid, columns)
    }

    predicate Valid()
      reads this
    {
      Shaped(State())
    }

    constructor()
      ensures Valid() && State() == Empty
    {
      grid := [];
      columns := [];
    }

    function Rows(): nat
      reads this
    {
      |grid|
    }

    function Columns(): nat
      reads this
    {
      |columns|
    }

    /** row(index) and operator[](index). */
    method RowAt(index: nat)
      requires Valid()
      modifies this
      ensures Valid() && State() == RowStep(old(State()), index)
    {
      if |grid| <= index {
        grid := GrowRows(grid, index + 1);
      }
    }

    /** column(index). */
    method ColumnAt(index: nat)
      requires Valid()
      modifies this
      ensures Valid() && State() == ColumnStep(old(State()), index)
    {
      if index >= |columns| {
        columns := GrowColumns(columns, index + 1);
      }
    }

    /** column(name): the index the returned proxy stands for. */
    method ColumnNamed(name: string) returns (index: nat)
      requires Valid()
      modifies this
      ensures Valid() && State() == ColumnByName(old(State()), name)
      ensures index == NamedIndex(old(columns), name) && index < |columns| && columns[index].name == name
    {
      index := |columns|;
      var i := 0;
      while i < |columns|
        invariant 0 <= i <= |columns|
        invariant forall k :: 0 <= k < i ==> columns[k].name != name
        invariant index == |columns|
      {
        if columns[i].name == name {
          index := i;
          break;
        }
        i := i + 1;
      }
      NamedIndexFirst(columns, name, index);
      if index == |columns| {
        NamedIndexAppend(columns, name);
        columns := columns + [Column(name, 0)];
      }
      ColumnAt(index);
    }

    /** newColumn(): a proxy for a fresh unnamed column past the last one. */
    method NewColumn() returns (index: nat)
      requires Valid()
      modifies this
      ensures Valid() && index == |old(columns)| && State() == ColumnStep(old(State()), index)
    {
      index := |columns|;
      ColumnAt(index);
    }

    /** newRow(): a proxy for a fresh empty row past the last one. */
    method NewRow() returns (index: nat)
      requires Valid()
      modifies this
      ensures Valid() && index == |old(grid)| && State() == RowStep(old(State()), index)
    {
      index := |grid|;
      RowAt(index);
    }

    /** RowProxy::operator[](c) on row r. */
    method RowCellRef(r: nat, c: nat)
      requires Valid() && r < |grid|
      modifies this
      ensures Valid() && State() == RowCellStep(old(State()), r, c)
    {
      if |grid[r]| <= c {
        grid := grid[r := PadTo(grid[r], c + 1)];
        columns := GrowColumns(columns, Max(|columns|, c + 1));
        columns := columns[c := columns[c].(rows := Max(columns[c].rows, r + 1))];
      }
    }

    /** RowProxy::operator[](name) on row r: the column index the returned reference lies in. */
    method RowCellRefNamed(r: nat, name: string) returns (c: nat)
      requires Valid() && r < |grid|
      modifies this
      ensures c == NamedIndex(old(columns), name)
      ensures Valid() && State() == RowCellStep(ColumnByName(old(State()), name), r, c)
    {
      c := |columns|;
      var i := 0;
      while i < |columns|
        invariant 0 <= i <= |columns|
        invariant forall k :: 0 <= k < i ==> columns[k].name != name
        invariant c == |columns|
      {
        if columns[i].name == name {
          c := i;
          break;
        }
        i := i + 1;
      }
      NamedIndexFirst(columns, name, c);
      if c == |columns| {
        NamedIndexAppend(columns, name);
        columns := columns + [Column(name, 0)];
      }
      RowCellRef(r, c);
    }

    /** ColumnProxy::operator[](r) on column c. */
    method ColumnCellRef(c: nat, r: nat)
      requires Valid() && c < |columns|
      modifies this
      ensures Valid() && State() == ColumnCellStep(old(State()), c, r)
    {
      if |grid| <= r {
        grid := GrowRows(grid, r + 1);
      }
      if |grid[r]| <= c {
        grid := grid[r := PadTo(grid[r], c + 1)];
      }
      if columns[c].rows <= r {
        columns := columns[c := columns[c].(rows := r + 1)];
      }
    }

    /** Assignment through the Value& a proxy returned. */
    method Store(r: nat, c: nat, v: Value)
      requires Valid() && r < |grid| && c < |grid[r]|
      modifies this
      ensures Valid() && State() == SetCell(old(State()), r, c, v)
    {
      grid := grid[r := grid[r][c := v]];
    }

    /** RowProxy::pushBack. */
    method PushBackRow(r: nat, v: Value)
      requires Valid() && r < |grid|
      modifies this
      ensures Valid() && State() == RowPushBack(old(State()), r, v)
    {
      var c := |grid[r]|;
      RowCellRef(r, c);
      Store(r, c, v);
    }

    /** ColumnProxy::pushBack. */
    method PushBackColumn(c: nat, v: Value)
      requires Valid() && c < |columns|
      modifies this
      ensures Valid() && State() == ColumnPushBack(old(State()), c, v)
    {
      var r := columns[c].rows;
      ColumnCellRef(c, r);
      Store(r, c, v);
    }

    /** ColumnProxy::name() = name. */
    method SetColumnName(c: nat, name: string)
      requires Valid() && c < |columns|
      modifies this
      ensures Valid() && State() == Rename(old(State()), c, name)
    {
      columns := columns[c := columns[c].(name := name)];
    }

    /** isEqualMeasured(column(c)). */
    method IsEqualMeasured(c: nat) returns (b: bool)
      requires Valid() && c < |columns|
      modifies this
      ensures Valid() && (b, State()) == EqualMeasured(old(State()), c)
    {
      if columns[c].name == "" {
        return false;
      }
      if columns[c].rows == 0 {
        return false;
      }
      ghost var m0 := Cell(State(), 0, c).measure;
      var i := 0;
      while i < columns[c].rows
        invariant Valid() && columns == old(columns)
        invariant forall r, j :: Cell(State(), r, j) == Cell(old(State()), r, j)
        invariant ScanFrom(State(), c, i, m0) == EqualMeasured(old(State()), c)
        decreases columns[c].rows - i
      {
        ghost var before := State();
        ColumnCellRef(c, i);
        ColumnCellRef(c, 0);
        assert grid[i][c] == Cell(before, i, c) && grid[0][c] == Cell(before, 0, c);
        if grid[i][c].measure != grid[0][c].measure {
          return false;
        }
        i := i + 1;
      }
      return true;
    }

    /** haveHeader(). */
    method HaveHeader() returns (b: bool)
      ensures b <==> HasHeader(columns)
    {
      var i := 0;
      while i < |columns|
        invariant 0 <= i <= |columns|
        invariant forall k :: 0 <= k < i ==> columns[k].name == ""
      {
        if columns[i].name != "" {
          return true;
        }
        i := i + 1;
      }
      return false;
    }

    /**
     * printHeader: a printer of its own brackets the header cells; a column whose measures are
     * uniform shows the unit of its first cell. That cell already exists (the scan created it),
     * so column(i)[0] only reads it: ColumnCellStep leaves such a table as it is.
     */
    method PrintHeader(html: bool, out: Stream, flags: seq<bool>)
      requires |flags| == |columns|
      requires forall i :: 0 <= i < |flags| && flags[i] ==> |grid| > 0 && |grid[0]| > i
      modifies out
      ensures out.text == old(out.text) + HeaderText(html, State(), flags)
    {
      ghost var s := State();
      var cols := columns;
      var printer := new Printer(html, out);
      printer.BeginHeader();
      ghost var start := out.text;
      var i := 0;
      while i < |cols|
        invariant 0 <= i <= |cols|
        invariant printer.out == out && printer.html == html && printer.inHeader
        invariant out.text == start + HeaderCells(html, s, flags, i)
      {
        PrintHeaderCell(printer, i, flags);
        Joined(start, HeaderCells(html, s, flags, i),
               CellText(html, true, cols[i].name, if flags[i] then Cell(s, 0, i).measure else ""));
        i := i + 1;
      }
      ghost var cells := HeaderCells(html, s, flags, |cols|);
      printer.EndHeader();
      Joined(start, cells, LineClose(html));
      Joined(old(out.text), LineOpen(html), cells + LineClose(html));
      assert HeaderText(html, s, flags) == LineOpen(html) + (cells + LineClose(html));
      assert State() == s;
    }

    /** Header cell i: the column name, with the unit of row 0 when the column is uniformly measured. */
    method PrintHeaderCell(printer: Printer, i: nat, flags: seq<bool>)
      requires i < |columns| == |flags| && printer.inHeader
      requires flags[i] ==> |grid| > 0 && |grid[0]| > i
      modifies printer.out
      ensures printer.out.text == old(printer.out.text) +
                CellText(printer.html, true, columns[i].name, if flags[i] then Cell(State(), 0, i).measure else "")
    {
      var measure := "";
      if flags[i] {
        measure := grid[0][i].measure;
      }
      PrintCell(printer, columns[i].name, measure);
    }

    /** The loop of doPrint that computes isEqualMeasured(column(i)) for every column. */
    method MeasureFlags() returns (flags: seq<bool>)
      requires Valid()
      modifies this
      ensures Valid() && (flags, State()) == ScanColumns(old(State()), 0)
    {
      ghost var cur := State();
      ghost var goal := ScanColumns(cur, 0);
      flags := [];
      var i := 0;
      assert goal.0 == [] + goal.0;
      while i < |columns|
        invariant State() == cur && Shaped(cur) && 0 <= i <= |cur.columns| == |goal.0| && |flags| == i
        invariant goal.0 == flags + ScanColumns(cur, i).0 && goal.1 == ScanColumns(cur, i).1
        decreases |cur.columns| - i
      {
        var b := IsEqualMeasured(i);
        ghost var rest := ScanColumns(State(), i + 1);
        assert ScanColumns(cur, i) == ([b] + rest.0, rest.1);
        Joined(flags, [b], rest.0);
        flags := flags + [b];
        i := i + 1;
        cur := State();
      }
      assert flags + [] == flags;
    }

    /** The header (when haveHeader()) and the rows, as doPrint writes them after the flags. */
    method PrintBody(printer: Printer, flags: seq<bool>)
      requires Valid() && |flags| == |columns| && !printer.inHeader
      requires forall i :: 0 <= i < |flags| && flags[i] ==> |grid| > 0 && |grid[0]| > i
      modifies this, printer.out
      ensures State() == old(State())
      ensures printer.out.text == old(printer.out.text) + BodyText(printer.html, State(), flags)
    {
      var h := HaveHeader();
      ghost var header := if h then HeaderText(printer.html, State(), flags) else "";
      if h {
        PrintHeader(printer.html, printer.out, flags);
      }
      assert printer.out.text == old(printer.out.text) + header;
      PrintRows(printer, State(), flags);
      Joined(old(printer.out.text), header, RowsText(printer.html, State(), flags, |grid|));
    }

    /**
     * doPrint: the measure flags (whose reads pad the table), the header when some column is
     * named, then every row; the output is Printed of the table as it was before the call.
     */
    method DoPrint(html: bool, out: Stream)
      requires Valid()
      modifies this, out
      ensures Valid() && State() == ScanColumns(old(State()), 0).1
      ensures out.text == old(out.text) + Printed(html, old(State()))
    {
      var printer := new Printer(html, out);
      printer.Begin();
      ghost var s0 := old(State());
      ghost var scan := ScanColumns(s0, 0);
      var flags := MeasureFlags();
      assert flags == scan.0 && State() == scan.1;
      ScanColumnsFirstRow(s0, 0);
      PrintBody(printer, flags);
      printer.End();
      Joined(old(out.text), BeginText(html), BodyText(html, State(), flags));
      Joined(old(out.text), BeginText(html) + BodyText(html, State(), flags), EndText(html));
    }

    /** print: doPrint with the text printer. */
    method Print(out: Stream)
      requires Valid()
      modifies this, out
      ensures Valid() && State() == ScanColumns(old(State()), 0).1
      ensures out.text == old(out.text) + Printed(false, old(State()))
    {
      DoPrint(false, out);
    }

    /** printHtml: doPrint with the HTML printer. */
    method PrintHtml(out: Stream)
      requires Valid()
      modifies this, out
      ensures Valid() && State() == ScanColumns(old(State()), 0).1
      ensures out.text == old(out.text) + Printed(true, old(State()))
    {
      DoPrint(true, out);
    }
  }

  /** A search that stops at the first match, or runs to the end, finds NamedIndex. */
  lemma NamedIndexFirst(cs: seq<Column>, name: string, k: nat)
    requires k <= |cs| && (forall i :: 0 <= i < k ==> cs[i].name != name)
    requires k < |cs| ==> cs[k].name == name
    ensures NamedIndex(cs, name) == k
  {
  }
}
