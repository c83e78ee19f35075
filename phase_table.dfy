/**
 * Phase::toTable and Phase::iterationsToTable: the columns a phase appends to a Table, first
 * as a list of (name, cells) pairs and then as the table those pushes produce.
 */
module PhaseTables {
  import opened OrderedMaps
  import opened Attributes
  import opened Values
  import opened Phases
  import opened Tables

  // ---------------------------------------------------------------- what is emitted

  /** The label cells of iterationsToTable: each label as a Value with no unit. */
  function Labels(its: seq<Attribute>): (vs: seq<Value>)
  {
    seq(|its|, r requires 0 <= r < |its| => Value(its[r], ""))
  }

  /**
   * _values["time"][0] is defined for every run the subphase columns show, the runs with
   * exactly one iteration (reading element 0 of an empty vector is undefined).
   */
  predicate TimesReadable(qs: seq<PhaseState>)
  {
    forall q :: q in qs && |q.iterations| == 1 ==> |ValuesOf(q, "time")| >= 1
  }

  predicate TimesDefined(p: PhaseState)
  {
    forall e :: e in p.phases ==> TimesReadable(e.1.items)
  }

  /** The cells of one subphase column: the first time of each run with exactly one iteration, in order. */
  function Times(qs: seq<PhaseState>): (vs: seq<Value>)
    requires TimesReadable(qs)
    ensures |vs| <= |qs|
    decreases |qs|
  {
    if |qs| == 0 then []
    else
      assert qs[0] in qs;
      (if |qs[0].iterations| == 1 then [ValuesOf(qs[0], "time")[0]] else []) + Times(qs[1..])
  }

  /** Every run has exactly one iteration and a time: then the column shows one time per run. */
  lemma {:induction false} TimesOfSingles(qs: seq<PhaseState>)
    requires forall q :: q in qs ==> |q.iterations| == 1 && |ValuesOf(q, "time")| >= 1
    ensures TimesReadable(qs)
    ensures Times(qs) == seq(|qs|, k requires 0 <= k < |qs| => ValuesOf(qs[k], "time")[0])
    decreases |qs|
  {
    if |qs| > 0 {
      assert qs[0] in qs;
      assert forall q :: q in qs[1..] ==> q in qs;
      TimesOfSingles(qs[1..]);
    }
  }

  /** The label column iterationsToTable adds: only for a loop, unnamed, one label per iteration. */
  function LabelColumns(p: PhaseState): seq<(string, seq<Value>)>
  {
    if IsLoop(p) then [("", Labels(p.iterations))] else []
  }

  /** The subphase columns: one per subphase name, in key order, holding that name's times. */
  function PhaseColumns(es: seq<(string, PhaseList)>): seq<(string, seq<Value>)>
    requires forall e :: e in es ==> TimesReadable(e.1.items)
  {
    seq(|es|, k requires 0 <= k < |es| => assert es[k] in es; (es[k].0, Times(es[k].1.items)))
  }

  /** Everything toTable appends, in order: labels, then values by name, then subphase times by name. */
  function ColumnsOf(p: PhaseState): seq<(string, seq<Value>)>
    requires TimesDefined(p)
  {
    LabelColumns(p) + p.values + PhaseColumns(p.phases)
  }

  /**
   * The columns of toTable in order: a label column exactly when the phase is a loop, one column
   * per value name holding that name's values in iteration order, then one per subphase name.
   */
  lemma ColumnsLayout(p: PhaseState)
    requires TimesDefined(p)
    ensures var cols := ColumnsOf(p); var l := if IsLoop(p) then 1 else 0;
      |cols| == l + |p.values| + |p.phases| &&
      (IsLoop(p) ==> cols[0] == ("", Labels(p.iterations))) &&
      (forall k :: 0 <= k < |p.values| ==> cols[l + k] == p.values[k]) &&
      (forall k :: 0 <= k < |p.phases| ==> cols[l + |p.values| + k].0 == p.phases[k].0)
  {
  }

  /** The first subphase column's cells are exactly the times of the runs with one iteration. */
  lemma PhaseColumnCells(p: PhaseState, k: nat)
    requires TimesDefined(p) && k < |p.phases|
    ensures var l := if IsLoop(p) then 1 else 0;
      ColumnsOf(p)[l + |p.values| + k] == (p.phases[k].0, Times(p.phases[k].1.items))
  {
  }

  // ---------------------------------------------------------------- what the table becomes

  /** newColumn(), then name() = name, then pushBack of each cell in turn. */
  function AddColumn(s: TableState, name: string, vs: seq<Value>): (t: TableState)
    requires Shaped(s)
    ensures Shaped(t)
  {
    var c := |s.columns|;
    var s1 := ColumnStep(s, c);
    PushAll(Rename(s1, c, name), c, vs)
  }

  /** One AddColumn per entry, in order. */
  function AddColumns(s: TableState, cols: seq<(string, seq<Value>)>): (t: TableState)
    requires Shaped(s)
    ensures Shaped(t)
    decreases |cols|
  {
    if |cols| == 0 then s else AddColumns(AddColumn(s, cols[0].0, cols[0].1), cols[1..])
  }

  /** The column records the entries become: the name, and as many rows as cells. */
  function Records(cols: seq<(string, seq<Value>)>): (cs: seq<Column>)
  {
    seq(|cols|, k requires 0 <= k < |cols| => Column(cols[k].0, |cols[k].1|))
  }

  /** A cell right of every column of a shaped table has never been stored: it reads as the default. */
  lemma BeyondColumns(s: TableState, i: nat, j: nat)
    requires Shaped(s) && j >= |s.columns|
    ensures Cell(s, i, j) == DefaultValue
  {
  }

  /** Renaming a column to the name it has changes nothing. */
  lemma RenameSame(s: TableState, c: nat)
    requires Shaped(s) && c < |s.columns|
    ensures Rename(s, c, s.columns[c].name) == s
  {
    assert Rename(s, c, s.columns[c].name).columns == s.columns;
  }

  /** AddColumn appends one record, named, counting every cell. */
  lemma AddColumnColumns(s: TableState, name: string, vs: seq<Value>)
    requires Shaped(s)
    ensures AddColumn(s, name, vs).columns == s.columns + [Column(name, |vs|)]
  {
    var c := |s.columns|;
    var s1 := ColumnStep(s, c);
    var s2 := Rename(s1, c, name);
    PushAllColumns(s2, c, vs);
    assert AddColumn(s, name, vs).columns == s.columns + [Column(name, |vs|)] by {
      assert s1.columns[..c] == s.columns;
      assert s2.columns[c] == Column(name, 0);
    }
  }

  /** AddColumn fills the new column from the top with the cells and changes no other cell. */
  lemma AddColumnCell(s: TableState, name: string, vs: seq<Value>, i: nat, j: nat)
    requires Shaped(s)
    ensures Cell(AddColumn(s, name, vs), i, j) == if j == |s.columns| && i < |vs| then vs[i] else Cell(s, i, j)
  {
    var c := |s.columns|;
    var s1 := ColumnStep(s, c);
    var s2 := Rename(s1, c, name);
    assert s2.columns[c].rows == 0;
    PushAllCell(s2, c, vs, i, j);
    assert Cell(s2, i, j) == Cell(s, i, j);
  }

  /** The columns of all the entries are appended in order. */
  lemma {:induction false} AddColumnsColumns(s: TableState, cols: seq<(string, seq<Value>)>)
    requires Shaped(s)
    ensures AddColumns(s, cols).columns == s.columns + Records(cols)
    decreases |cols|
  {
    if |cols| > 0 {
      var s1 := AddColumn(s, cols[0].0, cols[0].1);
      AddColumnColumns(s, cols[0].0, cols[0].1);
      AddColumnsColumns(s1, cols[1..]);
      assert Records(cols) == [Column(cols[0].0, |cols[0].1|)] + Records(cols[1..]);
    }
  }

  /**
   * Entry k's cells go to column |s.columns| + k, from the top; every other cell, the old
   * columns' included, reads as before.
   */
  lemma {:induction false} AddColumnsCell(s: TableState, cols: seq<(string, seq<Value>)>, i: nat, j: nat)
    requires Shaped(s)
    ensures Cell(AddColumns(s, cols), i, j) ==
      if |s.columns| <= j < |s.columns| + |cols| && i < |cols[j - |s.columns|].1| then cols[j - |s.columns|].1[i]
      else Cell(s, i, j)
    decreases |cols|
  {
    if |cols| > 0 {
      var s1 := AddColumn(s, cols[0].0, cols[0].1);
      AddColumnColumns(s, cols[0].0, cols[0].1);
      AddColumnsCell(s1, cols[1..], i, j);
      AddColumnCell(s, cols[0].0, cols[0].1, i, j);
    }
  }

  /** Appending in two batches is appending the two lists. */
  lemma {:induction false} AddColumnsAppend(s: TableState, a: seq<(string, seq<Value>)>, b: seq<(string, seq<Value>)>)
    requires Shaped(s)
    ensures AddColumns(s, a + b) == AddColumns(AddColumns(s, a), b)
    decreases |a|
  {
    if |a| == 0 {
      assert a + b == b;
    } else {
      assert (a + b)[0] == a[0];
      assert (a + b)[1..] == a[1..] + b;
      AddColumnsAppend(AddColumn(s, a[0].0, a[0].1), a[1..], b);
    }
  }

  /** The table toTable leaves: the phase's columns appended to what the table held. */
  function TableOf(p: PhaseState, s: TableState): TableState
    requires Shaped(s) && TimesDefined(p)
  {
    AddColumns(s, ColumnsOf(p))
  }

  /**
   * The table toTable leaves (AddColumns of ColumnsOf): the old columns and cells stay, the new
   * columns follow with their names and row counts, and column |s.columns| + k holds exactly
   * the cells of entry k from the top, and default cells below them.
   */
  lemma AddColumnsLayout(s: TableState, cols: seq<(string, seq<Value>)>)
    requires Shaped(s)
    ensures AddColumns(s, cols).columns == s.columns + Records(cols)
    ensures forall i: nat, k: nat :: k < |cols| ==>
      Cell(AddColumns(s, cols), i, |s.columns| + k) == if i < |cols[k].1| then cols[k].1[i] else DefaultValue
  {
    AddColumnsColumns(s, cols);
    forall i: nat, k: nat | k < |cols|
      ensures Cell(AddColumns(s, cols), i, |s.columns| + k) == if i < |cols[k].1| then cols[k].1[i] else DefaultValue
    {
      NewColumnCell(s, cols, i, k);
    }
  }

  lemma NewColumnCell(s: TableState, cols: seq<(string, seq<Value>)>, i: nat, k: nat)
    requires Shaped(s) && k < |cols|
    ensures Cell(AddColumns(s, cols), i, |s.columns| + k) == if i < |cols[k].1| then cols[k].1[i] else DefaultValue
  {
    AddColumnsCell(s, cols, i, |s.columns| + k);
    CellOfColumn(AddColumns(s, cols), s, cols, i, k);
  }

  /** The cell AddColumnsCell describes in a column beyond the old ones. */
  lemma CellOfColumn(t: TableState, s: TableState, cols: seq<(string, seq<Value>)>, i: nat, k: nat)
    requires Shaped(s) && k < |cols|
    requires Cell(t, i, |s.columns| + k) ==
      if |s.columns| <= |s.columns| + k < |s.columns| + |cols| && i < |cols[|s.columns| + k - |s.columns|].1|
      then cols[|s.columns| + k - |s.columns|].1[i]
      else Cell(s, i, |s.columns| + k)
    ensures Cell(t, i, |s.columns| + k) == if i < |cols[k].1| then cols[k].1[i] else DefaultValue
  {
    BeyondColumns(s, i, |s.columns| + k);
  }

  // ---------------------------------------------------------------- the pushes

  /** One step of a push loop: the pushes still to come after pushing vs[k]. */
  lemma PushAllFrom(t: TableState, c: nat, vs: seq<Value>, k: nat)
    requires Shaped(t) && c < |t.columns| && k < |vs|
    ensures PushAll(t, c, vs[k..]) == PushAll(ColumnPushBack(t, c, vs[k]), c, vs[k + 1..])
  {
    assert vs[k..][0] == vs[k];
    assert vs[k..][1..] == vs[k + 1..];
  }

  /** One step of a column loop: the columns still to come after adding entry i. */
  lemma AddColumnsFrom(t: TableState, cols: seq<(string, seq<Value>)>, i: nat)
    requires Shaped(t) && i < |cols|
    ensures AddColumns(t, cols[i..]) == AddColumns(AddColumn(t, cols[i].0, cols[i].1), cols[i + 1..])
  {
    assert cols[i..][0] == cols[i];
    assert cols[i..][1..] == cols[i + 1..];
  }

  /** One step of the inner subphase loop: run k adds its time in front of the later runs' times, or nothing. */
  lemma TimesFrom(qs: seq<PhaseState>, k: nat)
    requires TimesReadable(qs) && k < |qs|
    ensures TimesReadable(qs[k..]) && TimesReadable(qs[k + 1..])
    ensures |qs[k].iterations| == 1 ==>
      (|ValuesOf(qs[k], "time")| >= 1 && Times(qs[k..]) == [ValuesOf(qs[k], "time")[0]] + Times(qs[k + 1..]))
    ensures |qs[k].iterations| != 1 ==> Times(qs[k..]) == Times(qs[k + 1..])
  {
    assert qs[k] in qs;
    assert qs[k..][0] == qs[k];
    assert qs[k..][1..] == qs[k + 1..];
  }

  /** Pushing v and then vs is pushing [v] + vs. */
  lemma PushAllCons(t: TableState, c: nat, v: Value, vs: seq<Value>)
    requires Shaped(t) && c < |t.columns|
    ensures PushAll(t, c, [v] + vs) == PushAll(ColumnPushBack(t, c, v), c, vs)
  {
    assert ([v] + vs)[1..] == vs;
  }

  /** BOOST_FOREACH over vs with ColumnProxy::pushBack. */
  method PushColumn(table: Table, c: nat, vs: seq<Value>)
    requires table.Valid() && c < |table.columns|
    modifies table
    ensures table.Valid() && table.State() == PushAll(old(table.State()), c, vs)
  {
    var k := 0;
    while k < |vs|
      invariant 0 <= k <= |vs| && table.Valid() && c < |table.columns|
      invariant PushAll(table.State(), c, vs[k..]) == PushAll(old(table.State()), c, vs)
    {
      PushAllFrom(table.State(), c, vs, k);
      table.PushBackColumn(c, vs[k]);
      k := k + 1;
    }
  }

  /** The inner loop over one subphase name: pushBack of the time of each run with one iteration. */
  method PushTimes(table: Table, c: nat, qs: seq<PhaseState>)
    requires table.Valid() && c < |table.columns| && TimesReadable(qs)
    modifies table
    ensures table.Valid() && table.State() == PushAll(old(table.State()), c, Times(qs))
  {
    var k := 0;
    while k < |qs|
      invariant 0 <= k <= |qs| && table.Valid() && c < |table.columns|
      invariant TimesReadable(qs[k..])
      invariant PushAll(table.State(), c, Times(qs[k..])) == PushAll(old(table.State()), c, Times(qs))
    {
      TimesFrom(qs, k);
      if |qs[k].iterations| == 1 {
        var v := ValuesOf(qs[k], "time")[0];
        PushAllCons(table.State(), c, v, Times(qs[k + 1..]));
        table.PushBackColumn(c, v);
      }
      k := k + 1;
    }
  }

  /** The loop of iterationsToTable: pushBack of each label's value, with no unit. */
  method PushLabels(table: Table, c: nat, its: seq<Attribute>)
    requires table.Valid() && c < |table.columns|
    modifies table
    ensures table.Valid() && table.State() == PushAll(old(table.State()), c, Labels(its))
  {
    ghost var labels := Labels(its);
    var k := 0;
    while k < |its|
      invariant 0 <= k <= |its| && table.Valid() && c < |table.columns|
      invariant PushAll(table.State(), c, labels[k..]) == PushAll(old(table.State()), c, labels)
    {
      PushAllFrom(table.State(), c, labels, k);
      table.PushBackColumn(c, Value(its[k], ""));
      k := k + 1;
    }
  }

  /** iterationsToTable: nothing unless the phase is a loop, else a new column with every label. */
  method IterationsToTable(p: PhaseState, table: Table)
    requires table.Valid()
    modifies table
    ensures table.Valid() && table.State() == AddColumns(old(table.State()), LabelColumns(p))
  {
    if |p.iterations| < 1 {
      return;
    }
    if |p.iterations| == 1 && Equal(p.iterations[0], Str("")) {
      assert p.iterations == [Str("")];
      return;
    }
    ghost var s := table.State();
    var c := table.NewColumn();
    assert table.State() == Rename(ColumnStep(s, c), c, "") by {
      RenameSame(ColumnStep(s, c), c);
    }
    PushLabels(table, c, p.iterations);
  }

  /** The loop over _values: per name a new column named after it, with its values pushed. */
  method ValuesToTable(es: seq<(string, seq<Value>)>, table: Table)
    requires table.Valid()
    modifies table
    ensures table.Valid() && table.State() == AddColumns(old(table.State()), es)
  {
    var i := 0;
    while i < |es|
      invariant 0 <= i <= |es| && table.Valid()
      invariant AddColumns(table.State(), es[i..]) == AddColumns(old(table.State()), es)
    {
      AddColumnsFrom(table.State(), es, i);
      var c := table.NewColumn();
      table.SetColumnName(c, es[i].0);
      PushColumn(table, c, es[i].1);
      i := i + 1;
    }
    assert es[i..] == [];
  }

  /** The loop over _phases: per name a new column named after it, with the times of its runs pushed. */
  method PhasesToTable(es: seq<(string, PhaseList)>, table: Table)
    requires table.Valid() && forall e :: e in es ==> TimesReadable(e.1.items)
    modifies table
    ensures table.Valid() && table.State() == AddColumns(old(table.State()), PhaseColumns(es))
  {
    ghost var cols := PhaseColumns(es);
    var j := 0;
    while j < |es|
      invariant 0 <= j <= |es| && table.Valid()
      invariant AddColumns(table.State(), cols[j..]) == AddColumns(old(table.State()), cols)
    {
      AddColumnsFrom(table.State(), cols, j);
      assert es[j] in es;
      var c := table.NewColumn();
      table.SetColumnName(c, es[j].0);
      PushTimes(table, c, es[j].1.items);
      j := j + 1;
    }
    assert cols[j..] == [];
  }

  /**
   * toTable: the label column, then per value name a new column named after it with its values
   * pushed, then per subphase name a new column named after it with its runs' times pushed.
   */
  method ToTable(p: PhaseState, table: Table)
    requires table.Valid() && TimesDefined(p)
    modifies table
    ensures table.Valid() && table.State() == TableOf(p, old(table.State()))
  {
    ghost var s0 := table.State();
    IterationsToTable(p, table);
    ValuesToTable(p.values, table);
    PhasesToTable(p.phases, table);
    AddColumnsAppend(s0, LabelColumns(p), p.values);
    AddColumnsAppend(s0, LabelColumns(p) + p.values, PhaseColumns(p.phases));
  }
}
