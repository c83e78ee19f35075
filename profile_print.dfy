/**
 * Profile::preparePrint, Profile::print and Profile::printHtml: the walk down chains of first
 * subphases that picks the node each table is made from, and the tables printed one after the
 * other.
 */
module ProfilePrint {
  import opened Strings
  import opened Values
  import opened Phases
  import opened Tables
  import opened PhaseTables

  // ---------------------------------------------------------------- the descent

  /** phases().begin()->second[0] exists: a first subphase name with at least one run. */
  predicate HasChild(q: PhaseState)
  {
    |q.phases| >= 1 && |q.phases[0].1.items| >= 1
  }

  /** The first run of the first subphase name: where one hop of preparePrint goes. */
  function FirstChild(q: PhaseState): PhaseState
    requires HasChild(q)
  {
    q.phases[0].1.items[0]
  }

  /** How many hops preparePrint can make below q before it runs out of first subphases. */
  function ChainLength(q: PhaseState): nat
    decreases q
  {
    if HasChild(q) then
      var e := q.phases[0];
      assert e in q.phases;
      assert e.1.items[0] in e.1.items;
      1 + ChainLength(e.1.items[0])
    else 0
  }

  /** The node d hops below q. */
  function Below(q: PhaseState, d: nat): (r: PhaseState)
    requires d <= ChainLength(q)
    ensures ChainLength(r) == ChainLength(q) - d
    decreases d
  {
    if d == 0 then q else Below(FirstChild(q), d - 1)
  }

  /** The test preparePrint makes while printed is unset: more than one iteration, value name or subphase name. */
  predicate Stops(q: PhaseState)
  {
    |q.iterations| > 1 || |q.values| > 1 || |q.phases| > 1
  }

  /**
   * The loop as written reaches a node where it stops before it would follow the first
   * subphase of a node that has none (which would dereference the end of the map: undefined
   * behaviour).
   */
  predicate Descends(q: PhaseState, printed: bool)
    decreases ChainLength(q)
  {
    if !printed && Stops(q) then true else HasChild(q) && Descends(FirstChild(q), false)
  }

  /**
   * The for(;;) of preparePrint from q as written: the node it stops at, the name remembered
   * from the last hop (rootName when there was none), and whether it stopped on the iteration
   * count. The printed flag skips the test once, so a set flag always makes at least one hop.
   */
  function Descend(q: PhaseState, printed: bool, rootName: string): (r: (PhaseState, string, bool))
    requires Descends(q, printed)
    ensures Stops(r.0) && (r.2 <==> |r.0.iterations| > 1)
    ensures ChainLength(r.0) + (if printed then 1 else 0) <= ChainLength(q)
    ensures var d := ChainLength(q) - ChainLength(r.0);
      (d == 0 ==> r.0 == q && r.1 == rootName) &&
      (d > 0 ==> HasChild(Below(q, d - 1)) && r.0 == FirstChild(Below(q, d - 1)) && r.1 == Below(q, d - 1).phases[0].0)
    decreases ChainLength(q)
  {
    if !printed && |q.iterations| > 1 then (q, rootName, true)
    else if !printed && (|q.values| > 1 || |q.phases| > 1) then (q, rootName, false)
    else Descend(FirstChild(q), false, q.phases[0].0)
  }

  /**
   * A chain that ends in a leaf none of the tests stops at, such as a phase with one
   * iteration, one value name and one subphase whose only run has no subphases of its own,
   * is outside the loop as written, and the corrected loop stops at that leaf.
   */
  lemma LeafChainUndefined(q: PhaseState)
    requires !Stops(q) && HasChild(q)
    requires !Stops(FirstChild(q)) && |FirstChild(q).phases| == 0
    ensures !Descends(q, false)
    ensures Reaches(q, false) && Reach(q, false, "") == (FirstChild(q), q.phases[0].0, false)
    ensures Printable(q, false) && |Pages(q, false)| == 1
  {
    assert !Descends(FirstChild(q), false);
    assert Reach(FirstChild(q), false, q.phases[0].0) == (FirstChild(q), q.phases[0].0, false);
  }

  /**
   * The descent loop of preparePrint can follow the first subphase: wherever it would hop,
   * the node has a first subphase name with a run.
   */
  predicate Reaches(q: PhaseState, printed: bool)
    decreases ChainLength(q)
  {
    if (!printed && Stops(q)) || |q.phases| == 0 then true else HasChild(q) && Reaches(FirstChild(q), false)
  }

  /**
   * The descent loop as evidently intended: the same tests, and a node with no subphases ends
   * the descent instead of being looked through for a first subphase it does not have. The
   * node it stops at either has no subphases or is one the tests stopped at.
   */
  function Reach(q: PhaseState, printed: bool, rootName: string): (r: (PhaseState, string, bool))
    requires Reaches(q, printed)
    ensures |r.0.phases| == 0 || (Stops(r.0) && (r.2 <==> |r.0.iterations| > 1))
    ensures r.2 ==> |r.0.iterations| > 1
    ensures ChainLength(r.0) + (if printed && |r.0.phases| > 0 then 1 else 0) <= ChainLength(q)
    ensures var d := ChainLength(q) - ChainLength(r.0);
      (d == 0 ==> r.0 == q && r.1 == rootName) &&
      (d > 0 ==> HasChild(Below(q, d - 1)) && r.0 == FirstChild(Below(q, d - 1)) && r.1 == Below(q, d - 1).phases[0].0)
    decreases ChainLength(q)
  {
    if !printed && |q.iterations| > 1 then (q, rootName, true)
    else if !printed && (|q.values| > 1 || |q.phases| > 1) then (q, rootName, false)
    else if |q.phases| == 0 then (q, rootName, false)
    else Reach(FirstChild(q), false, q.phases[0].0)
  }

  /** Wherever the loop as written is defined, the corrected loop stops at the same node with the same answer. */
  lemma {:induction false} ReachExtendsDescend(q: PhaseState, printed: bool, rootName: string)
    requires Descends(q, printed)
    ensures Reaches(q, printed) && Reach(q, printed, rootName) == Descend(q, printed, rootName)
    decreases ChainLength(q)
  {
    if printed || !Stops(q) {
      ReachExtendsDescend(FirstChild(q), false, q.phases[0].0);
    }
  }

  // ---------------------------------------------------------------- one table

  /** preparePrint is defined from q: the descent stops, and toTable can read the times it shows. */
  predicate Preparable(q: PhaseState, printed: bool)
  {
    Reaches(q, printed) && TimesDefined(Reach(q, printed, "").0)
  }

  /**
   * preparePrint on table s: whether this is the last table, the node the next call starts
   * from, and the table: the reached node's toTable, with column 0 renamed after the last hop
   * when that node is a loop. It is the last table exactly when the node has no subphases or
   * the descent stopped on several iterations.
   */
  function Prepare(q: PhaseState, printed: bool, s: TableState): (r: (bool, PhaseState, TableState))
    requires Shaped(s) && Preparable(q, printed)
    ensures r.1 == Reach(q, printed, "").0 && Shaped(r.2)
    ensures r.0 <==> |r.1.phases| == 0 || |r.1.iterations| > 1
  {
    var d := Reach(q, printed, "");
    var t := TableOf(d.0, s);
    var t1 := if IsLoop(d.0) then Rename(ColumnStep(t, 0), 0, d.1) else t;
    (|d.0.phases| == 0 || d.2, d.0, t1)
  }

  /**
   * On a fresh table a loop's label column is column 0, and preparePrint names it after the
   * subphase the descent last entered.
   */
  lemma PrepareNamesLabels(q: PhaseState, printed: bool)
    requires Preparable(q, printed) && IsLoop(Reach(q, printed, "").0)
    ensures var d := Reach(q, printed, "");
      Prepare(q, printed, Empty).2.columns[0] == Column(d.1, |d.0.iterations|)
  {
    var d := Reach(q, printed, "");
    var t := TableOf(d.0, Empty);
    AddColumnsColumns(Empty, ColumnsOf(d.0));
    assert t.columns[0] == Column("", |d.0.iterations|);
    assert ColumnStep(t, 0) == t;
  }

  // ---------------------------------------------------------------- the tables printed

  /** Every call of print's loop is defined, up to the one that reports the last table. */
  predicate Printable(q: PhaseState, printed: bool)
    decreases ChainLength(q) + (if printed then 0 else 1)
  {
    Preparable(q, printed) &&
    var r := Prepare(q, printed, Empty);
    r.0 || Printable(r.1, true)
  }

  /**
   * The tables print makes from q, one per preparePrint call on a fresh table. Every call
   * after the first goes at least one level down, so there are at most as many tables as
   * hops available, plus one for the first.
   */
  function Pages(q: PhaseState, printed: bool): (ps: seq<TableState>)
    requires Printable(q, printed)
    ensures 1 <= |ps| <= ChainLength(q) + (if printed && |q.phases| > 0 then 0 else 1)
    ensures forall i :: 0 <= i < |ps| ==> Shaped(ps[i])
    decreases ChainLength(q) + (if printed then 0 else 1)
  {
    var r := Prepare(q, printed, Empty);
    [r.2] + (if r.0 then [] else Pages(r.1, true))
  }

  /** The output of print: the tables in order, each followed by a newline except the last. */
  function TablesText(html: bool, ps: seq<TableState>): string
    requires forall i :: 0 <= i < |ps| ==> Shaped(ps[i])
  {
    if |ps| == 0 then ""
    else Printed(html, ps[0]) + (if |ps| == 1 then "" else "\n" + TablesText(html, ps[1..]))
  }

  /** Printing one more table in front: the table, a newline, then the others. */
  lemma TablesTextCons(html: bool, t: TableState, rest: seq<TableState>)
    requires Shaped(t) && |rest| >= 1 && forall i :: 0 <= i < |rest| ==> Shaped(rest[i])
    ensures TablesText(html, [t] + rest) == Printed(html, t) + ("\n" + TablesText(html, rest))
  {
    assert ([t] + rest)[1..] == rest;
  }

  lemma Regroup(a: string, b: string, c: string, d: string)
    ensures a + (b + (c + d)) == a + b + c + d
  {
  }

  /** A call of print's loop that is not the last: its table, a newline, then the rest. */
  lemma PrintStep(before: string, html: bool, q: PhaseState, printed: bool)
    requires Printable(q, printed) && !Prepare(q, printed, Empty).0
    ensures Printable(Prepare(q, printed, Empty).1, true)
    ensures var r := Prepare(q, printed, Empty);
      before + TablesText(html, Pages(q, printed)) == before + Printed(html, r.2) + "\n" + TablesText(html, Pages(r.1, true))
  {
    var r := Prepare(q, printed, Empty);
    var rest := Pages(r.1, true);
    assert Pages(q, printed) == [r.2] + rest;
    TablesTextCons(html, r.2, rest);
    Regroup(before, Printed(html, r.2), "\n", TablesText(html, rest));
  }

  /** The last call of print's loop: its table is all that is left to print. */
  lemma PrintLast(before: string, html: bool, q: PhaseState, printed: bool)
    requires Printable(q, printed) && Prepare(q, printed, Empty).0
    ensures before + TablesText(html, Pages(q, printed)) == before + Printed(html, Prepare(q, printed, Empty).2)
  {
    assert Pages(q, printed) == [Prepare(q, printed, Empty).2];
  }

  // ---------------------------------------------------------------- the loops

  /**
   * preparePrint: the descent loop, stopping at a node with no subphases, then toTable on the
   * node reached, the renaming, the answer.
   */
  method PreparePrint(table: Table, q: PhaseState, printed0: bool) returns (isLast: bool, loopRoot: PhaseState)
    requires table.Valid() && Preparable(q, printed0)
    modifies table
    ensures table.Valid() && (isLast, loopRoot, table.State()) == Prepare(q, printed0, old(table.State()))
  {
    var rootName := "";
    var printed := printed0;
    isLast := false;
    loopRoot := q;
    while true
      invariant Reaches(loopRoot, printed) && !isLast
      invariant Reach(loopRoot, printed, rootName) == Reach(q, printed0, "")
      decreases ChainLength(loopRoot)
    {
      if printed {
        printed := false;
      } else {
        if |loopRoot.iterations| > 1 {
          isLast := true;
          break;
        }
        if |loopRoot.values| > 1 {
          break;
        }
        if |loopRoot.phases| > 1 {
          break;
        }
      }
      if |loopRoot.phases| == 0 {
        break;
      }
      rootName := loopRoot.phases[0].0;
      loopRoot := loopRoot.phases[0].1.items[0];
    }
    ToTable(loopRoot, table);
    if IsLoop(loopRoot) {
      table.ColumnAt(0);
      table.SetColumnName(0, rootName);
    }
    if |loopRoot.phases| == 0 {
      isLast := true;
    }
  }

  /** One pass of print's loop: a fresh table, preparePrint on it, the table printed as text or as HTML. */
  method PrintPage(q: PhaseState, printed: bool, html: bool, out: Stream) returns (isLast: bool, next: PhaseState)
    requires Printable(q, printed)
    modifies out
    ensures var r := Prepare(q, printed, Empty);
      isLast == r.0 && next == r.1 && out.text == old(out.text) + Printed(html, r.2)
  {
    var table := new Table();
    isLast, next := PreparePrint(table, q, printed);
    if html {
      table.PrintHtml(out);
    } else {
      table.Print(out);
    }
  }

  /**
   * The loop of print and printHtml: prepare a fresh table, print it, stop after the last one,
   * else write a newline and go on with the printed flag set.
   */
  method PrintTables(root: PhaseState, html: bool, out: Stream)
    requires Printable(root, false)
    modifies out
    ensures out.text == old(out.text) + TablesText(html, Pages(root, false))
  {
    var loopRoot := root;
    var printed := false;
    while true
      invariant Printable(loopRoot, printed)
      invariant out.text + TablesText(html, Pages(loopRoot, printed)) == old(out.text) + TablesText(html, Pages(root, false))
      decreases ChainLength(loopRoot) + (if printed then 0 else 1)
    {
      ghost var q := loopRoot;
      ghost var before := out.text;
      var isLast;
      isLast, loopRoot := PrintPage(loopRoot, printed, html, out);
      if isLast {
        PrintLast(before, html, q, printed);
        break;
      }
      PrintStep(before, html, q, printed);
      out.Write("\n");
      printed := true;
    }
  }

  /** The loop of print and printHtml run on a stream of its own: the text it receives. */
  method PrintText(root: PhaseState, html: bool) returns (text: string)
    requires Printable(root, false)
    ensures text == TablesText(html, Pages(root, false))
  {
    var out := new Stream();
    PrintTables(root, html, out);
    text := out.text;
  }
}
