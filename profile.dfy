/**
 * burning::Profile as an object: the root Phase and the stack of open Phase objects over it.
 * Each method acts on the innermost phase, or pushes or pops one, and is specified by the
 * function of the same name on ProfileState.
 */
module ProfileObjects {
  import opened Wrappers
  import opened Attributes
  import opened Values
  import opened Xml
  import opened Phases
  import opened Tables
  import opened PhaseObjects
  import P = Profiles
  import PP = ProfilePrint
  import PX = PhaseXml

  /** The states of the phases on a stack, bottom first. */
  function StatesOf(ps: seq<Phase>): (r: seq<PhaseState>)
    reads ps
    ensures |r| == |ps| && forall i :: 0 <= i < |ps| ==> r[i] == ps[i].State()
  {
    if |ps| == 0 then [] else [ps[0].State()] + StatesOf(ps[1..])
  }

  /**
   * beginPhase(name) and endPhase() on a new profile, then print: the root has one
   * iteration, its time, and one run of name, which has its time and no subphases. The
   * descent as written finds nothing to stop at below the root; the corrected one stops at
   * that run and prints it as the only table.
   */
  lemma SimplePhasePrint(name: string, t0: Timespec, t1: Timespec, t2: Timespec, t3: Timespec, m: TimeMeasure)
    ensures P.BeginPhase(P.Start(t0), name, t1).Done?
    ensures var s := P.EndPhase(P.BeginPhase(P.Start(t0), name, t1).value, m, t2);
      s.Done? && P.Wf(s.value) && var tree := P.Close(P.CloseRoot(s.value, t3));
      !PP.Descends(tree, false) && PP.Printable(tree, false) && |PP.Pages(tree, false)| == 1
  {
    P.SimplePhase(name, t0, t1, t2, t3, m);
    SimpleTreePrint(name, t0, t1, t2, t3, m);
  }

  /** The tree of one closed phase under a closed root: outside the loop as written, one table for the corrected one. */
  lemma SimpleTreePrint(name: string, t0: Timespec, t1: Timespec, t2: Timespec, t3: Timespec, m: TimeMeasure)
    ensures var tree := P.SimpleTree(name, t0, t1, t2, t3, m);
      !PP.Descends(tree, false) && PP.Printable(tree, false) && |PP.Pages(tree, false)| == 1
  {
    var tree := P.SimpleTree(name, t0, t1, t2, t3, m);
    assert PP.FirstChild(tree) == P.Timed(t1, t2, m);
    PP.LeafChainUndefined(tree);
  }

  class Profile {
    /** _rootPhase: the bottom of the stack. */
    var root: Phase
    /** _current, bottom first: the root and then the open loops and phases. */
    var current: seq<Phase>
    /** For each open phase above the root, the name it was added under in the phase below. */
    var names: seq<string>
    /** The states of the phases in current, bottom first. */
    ghost var stack: seq<PhaseState>

    /** The stack as a value. */
    ghost function State(): P.ProfileState
      reads this
    {
      P.ProfileState(stack, names)
    }

    /** The root is at the bottom, every open phase is on the stack once, and stack holds their states. */
    ghost predicate Synced()
      reads this, current
    {
      |current| >= 1 && current[0] == root && |stack| == |current| &&
      (forall i, j :: 0 <= i < j < |current| ==> current[i] != current[j]) &&
      (forall i {:trigger current[i]} :: 0 <= i < |current| ==> current[i].State() == stack[i])
    }

    /** The objects mirror a well-formed stack. */
    ghost predicate Valid()
      reads this, current
    {
      Synced() && P.Wf(State())
    }

    /** Profile(): a new root phase, alone on the stack, with its unnamed iteration opened at now. */
    constructor(now: Timespec)
      ensures Valid() && State() == P.Start(now)
    {
      var r := new Phase();
      var st := r.BeginIteration(Str(""), now);
      root := r;
      current := [r];
      names := [];
      stack := [r.State()];
    }

    /** The innermost open phase. */
    function Top(): Phase
      requires |current| >= 1
      reads this
    {
      current[|current| - 1]
    }

    /** addValue: Phase::addValue on the innermost phase. */
    method AddValue(name: string, v: Value) returns (st: Status)
      requires Valid()
      modifies this, Top()
      ensures Valid()
      ensures var r := P.AddValue(old(State()), name, v);
        if r.Done? then st == Ok && State() == r.value else st == Fatal(r.reason) && State() == old(State())
    {
      var top := Top();
      st := top.AddValue(name, v);
      Recorded(|current| - 1);
    }

    /** beginIteration: Phase::beginIteration on the innermost phase. */
    method BeginIteration(name: Attribute, now: Timespec) returns (st: Status)
      requires Valid()
      modifies this, Top()
      ensures Valid()
      ensures var r := P.BeginIteration(old(State()), name, now);
        if r.Done? then st == Ok && State() == r.value else st == Fatal(r.reason) && State() == old(State())
    {
      var top := Top();
      st := top.BeginIteration(name, now);
      Recorded(|current| - 1);
    }

    /** endIteration: Phase::endIteration on the innermost phase. */
    method EndIteration(m: TimeMeasure, now: Timespec) returns (st: Status)
      requires Valid()
      modifies this, Top()
      ensures Valid()
      ensures var r := P.EndIteration(old(State()), m, now);
        if r.Done? then st == Ok && State() == r.value else st == Fatal(r.reason) && State() == old(State())
      ensures current == old(current)
    {
      var top := Top();
      st := top.EndIteration(m, now);
      Recorded(|current| - 1);
    }

    /** The state of the phase at depth k, whatever it is now, recorded in stack; the other phases are as they were. */
    ghost method Recorded(k: nat)
      requires k < |current| == |stack| && current[0] == root
      requires forall i, j :: 0 <= i < j < |current| ==> current[i] != current[j]
      requires forall i {:trigger current[i]} :: 0 <= i < |current| && i != k ==> current[i].State() == stack[i]
      modifies this
      ensures current == old(current) && names == old(names) && root == old(root)
      ensures stack == old(stack)[k := current[k].State()] && Synced()
    {
      stack := stack[k := current[k].State()];
    }

    /**
     * beginLoop: a new Phase is added under name to the innermost one, by Phase::addPhase,
     * and pushed.
     */
    method BeginLoop(name: string) returns (st: Status)
      requires Valid()
      modifies this, Top()
      ensures Valid()
      ensures var r := P.BeginLoop(old(State()), name);
        if r.Done? then st == Ok && State() == r.value && fresh(Top()) else st == Fatal(r.reason) && State() == old(State())
    {
      ghost var s := State();
      var child := new Phase();
      var top := Top();
      assert top.State() == P.Top(s);
      st := top.AddPhase(name, child.State());
      ghost var added := Phases.AddPhase(P.Top(s), name, NewPhase);
      Recorded(|current| - 1);
      if st != Ok {
        assert stack == s.stack;
        return;
      }
      assert State() == P.SetTop(s, added.value);
      Push(child, name);
      P.BeginLoopPushes(s, name);
    }

    /** _current.push: the phase goes on top of the stack, under the name it was added with. */
    method Push(child: Phase, name: string)
      requires Synced() && forall i :: 0 <= i < |current| ==> current[i] != child
      modifies this
      ensures current == old(current) + [child] && names == old(names) + [name] && root == old(root)
      ensures stack == old(stack) + [child.State()] && Synced()
    {
      current, names := current + [child], names + [name];
      stack := stack + [child.State()];
    }

    /**
     * endLoop: refused while the innermost phase has an open iteration and when it is the
     * root; otherwise the phase below sees the innermost one's records, and the innermost is popped.
     */
    method EndLoop() returns (st: Status)
      requires Valid()
      modifies this, if |current| >= 2 then {current[|current| - 2]} else {}
      ensures Valid()
      ensures var r := P.EndLoop(old(State()));
        if r.Done? then st == Ok && State() == r.value else st == Fatal(r.reason) && State() == old(State())
    {
      var n := |current|;
      if !Top().Finished() {
        return Fatal(IterationEndMissing);
      }
      if n == 1 {
        return Fatal(PhaseBeginMissing);
      }
      ghost var s := State();
      var parent := current[n - 2];
      parent.SeeLastRun(names[n - 2], Top().State());
      Recorded(n - 2);
      Drop();
      P.PopDrops(s);
      st := Ok;
    }

    /** _current.pop(): the innermost phase leaves the stack, with its name. */
    method Drop()
      requires Synced() && |current| >= 2 && |names| == |current| - 1
      modifies this
      ensures current == old(current)[..|old(current)| - 1] && names == old(names)[..|old(names)| - 1]
      ensures root == old(root) && stack == old(stack)[..|old(stack)| - 1] && Synced()
    {
      current, names := current[..|current| - 1], names[..|names| - 1];
      stack := stack[..|stack| - 1];
    }

    /** beginPhase: beginLoop, then beginIteration("") on the new innermost phase. */
    method BeginPhase(name: string, now: Timespec) returns (st: Status)
      requires Valid()
      modifies this, Top()
      ensures Valid()
      ensures var r := P.BeginPhase(old(State()), name, now);
        if r.Done? then st == Ok && State() == r.value else st == Fatal(r.reason)
    {
      st := BeginLoop(name);
      if st != Ok {
        return;
      }
      st := BeginIteration(Str(""), now);
    }

    /** endPhase: endIteration on the innermost phase, then endLoop. */
    method EndPhase(m: TimeMeasure, now: Timespec) returns (st: Status)
      requires Valid()
      modifies this, Top(), if |current| >= 2 then {current[|current| - 2]} else {}
      ensures Valid()
      ensures var r := P.EndPhase(old(State()), m, now);
        if r.Done? then st == Ok && State() == r.value else st == Fatal(r.reason)
    {
      st := EndIteration(m, now);
      if st != Ok {
        return;
      }
      st := EndLoop();
    }

    /** The root's open iteration, if any, closed in milliseconds, as toXml and print do. */
    method CloseRoot(now: Timespec) returns (tree: PhaseState)
      requires Valid()
      modifies this, root
      ensures Valid() && State() == P.CloseRoot(old(State()), now)
      ensures tree == P.Close(State())
    {
      if !root.Finished() {
        var st := root.EndIteration(Milliseconds, now);
        Recorded(0);
      }
      var states := StatesOf(current);
      assert states == stack;
      tree := P.Close(P.ProfileState(states, names));
    }

    /**
     * toXml: refused while loops or phases are open; otherwise the root, its iteration
     * closed, written as a phase and renamed "profile".
     */
    method ToXml(now: Timespec) returns (r: Result<Node>)
      requires Valid()
      modifies this, root
      ensures Valid()
      ensures r == P.ToXml(old(State()), now)
      ensures State() == if |current| > 1 then old(State()) else P.CloseRoot(old(State()), now)
    {
      if |current| > 1 {
        return Abort(IncompleteProfile);
      }
      var tree := CloseRoot(now);
      match PX.ToXml(root.State()) {
        case Abort(why) => r := Abort(why);
        case Done(n) => r := Done(n.(name := "profile"));
      }
    }

    /**
     * print (html false) and printHtml (html true): the root's open iteration is closed, then
     * the tables of the whole tree, open phases included, are written one after the other.
     */
    method Print(html: bool, now: Timespec) returns (text: string)
      requires Valid() && PP.Printable(P.Close(P.CloseRoot(State(), now)), false)
      modifies this, root
      ensures Valid() && State() == P.CloseRoot(old(State()), now)
      ensures text == PP.TablesText(html, PP.Pages(P.Close(State()), false))
    {
      var tree := CloseRoot(now);
      text := PP.PrintText(tree, html);
    }


  }
}
