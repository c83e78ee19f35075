/**
 * Reading back what Phase::toXml writes: for a phase whose lists are all complete, fromXml
 * of its element gives the same record back, with no iteration open.
 */
module PhaseRoundTrip {
  import opened Wrappers
  import opened Strings
  import opened OrderedMaps
  import opened Attributes
  import AP = AttributeProxies
  import opened Values
  import opened Xml
  import opened Phases
  import opened PhaseXml

  // ---------------------------------------------------------------- the phases that come back whole

  /**
   * Every iteration has one entry under every value name and every subphase name, "time" is
   * among the value names, and the subphases are such phases too.
   */
  predicate Restorable(p: PhaseState)
  {
    Ordered(p.values) && Ordered(p.phases) && |p.iterations| >= 1 && Contains(p.values, "time") &&
    (forall e :: e in p.values ==> |e.1| == |p.iterations|) &&
    (forall e :: e in p.phases ==> |e.1.items| == |p.iterations|) &&
    (forall e, q :: e in p.phases && q in e.1.items ==> Restorable(q))
  }

  /** The subphase of name index j recorded in iteration i. */
  lemma SubRestorable(p: PhaseState, j: nat, i: nat)
    requires Restorable(p) && j < |p.phases| && i < |p.iterations|
    ensures i < |p.phases[j].1.items| && Restorable(p.phases[j].1.items[i])
  {
    assert p.phases[j] in p.phases;
    assert p.phases[j].1.items[i] in p.phases[j].1.items;
  }

  /** What a phase reads back as: the same record, no open iteration, and the clock at zero. */
  function Stripped(p: PhaseState): PhaseState
    decreases p, 2
  {
    PhaseState(p.iterations, p.values, StripRuns(p, 0), false, Timespec(0, 0))
  }

  function StripRuns(p: PhaseState, j: nat): (r: seq<(string, PhaseList)>)
    ensures |r| == |p.phases| - j || (j > |p.phases| && r == [])
    decreases p, 1, |p.phases| - j
  {
    if j >= |p.phases| then [] else [(p.phases[j].0, PhaseList(StripAt(p, j)))] + StripRuns(p, j + 1)
  }

  function StripAt(p: PhaseState, j: nat): seq<PhaseState>
    requires j < |p.phases|
    decreases p, 0
  {
    var e := p.phases[j];
    assert e in p.phases;
    seq(|e.1.items|, m requires 0 <= m < |e.1.items| => assert e.1.items[m] in e.1.items; Stripped(e.1.items[m]))
  }

  function StripList(qs: seq<PhaseState>): seq<PhaseState>
  {
    seq(|qs|, m requires 0 <= m < |qs| => Stripped(qs[m]))
  }

  lemma {:induction false} LookupStripRuns(p: PhaseState, j: nat, k: string)
    requires j <= |p.phases|
    ensures Lookup(StripRuns(p, j), k) ==
      if Contains(p.phases[j..], k) then Some(PhaseList(StripList(GetOr(p.phases[j..], k, PhaseList([])).items))) else None
    decreases |p.phases| - j
  {
    if j < |p.phases| {
      LookupStripRuns(p, j + 1, k);
      assert p.phases[j..][0] == p.phases[j] && p.phases[j..][1..] == p.phases[j + 1..];
      assert StripAt(p, j) == StripList(p.phases[j].1.items);
    }
  }

  lemma {:induction false} StripRunsKeys(p: PhaseState, j: nat, m: nat)
    requires j + m < |p.phases|
    ensures StripRuns(p, j)[m].0 == p.phases[j + m].0
    decreases m
  {
    if m > 0 {
      StripRunsKeys(p, j + 1, m - 1);
    }
  }

  lemma StripRunsOrdered(p: PhaseState)
    requires Ordered(p.phases)
    ensures Ordered(StripRuns(p, 0))
  {
    forall a, b | 0 <= a < b < |StripRuns(p, 0)|
      ensures Less(StripRuns(p, 0)[a].0, StripRuns(p, 0)[b].0)
    {
      StripRunsKeys(p, 0, a);
      StripRunsKeys(p, 0, b);
    }
  }

  // ---------------------------------------------------------------- the elements toXml writes

  /** Children added one after another with childs() +=. */
  function AddAll(acc: Node, cs: seq<Node>): (r: Node)
    ensures r.name == acc.name && r.attributes == acc.attributes
    decreases |cs|
  {
    if |cs| == 0 then acc else AddAll(AddChild(acc, cs[0]), cs[1..])
  }

  lemma {:induction false} AddAllShape(acc: Node, cs: seq<Node>, t: string)
    requires SortedByName(acc.children)
    ensures SortedByName(AddAll(acc, cs).children)
    ensures Named(AddAll(acc, cs).children, t) == Named(acc.children, t) + Named(cs, t)
    ensures multiset(AddAll(acc, cs).children) == multiset(acc.children) + multiset(cs)
  {
    AddAllSorted(acc, cs);
    AddAllNamed(acc, cs, t);
    AddAllMultiset(acc, cs);
  }

  lemma {:induction false} AddAllSorted(acc: Node, cs: seq<Node>)
    requires SortedByName(acc.children)
    ensures SortedByName(AddAll(acc, cs).children)
    decreases |cs|
  {
    if |cs| > 0 {
      InsertByNameSorted(acc.children, cs[0]);
      AddAllSorted(AddChild(acc, cs[0]), cs[1..]);
    }
  }

  lemma {:induction false} AddAllNamed(acc: Node, cs: seq<Node>, t: string)
    requires SortedByName(acc.children)
    ensures Named(AddAll(acc, cs).children, t) == Named(acc.children, t) + Named(cs, t)
    decreases |cs|
  {
    if |cs| > 0 {
      InsertByNameSorted(acc.children, cs[0]);
      NamedAfterInsert(acc.children, cs[0], t);
      AddAllNamed(AddChild(acc, cs[0]), cs[1..], t);
      var head: seq<Node> := if cs[0].name == t then [cs[0]] else [];
      Joined(Named(acc.children, t), head, Named(cs[1..], t));
      assert cs == [cs[0]] + cs[1..];
    }
  }

  lemma {:induction false} AddAllMultiset(acc: Node, cs: seq<Node>)
    ensures multiset(AddAll(acc, cs).children) == multiset(acc.children) + multiset(cs)
    decreases |cs|
  {
    if |cs| > 0 {
      AddAllMultiset(AddChild(acc, cs[0]), cs[1..]);
      assert cs == [cs[0]] + cs[1..];
    }
  }

  /** A list whose elements all carry the name is its own childs(name); one where none does has none. */
  lemma {:induction false} NamedWhole(cs: seq<Node>, t: string)
    requires forall c :: c in cs ==> c.name == t
    ensures Named(cs, t) == cs
    decreases |cs|
  {
    if |cs| > 0 {
      assert cs[0] in cs;
      NamedWhole(cs[1..], t);
      assert cs == [cs[0]] + cs[1..];
    }
  }

  lemma {:induction false} NamedNone(cs: seq<Node>, t: string)
    requires forall c :: c in cs ==> c.name != t
    ensures Named(cs, t) == []
    decreases |cs|
  {
    if |cs| > 0 {
      assert cs[0] in cs;
      NamedNone(cs[1..], t);
    }
  }

  /** The value elements of iteration i, in key order. */
  function ValueNodes(es: seq<(string, seq<Value>)>, i: nat): (vs: seq<Node>)
    ensures forall v :: v in vs ==> v.name == "value" && Contains(v.attributes, "value")
    decreases |es|
  {
    if |es| == 0 || |es[0].1| <= i then [] else [ValueNode(es[0].0, es[0].1[i])] + ValueNodes(es[1..], i)
  }

  /** The element of one subphase, named after its key. */
  function SubNode(key: string, sub: PhaseState): Node
  {
    if ToXml(sub).Done? then SetAttr(ToXml(sub).value, "name", Str(key)) else Create("phase")
  }

  /** The subphase elements of iteration i from name index j on. */
  function SubNodes(p: PhaseState, i: nat, j: nat): seq<Node>
    decreases |p.phases| - j
  {
    if j >= |p.phases| || |p.phases[j].1.items| <= i then [] else [SubNode(p.phases[j].0, p.phases[j].1.items[i])] + SubNodes(p, i, j + 1)
  }

  /** The "iteration" elements of a loop from iteration i on, each named with its label. */
  function IterNodes(p: PhaseState, i: nat): (r: seq<Node>)
    ensures forall c :: c in r ==> c.name == "iteration"
    decreases |p.iterations| - i
  {
    if i >= |p.iterations| then []
    else [SetAttr(IterNode(p, i), "name", p.iterations[i])] + IterNodes(p, i + 1)
  }

  /** The element of iteration i before its label is set. */
  function IterNode(p: PhaseState, i: nat): (n: Node)
    ensures n.name == "iteration" && n.attributes == []
  {
    AddAll(AddAll(Create("iteration"), ValueNodes(p.values, i)), SubNodes(p, i, 0))
  }

  lemma Complete(p: PhaseState, i: nat)
    requires Restorable(p) && i < |p.iterations|
    ensures forall m :: 0 <= m < |p.values| ==> i < |p.values[m].1|
    ensures forall m :: 0 <= m < |p.phases| ==> i < |p.phases[m].1.items|
  {
    forall m | 0 <= m < |p.values|
      ensures i < |p.values[m].1|
    {
      assert p.values[m] in p.values;
    }
    forall m | 0 <= m < |p.phases|
      ensures i < |p.phases[m].1.items|
    {
      assert p.phases[m] in p.phases;
    }
  }

  lemma {:induction false} ValuesXmlDone(es: seq<(string, seq<Value>)>, i: nat, acc: Node)
    requires forall m :: 0 <= m < |es| ==> i < |es[m].1|
    ensures ValuesXml(es, i, acc) == Done(AddAll(acc, ValueNodes(es, i)))
    decreases |es|
  {
    if |es| > 0 {
      ValuesXmlDone(es[1..], i, AddChild(acc, ValueNode(es[0].0, es[0].1[i])));
    }
  }

  /** toXml of a phase with complete lists succeeds, with a "phase" element exactly for a single iteration named "". */
  lemma {:induction false} ToXmlDone(p: PhaseState)
    requires Restorable(p)
    ensures ToXml(p).Done?
    ensures ToXml(p).value.name == if p.iterations == [Str("")] then "phase" else "loop"
    decreases p, 3
  {
    if |p.iterations| == 1 && Equal(p.iterations[0], Str("")) {
      IterationXmlDone(p, 0);
      assert p.iterations == [Str("")];
    } else {
      LoopXmlDone(p, 0, Create("loop"));
    }
  }

  /** A value list that has no entry for iteration i makes the value children of iteration i abort. */
  lemma {:induction false} ValuesXmlAborts(es: seq<(string, seq<Value>)>, i: nat, acc: Node, k: nat)
    requires k < |es| && |es[k].1| <= i
    ensures ValuesXml(es, i, acc) == Abort(ValueMissedInIteration)
    decreases |es|
  {
    if |es[0].1| > i {
      ValuesXmlAborts(es[1..], i, AddChild(acc, ValueNode(es[0].0, es[0].1[i])), k - 1);
    }
  }

  /** A run list from name index j on that has no run for iteration i makes the subphase children abort. */
  lemma {:induction false} PhasesXmlAborts(p: PhaseState, j: nat, i: nat, acc: Node, k: nat)
    requires j <= k < |p.phases| && |p.phases[k].1.items| <= i
    ensures PhasesXml(p, j, i, acc).Abort?
    decreases |p.phases| - j
  {
    if |p.phases[j].1.items| > i {
      var e := p.phases[j];
      match ToXml(e.1.items[i])
      case Abort(_) =>
      case Done(n) => PhasesXmlAborts(p, j + 1, i, AddChild(acc, SetAttr(n, "name", Str(e.0))), k);
    }
  }

  /** Iteration i is written with a fatal error when a value list or a run list has no entry for it. */
  lemma IterationXmlAborts(p: PhaseState, i: nat)
    requires (exists k :: 0 <= k < |p.values| && |p.values[k].1| <= i) ||
             (exists k :: 0 <= k < |p.phases| && |p.phases[k].1.items| <= i)
    ensures IterationXml(p, i).Abort?
  {
    if k :| 0 <= k < |p.values| && |p.values[k].1| <= i {
      ValuesXmlAborts(p.values, i, Create("iteration"), k);
    } else {
      var k :| 0 <= k < |p.phases| && |p.phases[k].1.items| <= i;
      match ValuesXml(p.values, i, Create("iteration"))
      case Abort(_) =>
      case Done(n) => PhasesXmlAborts(p, 0, i, n, k);
    }
  }

  /** One turn of the loop of toXml: write iteration i, or stop with its error. */
  lemma LoopXmlStep(p: PhaseState, i: nat, acc: Node)
    requires i < |p.iterations|
    ensures IterationXml(p, i).Abort? ==> LoopXml(p, i, acc) == Abort(IterationXml(p, i).reason)
    ensures IterationXml(p, i).Done? ==>
      LoopXml(p, i, acc) == LoopXml(p, i + 1, AddChild(acc, SetAttr(IterationXml(p, i).value, "name", p.iterations[i])))
  {
  }

  /** The loop of toXml aborts when an iteration it still has to write does. */
  lemma {:induction false} LoopXmlAborts(p: PhaseState, i: nat, acc: Node, k: nat)
    requires i <= k < |p.iterations| && IterationXml(p, k).Abort?
    ensures LoopXml(p, i, acc).Abort?
    decreases k - i
  {
    var r := IterationXml(p, i);
    LoopXmlStep(p, i, acc);
    if i < k && r.Done? {
      var acc' := AddChild(acc, SetAttr(r.value, "name", p.iterations[i]));
      LoopXmlAborts(p, i + 1, acc', k);
    }
  }

  /**
   * toXml of a phase with an iteration aborts when a value list or a run list is shorter
   * than the iteration count: the iteration it lacks cannot be written.
   */
  lemma ToXmlAborts(p: PhaseState)
    requires |p.iterations| >= 1
    requires (exists e :: e in p.values && |e.1| < |p.iterations|) ||
             (exists e :: e in p.phases && |e.1.items| < |p.iterations|)
    ensures ToXml(p).Abort?
  {
    var k: nat;
    if e :| e in p.values && |e.1| < |p.iterations| {
      k := |e.1|;
      var m :| 0 <= m < |p.values| && p.values[m] == e;
      IterationXmlAborts(p, k);
    } else {
      var e :| e in p.phases && |e.1.items| < |p.iterations|;
      k := |e.1.items|;
      var m :| 0 <= m < |p.phases| && p.phases[m] == e;
      IterationXmlAborts(p, k);
    }
    if !(|p.iterations| == 1 && Equal(p.iterations[0], Str(""))) {
      LoopXmlAborts(p, 0, Create("loop"), k);
    }
  }

  lemma {:induction false} IterationXmlDone(p: PhaseState, i: nat)
    requires Restorable(p) && i < |p.iterations|
    ensures IterationXml(p, i) == Done(IterNode(p, i))
    decreases p, 1
  {
    Complete(p, i);
    ValuesXmlDone(p.values, i, Create("iteration"));
    PhasesXmlDone(p, 0, i, AddAll(Create("iteration"), ValueNodes(p.values, i)));
  }

  lemma {:induction false} LoopXmlDone(p: PhaseState, i: nat, acc: Node)
    requires Restorable(p)
    ensures LoopXml(p, i, acc) == Done(AddAll(acc, IterNodes(p, i)))
    decreases p, 2, |p.iterations| - i
  {
    if i < |p.iterations| {
      IterationXmlDone(p, i);
      var c := SetAttr(IterNode(p, i), "name", p.iterations[i]);
      LoopXmlDone(p, i + 1, AddChild(acc, c));
      assert AddAll(acc, [c] + IterNodes(p, i + 1)) == AddAll(AddChild(acc, c), IterNodes(p, i + 1));
    }
  }

  lemma {:induction false} PhasesXmlDone(p: PhaseState, j: nat, i: nat, acc: Node)
    requires Restorable(p) && i < |p.iterations|
    ensures PhasesXml(p, j, i, acc) == Done(AddAll(acc, SubNodes(p, i, j)))
    decreases p, 0, |p.phases| - j
  {
    if j < |p.phases| {
      SubRestorable(p, j, i);
      var e := p.phases[j];
      var sub := e.1.items[i];
      ToXmlDone(sub);
      var c := SetAttr(ToXml(sub).value, "name", Str(e.0));
      assert PhasesXml(p, j, i, acc) == PhasesXml(p, j + 1, i, AddChild(acc, c));
      assert SubNodes(p, i, j) == [c] + SubNodes(p, i, j + 1);
      PhasesXmlDone(p, j + 1, i, AddChild(acc, c));
      assert AddAll(acc, [c] + SubNodes(p, i, j + 1)) == AddAll(AddChild(acc, c), SubNodes(p, i, j + 1));
    }
  }

  // ---------------------------------------------------------------- reading them back

  /** A value element reads back as the value it was written from. */
  lemma ValueNodeReads(name: string, v: Value)
    ensures var n := ValueNode(name, v);
      Contains(n.attributes, "value") &&
      AP.AsString(Attr(n, "name"), n.attributes) == name &&
      Values.Value(AP.Value(Attr(n, "value"), n.attributes), AP.AsString(Attr(n, "measure"), n.attributes)) == v
  {
  }

  /** The value recorded under k in iteration i, when there is one. */
  function ValueAt(es: seq<(string, seq<Value>)>, k: string, i: nat): Option<Value>
  {
    if Contains(es, k) && i < |GetOr(es, k, [])| then Some(GetOr(es, k, [])[i]) else None
  }

  /** The tag toXml gives a phase that has iterations. */
  function TagOf(sub: PhaseState): string
  {
    if sub.iterations == [Str("")] then "phase" else "loop"
  }

  lemma {:induction false} ValuesFromOrdered(q: PhaseState, vs: seq<Node>)
    requires forall v :: v in vs ==> Contains(v.attributes, "value")
    requires Ordered(q.values)
    ensures Ordered(ValuesFrom(q, vs).values)
    decreases |vs|
  {
    if |vs| > 0 {
      var name := AP.AsString(Attr(vs[0], "name"), vs[0].attributes);
      UpsertOrdered(q.values, name, GetOr(q.values, name, []) + [Values.Value(AP.Value(Attr(vs[0], "value"), vs[0].attributes), AP.AsString(Attr(vs[0], "measure"), vs[0].attributes))]);
      ValuesFromOrdered(ValueFrom(q, vs[0]), vs[1..]);
    }
  }

  lemma {:induction false} SubphasesFromOrdered(q: PhaseState, cs: seq<Node>, parent: Node)
    requires forall c :: c in cs ==> c in parent.children && (c.name == "phase" || c.name == "loop") && Readable(c)
    requires Ordered(q.phases)
    ensures Ordered(SubphasesFrom(q, cs, parent).phases)
    decreases |cs|
  {
    if |cs| > 0 {
      var c := cs[0];
      var key := AP.AsString(Attr(c, "name"), c.attributes);
      UpsertOrdered(q.phases, key, PhaseList(GetOr(q.phases, key, PhaseList([])).items + [FromXml(c).value]));
      SubphasesFromOrdered(q.(phases := AppendRun(q.phases, key, FromXml(c).value)), cs[1..], parent);
    }
  }

  /** The value elements of iteration i add, under each key, that key's value for iteration i. */
  lemma {:induction false} ValuesFromNodes(q: PhaseState, es: seq<(string, seq<Value>)>, i: nat, k: string)
    requires Ordered(es) && forall m :: 0 <= m < |es| ==> i < |es[m].1|
    ensures Lookup(ValuesFrom(q, ValueNodes(es, i)).values, k) ==
      if ValueAt(es, k, i).Some? then Some(GetOr(q.values, k, []) + [ValueAt(es, k, i).value]) else Lookup(q.values, k)
    decreases |es|
  {
    if |es| > 0 {
      var x := es[0].1[i];
      var n := ValueNode(es[0].0, x);
      ValueNodeReads(es[0].0, x);
      var q1 := ValueFrom(q, n);
      assert q1.values == Append(q.values, es[0].0, x);
      assert ValueNodes(es, i) == [n] + ValueNodes(es[1..], i);
      assert ValuesFrom(q, ValueNodes(es, i)) == ValuesFrom(q1, ValueNodes(es[1..], i));
      ValuesFromNodes(q1, es[1..], i, k);
      LookupUpsert(q.values, es[0].0, GetOr(q.values, es[0].0, []) + [x], k);
      if k == es[0].0 && |es| > 1 {
        LookupBelowFirst(es[1..], k);
      }
    }
  }

  /** The subphase elements of iteration i, position by position. */
  lemma {:induction false} SubNodesAt(p: PhaseState, i: nat, j: nat)
    requires j <= |p.phases| && forall m :: 0 <= m < |p.phases| ==> i < |p.phases[m].1.items|
    ensures |SubNodes(p, i, j)| == |p.phases| - j
    ensures forall m :: j <= m < |p.phases| ==> SubNodes(p, i, j)[m - j] == SubNode(p.phases[m].0, p.phases[m].1.items[i])
    decreases |p.phases| - j
  {
    if j < |p.phases| {
      SubNodesAt(p, i, j + 1);
    }
  }

  /**
   * The element of the subphase under the m-th name in iteration i: tagged as toXml tags it,
   * named with the key, and read back as the subphase stripped of its clock.
   */
  lemma SubNodeFacts(p: PhaseState, i: nat, m: nat)
    requires Restorable(p) && m < |p.phases| && i < |p.phases[m].1.items|
    ensures var sub := p.phases[m].1.items[i];
      var c := SubNode(p.phases[m].0, sub);
      c.name == TagOf(sub) && Readable(c) && AP.AsString(Attr(c, "name"), c.attributes) == p.phases[m].0 &&
      FromXml(c) == Some(Stripped(sub))
    decreases p, 0
  {
    var e := p.phases[m];
    assert e in p.phases;
    var sub := e.1.items[i];
    assert sub in e.1.items;
    ToXmlDone(sub);
    RoundTrip(sub, e.0);
  }

  /** The subphase read back under position m of the keys, when there is one. */
  function SubAt(p: PhaseState, i: nat, m: nat): PhaseState
  {
    if m < |p.phases| && i < |p.phases[m].1.items| then Stripped(p.phases[m].1.items[i]) else NewPhase
  }

  /**
   * Reading, in order, the elements of a list that carry tag t, where the element at position m
   * is named keys[m] and reads back as subs[m]: each key whose element carries the tag gains
   * that subphase, and every other key is left as it was.
   */
  lemma {:induction false} SubphasesFold(q: PhaseState, cs: seq<Node>, t: string, parent: Node, keys: seq<string>, subs: seq<PhaseState>, k: string)
    requires |keys| == |cs| && |subs| == |cs|
    requires forall c :: c in Named(cs, t) ==> c in parent.children && (c.name == "phase" || c.name == "loop") && Readable(c)
    requires forall m :: 0 <= m < |cs| && cs[m].name == t ==> Readable(cs[m]) && FromXml(cs[m]) == Some(subs[m])
    requires forall m :: 0 <= m < |cs| ==> AP.AsString(Attr(cs[m], "name"), cs[m].attributes) == keys[m]
    requires forall a, b :: 0 <= a < b < |keys| ==> keys[a] != keys[b]
    ensures forall m :: 0 <= m < |keys| && keys[m] == k ==>
      Lookup(SubphasesFrom(q, Named(cs, t), parent).phases, k) ==
        if cs[m].name == t then Some(PhaseList(RunsOf(q, k) + [subs[m]])) else Lookup(q.phases, k)
    ensures k !in keys ==> Lookup(SubphasesFrom(q, Named(cs, t), parent).phases, k) == Lookup(q.phases, k)
    decreases |cs|
  {
    if |cs| > 0 {
      var c, rest := cs[0], cs[1..];
      var q1 := if c.name == t then q.(phases := AppendRun(q.phases, keys[0], subs[0])) else q;
      var r := SubphasesFrom(q, Named(cs, t), parent);
      assert r == SubphasesFrom(q1, Named(rest, t), parent) by {
        assert cs == [c] + rest;
        if c.name == t {
          assert Named(cs, t) == [c] + Named(rest, t);
        } else {
          assert Named(cs, t) == Named(rest, t);
        }
      }
      SubphasesFold(q1, rest, t, parent, keys[1..], subs[1..], k);
      SubphasesFoldStep(q, q1, r.phases, cs, t, keys, subs, k);
    }
  }

  /** One step of SubphasesFold, on the lookups alone: the first child's run, then the rest's. */
  lemma SubphasesFoldStep(q: PhaseState, q1: PhaseState, rp: seq<(string, PhaseList)>, cs: seq<Node>,
                          t: string, keys: seq<string>, subs: seq<PhaseState>, k: string)
    requires |keys| == |cs| && |subs| == |cs| && |cs| > 0
    requires q1 == if cs[0].name == t then q.(phases := AppendRun(q.phases, keys[0], subs[0])) else q
    requires forall a, b :: 0 <= a < b < |keys| ==> keys[a] != keys[b]
    requires forall m :: 0 <= m < |keys| - 1 && keys[1..][m] == k ==>
      Lookup(rp, k) == if cs[1..][m].name == t then Some(PhaseList(RunsOf(q1, k) + [subs[1..][m]])) else Lookup(q1.phases, k)
    requires k !in keys[1..] ==> Lookup(rp, k) == Lookup(q1.phases, k)
    ensures forall m :: 0 <= m < |keys| && keys[m] == k ==>
      Lookup(rp, k) == if cs[m].name == t then Some(PhaseList(RunsOf(q, k) + [subs[m]])) else Lookup(q.phases, k)
    ensures k !in keys ==> Lookup(rp, k) == Lookup(q.phases, k)
  {
    if cs[0].name == t {
      LookupUpsert(q.phases, keys[0], PhaseList(RunsOf(q, keys[0]) + [subs[0]]), k);
    }
    if k == keys[0] {
      assert k !in keys[1..];
    } else {
      assert Lookup(q1.phases, k) == Lookup(q.phases, k);
      assert RunsOf(q1, k) == RunsOf(q, k);
      forall m | 1 <= m < |keys| && keys[m] == k
        ensures Lookup(rp, k) == if cs[m].name == t then Some(PhaseList(RunsOf(q, k) + [subs[m]])) else Lookup(q.phases, k)
      {
        assert keys[1..][m - 1] == k && cs[1..][m - 1] == cs[m] && subs[1..][m - 1] == subs[m];
      }
    }
  }

  // ---------------------------------------------------------------- iteration by iteration

  /** The first i entries of a recorded list; no entry at all before the first iteration. */
  function Prefix<X>(o: Option<seq<X>>, i: nat): Option<seq<X>>
  {
    if i == 0 || o.None? then None else if i <= |o.value| then Some(o.value[..i]) else o
  }

  /** The first i subphases of a name, as they read back. */
  function RunsPrefix(o: Option<PhaseList>, i: nat): Option<PhaseList>
  {
    if i == 0 || o.None? then None
    else Some(PhaseList(StripList(if i <= |o.value.items| then o.value.items[..i] else o.value.items)))
  }

  /** q holds what reading the first i iterations of p gives. */
  ghost predicate ReadUpTo(q: PhaseState, p: PhaseState, i: nat)
  {
    Ordered(q.values) && Ordered(q.phases) &&
    (forall k :: Lookup(q.values, k) == Prefix(Lookup(p.values, k), i)) &&
    (forall k :: Lookup(q.phases, k) == RunsPrefix(Lookup(p.phases, k), i))
  }

  lemma StripListSnoc(qs: seq<PhaseState>, i: nat)
    requires i < |qs|
    ensures StripList(qs[..i]) + [Stripped(qs[i])] == StripList(qs[..i + 1])
  {
    var a := StripList(qs[..i]) + [Stripped(qs[i])];
    var b := StripList(qs[..i + 1]);
    assert |a| == |b|;
    forall m | 0 <= m < |a|
      ensures a[m] == b[m]
    {
      if m < i {
        assert a[m] == Stripped(qs[..i][m]);
      }
    }
  }

  /** Touching a key that reading has already brought in changes nothing. */
  lemma TouchPresent(a: seq<(string, seq<Value>)>, b: seq<(string, seq<Value>)>, key: string, i: nat)
    requires i > 0 && Contains(b, key) && forall k :: Lookup(a, k) == Prefix(Lookup(b, k), i)
    ensures Touch(a, key) == a
  {
    assert Lookup(a, key) == Prefix(Lookup(b, key), i);
  }

  /** A list found in a phase with complete lists has one entry per iteration. */
  lemma ValuesLength(p: PhaseState, k: string)
    requires Restorable(p) && Contains(p.values, k)
    ensures |Lookup(p.values, k).value| == |p.iterations|
  {
    LookupSomeIn(p.values, k);
    var m :| 0 <= m < |p.values| && p.values[m].0 == k;
    LookupAt(p.values, m);
    assert p.values[m] in p.values;
  }

  lemma RunsLength(p: PhaseState, k: string)
    requires Restorable(p) && Contains(p.phases, k)
    ensures |Lookup(p.phases, k).value.items| == |p.iterations|
  {
    LookupSomeIn(p.phases, k);
    var m :| 0 <= m < |p.phases| && p.phases[m].0 == k;
    LookupAt(p.phases, m);
    assert p.phases[m] in p.phases;
  }

  /** Reading the values of iteration i extends every name's list by its entry for i. */
  lemma ValuesKey(q: PhaseState, p: PhaseState, i: nat, k: string)
    requires Restorable(p) && i < |p.iterations|
    requires Lookup(q.values, k) == Prefix(Lookup(p.values, k), i)
    requires forall m :: 0 <= m < |p.values| ==> i < |p.values[m].1|
    ensures Lookup(ValuesFrom(q, ValueNodes(p.values, i)).values, k) == Prefix(Lookup(p.values, k), i + 1)
  {
    ValuesFromNodes(q, p.values, i, k);
    if Contains(p.values, k) {
      ValuesLength(p, k);
      var vs := Lookup(p.values, k).value;
      TakeSnoc(vs, i);
    }
  }

  /** The subphases of iteration i as they read back, in key order. */
  function SubsAt(p: PhaseState, i: nat): (subs: seq<PhaseState>)
    ensures |subs| == |p.phases|
  {
    seq(|p.phases|, m requires 0 <= m < |p.phases| => SubAt(p, i, m))
  }

  /**
   * The subphase elements of iteration i, position by position: tagged "phase" or "loop",
   * named with the key, and read back as the subphase; the keys are distinct.
   */
  lemma SubNodesFacts(p: PhaseState, i: nat)
    requires Restorable(p) && i < |p.iterations|
    ensures var cs, keys, subs := SubNodes(p, i, 0), Keys(p.phases), SubsAt(p, i);
      |cs| == |keys| && |subs| == |keys| &&
      (forall m :: 0 <= m < |cs| ==> (cs[m].name == "phase" || cs[m].name == "loop") && Readable(cs[m]) && FromXml(cs[m]) == Some(subs[m])) &&
      (forall m :: 0 <= m < |cs| ==> AP.AsString(Attr(cs[m], "name"), cs[m].attributes) == keys[m]) &&
      (forall a, b :: 0 <= a < b < |keys| ==> keys[a] != keys[b])
    decreases p, 2
  {
    var cs, keys, subs := SubNodes(p, i, 0), Keys(p.phases), SubsAt(p, i);
    SubNodesLength(p, i);
    forall m | 0 <= m < |cs|
      ensures (cs[m].name == "phase" || cs[m].name == "loop") && Readable(cs[m]) && FromXml(cs[m]) == Some(subs[m])
      ensures AP.AsString(Attr(cs[m], "name"), cs[m].attributes) == keys[m]
    {
      SubNodeIndexed(p, i, m);
    }
    forall a, b | 0 <= a < b < |keys|
      ensures keys[a] != keys[b]
    {
      LessIrreflexive(keys[a]);
    }
  }

  /** SubNodeFacts stated for position m of the lists SubNodes, Keys and SubsAt. */
  lemma SubNodeIndexed(p: PhaseState, i: nat, m: nat)
    requires Restorable(p) && i < |p.iterations| && m < |p.phases|
    ensures m < |SubNodes(p, i, 0)| && m < |SubsAt(p, i)|
    ensures var c, sub := SubNodes(p, i, 0)[m], SubsAt(p, i)[m];
      (c.name == "phase" || c.name == "loop") && Readable(c) && FromXml(c) == Some(sub) &&
      AP.AsString(Attr(c, "name"), c.attributes) == Keys(p.phases)[m]
    decreases p, 1
  {
    Complete(p, i);
    SubNodesAt(p, i, 0);
    assert i < |p.phases[m].1.items|;
    SubNodeFacts(p, i, m);
  }


  /** Reading the subphases of iteration i extends every name's list by its subphase for i. */
  lemma PhasesKey(q: PhaseState, p: PhaseState, i: nat, it: Node, k: string)
    requires Restorable(p) && i < |p.iterations|
    requires Lookup(q.phases, k) == RunsPrefix(Lookup(p.phases, k), i)
    requires forall c :: c in Named(SubNodes(p, i, 0), "phase") ==> c in it.children && (c.name == "phase" || c.name == "loop") && Readable(c)
    requires forall c :: c in Named(SubNodes(p, i, 0), "loop") ==> c in it.children && (c.name == "phase" || c.name == "loop") && Readable(c)
    ensures var q2 := SubphasesFrom(q, Named(SubNodes(p, i, 0), "phase"), it);
      Lookup(SubphasesFrom(q2, Named(SubNodes(p, i, 0), "loop"), it).phases, k) == RunsPrefix(Lookup(p.phases, k), i + 1)
    decreases p, 3, 1
  {
    if Contains(p.phases, k) {
      PhasesKeyPresent(q, p, i, it, k);
    } else {
      PhasesKeyAbsent(q, p, i, it, k);
    }
  }

  lemma PhasesKeyPresent(q: PhaseState, p: PhaseState, i: nat, it: Node, k: string)
    requires Restorable(p) && i < |p.iterations|
    requires Lookup(q.phases, k) == RunsPrefix(Lookup(p.phases, k), i)
    requires forall c :: c in Named(SubNodes(p, i, 0), "phase") ==> c in it.children && (c.name == "phase" || c.name == "loop") && Readable(c)
    requires forall c :: c in Named(SubNodes(p, i, 0), "loop") ==> c in it.children && (c.name == "phase" || c.name == "loop") && Readable(c)
    requires Contains(p.phases, k)
    ensures var q2 := SubphasesFrom(q, Named(SubNodes(p, i, 0), "phase"), it);
      Lookup(SubphasesFrom(q2, Named(SubNodes(p, i, 0), "loop"), it).phases, k) == RunsPrefix(Lookup(p.phases, k), i + 1)
    decreases p, 3, 0
  {
    var cs, keys, subs := SubNodes(p, i, 0), Keys(p.phases), SubsAt(p, i);
    var q2 := SubphasesFrom(q, Named(cs, "phase"), it);
    var r := SubphasesFrom(q2, Named(cs, "loop"), it);
    LookupSomeIn(p.phases, k);
    var m :| 0 <= m < |p.phases| && p.phases[m].0 == k;
    KeyPosition(p, i, m, k);
    SubNodesLength(p, i);
    assert keys[m] == k;
    var isPhase := cs[m].name == "phase";
    assert Lookup(q2.phases, k) == if isPhase then Some(PhaseList(RunsOf(q, k) + [subs[m]])) else Lookup(q.phases, k) by {
      SubNodesFacts(p, i);
      SubphasesFold(q, cs, "phase", it, keys, subs, k);
    }
    assert Lookup(r.phases, k) == if isPhase then Lookup(q2.phases, k) else Some(PhaseList(RunsOf(q2, k) + [subs[m]])) by {
      SubNodesFacts(p, i);
      SubphasesFold(q2, cs, "loop", it, keys, subs, k);
    }
    KeyAfterFolds(q, q2, r, k, p.phases[m].1.items, i, subs[m], isPhase);
  }

  lemma PhasesKeyAbsent(q: PhaseState, p: PhaseState, i: nat, it: Node, k: string)
    requires Restorable(p) && i < |p.iterations|
    requires Lookup(q.phases, k) == RunsPrefix(Lookup(p.phases, k), i)
    requires forall c :: c in Named(SubNodes(p, i, 0), "phase") ==> c in it.children && (c.name == "phase" || c.name == "loop") && Readable(c)
    requires forall c :: c in Named(SubNodes(p, i, 0), "loop") ==> c in it.children && (c.name == "phase" || c.name == "loop") && Readable(c)
    requires !Contains(p.phases, k)
    ensures var q2 := SubphasesFrom(q, Named(SubNodes(p, i, 0), "phase"), it);
      Lookup(SubphasesFrom(q2, Named(SubNodes(p, i, 0), "loop"), it).phases, k) == RunsPrefix(Lookup(p.phases, k), i + 1)
    decreases p, 3, 0
  {
    var cs, keys, subs := SubNodes(p, i, 0), Keys(p.phases), SubsAt(p, i);
    var q2 := SubphasesFrom(q, Named(cs, "phase"), it);
    var r := SubphasesFrom(q2, Named(cs, "loop"), it);
    assert k !in keys by {
      if k in keys {
        var m :| 0 <= m < |keys| && keys[m] == k;
        LookupAt(p.phases, m);
      }
    }
    assert Lookup(r.phases, k) == Lookup(q2.phases, k) == Lookup(q.phases, k) by {
      SubNodesFacts(p, i);
      SubphasesFold(q, cs, "phase", it, keys, subs, k);
      SubphasesFold(q2, cs, "loop", it, keys, subs, k);
    }
  }

  lemma SubNodesLength(p: PhaseState, i: nat)
    requires Restorable(p) && i < |p.iterations|
    ensures |SubNodes(p, i, 0)| == |p.phases|
  {
    Complete(p, i);
    SubNodesAt(p, i, 0);
  }

  /** The key at position m of a phase with complete lists: its list, and its subphase for i as read back. */
  lemma KeyPosition(p: PhaseState, i: nat, m: nat, k: string)
    requires Restorable(p) && i < |p.iterations| && m < |p.phases| && p.phases[m].0 == k
    ensures Lookup(p.phases, k) == Some(PhaseList(p.phases[m].1.items))
    ensures i < |p.phases[m].1.items| && SubsAt(p, i)[m] == Stripped(p.phases[m].1.items[i])
  {
    LookupAt(p.phases, m);
    assert p.phases[m] in p.phases;
  }

  /** The two passes over "phase" and "loop" elements, seen from one key whose element has one of the tags. */
  lemma KeyAfterFolds(q: PhaseState, q2: PhaseState, r: PhaseState, k: string, l: seq<PhaseState>, i: nat, sub: PhaseState, isPhase: bool)
    requires i < |l| && Lookup(q.phases, k) == RunsPrefix(Some(PhaseList(l)), i) && sub == Stripped(l[i])
    requires Lookup(q2.phases, k) == if isPhase then Some(PhaseList(RunsOf(q, k) + [sub])) else Lookup(q.phases, k)
    requires Lookup(r.phases, k) == if isPhase then Lookup(q2.phases, k) else Some(PhaseList(RunsOf(q2, k) + [sub]))
    ensures Lookup(r.phases, k) == RunsPrefix(Some(PhaseList(l)), i + 1)
  {
    RunsStep(q, k, l, i);
    if !isPhase {
      assert RunsOf(q2, k) == RunsOf(q, k);
    }
  }

  /** One more subphase read back under a key extends its list as reading one more iteration does. */
  lemma RunsStep(q: PhaseState, k: string, l: seq<PhaseState>, i: nat)
    requires i < |l| && Lookup(q.phases, k) == RunsPrefix(Some(PhaseList(l)), i)
    ensures Some(PhaseList(RunsOf(q, k) + [Stripped(l[i])])) == RunsPrefix(Some(PhaseList(l)), i + 1)
  {
    assert RunsOf(q, k) == StripList(l[..i]);
    StripListSnoc(l, i);
  }

  /** The subphase elements of iteration i are "phase" and "loop" elements that can be read. */
  lemma SubNodesReadable(p: PhaseState, i: nat)
    requires Restorable(p) && i < |p.iterations|
    ensures forall c :: c in SubNodes(p, i, 0) ==> (c.name == "phase" || c.name == "loop") && Readable(c)
    decreases p, 2
  {
    var sn := SubNodes(p, i, 0);
    SubNodesLength(p, i);
    forall m | 0 <= m < |sn|
      ensures (sn[m].name == "phase" || sn[m].name == "loop") && Readable(sn[m])
    {
      SubNodeIndexed(p, i, m);
    }
  }


  /** The children with one tag after adding two lists to an empty "iteration" element. */
  lemma AddedTwiceNamed(vn: seq<Node>, sn: seq<Node>, t: string)
    ensures Named(AddAll(AddAll(Create("iteration"), vn), sn).children, t) == Named(vn, t) + Named(sn, t)
  {
    var a0 := AddAll(Create("iteration"), vn);
    AddAllShape(Create("iteration"), vn, t);
    assert Named(a0.children, t) == Named(vn, t) by {
      assert Named(Create("iteration").children, t) == [];
      Unwrapped(Named(vn, t));
    }
    AddAllShape(a0, sn, t);
  }

  /** The children after adding two lists to an empty "iteration" element are those of the lists. */
  lemma AddedTwiceMembers(vn: seq<Node>, sn: seq<Node>)
    ensures forall x :: x in AddAll(AddAll(Create("iteration"), vn), sn).children <==> x in vn || x in sn
  {
    var a0 := AddAll(Create("iteration"), vn);
    var children := AddAll(a0, sn).children;
    AddAllShape(Create("iteration"), vn, "");
    AddAllShape(a0, sn, "");
    assert multiset(children) == multiset(vn) + multiset(sn);
    forall x
      ensures x in children <==> x in vn || x in sn
    {
      assert x in children <==> x in multiset(children);
      assert x in vn <==> x in multiset(vn);
      assert x in sn <==> x in multiset(sn);
    }
  }

  /** The children of an iteration element sorted out by tag: its values, then its subphases. */
  lemma IterationNamed(vn: seq<Node>, sn: seq<Node>, children: seq<Node>)
    requires forall c :: c in vn ==> c.name == "value"
    requires forall c :: c in sn ==> c.name == "phase" || c.name == "loop"
    requires children == AddAll(AddAll(Create("iteration"), vn), sn).children
    ensures Named(children, "value") == vn
    ensures Named(children, "phase") == Named(sn, "phase")
    ensures Named(children, "loop") == Named(sn, "loop")
    ensures forall x :: x in children <==> x in vn || x in sn
  {
    AddedTwiceNamed(vn, sn, "value");
    AddedTwiceNamed(vn, sn, "phase");
    AddedTwiceNamed(vn, sn, "loop");
    NamedWhole(vn, "value");
    NamedNone(vn, "phase");
    NamedNone(vn, "loop");
    NamedNone(sn, "value");
    AddedTwiceMembers(vn, sn);
  }

  /** The children of an iteration element, sorted out by tag. */
  lemma IterationShape(p: PhaseState, i: nat, it: Node)
    requires Restorable(p) && i < |p.iterations|
    requires it.children == IterNode(p, i).children && Contains(it.attributes, "name")
    ensures IterationReadable(it)
    ensures Named(it.children, "value") == ValueNodes(p.values, i)
    ensures Named(it.children, "phase") == Named(SubNodes(p, i, 0), "phase")
    ensures Named(it.children, "loop") == Named(SubNodes(p, i, 0), "loop")
    ensures forall c :: c in SubNodes(p, i, 0) ==> c in it.children && (c.name == "phase" || c.name == "loop") && Readable(c)
    decreases p, 4
  {
    SubNodesReadable(p, i);
    IterationNamed(ValueNodes(p.values, i), SubNodes(p, i, 0), it.children);
  }

  /** Reading an iteration element shaped as toXml writes iteration i extends what was read by iteration i. */
  lemma IterationRead(p: PhaseState, i: nat, q: PhaseState, it: Node, next: nat)
    requires Restorable(p) && i < |p.iterations| && ReadUpTo(q, p, i) && IterationReadable(it) && next == i + 1
    requires Named(it.children, "value") == ValueNodes(p.values, i)
    requires Named(it.children, "phase") == Named(SubNodes(p, i, 0), "phase")
    requires Named(it.children, "loop") == Named(SubNodes(p, i, 0), "loop")
    requires forall c :: c in SubNodes(p, i, 0) ==> c in it.children && (c.name == "phase" || c.name == "loop") && Readable(c)
    ensures ReadUpTo(IterationFrom(q, it), p, next)
    decreases p, 4
  {
    var vn := ValueNodes(p.values, i);
    var sn := SubNodes(p, i, 0);
    NamedMembers(sn, "phase");
    NamedMembers(sn, "loop");
    var q0 := q.(iterations := q.iterations + [AP.Value(Attr(it, "name"), it.attributes)]);
    var q1 := ValuesFrom(q0, vn);
    var q2 := SubphasesFrom(q1, Named(sn, "phase"), it);
    var q3 := SubphasesFrom(q2, Named(sn, "loop"), it);
    assert IterationFrom(q, it) == q3.(values := Touch(q3.values, "time"));
    assert q3.values == q1.values && q1.phases == q.phases;
    assert Ordered(q3.values) && Ordered(q3.phases) by {
      ValuesFromOrdered(q0, vn);
      SubphasesFromOrdered(q1, Named(sn, "phase"), it);
      SubphasesFromOrdered(q2, Named(sn, "loop"), it);
    }
    assert forall k :: Lookup(q3.values, k) == Prefix(Lookup(p.values, k), next) by {
      Complete(p, i);
      forall k
        ensures Lookup(q3.values, k) == Prefix(Lookup(p.values, k), next)
      {
        ValuesKey(q0, p, i, k);
      }
    }
    assert Touch(q3.values, "time") == q3.values by {
      TouchPresent(q3.values, p.values, "time", next);
    }
    assert forall k :: Lookup(q3.phases, k) == RunsPrefix(Lookup(p.phases, k), next) by {
      forall k
        ensures Lookup(q3.phases, k) == RunsPrefix(Lookup(p.phases, k), next)
      {
        PhasesKey(q1, p, i, it, k);
      }
    }
  }


  /**
   * The element of iteration i can be read, and reading it after the first i iterations gives
   * the first i + 1.
   */
  lemma IterationRoundTrip(p: PhaseState, i: nat, q: PhaseState, it: Node, next: nat)
    requires Restorable(p) && i < |p.iterations| && ReadUpTo(q, p, i) && next == i + 1
    requires it.children == IterNode(p, i).children && Contains(it.attributes, "name")
    ensures IterationReadable(it)
    ensures ReadUpTo(IterationFrom(q, it), p, next)
    decreases p, 5
  {
    IterationShape(p, i, it);
    IterationRead(p, i, q, it, next);
  }

  /** The "iteration" elements of a loop from iteration i on can be read, and reading them completes the phase. */
  lemma {:induction false} LoopRoundTrip(p: PhaseState, i: nat, q: PhaseState, parent: Node)
    requires Restorable(p) && i <= |p.iterations| && ReadUpTo(q, p, i)
    requires q.iterations == p.iterations[..i] && !q.began && q.beginTime == Timespec(0, 0)
    requires forall c :: c in IterNodes(p, i) ==> c in parent.children
    ensures forall c :: c in IterNodes(p, i) ==> IterationReadable(c)
    ensures var r := IterationsFrom(q, IterNodes(p, i), parent);
      ReadUpTo(r, p, |p.iterations|) && r.iterations == p.iterations && !r.began && r.beginTime == Timespec(0, 0)
    decreases p, 6, |p.iterations| - i
  {
    if i < |p.iterations| {
      var c := SetAttr(IterNode(p, i), "name", p.iterations[i]);
      assert IterNodes(p, i) == [c] + IterNodes(p, i + 1);
      IterationRoundTrip(p, i, q, c, i + 1);
      var q1 := IterationFrom(q, c);
      TakeSnoc(p.iterations, i);
      LoopRoundTrip(p, i + 1, q1, parent);
      assert IterationsFrom(q, IterNodes(p, i), parent) == IterationsFrom(q1, IterNodes(p, i + 1), parent);
    } else {
      assert p.iterations[..i] == p.iterations;
    }
  }

  /** Having read every iteration gives the phase's own values and its subphases as they read back. */
  lemma ReadAll(r: PhaseState, p: PhaseState, n: nat)
    requires Restorable(p) && n == |p.iterations| && ReadUpTo(r, p, n)
    ensures r.values == p.values && r.phases == StripRuns(p, 0)
  {
    forall k
      ensures Lookup(r.values, k) == Lookup(p.values, k)
    {
      if Contains(p.values, k) {
        ValuesLength(p, k);
        var vs := Lookup(p.values, k).value;
        assert vs[..|p.iterations|] == vs;
      }
    }
    Extensionality(r.values, p.values);
    forall k
      ensures Lookup(r.phases, k) == Lookup(StripRuns(p, 0), k)
    {
      LookupStripRuns(p, 0, k);
      assert p.phases[0..] == p.phases;
      if Contains(p.phases, k) {
        RunsLength(p, k);
        var l := Lookup(p.phases, k).value.items;
        assert l[..|p.iterations|] == l;
      }
    }
    StripRunsOrdered(p);
    Extensionality(r.phases, StripRuns(p, 0));
  }

  /** The children of an element after adding a list are its old children and the list's elements. */
  lemma AddAllMembers(acc: Node, cs: seq<Node>)
    requires SortedByName(acc.children)
    ensures forall x :: x in AddAll(acc, cs).children <==> x in acc.children || x in cs
  {
    var children := AddAll(acc, cs).children;
    AddAllShape(acc, cs, "");
    forall x
      ensures x in children <==> x in acc.children || x in cs
    {
      assert x in children <==> x in multiset(children);
      assert x in acc.children <==> x in multiset(acc.children);
      assert x in cs <==> x in multiset(cs);
    }
  }

  /** Before the first iteration nothing has been read. */
  lemma ReadNothing(p: PhaseState)
    ensures ReadUpTo(NewPhase, p, 0)
  {
  }

  /** The one iteration element of a single-iteration phase reads back as its values and subphases. */
  lemma SingleRead(p: PhaseState, n: Node)
    requires Restorable(p) && |p.iterations| == 1
    requires n.children == IterNode(p, 0).children && Contains(n.attributes, "name")
    ensures IterationReadable(n)
    ensures var r := IterationFrom(NewPhase, n);
      r.values == p.values && r.phases == StripRuns(p, 0) && |r.iterations| == 1 && !r.began && r.beginTime == Timespec(0, 0)
    decreases p, 6
  {
    assert IterationReadable(n) by {
      IterationShape(p, 0, n);
    }
    var r := IterationFrom(NewPhase, n);
    assert ReadUpTo(r, p, 1) by {
      ReadNothing(p);
      IterationRoundTrip(p, 0, NewPhase, n, 1);
    }
    ReadAll(r, p, 1);
  }

  /** A single iteration named "": the "phase" element reads back as the phase. */
  lemma SingleRoundTrip(p: PhaseState, n: Node)
    requires Restorable(p) && p.iterations == [Str("")]
    requires n.name == "phase" && n.children == IterNode(p, 0).children && Contains(n.attributes, "name")
    ensures Readable(n) && FromXml(n) == Some(Stripped(p))
    decreases p, 7
  {
    SingleRead(p, n);
    var r := IterationFrom(NewPhase, n);
    var r' := r.(iterations := r.iterations[0 := Str("")]);
    assert FromXml(n) == Some(r');
    StrippedFrom(r', p);
  }

  /** A record read back with the phase's labels, values and subphases, and a closed iteration. */
  lemma StrippedFrom(r: PhaseState, p: PhaseState)
    requires r.iterations == p.iterations && r.values == p.values && r.phases == StripRuns(p, 0)
    requires !r.began && r.beginTime == Timespec(0, 0)
    ensures r == Stripped(p)
  {
  }

  /** Anything else: the "loop" element reads back as the phase, iteration by iteration. */
  lemma LoopWholeRoundTrip(p: PhaseState, n: Node)
    requires Restorable(p)
    requires n.name == "loop" && n.children == AddAll(Create("loop"), IterNodes(p, 0)).children
    ensures Readable(n) && FromXml(n) == Some(Stripped(p))
    decreases p, 7
  {
    var its := IterNodes(p, 0);
    AddAllShape(Create("loop"), its, "iteration");
    NamedWhole(its, "iteration");
    AddAllMembers(Create("loop"), its);
    ReadNothing(p);
    assert p.iterations[..0] == [];
    LoopRoundTrip(p, 0, NewPhase, n);
    assert Named(n.children, "iteration") == its;
    var r := IterationsFrom(NewPhase, its, n);
    ReadAll(r, p, |p.iterations|);
    assert FromXml(n) == Some(r);
    StrippedFrom(r, p);
  }

  /**
   * toXml then fromXml: a phase whose every iteration has an entry under every value name and
   * every subphase name, "time" among them, is written, named, and read back whole, except
   * that no iteration is open afterwards and the clock reading is not kept.
   */
  lemma {:induction false} RoundTrip(p: PhaseState, name: string)
    requires Restorable(p)
    ensures ToXml(p).Done?
    ensures var n := SetAttr(ToXml(p).value, "name", Str(name));
      Readable(n) && FromXml(n) == Some(Stripped(p))
    decreases p, 8
  {
    ToXmlDone(p);
    var x := ToXml(p).value;
    var n := SetAttr(x, "name", Str(name));
    if |p.iterations| == 1 && Equal(p.iterations[0], Str("")) {
      IterationXmlDone(p, 0);
      assert p.iterations == [Str("")];
      SingleRoundTrip(p, n);
    } else {
      LoopXmlDone(p, 0, Create("loop"));
      LoopWholeRoundTrip(p, n);
    }
  }

  /** A complete phase that is not a single unnamed iteration is written as a loop: only "iteration" children. */
  lemma LoopXmlIterationsOnly(p: PhaseState)
    requires Restorable(p) && p.iterations != [Str("")]
    ensures ToXml(p).Done? && ToXml(p).value.name == "loop"
    ensures forall c :: c in ToXml(p).value.children ==> c.name == "iteration"
  {
    ToXmlDone(p);
    if |p.iterations| == 1 {
      assert p.iterations == [p.iterations[0]];
    }
    LoopXmlDone(p, 0, Create("loop"));
    var its := IterNodes(p, 0);
    AddAllMembers(Create("loop"), its);
    assert ToXml(p).value.children == AddAll(Create("loop"), its).children;
  }

  /** An element named "phase" with a name and only "iteration" children reads as a phase that recorded nothing. */
  lemma ReadsNothing(m: Node)
    requires m.name == "phase" && Contains(m.attributes, "name")
    requires forall c :: c in m.children ==> c.name == "iteration"
    ensures Readable(m) && FromXml(m) == Some(PhaseState([Str("")], [("time", [])], [], false, Timespec(0, 0)))
  {
    NamedMembers(m.children, "value");
    NamedMembers(m.children, "phase");
    NamedMembers(m.children, "loop");
    NamedNone(m.children, "value");
    NamedNone(m.children, "phase");
    NamedNone(m.children, "loop");
    var label0 := AP.Value(Attr(m, "name"), m.attributes);
    var q0 := NewPhase.(iterations := [label0]);
    assert NewPhase.iterations + [label0] == [label0];
    var q1 := ValuesFrom(q0, Named(m.children, "value"));
    assert q1 == q0;
    var q2 := SubphasesFrom(q1, Named(m.children, "phase"), m);
    assert q2 == q0;
    var q3 := SubphasesFrom(q2, Named(m.children, "loop"), m);
    assert q3 == q0;
    var q := IterationFrom(NewPhase, m);
    assert q == q0.(values := Touch(q0.values, "time"));
    assert Touch(q0.values, "time") == [("time", [])];
    assert q.iterations[0 := Str("")] == [Str("")];
    assert FromXml(m) == Some(q.(iterations := [Str("")]));
  }

  /**
   * toXml writes a phase with no iterations as a bare "phase" element, and fromXml reads that
   * element back as a phase with one unnamed iteration and an empty "time" list.
   */
  lemma EmptyPhaseGainsIteration(p: PhaseState, name: string)
    requires |p.iterations| == 0
    ensures ToXml(p) == Done(Create("phase"))
    ensures var n := SetAttr(Create("phase"), "name", Str(name));
      Readable(n) && FromXml(n) == Some(PhaseState([Str("")], [("time", [])], [], false, Timespec(0, 0)))
  {
    ReadsNothing(SetAttr(Create("phase"), "name", Str(name)));
  }
}
