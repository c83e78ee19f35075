/**
 * Phase::toXml and Phase::fromXml: a phase as "phase"/"loop"/"iteration"/"value" elements,
 * and the reading back of such elements into a phase.
 */
module PhaseXml {
  import opened Wrappers
  import opened Strings
  import opened OrderedMaps
  import opened Attributes
  import AP = AttributeProxies
  import opened Values
  import opened Xml
  import opened Phases

  // ---------------------------------------------------------------- writing

  /** The "value" element of one recorded value: its name, its raw value, and its unit when it has one. */
  function ValueNode(name: string, v: Value): (n: Node)
    ensures n.name == "value" && n.children == []
    ensures Lookup(n.attributes, "name") == Some(Str(name))
    ensures Lookup(n.attributes, "value") == Some(v.payload)
    ensures Lookup(n.attributes, "measure") == if v.measure == "" then None else Some(Str(v.measure))
  {
    var n0 := SetAttr(SetAttr(Create("value"), "name", Str(name)), "value", v.payload);
    if v.measure != "" then SetAttr(n0, "measure", Str(v.measure)) else n0
  }

  /** The value children of iteration i, in key order; a list with no entry for i aborts. */
  function ValuesXml(es: seq<(string, seq<Value>)>, i: nat, acc: Node): (r: Result<Node>)
    ensures r.Done? ==> r.value.name == acc.name
    ensures r.Abort? ==> r.reason == ValueMissedInIteration
    decreases |es|
  {
    if |es| == 0 then Done(acc)
    else if |es[0].1| <= i then Abort(ValueMissedInIteration)
    else ValuesXml(es[1..], i, AddChild(acc, ValueNode(es[0].0, es[0].1[i])))
  }

  /**
   * toXml: no iterations give an empty "phase"; a single iteration named "" gives that
   * iteration's element renamed "phase"; anything else gives a "loop" holding one "iteration"
   * per label, each carrying the label as its name.
   */
  function ToXml(p: PhaseState): (r: Result<Node>)
    ensures r.Done? ==> r.value.name == "phase" || r.value.name == "loop"
    ensures r.Abort? ==> r.reason == ValueMissedInIteration || r.reason == PhaseMissedInIteration
    decreases p, 3
  {
    if |p.iterations| == 0 then Done(Create("phase"))
    else if |p.iterations| == 1 && Equal(p.iterations[0], Str("")) then
      match IterationXml(p, 0)
      case Abort(why) => Abort(why)
      case Done(n) => Done(n.(name := "phase"))
    else LoopXml(p, 0, Create("loop"))
  }

  /** The loop of toXml from iteration i on. */
  function LoopXml(p: PhaseState, i: nat, acc: Node): (r: Result<Node>)
    ensures r.Done? ==> r.value.name == acc.name
    ensures r.Abort? ==> r.reason == ValueMissedInIteration || r.reason == PhaseMissedInIteration
    decreases p, 2, |p.iterations| - i
  {
    if i >= |p.iterations| then Done(acc)
    else
      match IterationXml(p, i)
      case Abort(why) => Abort(why)
      case Done(n) => LoopXml(p, i + 1, AddChild(acc, SetAttr(n, "name", p.iterations[i])))
  }

  /** iterationToXml: an "iteration" element with the values of iteration i, then its subphases. */
  function IterationXml(p: PhaseState, i: nat): (r: Result<Node>)
    ensures r.Done? ==> r.value.name == "iteration"
    ensures r.Abort? ==> r.reason == ValueMissedInIteration || r.reason == PhaseMissedInIteration
    decreases p, 1
  {
    match ValuesXml(p.values, i, Create("iteration"))
    case Abort(why) => Abort(why)
    case Done(n) => PhasesXml(p, 0, i, n)
  }

  /** The subphase children of iteration i from the j-th subphase name on, each named after its key. */
  function PhasesXml(p: PhaseState, j: nat, i: nat, acc: Node): (r: Result<Node>)
    ensures r.Done? ==> r.value.name == acc.name
    ensures r.Abort? ==> r.reason == ValueMissedInIteration || r.reason == PhaseMissedInIteration
    decreases p, 0, |p.phases| - j
  {
    if j >= |p.phases| then Done(acc)
    else if |p.phases[j].1.items| <= i then Abort(PhaseMissedInIteration)
    else
      var e := p.phases[j];
      assert e in p.phases;
      var sub := e.1.items[i];
      assert sub in e.1.items;
      match ToXml(sub)
      case Abort(why) => Abort(why)
      case Done(n) => PhasesXml(p, j + 1, i, AddChild(acc, SetAttr(n, "name", Str(e.0))))
  }

  // ---------------------------------------------------------------- reading

  /**
   * The reads fromXml makes through value() are defined: every iteration it reads has a
   * name, and every value element a value (value() on an unset attribute is undefined).
   */
  predicate Readable(n: Node)
    decreases n, 1
  {
    (n.name == "phase" ==> IterationReadable(n)) &&
    (n.name == "loop" ==> forall it :: it in n.children && it.name == "iteration" ==> IterationReadable(it))
  }

  predicate IterationReadable(it: Node)
    decreases it, 0
  {
    Contains(it.attributes, "name") &&
    (forall v :: v in it.children && v.name == "value" ==> Contains(v.attributes, "value")) &&
    (forall c :: c in it.children && (c.name == "phase" || c.name == "loop") ==> Readable(c))
  }

  /** setValueFromXml: name and measure read with as<string>, the payload with value(). */
  function ValueFrom(p: PhaseState, v: Node): (r: PhaseState)
    requires Contains(v.attributes, "value")
    ensures r.iterations == p.iterations && r.phases == p.phases && r.began == p.began && r.beginTime == p.beginTime
  {
    var name := AP.AsString(Attr(v, "name"), v.attributes);
    var x := Value(AP.Value(Attr(v, "value"), v.attributes), AP.AsString(Attr(v, "measure"), v.attributes));
    p.(values := Append(p.values, name, x))
  }

  /** The loop over childs("value"). */
  function ValuesFrom(p: PhaseState, vs: seq<Node>): (r: PhaseState)
    requires forall v :: v in vs ==> Contains(v.attributes, "value")
    ensures r.iterations == p.iterations && r.phases == p.phases && r.began == p.began && r.beginTime == p.beginTime
    decreases |vs|
  {
    if |vs| == 0 then p else ValuesFrom(ValueFrom(p, vs[0]), vs[1..])
  }

  /** The loops over childs("phase") and childs("loop"): subphaseFromXml on each, in order. */
  function SubphasesFrom(p: PhaseState, cs: seq<Node>, parent: Node): (r: PhaseState)
    requires forall c :: c in cs ==> c in parent.children && (c.name == "phase" || c.name == "loop") && Readable(c)
    ensures r.iterations == p.iterations && r.values == p.values && r.began == p.began && r.beginTime == p.beginTime
    decreases parent, 0, |cs|
  {
    if |cs| == 0 then p
    else
      var c := cs[0];
      assert c in cs && c in parent.children;
      var sub := FromXml(c).value;
      SubphasesFrom(p.(phases := AppendRun(p.phases, AP.AsString(Attr(c, "name"), c.attributes), sub)), cs[1..], parent)
  }

  /**
   * iterationFromXml: the label is the node's name attribute; then its values, its "phase"
   * children and its "loop" children are read; finally _values["time"] is touched.
   */
  function IterationFrom(p: PhaseState, it: Node): (r: PhaseState)
    requires IterationReadable(it)
    ensures r.iterations == p.iterations + [AP.Value(Attr(it, "name"), it.attributes)]
    ensures r.began == p.began && r.beginTime == p.beginTime
    decreases it, 1
  {
    var q0 := p.(iterations := p.iterations + [AP.Value(Attr(it, "name"), it.attributes)]);
    NamedMembers(it.children, "value");
    NamedMembers(it.children, "phase");
    NamedMembers(it.children, "loop");
    var q1 := ValuesFrom(q0, Named(it.children, "value"));
    var q2 := SubphasesFrom(q1, Named(it.children, "phase"), it);
    var q3 := SubphasesFrom(q2, Named(it.children, "loop"), it);
    q3.(values := Touch(q3.values, "time"))
  }

  /** The labels of a run of "iteration" elements: each one's name attribute, read with value(). */
  function IterationLabels(its: seq<Node>): (ls: seq<Attribute>)
    requires forall it :: it in its ==> IterationReadable(it)
    ensures |ls| == |its|
    decreases |its|
  {
    if |its| == 0 then []
    else
      assert its[0] in its && IterationReadable(its[0]);
      [AP.Value(Attr(its[0], "name"), its[0].attributes)] + IterationLabels(its[1..])
  }

  /** Reading the first iteration element and then the rest gives the labels of all of them. */
  lemma LabelsAfterFirst(ls: seq<Attribute>, its: seq<Node>)
    requires |its| >= 1 && forall it :: it in its ==> IterationReadable(it)
    ensures its[0] in its && IterationReadable(its[0])
    ensures ls + [AP.Value(Attr(its[0], "name"), its[0].attributes)] + IterationLabels(its[1..]) == ls + IterationLabels(its)
  {
    assert its[0] in its;
  }

  /** The loop of fromXml over the "iteration" children of a loop: one iteration per element, labelled by it. */
  function IterationsFrom(p: PhaseState, its: seq<Node>, parent: Node): (r: PhaseState)
    requires forall it :: it in its ==> it in parent.children && IterationReadable(it)
    ensures r.iterations == p.iterations + IterationLabels(its)
    decreases parent, 2, |its|
  {
    if |its| == 0 then p
    else
      assert its[0] in its && its[0] in parent.children;
      var q := IterationFrom(p, its[0]);
      LabelsAfterFirst(p.iterations, its);
      IterationsFrom(q, its[1..], parent)
  }

  /**
   * fromXml: a "phase" is read as one iteration whose label is then set to "", a "loop" as
   * one iteration per "iteration" child, and any other tag gives no phase (a null pointer).
   */
  function FromXml(n: Node): (r: Option<PhaseState>)
    requires Readable(n)
    ensures r.Some? <==> n.name == "phase" || n.name == "loop"
    ensures n.name == "phase" ==> r.value.iterations == [Str("")]
    ensures n.name == "loop" ==> r.value.iterations == IterationLabels(ChildsNamed(n, "iteration"))
    decreases n, 3
  {
    if n.name == "phase" then
      var q := IterationFrom(NewPhase, n);
      Some(q.(iterations := q.iterations[0 := Str("")]))
    else if n.name == "loop" then
      NamedMembers(n.children, "iteration");
      Some(IterationsFrom(NewPhase, Named(n.children, "iteration"), n))
    else None
  }
}
