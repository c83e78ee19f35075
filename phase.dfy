/**
 * burning::profiling::Phase as an object: the recording steps update its fields in place, and
 * fromXml rebuilds a phase by pushing what it reads. Each step is specified by the function of
 * the same name on PhaseState, and keeps the maps ordered.
 */
module PhaseObjects {
  import opened Wrappers
  import opened OrderedMaps
  import opened Attributes
  import AP = AttributeProxies
  import opened Values
  import opened Xml
  import opened Phases
  import PX = PhaseXml

  class Phase {
    var iterations: seq<Attribute>
    var values: seq<(string, seq<Value>)>
    var phases: seq<(string, PhaseList)>
    var began: bool
    var beginTime: Timespec

    /** The fields as one value. */
    function State(): PhaseState
      reads this
    {
      PhaseState(iterations, values, phases, began, beginTime)
    }

    /** Both maps are kept in key order. */
    predicate Valid()
      reads this
    {
      Ordered(values) && Ordered(phases)
    }

    /** Phase(): no iterations, no values, no subphases, no open iteration. */
    constructor()
      ensures Valid() && State() == NewPhase
    {
      iterations := [];
      values := [];
      phases := [];
      began := false;
      beginTime := Timespec(0, 0);
    }

    /** finished(): no iteration is open. */
    function Finished(): bool
      reads this
    {
      !began
    }

    /** addValue: the two cardinality checks, then _values[name].push_back(value). */
    method AddValue(name: string, v: Value) returns (st: Status)
      requires Valid()
      modifies this
      ensures Valid()
      ensures var r := Phases.AddValue(old(State()), name, v);
        if r.Done? then st == Ok && State() == r.value else st == Fatal(r.reason) && State() == old(State())
    {
      var n := |iterations|;
      var k := |GetOr(values, name, [])|;
      if k < n - 1 && n > 0 {
        return Fatal(ValueMissed);
      }
      if n <= k {
        return Fatal(ValueWithoutIteration);
      }
      UpsertOrdered(values, name, GetOr(values, name, []) + [v]);
      values := Append(values, name, v);
      st := Ok;
    }

    /** addPhase: the same checks on _phases[name], the first in size_t arithmetic; then push_back. */
    method AddPhase(name: string, sub: PhaseState) returns (st: Status)
      requires Valid()
      modifies this
      ensures Valid()
      ensures var r := Phases.AddPhase(old(State()), name, sub);
        if r.Done? then st == Ok && State() == r.value else st == Fatal(r.reason) && State() == old(State())
    {
      var n := |iterations|;
      var k := |GetOr(phases, name, PhaseList([])).items|;
      if k < SizeMinusOne(n) {
        return Fatal(SubphaseMissed);
      }
      if k >= n {
        return Fatal(SubphaseWithoutIteration);
      }
      UpsertOrdered(phases, name, PhaseList(GetOr(phases, name, PhaseList([])).items + [sub]));
      phases := AppendRun(phases, name, sub);
      st := Ok;
    }

    /** beginIteration: refuses an open iteration, else opens one with that name at time now. */
    method BeginIteration(name: Attribute, now: Timespec) returns (st: Status)
      requires Valid()
      modifies this
      ensures Valid()
      ensures var r := Phases.BeginIteration(old(State()), name, now);
        if r.Done? then st == Ok && State() == r.value else st == Fatal(r.reason) && State() == old(State())
    {
      if began {
        return Fatal(StartedTwice);
      }
      began := true;
      iterations := iterations + [name];
      beginTime := now;
      st := Ok;
    }

    /** endIteration: refuses when nothing is open, else closes and pushes the elapsed time. */
    method EndIteration(m: TimeMeasure, now: Timespec) returns (st: Status)
      requires Valid()
      modifies this
      ensures Valid()
      ensures var r := Phases.EndIteration(old(State()), m, now);
        if r.Done? then st == Ok && State() == r.value else st == Fatal(r.reason) && State() == old(State())
    {
      if !began {
        return Fatal(EndedUnstarted);
      }
      began := false;
      var time := (now.sec - beginTime.sec) * PerSecond(m);
      time := time + TruncDiv(now.nsec - beginTime.nsec, NanosecondsPerSecond / PerSecond(m));
      assert time == Elapsed(beginTime, now, m);
      var t := Value(Decimal(Strings.IntText(time)), MeasureName(m));
      assert t == TimeValue(beginTime, now, m);
      UpsertOrdered(values, "time", GetOr(values, "time", []) + [t]);
      values := Append(values, "time", t);
      st := Ok;
    }

    /**
     * What the parent sees through its pointer to the subphase last added under name, once
     * that subphase has recorded q.
     */
    method SeeLastRun(name: string, q: PhaseState)
      requires Valid() && |RunsOf(State(), name)| >= 1
      modifies this
      ensures Valid() && State() == WithLastRun(old(State()), name, q)
    {
      var rs := GetOr(phases, name, PhaseList([])).items;
      UpsertOrdered(phases, name, PhaseList(rs[..|rs| - 1] + [q]));
      phases := Upsert(phases, name, PhaseList(rs[..|rs| - 1] + [q]));
    }

    /** setValueFromXml: the value's name and measure as strings, its payload with value(), pushed. */
    method SetValueFromXml(v: Node)
      requires Contains(v.attributes, "value")
      modifies this
      ensures State() == PX.ValueFrom(old(State()), v)
    {
      var x := Value(AP.Value(Attr(v, "value"), v.attributes), AP.AsString(Attr(v, "measure"), v.attributes));
      var name := AP.AsString(Attr(v, "name"), v.attributes);
      values := Append(values, name, x);
    }

    /** subphaseFromXml: the child read with fromXml, pushed under its name attribute. */
    method SubphaseFromXml(c: Node)
      requires (c.name == "phase" || c.name == "loop") && PX.Readable(c)
      modifies this
      ensures PX.FromXml(c).Some?
      ensures State() == old(State()).(phases := AppendRun(old(phases), AP.AsString(Attr(c, "name"), c.attributes), PX.FromXml(c).value))
    {
      var child := PX.FromXml(c).value;
      var name := AP.AsString(Attr(c, "name"), c.attributes);
      phases := AppendRun(phases, name, child);
    }

    /** The loop over childs("value") of iterationFromXml: setValueFromXml on each, in order. */
    method ValuesFromXml(vs: seq<Node>)
      requires forall v :: v in vs ==> Contains(v.attributes, "value")
      modifies this
      ensures State() == PX.ValuesFrom(old(State()), vs)
    {
      var k := 0;
      while k < |vs|
        invariant 0 <= k <= |vs|
        invariant PX.ValuesFrom(State(), vs[k..]) == PX.ValuesFrom(old(State()), vs)
      {
        assert vs[k] in vs;
        assert vs[k..][0] == vs[k] && vs[k..][1..] == vs[k + 1..];
        SetValueFromXml(vs[k]);
        k := k + 1;
      }
      assert vs[k..] == [];
    }

    /** The loops over childs("phase") and childs("loop") of iterationFromXml: subphaseFromXml on each. */
    method SubphasesFromXml(cs: seq<Node>, it: Node)
      requires forall c :: c in cs ==> c in it.children && (c.name == "phase" || c.name == "loop") && PX.Readable(c)
      modifies this
      ensures State() == PX.SubphasesFrom(old(State()), cs, it)
    {
      var k := 0;
      while k < |cs|
        invariant 0 <= k <= |cs|
        invariant PX.SubphasesFrom(State(), cs[k..], it) == PX.SubphasesFrom(old(State()), cs, it)
      {
        assert cs[k] in cs;
        assert cs[k..][0] == cs[k] && cs[k..][1..] == cs[k + 1..];
        SubphaseFromXml(cs[k]);
        k := k + 1;
      }
      assert cs[k..] == [];
    }

    /**
     * iterationFromXml: push the label, then every "value" child, every "phase" child and every
     * "loop" child in that order; finally _values["time"] is looked up, which inserts it.
     */
    method IterationFromXml(it: Node)
      requires PX.IterationReadable(it)
      modifies this
      ensures State() == PX.IterationFrom(old(State()), it)
    {
      iterations := iterations + [AP.Value(Attr(it, "name"), it.attributes)];
      NamedMembers(it.children, "value");
      NamedMembers(it.children, "phase");
      NamedMembers(it.children, "loop");
      ValuesFromXml(Named(it.children, "value"));
      SubphasesFromXml(Named(it.children, "phase"), it);
      SubphasesFromXml(Named(it.children, "loop"), it);
      values := Touch(values, "time");
    }

    /** The loop of fromXml over the "iteration" children of a loop: iterationFromXml on each. */
    method IterationsFromXml(its: seq<Node>, parent: Node)
      requires forall it :: it in its ==> it in parent.children && PX.IterationReadable(it)
      modifies this
      ensures State() == PX.IterationsFrom(old(State()), its, parent)
    {
      var k := 0;
      while k < |its|
        invariant 0 <= k <= |its|
        invariant PX.IterationsFrom(State(), its[k..], parent) == PX.IterationsFrom(old(State()), its, parent)
      {
        assert its[k] in its;
        assert its[k..][0] == its[k] && its[k..][1..] == its[k + 1..];
        IterationFromXml(its[k]);
        k := k + 1;
      }
      assert its[k..] == [];
    }

    /**
     * fromXml: a "phase" is one iteration whose label is then overwritten with "", a "loop" one
     * iteration per "iteration" child, and any other tag gives null.
     */
    static method FromXml(n: Node) returns (r: Phase?)
      requires PX.Readable(n)
      ensures r == null <==> PX.FromXml(n).None?
      ensures r != null ==> fresh(r) && r.State() == PX.FromXml(n).value
    {
      if n.name == "phase" {
        r := new Phase();
        r.IterationFromXml(n);
        r.iterations := r.iterations[0 := Str("")];
        assert r.State() == PX.FromXml(n).value;
      } else if n.name == "loop" {
        r := new Phase();
        NamedMembers(n.children, "iteration");
        r.IterationsFromXml(Named(n.children, "iteration"), n);
        assert r.State() == PX.FromXml(n).value;
      } else {
        r := null;
      }
    }
  }
}
