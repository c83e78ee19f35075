/**
 * burning::Profile as values: the stack of open phases over the root phase, the recording
 * steps applied to the innermost one, the loops that push and pop phases, and the XML form of
 * a whole profile.
 */
module Profiles {
  import opened Wrappers
  import opened OrderedMaps
  import opened Attributes
  import opened Values
  import opened Xml
  import opened Phases
  import PX = PhaseXml
  import PR = PhaseRoundTrip
  import AP = AttributeProxies

  /**
   * _current from the bottom (the root phase) to the top, each phase as it now stands, and
   * for every phase above the root the name it was added under in the phase below it. In the
   * source a parent holds a pointer to its open child, so it sees the child's records at once;
   * here the parent's list keeps the child's last run as it was when added, and Close puts the
   * open children's states back into their parents.
   */
  datatype ProfileState = ProfileState(stack: seq<PhaseState>, names: seq<string>)

  /** A non-empty stack, one name per open subphase, whose run is in its parent, and ordered maps. */
  predicate Wf(s: ProfileState)
  {
    |s.stack| >= 1 && |s.names| == |s.stack| - 1 &&
    (forall i :: 0 <= i < |s.names| ==> |RunsOf(s.stack[i], s.names[i])| >= 1) &&
    (forall i :: 0 <= i < |s.stack| ==> Ordered(s.stack[i].values) && Ordered(s.stack[i].phases))
  }

  /** _current.top(): the innermost open phase. */
  function Top(s: ProfileState): PhaseState
    requires |s.stack| >= 1
  {
    s.stack[|s.stack| - 1]
  }

  /** The innermost phase replaced by p; nothing below it changes. */
  function SetTop(s: ProfileState, p: PhaseState): (r: ProfileState)
    requires |s.stack| >= 1
    ensures |r.stack| == |s.stack| && r.names == s.names && Top(r) == p
    ensures r.stack[..|s.stack| - 1] == s.stack[..|s.stack| - 1]
    ensures Wf(s) && Ordered(p.values) && Ordered(p.phases) ==> Wf(r)
  {
    s.(stack := s.stack[|s.stack| - 1 := p])
  }

  /**
   * Profile(): the root phase alone on the stack, with its unnamed iteration opened at now.
   */
  function Start(now: Timespec): (s: ProfileState)
    ensures Wf(s) && |s.stack| == 1
    ensures Top(s).began && Top(s).iterations == [Str("")] && Top(s).values == [] && Top(s).phases == []
  {
    ProfileState([Phases.BeginIteration(NewPhase, Str(""), now).value], [])
  }

  /** A step of the innermost phase: its new state, or its fatal exit. */
  function OnTop(s: ProfileState, r: Result<PhaseState>): Result<ProfileState>
    requires |s.stack| >= 1
  {
    match r
    case Abort(why) => Abort(why)
    case Done(p) => Done(SetTop(s, p))
  }

  // ---------------------------------------------------------------- recording on the innermost phase

  /** addValue: the value goes to the innermost open phase, under the same rule as Phase's. */
  function AddValue(s: ProfileState, name: string, v: Value): (r: Result<ProfileState>)
    requires Wf(s)
    ensures r.Done? <==> |Top(s).iterations| >= 1 && |ValuesOf(Top(s), name)| == |Top(s).iterations| - 1
    ensures r.Abort? ==> r == Abort(Phases.AddValue(Top(s), name, v).reason)
    ensures r.Done? ==> (Wf(r.value) && |r.value.stack| == |s.stack| && r.value.names == s.names &&
      r.value.stack[..|s.stack| - 1] == s.stack[..|s.stack| - 1] &&
      ValuesOf(Top(r.value), name) == ValuesOf(Top(s), name) + [v])
  {
    OnTop(s, Phases.AddValue(Top(s), name, v))
  }

  /** beginIteration: opens an iteration of the innermost phase. */
  function BeginIteration(s: ProfileState, name: Attribute, now: Timespec): (r: Result<ProfileState>)
    requires Wf(s)
    ensures r.Done? <==> !Top(s).began
    ensures r.Abort? ==> r == Abort(StartedTwice)
    ensures r.Done? ==> (Wf(r.value) && |r.value.stack| == |s.stack| && r.value.names == s.names &&
      r.value.stack[..|s.stack| - 1] == s.stack[..|s.stack| - 1] &&
      Top(r.value).began && Top(r.value).iterations == Top(s).iterations + [name])
  {
    OnTop(s, Phases.BeginIteration(Top(s), name, now))
  }

  /** endIteration: closes the open iteration of the innermost phase and records its time. */
  function EndIteration(s: ProfileState, m: TimeMeasure, now: Timespec): (r: Result<ProfileState>)
    requires Wf(s)
    ensures r.Done? <==> Top(s).began
    ensures r.Abort? ==> r == Abort(EndedUnstarted)
    ensures r.Done? ==> (Wf(r.value) && |r.value.stack| == |s.stack| && r.value.names == s.names &&
      r.value.stack[..|s.stack| - 1] == s.stack[..|s.stack| - 1] &&
      !Top(r.value).began &&
      ValuesOf(Top(r.value), "time") == ValuesOf(Top(s), "time") + [TimeValue(Top(s).beginTime, now, m)])
  {
    OnTop(s, Phases.EndIteration(Top(s), m, now))
  }

  // ---------------------------------------------------------------- loops and phases

  /**
   * beginLoop: a new empty phase is added to the innermost one under name, under addPhase's
   * rule, and becomes the innermost.
   */
  function BeginLoop(s: ProfileState, name: string): (r: Result<ProfileState>)
    requires Wf(s)
    ensures r.Done? <==> Phases.AddPhase(Top(s), name, NewPhase).Done?
    ensures r.Abort? ==> r == Abort(Phases.AddPhase(Top(s), name, NewPhase).reason)
    ensures r.Done? ==> (Wf(r.value) && |r.value.stack| == |s.stack| + 1 && r.value.names == s.names + [name] &&
      Top(r.value) == NewPhase && r.value.stack[..|s.stack| - 1] == s.stack[..|s.stack| - 1] &&
      RunsOf(r.value.stack[|s.stack| - 1], name) == RunsOf(Top(s), name) + [NewPhase])
  {
    var n := |s.stack|;
    match Phases.AddPhase(Top(s), name, NewPhase)
    case Abort(why) => Abort(why)
    case Done(p) =>
      var r := ProfileState(s.stack[..n - 1] + [p, NewPhase], s.names + [name]);
      assert r.stack[..n - 1] == s.stack[..n - 1] && r.stack[n - 1] == p;
      Done(r)
  }

  /** A beginLoop that succeeds leaves the parent with the new run added and the new phase above it. */
  lemma BeginLoopPushes(s: ProfileState, name: string)
    requires Wf(s)
    ensures BeginLoop(s, name).Done? ==>
      BeginLoop(s, name).value == ProfileState(SetTop(s, Phases.AddPhase(Top(s), name, NewPhase).value).stack + [NewPhase], s.names + [name])
  {
    var n := |s.stack|;
    if BeginLoop(s, name).Done? {
      var p := Phases.AddPhase(Top(s), name, NewPhase).value;
      assert s.stack[..n - 1] + [p, NewPhase] == SetTop(s, p).stack + [NewPhase];
    }
  }

  /**
   * _current.pop(), seen from the tree: the innermost phase takes its place as the last run
   * of its name in the phase below, which becomes the innermost.
   */
  function Pop(s: ProfileState): (r: ProfileState)
    requires Wf(s) && |s.stack| >= 2
    ensures Wf(r) && |r.stack| == |s.stack| - 1 && r.names == s.names[..|s.stack| - 2]
    ensures r.stack[..|s.stack| - 2] == s.stack[..|s.stack| - 2]
  {
    var n := |s.stack|;
    var parent := WithLastRun(s.stack[n - 2], s.names[n - 2], s.stack[n - 1]);
    var r := ProfileState(s.stack[..n - 2] + [parent], s.names[..n - 2]);
    assert r.stack[..n - 2] == s.stack[..n - 2];
    r
  }

  /** Pop as two steps on the stack: the parent's entry replaced, then the top dropped. */
  lemma PopDrops(s: ProfileState)
    requires Wf(s) && |s.stack| >= 2
    ensures var n := |s.stack|;
      Pop(s) == ProfileState(s.stack[n - 2 := WithLastRun(s.stack[n - 2], s.names[n - 2], s.stack[n - 1])][..n - 1], s.names[..n - 2])
  {
  }

  /**
   * endLoop: refused while the innermost phase has an open iteration, and when the innermost
   * phase is the root (popping it empties the stack); otherwise the innermost phase is closed
   * into its parent.
   */
  function EndLoop(s: ProfileState): (r: Result<ProfileState>)
    requires Wf(s)
    ensures r.Done? <==> !Top(s).began && |s.stack| >= 2
    ensures r.Abort? ==> r == Abort(if Top(s).began then IterationEndMissing else PhaseBeginMissing)
    ensures r.Done? ==> var n := |s.stack|;
      Wf(r.value) && |r.value.stack| == n - 1 && r.value.names == s.names[..n - 2] &&
      r.value.stack[..n - 2] == s.stack[..n - 2] &&
      var rs := RunsOf(s.stack[n - 2], s.names[n - 2]);
      RunsOf(Top(r.value), s.names[n - 2]) == rs[..|rs| - 1] + [Top(s)]
  {
    if Top(s).began then Abort(IterationEndMissing)
    else if |s.stack| == 1 then Abort(PhaseBeginMissing)
    else Done(Pop(s))
  }

  /** beginPhase: beginLoop, then an unnamed iteration of the new phase opened at now. */
  function BeginPhase(s: ProfileState, name: string, now: Timespec): (r: Result<ProfileState>)
    requires Wf(s)
  {
    match BeginLoop(s, name)
    case Abort(why) => Abort(why)
    case Done(t) => BeginIteration(t, Str(""), now)
  }

  /** endPhase: endIteration on the innermost phase, then endLoop. */
  function EndPhase(s: ProfileState, m: TimeMeasure, now: Timespec): (r: Result<ProfileState>)
    requires Wf(s)
  {
    match EndIteration(s, m, now)
    case Abort(why) => Abort(why)
    case Done(t) => EndLoop(t)
  }

  /**
   * The tree the root pointer reaches: every open phase put back, from the top down, as the
   * last run of its name in its parent.
   */
  function Close(s: ProfileState): (p: PhaseState)
    requires Wf(s)
    ensures Ordered(p.values) && Ordered(p.phases)
    ensures |s.stack| == 1 ==> p == s.stack[0]
    decreases |s.stack|
  {
    if |s.stack| == 1 then s.stack[0] else Close(Pop(s))
  }

  /** The one-iteration phase a beginPhase at t0 and an endPhase at t1 leave behind. */
  function Timed(t0: Timespec, t1: Timespec, m: TimeMeasure): PhaseState
  {
    PhaseState([Str("")], [("time", [TimeValue(t0, t1, m)])], [], false, t0)
  }

  /** Adding a subphase and then replacing it by b is adding b, and both succeed together. */
  lemma AddPhaseThenReplace(p: PhaseState, name: string, a: PhaseState, b: PhaseState)
    requires AddPhase(p, name, a).Done?
    ensures AddPhase(p, name, b).Done?
    ensures WithLastRun(AddPhase(p, name, a).value, name, b) == AddPhase(p, name, b).value
  {
    var rs := RunsOf(p, name);
    var q := AddPhase(p, name, a).value;
    assert RunsOf(q, name)[..|RunsOf(q, name)| - 1] == rs;
    UpsertTwice(p.phases, name, PhaseList(rs + [a]), PhaseList(rs + [b]));
  }

  /** The state left after the stack regained its old depth with x in place of the old top. */
  lemma Replaced(s: ProfileState, t: ProfileState, x: PhaseState)
    requires |s.stack| >= 1 && |t.stack| == |s.stack| && t.names == s.names
    requires t.stack[..|s.stack| - 1] == s.stack[..|s.stack| - 1] && Top(t) == x
    ensures t == SetTop(s, x)
  {
    var n := |s.stack|;
    assert t.stack == t.stack[..n - 1] + [x];
    assert SetTop(s, x).stack == s.stack[..n - 1] + [x];
  }

  /**
   * beginLoop then at once endLoop: the innermost phase has one more run under name, a phase
   * with no iterations, and the stack is as it was.
   */
  lemma LoopCycle(s: ProfileState, name: string)
    requires Wf(s) && BeginLoop(s, name).Done?
    ensures EndLoop(BeginLoop(s, name).value) == Done(SetTop(s, AddPhase(Top(s), name, NewPhase).value))
  {
    var n := |s.stack|;
    var t := BeginLoop(s, name).value;
    var p := AddPhase(Top(s), name, NewPhase).value;
    assert t.stack == s.stack[..n - 1] + [p, NewPhase];
    AddPhaseThenReplace(Top(s), name, NewPhase, NewPhase);
    var r := EndLoop(t).value;
    assert Top(r) == WithLastRun(p, name, NewPhase);
    Replaced(s, r, p);
  }

  /** The innermost phase right after beginPhase: an empty phase with its unnamed iteration open. */
  function Opened(t0: Timespec): PhaseState
  {
    PhaseState([Str("")], [], [], true, t0)
  }

  /** beginPhase succeeds exactly when beginLoop does, and pushes a phase with its iteration open. */
  lemma BeginPhaseOpens(s: ProfileState, name: string, t0: Timespec)
    requires Wf(s) && BeginLoop(s, name).Done?
    ensures BeginPhase(s, name, t0) == Done(SetTop(BeginLoop(s, name).value, Opened(t0)))
  {
    var none: seq<Attribute> := [];
    assert none + [Str("")] == [Str("")];
  }

  /**
   * Whatever the phase opened by beginPhase at t0 records until it is y, endPhase at t1 then
   * leaves y, closed, as one more run under name in the innermost phase, and the stack as it was.
   */
  lemma EndPhaseCloses(s: ProfileState, name: string, t0: Timespec, y: PhaseState, t1: Timespec, m: TimeMeasure)
    requires Wf(s) && BeginLoop(s, name).Done?
    requires y.began && Ordered(y.values) && Ordered(y.phases)
    ensures AddPhase(Top(s), name, Phases.EndIteration(y, m, t1).value).Done?
    ensures var u := SetTop(BeginLoop(s, name).value, y);
      Wf(u) && EndPhase(u, m, t1) == Done(SetTop(s, AddPhase(Top(s), name, Phases.EndIteration(y, m, t1).value).value))
  {
    var n := |s.stack|;
    var t := BeginLoop(s, name).value;
    var a := AddPhase(Top(s), name, NewPhase).value;
    var u := SetTop(t, y);
    var closed := Phases.EndIteration(y, m, t1).value;
    var v := EndIteration(u, m, t1).value;
    assert v == SetTop(t, closed);
    assert v.stack == s.stack[..n - 1] + [a, closed] by {
      assert t.stack == s.stack[..n - 1] + [a, NewPhase];
    }
    AddPhaseThenReplace(Top(s), name, NewPhase, closed);
    var r := EndLoop(v).value;
    assert Top(r) == AddPhase(Top(s), name, closed).value;
    Replaced(s, r, AddPhase(Top(s), name, closed).value);
  }

  /** Closing the phase beginPhase opened at t0, with nothing recorded, at t1. */
  lemma ClosedTimed(t0: Timespec, t1: Timespec, m: TimeMeasure)
    ensures Phases.EndIteration(Opened(t0), m, t1) == Done(Timed(t0, t1, m))
  {
    var tv := TimeValue(t0, t1, m);
    var none: seq<Value> := [];
    assert none + [tv] == [tv];
    assert Append([], "time", tv) == [("time", [tv])];
  }

  /**
   * beginPhase at t0 and then endPhase at t1: the innermost phase has one more run under
   * name, a closed phase with the single unnamed iteration and its time, and the stack is as
   * it was. Both calls succeed exactly when beginLoop does.
   */
  lemma PhaseCycle(s: ProfileState, name: string, t0: Timespec, t1: Timespec, m: TimeMeasure)
    requires Wf(s) && BeginLoop(s, name).Done?
    ensures BeginPhase(s, name, t0).Done?
    ensures EndPhase(BeginPhase(s, name, t0).value, m, t1) == Done(SetTop(s, AddPhase(Top(s), name, Timed(t0, t1, m)).value))
  {
    BeginPhaseOpens(s, name, t0);
    EndPhaseCloses(s, name, t0, Opened(t0), t1, m);
    ClosedTimed(t0, t1, m);
  }

  /**
   * The tree of a profile started at t0 that ran beginPhase(name) at t1 and endPhase at t2,
   * once its root iteration is closed at t3: the root's unnamed iteration, its time, and one
   * closed run under name.
   */
  function SimpleTree(name: string, t0: Timespec, t1: Timespec, t2: Timespec, t3: Timespec, m: TimeMeasure): PhaseState
  {
    PhaseState([Str("")], [("time", [TimeValue(t0, t3, Milliseconds)])], [(name, PhaseList([Timed(t1, t2, m)]))], false, t0)
  }

  /** The root of a profile started at t0 once beginPhase(name) at t1 and endPhase at t2 have run. */
  function SimpleRoot(name: string, t0: Timespec, t1: Timespec, t2: Timespec, m: TimeMeasure): PhaseState
  {
    PhaseState([Str("")], [], [(name, PhaseList([Timed(t1, t2, m)]))], true, t0)
  }

  /** Profile() at t0, beginPhase(name) at t1 and endPhase() at t2: both succeed, and the root holds the closed run. */
  lemma SimplePhaseRuns(name: string, t0: Timespec, t1: Timespec, t2: Timespec, m: TimeMeasure)
    ensures BeginPhase(Start(t0), name, t1).Done?
    ensures EndPhase(BeginPhase(Start(t0), name, t1).value, m, t2) == Done(ProfileState([SimpleRoot(name, t0, t1, t2, m)], []))
  {
    var s := Start(t0);
    var leaf := Timed(t1, t2, m);
    var a := SimpleRoot(name, t0, t1, t2, m);
    assert Top(s).phases == [] && Top(s) == a.(phases := []);
    assert Phases.AddPhase(Top(s), name, leaf) == Done(a) by {
      assert GetOr([], name, PhaseList([])).items + [leaf] == [leaf];
    }
    assert Phases.AddPhase(Top(s), name, NewPhase).Done?;
    PhaseCycle(s, name, t1, t2, m);
  }

  /** Closing the root iteration at t3 adds its time and nothing else. */
  lemma SimpleRootCloses(name: string, t0: Timespec, t1: Timespec, t2: Timespec, t3: Timespec, m: TimeMeasure)
    ensures var s := ProfileState([SimpleRoot(name, t0, t1, t2, m)], []);
      Wf(s) && Close(CloseRoot(s, t3)) == SimpleTree(name, t0, t1, t2, t3, m)
  {
    var a := SimpleRoot(name, t0, t1, t2, m);
    var t := TimeValue(t0, t3, Milliseconds);
    var none: seq<(string, seq<Value>)> := [];
    assert GetOr(none, "time", []) + [t] == [t];
    assert Append(none, "time", t) == [("time", [t])];
    assert Phases.EndIteration(a, Milliseconds, t3) == Done(SimpleTree(name, t0, t1, t2, t3, m));
  }

  /** Profile(), beginPhase(name), endPhase(), then the root closed: both calls succeed and leave SimpleTree. */
  lemma SimplePhase(name: string, t0: Timespec, t1: Timespec, t2: Timespec, t3: Timespec, m: TimeMeasure)
    ensures BeginPhase(Start(t0), name, t1).Done?
    ensures var s := EndPhase(BeginPhase(Start(t0), name, t1).value, m, t2);
      s.Done? && Wf(s.value) && |s.value.stack| == 1 && Close(CloseRoot(s.value, t3)) == SimpleTree(name, t0, t1, t2, t3, m)
  {
    SimplePhaseRuns(name, t0, t1, t2, m);
    SimpleRootCloses(name, t0, t1, t2, t3, m);
  }

  /** The phase a beginPhase(outer) at t0, a beginPhase(inner) at t1, then endPhase at t2 and t3 leave. */
  function NestedTimed(inner: string, t0: Timespec, t1: Timespec, t2: Timespec, t3: Timespec, m: TimeMeasure): PhaseState
  {
    PhaseState([Str("")], [("time", [TimeValue(t0, t3, m)])], [(inner, PhaseList([Timed(t1, t2, m)]))], false, t0)
  }

  /**
   * Nested phases give nested subphases: the outer phase's single iteration holds its own
   * time and the inner phase, itself closed with its time; the stack is as it was.
   */
  lemma NestedPhases(s: ProfileState, outer: string, inner: string, t0: Timespec, t1: Timespec, t2: Timespec, t3: Timespec, m: TimeMeasure)
    requires Wf(s) && BeginLoop(s, outer).Done?
    ensures BeginPhase(s, outer, t0).Done?
    ensures var u := BeginPhase(s, outer, t0).value;
      BeginPhase(u, inner, t1).Done? &&
      var v := EndPhase(BeginPhase(u, inner, t1).value, m, t2);
      v.Done? && EndPhase(v.value, m, t3) == Done(SetTop(s, AddPhase(Top(s), outer, NestedTimed(inner, t0, t1, t2, t3, m)).value))
  {
    BeginPhaseOpens(s, outer, t0);
    var u := BeginPhase(s, outer, t0).value;
    assert BeginLoop(u, inner).Done?;
    PhaseCycle(u, inner, t1, t2, m);
    var y := AddPhase(Opened(t0), inner, Timed(t1, t2, m)).value;
    var noRuns: seq<PhaseState> := [];
    assert noRuns + [Timed(t1, t2, m)] == [Timed(t1, t2, m)];
    assert y == PhaseState([Str("")], [], [(inner, PhaseList([Timed(t1, t2, m)]))], true, t0);
    var tv := TimeValue(t0, t3, m);
    var none: seq<Value> := [];
    assert none + [tv] == [tv];
    assert Append([], "time", tv) == [("time", [tv])];
    EndPhaseCloses(s, outer, t0, y, t3, m);
  }

  /** Ending a loop moves the innermost phase into its parent; the tree stays the same. */
  lemma EndLoopKeepsTree(s: ProfileState)
    requires Wf(s) && EndLoop(s).Done?
    ensures Close(EndLoop(s).value) == Close(s)
  {
  }

  // ---------------------------------------------------------------- writing and reading

  /** toXml and print first close the root's open iteration, in milliseconds. */
  function CloseRoot(s: ProfileState, now: Timespec): (r: ProfileState)
    requires Wf(s)
    ensures Wf(r) && |r.stack| == |s.stack| && r.names == s.names && !r.stack[0].began
    ensures r.stack[1..] == s.stack[1..]
    ensures s.stack[0].began ==> r.stack[0] == Phases.EndIteration(s.stack[0], Milliseconds, now).value
    ensures !s.stack[0].began ==> r == s
  {
    if s.stack[0].began then
      var root := Phases.EndIteration(s.stack[0], Milliseconds, now).value;
      var r := s.(stack := s.stack[0 := root]);
      assert |s.names| > 0 ==> RunsOf(r.stack[0], s.names[0]) == RunsOf(s.stack[0], s.names[0]);
      r
    else s
  }

  /**
   * toXml: refused while any loop or phase is open; otherwise the root phase, its iteration
   * closed, written as a phase and the element renamed "profile".
   */
  function ToXml(s: ProfileState, now: Timespec): (r: Result<Node>)
    requires Wf(s)
    ensures |s.stack| > 1 ==> r == Abort(IncompleteProfile)
    ensures r.Done? ==> r.value.name == "profile" && |s.stack| == 1
    ensures |s.stack| == 1 ==> (r.Done? <==> PX.ToXml(CloseRoot(s, now).stack[0]).Done?)
  {
    if |s.stack| > 1 then Abort(IncompleteProfile)
    else
      match PX.ToXml(CloseRoot(s, now).stack[0])
      case Abort(why) => Abort(why)
      case Done(n) => Done(n.(name := "profile"))
  }

  /** The element fromXml hands to Phase::fromXml: renamed "phase", with an empty name attribute. */
  function AsPhase(n: Node): (m: Node)
    ensures m.name == "phase" && m.children == n.children
    ensures Lookup(m.attributes, "name") == Some(Str(""))
  {
    SetAttr(n.(name := "phase"), "name", Str(""))
  }

  /** fromXml can read n: another tag is refused before anything is read. */
  predicate Loadable(n: Node)
  {
    n.name == "profile" ==> PX.Readable(AsPhase(n))
  }

  /**
   * fromXml: any tag but "profile" gives no profile and leaves the element alone; otherwise
   * the root phase is read from the element as a phase with an empty name, and the element
   * gets its tag back but keeps the name attribute set to "".
   */
  function FromXml(n: Node): (r: (Option<PhaseState>, Node))
    requires Loadable(n)
    ensures r.0.Some? <==> n.name == "profile"
    ensures n.name != "profile" ==> r.1 == n
    ensures n.name == "profile" ==> (r.1.name == n.name && r.1.children == n.children &&
      Lookup(r.1.attributes, "name") == Some(Str("")) &&
      forall q :: q != "name" ==> Lookup(r.1.attributes, q) == Lookup(n.attributes, q))
  {
    if n.name != "profile" then (None, n)
    else
      var m := AsPhase(n);
      (PX.FromXml(m), m.(name := n.name))
  }

  /**
   * toXml then fromXml: a finished profile whose root, once closed, has its single unnamed
   * iteration and an entry for it under every name, is read back as that root, without the
   * open flag and the clock reading.
   */
  lemma RoundTrip(s: ProfileState, now: Timespec)
    requires Wf(s) && |s.stack| == 1
    requires var root := CloseRoot(s, now).stack[0]; PR.Restorable(root) && root.iterations == [Str("")]
    ensures ToXml(s, now).Done? && Loadable(ToXml(s, now).value)
    ensures FromXml(ToXml(s, now).value).0 == Some(PR.Stripped(CloseRoot(s, now).stack[0]))
  {
    var root := CloseRoot(s, now).stack[0];
    PR.RoundTrip(root, "");
    PR.ToXmlDone(root);
    var x := PX.ToXml(root).value;
    assert ToXml(s, now) == Done(x.(name := "profile"));
    assert AsPhase(x.(name := "profile")) == SetAttr(x, "name", Str(""));
  }

  /**
   * A root that ran several iterations, or one named iteration, is written as a "loop" under
   * the tag "profile", but fromXml reads that element as a phase: the iteration elements are
   * not among the children it reads, so the root comes back with a single unnamed iteration,
   * no subphases and an empty "time" list.
   */
  lemma LoopRootLost(s: ProfileState, now: Timespec)
    requires Wf(s) && |s.stack| == 1
    requires var root := CloseRoot(s, now).stack[0]; PR.Restorable(root) && root.iterations != [Str("")]
    ensures ToXml(s, now).Done? && Loadable(ToXml(s, now).value)
    ensures FromXml(ToXml(s, now).value).0 == Some(PhaseState([Str("")], [("time", [])], [], false, Timespec(0, 0)))
  {
    var root := CloseRoot(s, now).stack[0];
    PR.LoopXmlIterationsOnly(root);
    var x := PX.ToXml(root).value;
    assert ToXml(s, now) == Done(x.(name := "profile"));
    PR.ReadsNothing(AsPhase(x.(name := "profile")));
  }
}
