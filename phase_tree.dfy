/**
 * burning::profiling::Phase as a value: the iteration labels, the values and subphases recorded
 * per iteration, and the open-iteration flag with the clock reading taken when it opened.
 * The recording steps are functions from the old state to the new one, or to the fatal exit
 * the source takes instead.
 */
module Phases {
  import opened Wrappers
  import opened Strings
  import opened OrderedMaps
  import opened Attributes
  import opened Values

  /** A CLOCK_MONOTONIC reading: seconds and nanoseconds. */
  datatype Timespec = Timespec(sec: int, nsec: int)

  /** TimeMeasure: the unit a duration is reported in. */
  datatype TimeMeasure = Seconds | Milliseconds | Microseconds | Nanoseconds

  const NanosecondsPerSecond: nat := 1_000_000_000

  /** The enumerator's value: how many of the unit make one second. */
  function PerSecond(m: TimeMeasure): (u: nat)
    ensures 0 < u <= NanosecondsPerSecond && NanosecondsPerSecond % u == 0
  {
    match m
    case Seconds => 1
    case Milliseconds => 1000
    case Microseconds => 1_000_000
    case Nanoseconds => 1_000_000_000
  }

  /** The unit name endIteration stores with the time. */
  function MeasureName(m: TimeMeasure): string
  {
    match m
    case Seconds => "s"
    case Milliseconds => "ms"
    case Microseconds => "mcs"
    case Nanoseconds => "ns"
  }

  /** The C++ integer division: the quotient is truncated toward zero. */
  function TruncDiv(a: int, b: int): int
    requires b > 0
  {
    if a >= 0 then a / b else -((-a) / b)
  }

  /**
   * The duration endIteration computes: whole seconds scaled to the unit, plus the nanosecond
   * difference divided by the nanoseconds in one unit. The nanosecond difference may be
   * negative, and its quotient then rounds toward zero.
   */
  function Elapsed(start: Timespec, end: Timespec, m: TimeMeasure): int
  {
    (end.sec - start.sec) * PerSecond(m) + TruncDiv(end.nsec - start.nsec, NanosecondsPerSecond / PerSecond(m))
  }

  /** The Value endIteration records: the duration as a decimal, with the unit name. */
  function TimeValue(start: Timespec, end: Timespec, m: TimeMeasure): Value
  {
    Value(Decimal(IntText(Elapsed(start, end, m))), MeasureName(m))
  }

  /** The subphases recorded under one name, one per iteration (vector<PhasePtr>). */
  datatype PhaseList = PhaseList(items: seq<PhaseState>)

  /**
   * The fields of a Phase. Values and subphases are std::maps, kept as ordered association
   * lists; the subphase pointers are the subphases' own states.
   */
  datatype PhaseState = PhaseState(
    iterations: seq<Attribute>,
    values: seq<(string, seq<Value>)>,
    phases: seq<(string, PhaseList)>,
    began: bool,
    beginTime: Timespec)

  /**
   * Phase(): nothing recorded and no iteration open. The source leaves _beginTime
   * uninitialised; it is only read after beginIteration has set it, and the model starts it at zero.
   */
  const NewPhase: PhaseState := PhaseState([], [], [], false, Timespec(0, 0))

  /** Both maps are ordered, at every level of the tree. */
  predicate Wf(p: PhaseState)
  {
    Ordered(p.values) && Ordered(p.phases) &&
    forall e, q :: e in p.phases && q in e.1.items ==> Wf(q)
  }

  /** _values[name] as read by the checks: an absent name has no values. */
  function ValuesOf(p: PhaseState, name: string): seq<Value>
  {
    GetOr(p.values, name, [])
  }

  /** _phases[name] as read by the checks: an absent name has no subphases. */
  function RunsOf(p: PhaseState, name: string): seq<PhaseState>
  {
    GetOr(p.phases, name, PhaseList([])).items
  }

  /** _phases[name].push_back(q). */
  function AppendRun(es: seq<(string, PhaseList)>, name: string, q: PhaseState): seq<(string, PhaseList)>
  {
    Upsert(es, name, PhaseList(GetOr(es, name, PhaseList([])).items + [q]))
  }

  /** The largest size_t: what _iterations.size() - 1 wraps to when there are no iterations. */
  const SizeMax: nat := 0xFFFF_FFFF_FFFF_FFFF

  /** size() - 1 in size_t arithmetic. */
  function SizeMinusOne(n: nat): nat
  {
    if n == 0 then SizeMax else n - 1
  }

  /**
   * addValue: the name must have a value for every earlier iteration and none yet for the
   * current one; the value is then appended to that name's list. The open flag is not consulted.
   */
  function AddValue(p: PhaseState, name: string, v: Value): (r: Result<PhaseState>)
    ensures r.Done? <==> |p.iterations| >= 1 && |ValuesOf(p, name)| == |p.iterations| - 1
    ensures r.Abort? ==> r.reason == if |ValuesOf(p, name)| < |p.iterations| - 1 then ValueMissed else ValueWithoutIteration
    ensures r.Done? ==> var q := r.value;
      ValuesOf(q, name) == ValuesOf(p, name) + [v] &&
      (forall k :: k != name ==> Lookup(q.values, k) == Lookup(p.values, k)) &&
      q.iterations == p.iterations && q.phases == p.phases && q.began == p.began && q.beginTime == p.beginTime &&
      (Ordered(p.values) ==> Ordered(q.values))
  {
    var n := |p.iterations|;
    var k := |ValuesOf(p, name)|;
    if n > 0 && k < n - 1 then Abort(ValueMissed)
    else if n <= k then Abort(ValueWithoutIteration)
    else
      var vs := Append(p.values, name, v);
      UpsertSpec(p.values, name, ValuesOf(p, name) + [v]);
      if Ordered(p.values) then UpsertOrdered(p.values, name, ValuesOf(p, name) + [v]); Done(p.(values := vs))
      else Done(p.(values := vs))
  }

  /**
   * addPhase: the same rule on the subphase list of the name, with the first check made in
   * size_t arithmetic, where size() - 1 wraps at zero iterations.
   */
  function AddPhase(p: PhaseState, name: string, sub: PhaseState): (r: Result<PhaseState>)
    ensures r.Done? ==> var q := r.value;
      RunsOf(q, name) == RunsOf(p, name) + [sub] &&
      (forall k :: k != name ==> Lookup(q.phases, k) == Lookup(p.phases, k)) &&
      q.iterations == p.iterations && q.values == p.values && q.began == p.began && q.beginTime == p.beginTime &&
      (Ordered(p.phases) ==> Ordered(q.phases))
  {
    var n := |p.iterations|;
    var k := |RunsOf(p, name)|;
    if k < SizeMinusOne(n) then Abort(SubphaseMissed)
    else if k >= n then Abort(SubphaseWithoutIteration)
    else
      var l := PhaseList(RunsOf(p, name) + [sub]);
      UpsertSpec(p.phases, name, l);
      if Ordered(p.phases) then UpsertOrdered(p.phases, name, l); Done(p.(phases := AppendRun(p.phases, name, sub)))
      else Done(p.(phases := AppendRun(p.phases, name, sub)))
  }

  /**
   * addPhase succeeds exactly when there is an iteration and the name has a subphase for every
   * earlier one but not the current one; so with no iterations it always aborts. A failure is
   * "subphase missed" when runs for earlier iterations are lacking, else "subphase without iteration".
   */
  lemma AddPhaseOutcome(p: PhaseState, name: string, sub: PhaseState)
    requires |RunsOf(p, name)| < SizeMax
    ensures AddPhase(p, name, sub).Done? <==> |p.iterations| >= 1 && |RunsOf(p, name)| == |p.iterations| - 1
    ensures |p.iterations| == 0 ==> AddPhase(p, name, sub) == Abort(SubphaseMissed)
    ensures AddPhase(p, name, sub).Abort? ==>
      AddPhase(p, name, sub).reason ==
        (if |RunsOf(p, name)| < SizeMinusOne(|p.iterations|) then SubphaseMissed else SubphaseWithoutIteration)
  {
  }

  /** beginIteration: aborts while an iteration is open, else opens one with the given name at time now. */
  function BeginIteration(p: PhaseState, name: Attribute, now: Timespec): (r: Result<PhaseState>)
    ensures r.Done? <==> !p.began
    ensures r.Abort? ==> r.reason == StartedTwice
    ensures r.Done? ==> (r.value.began && r.value.iterations == p.iterations + [name] &&
                         r.value.values == p.values && r.value.phases == p.phases && r.value.beginTime == now)
  {
    if p.began then Abort(StartedTwice)
    else Done(p.(began := true, iterations := p.iterations + [name], beginTime := now))
  }

  /**
   * endIteration: aborts when no iteration is open, else closes it and appends the time since
   * it opened, in the given unit, to the "time" values.
   */
  function EndIteration(p: PhaseState, m: TimeMeasure, now: Timespec): (r: Result<PhaseState>)
    ensures r.Done? <==> p.began
    ensures r.Abort? ==> r.reason == EndedUnstarted
    ensures r.Done? ==> var q := r.value;
      !q.began && q.iterations == p.iterations && q.phases == p.phases &&
      ValuesOf(q, "time") == ValuesOf(p, "time") + [TimeValue(p.beginTime, now, m)] &&
      (forall k :: k != "time" ==> Lookup(q.values, k) == Lookup(p.values, k)) &&
      (Ordered(p.values) ==> Ordered(q.values))
  {
    if !p.began then Abort(EndedUnstarted)
    else
      var t := TimeValue(p.beginTime, now, m);
      UpsertSpec(p.values, "time", ValuesOf(p, "time") + [t]);
      if Ordered(p.values) then UpsertOrdered(p.values, "time", ValuesOf(p, "time") + [t]);
        Done(p.(began := false, values := Append(p.values, "time", t)))
      else Done(p.(began := false, values := Append(p.values, "time", t)))
  }

  /** isLoop: more than one iteration, or a single one whose name is not the string "". */
  function IsLoop(p: PhaseState): (b: bool)
    ensures b <==> |p.iterations| >= 1 && p.iterations != [Str("")]
  {
    if |p.iterations| > 1 then true
    else if |p.iterations| == 0 then false
    else
      assert p.iterations == [p.iterations[0]];
      !Equal(p.iterations[0], Str(""))
  }

  /** Dividing with truncation leaves a remainder smaller than the divisor and of the dividend's sign. */
  lemma TruncDivRemainder(a: int, b: int)
    requires b > 0
    ensures var r := a - TruncDiv(a, b) * b; -b < r < b && (a >= 0 ==> r >= 0) && (a <= 0 ==> r <= 0)
    ensures TruncDiv(-a, b) == -TruncDiv(a, b)
  {
    if a < 0 {
      assert a - TruncDiv(a, b) * b == -((-a) - ((-a) / b) * b);
    }
  }

  /** In nanoseconds the duration is exact. */
  lemma ElapsedNanoseconds(start: Timespec, end: Timespec)
    ensures Elapsed(start, end, Nanoseconds) == (end.sec - start.sec) * NanosecondsPerSecond + (end.nsec - start.nsec)
  {
  }

  /**
   * beginIteration then endIteration on a phase with no open iteration: one more name, the
   * flag closed again, and exactly one more time value, measured between the two readings.
   */
  lemma BeginEndCycle(p: PhaseState, name: Attribute, t0: Timespec, t1: Timespec, m: TimeMeasure)
    requires !p.began
    ensures BeginIteration(p, name, t0).Done?
    ensures var q := BeginIteration(p, name, t0).value;
      EndIteration(q, m, t1).Done? &&
      var r := EndIteration(q, m, t1).value;
      !r.began && r.iterations == p.iterations + [name] && r.phases == p.phases &&
      ValuesOf(r, "time") == ValuesOf(p, "time") + [TimeValue(t0, t1, m)]
  {
  }

  /** The open flag alternates: a second beginIteration and an unmatched endIteration both abort. */
  lemma IterationsAlternate(p: PhaseState, name: Attribute, t0: Timespec, t1: Timespec, m: TimeMeasure)
    requires !p.began
    ensures EndIteration(p, m, t1) == Abort(EndedUnstarted)
    ensures BeginIteration(BeginIteration(p, name, t0).value, name, t1) == Abort(StartedTwice)
  {
  }

  /**
   * The subphase last recorded under name, seen as q: the parent holds a pointer to the child,
   * so what the child records after addPhase is what the parent's list shows.
   */
  function WithLastRun(p: PhaseState, name: string, q: PhaseState): (r: PhaseState)
    requires |RunsOf(p, name)| >= 1
    ensures var rs := RunsOf(p, name); RunsOf(r, name) == rs[..|rs| - 1] + [q]
    ensures forall k :: k != name ==> Lookup(r.phases, k) == Lookup(p.phases, k)
    ensures r.iterations == p.iterations && r.values == p.values && r.began == p.began && r.beginTime == p.beginTime
    ensures Ordered(p.phases) ==> Ordered(r.phases)
  {
    var rs := RunsOf(p, name);
    var l := PhaseList(rs[..|rs| - 1] + [q]);
    UpsertSpec(p.phases, name, l);
    if Ordered(p.phases) then UpsertOrdered(p.phases, name, l); p.(phases := Upsert(p.phases, name, l))
    else p.(phases := Upsert(p.phases, name, l))
  }
}
