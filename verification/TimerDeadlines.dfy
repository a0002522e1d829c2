/** Runs of the timer queue: every armed timer fires when its time is up, and
    what can keep timers from firing at all. */
module TimerDeadlines {
  import opened TimerModel
  import opened TimerRuns

  datatype Op = Invoke(call: Call) | Elapse(dt: nat, script: seq<seq<Call>>) | TimeoutRead

  /** Timers exist, and none is set while it is linked with a time of 0. */
  ghost predicate Allowed(q: Queue, op: Op)
    requires Chained(q)
  {
    match op
    case Invoke(call) => call.id < |q.sched| && CallDefined(q, call)
    case Elapse(dt, script) => ScriptInRange(q, script) && AdvanceDefined(q, dt, script)
    case TimeoutRead => true
  }

  /** The queue after an operation, and the timers that fired in it. */
  ghost function Step(q: Queue, op: Op): (r: (Queue, seq<nat>))
    requires Chained(q) && Allowed(q, op)
    ensures Chained(r.0) && |r.0.sched| == |q.sched|
  {
    match op
    case Invoke(call) =>
      PerformChained(q, call);
      (Perform(q, call), [])
    case Elapse(dt, script) => Advance(q, dt, script)
    case TimeoutRead => (q.(reset := false), [])
  }

  ghost predicate IsRun(q: Queue, ops: seq<Op>)
    requires Chained(q)
    decreases |ops|
  {
    ops == [] || (Allowed(q, ops[0]) && IsRun(Step(q, ops[0]).0, ops[1..]))
  }

  ghost function After(q: Queue, ops: seq<Op>): (r: (Queue, seq<nat>))
    requires Chained(q) && IsRun(q, ops)
    ensures Chained(r.0)
    decreases |ops|
  {
    if ops == [] then (q, [])
    else
      var (q1, fired) := Step(q, ops[0]);
      var (q2, more) := After(q1, ops[1..]);
      (q2, fired + more)
  }

  /** The clock moves and is rebased only while no timer is overdue. */
  ghost predicate StepOnTime(q: Queue, op: Op) {
    op.Elapse? && !Stands(q) ==> NoneOverdue(q, op.dt)
  }

  ghost predicate OnTime(q: Queue, ops: seq<Op>)
    requires Chained(q) && IsRun(q, ops)
    decreases |ops|
  {
    ops == [] || (StepOnTime(q, ops[0]) && OnTime(Step(q, ops[0]).0, ops[1..]))
  }

  // ---------- between two operations no armed timer is due ----------

  lemma QuietIsNoneDue(q: Queue)
    requires InRange(q)
    ensures Quiet(q) <==> Due(q) == {}
  {
    if !Quiet(q) {
      var k :| 0 <= k < |q.ring| && q.sched[q.ring[k]] <= q.elapsed;
      assert q.ring[k] in Due(q);
    }
  }

  lemma StepQuiet(q: Queue, op: Op)
    requires Valid(q) && Quiet(q) && Allowed(q, op) && StepOnTime(q, op)
    ensures Valid(Step(q, op).0) && Quiet(Step(q, op).0)
  {
    hide Ordered, NoRepeats, ArmedAreLinked, FireDue, Perform, Tick, Defined, CallDefined, NoneOverdue;
    match op
    case Invoke(call) =>
      PerformValid(q, call);
      QuietIsNoneDue(q);
      QuietIsNoneDue(Perform(q, call));
    case Elapse(dt, script) =>
      if !Stands(q) {
        TickValid(q, dt);
        FireDueValid(Tick(q, dt), script);
      }
    case TimeoutRead =>
  }

  /** In every run that is on time the ring is sorted by deadline, holds exactly the
      armed timers, each once, and none of them is due. */
  lemma {:induction false} EveryRunStaysSorted(q: Queue, ops: seq<Op>)
    requires Valid(q) && Quiet(q) && IsRun(q, ops) && OnTime(q, ops)
    ensures Valid(After(q, ops).0) && Quiet(After(q, ops).0)
    ensures ExactlyArmed(After(q, ops).0.ring, After(q, ops).0.sched)
    decreases |ops|
  {
    hide Ordered, NoRepeats, Step, Allowed, StepOnTime;
    if ops == [] {
      QuietMembers(q);
    } else {
      StepQuiet(q, ops[0]);
      EveryRunStaysSorted(Step(q, ops[0]).0, ops[1..]);
    }
  }

  // ---------- a timer that is left alone ----------

  ghost predicate LeftAlone(op: Op, i: nat) {
    match op
    case Invoke(call) => !Touches(call, i)
    case Elapse(_, script) => Untouched(script, i)
    case TimeoutRead => true
  }

  /** Same timer, same deadline, same clock. */
  ghost predicate SameTimer(q: Queue, r: Queue, i: nat) {
    && i in q.ring && i in r.ring && i < |q.sched| == |r.sched|
    && r.sched[i] == q.sched[i] && r.elapsed == q.elapsed && r.reset == q.reset
  }

  lemma PerformKeeps(q: Queue, call: Call, i: nat)
    requires Chained(q) && call.id < |q.sched| && i in q.ring && !Touches(call, i)
    ensures SameTimer(q, Perform(q, call), i)
  {
    hide NoRepeats, ArmedAreLinked;
    if call.Set? && call.timeout > 0 {
      var q1 := if q.sched[call.id] != 0 then Remove(q, call.id) else q;
      assert i in q1.ring;
      InsertMembers(q1.ring, q1.sched[call.id := q1.elapsed + call.timeout], call.id);
    }
  }

  lemma LaterTouches(calls: seq<Call>, i: nat)
    requires calls != []
    ensures AnyTouches(calls[1..], i) ==> AnyTouches(calls, i)
  {
    if AnyTouches(calls[1..], i) {
      var k :| 0 <= k < |calls[1..]| && Touches(calls[1..][k], i);
      assert Touches(calls[k + 1], i);
    }
  }

  lemma {:induction false} PerformAllKeeps(q: Queue, calls: seq<Call>, i: nat)
    requires Chained(q) && CallsInRange(q, calls) && CallsDefined(q, calls) && i in q.ring && !AnyTouches(calls, i)
    ensures SameTimer(q, PerformAll(q, calls), i)
    decreases |calls|
  {
    hide NoRepeats, ArmedAreLinked, Perform, Touches;
    if calls != [] {
      PerformChained(q, calls[0]);
      PerformKeeps(q, calls[0], i);
      LaterTouches(calls, i);
      PerformAllKeeps(Perform(q, calls[0]), calls[1..], i);
    }
  }

  ghost predicate Untouched(script: seq<seq<Call>>, i: nat) {
    forall k :: 0 <= k < |script| ==> !AnyTouches(script[k], i)
  }

  lemma UntouchedParts(script: seq<seq<Call>>, i: nat)
    requires Untouched(script, i)
    ensures !AnyTouches(FirstCalls(script), i) && Untouched(LaterCalls(script), i)
  {
    NothingTouches(i);
  }

  lemma FireFirstKeeps(q: Queue, calls: seq<Call>, i: nat)
    requires Chained(q) && q.ring != [] && CallsInRange(q, calls) && CallsDefined(Popped(q), calls)
    requires i in q.ring && i != q.ring[0] && !AnyTouches(calls, i)
    ensures SameTimer(q, FireFirst(q, calls), i)
  {
    hide NoRepeats, ArmedAreLinked, AnyTouches, PerformAll, Zeros;
    PoppedChained(q);
    PerformAllKeeps(Popped(q), calls, i);
  }

  /** A timer that is not due and left alone stays as it is. */
  lemma {:induction false} FireDueKeeps(q: Queue, script: seq<seq<Call>>, i: nat)
    requires Chained(q) && ScriptInRange(q, script) && Defined(q, script)
    requires i in q.ring && i < |q.sched| && q.sched[i] > q.elapsed && Untouched(script, i)
    ensures SameTimer(q, FireDue(q, script).0, i) && i !in FireDue(q, script).1
    decreases Due(q)
  {
    hide NoRepeats, ArmedAreLinked, AnyTouches, FireFirst, Untouched, Zeros;
    if !Stops(q) {
      var calls := FirstCalls(script);
      UntouchedParts(script, i);
      FireFirstChained(q, calls);
      FireFirstKeeps(q, calls, i);
      FireDueKeeps(FireFirst(q, calls), LaterCalls(script), i);
    }
  }

  /** A timer that is due and left alone fires. */
  lemma {:induction false} FiresIfDue(q: Queue, script: seq<seq<Call>>, i: nat)
    requires Valid(q) && ScriptInRange(q, script) && Defined(q, script)
    requires i in q.ring && i < |q.sched| && q.sched[i] <= q.elapsed && Untouched(script, i)
    ensures i in FireDue(q, script).1
    decreases Due(q)
  {
    hide Ordered, NoRepeats, ArmedAreLinked, AnyTouches, FireFirst, Untouched, Zeros;
    if Stops(q) {
      NothingDue(q);
      QuietMembers(q);
    } else {
      var calls := FirstCalls(script);
      UntouchedParts(script, i);
      FireFirstChained(q, calls);
      FireFirstValid(q, calls);
      if i != q.ring[0] {
        FireFirstKeeps(q, calls, i);
        FiresIfDue(FireFirst(q, calls), LaterCalls(script), i);
      }
    }
  }

  ghost function Remaining(q: Queue, i: nat): int
    requires i < |q.sched|
  {
    q.sched[i] - q.elapsed
  }

  /** One advance and one timer left alone: it fires if its time is up, and otherwise
      has that much less time left. */
  lemma AdvanceOneTimer(q: Queue, dt: nat, script: seq<seq<Call>>, i: nat)
    requires Valid(q) && NoneOverdue(q, dt) && ScriptInRange(q, script) && AdvanceDefined(q, dt, script)
    requires !q.reset && i in q.ring && Untouched(script, i)
    ensures var (r, fired) := Advance(q, dt, script);
      && i < |q.sched| && (i in fired <==> Remaining(q, i) <= dt)
      && (i !in fired ==> i in r.ring && i < |r.sched| && !r.reset && Remaining(r, i) == Remaining(q, i) - dt)
    ensures Valid(Advance(q, dt, script).0)
  {
    hide Ordered, NoRepeats, ArmedAreLinked, AnyTouches, FireDue, Tick, Defined, Untouched, NoneOverdue;
    TickValid(q, dt);
    FireDueValid(Tick(q, dt), script);
    if Remaining(q, i) > dt {
      FireDueKeeps(Tick(q, dt), script, i);
    } else {
      FiresIfDue(Tick(q, dt), script, i);
    }
  }

  function TotalTime(ops: seq<Op>): nat {
    if ops == [] then 0 else (if ops[0].Elapse? then ops[0].dt else 0) + TotalTime(ops[1..])
  }

  lemma {:induction false} NotBeforeItsTime(q: Queue, ops: seq<Op>, i: nat)
    requires Valid(q) && IsRun(q, ops) && OnTime(q, ops) && !q.reset && i in q.ring && Remaining(q, i) > 0
    requires forall k :: 0 <= k < |ops| ==> LeftAlone(ops[k], i)
    ensures i in After(q, ops).1 <==> Remaining(q, i) <= TotalTime(ops)
    decreases |ops|
  {
    hide Ordered, NoRepeats, ArmedAreLinked, Untouched, Touches, Advance, Perform, AdvanceDefined, NoneOverdue;
    if ops != [] {
      assert LeftAlone(ops[0], i);
      var (q1, fired) := Step(q, ops[0]);
      match ops[0] {
        case Invoke(call) =>
          PerformKeeps(q, call, i);
          PerformValid(q, call);
        case Elapse(dt, script) => AdvanceOneTimer(q, dt, script, i);
        case TimeoutRead =>
      }
      if i !in fired {
        NotBeforeItsTime(q1, ops[1..], i);
      }
    }
  }

  lemma SetArms(q: Queue, i: nat, timeout: nat)
    requires Valid(q) && i < |q.sched| && timeout > 0 && CallDefined(q, Set(i, timeout))
    ensures var r := SetTimer(q, i, timeout);
      && Valid(r) && i in r.ring && i < |r.sched| && Remaining(r, i) == timeout
  {
    hide Ordered, NoRepeats, ArmedAreLinked;
    SetValid(q, i, timeout);
    var q1 := if q.sched[i] != 0 then Remove(q, i) else q;
    InsertMembers(q1.ring, q1.sched[i := q1.elapsed + timeout], i);
  }

  /** Arming a timer leaves the clock running exactly when it was running and the
      timer is not the only one armed. */
  lemma SetKeepsClockRunning(q: Queue, i: nat, timeout: nat)
    requires Chained(q) && i < |q.sched| && timeout > 0 && CallDefined(q, Set(i, timeout))
    ensures !SetTimer(q, i, timeout).reset <==> !q.reset && !(i in q.ring && forall x :: x in q.ring ==> x == i)
  {
    hide NoRepeats;
    if q.sched[i] != 0 {
      var rest := Without(q.ring, i);
      if rest != [] {
        assert rest[0] in rest;
      }
    }
  }

  /** A timer armed for `timeout` and then left alone fires in the run exactly when
      the advances of the run add up to that much, provided the clock runs. */
  lemma ArmedTimerFiresOnTime(q: Queue, i: nat, timeout: nat, ops: seq<Op>)
    requires Valid(q) && i < |q.sched| && timeout > 0 && CallDefined(q, Set(i, timeout))
    requires !SetTimer(q, i, timeout).reset && Chained(SetTimer(q, i, timeout))
    requires IsRun(SetTimer(q, i, timeout), ops) && OnTime(SetTimer(q, i, timeout), ops)
    requires forall k :: 0 <= k < |ops| ==> LeftAlone(ops[k], i)
    ensures i in After(SetTimer(q, i, timeout), ops).1 <==> timeout <= TotalTime(ops)
  {
    hide Valid, SetTimer, LeftAlone, IsRun, OnTime, After, TotalTime, CallDefined;
    SetArms(q, i, timeout);
    NotBeforeItsTime(SetTimer(q, i, timeout), ops, i);
  }

  // ---------- a clock that stands still ----------

  lemma PerformStaysReset(q: Queue, call: Call)
    requires q.reset && call.id < |q.sched|
    ensures Perform(q, call).reset
  {
  }

  /** Once killing the last timer has reset the clock, nothing fires, whatever is
      armed and however long it takes, until the timeout is read. */
  lemma {:induction false} NothingFiresUntilTimeoutRead(q: Queue, ops: seq<Op>)
    requires Chained(q) && q.reset && IsRun(q, ops) && forall k :: 0 <= k < |ops| ==> !ops[k].TimeoutRead?
    ensures After(q, ops).1 == [] && After(q, ops).0.reset
    decreases |ops|
  {
    hide NoRepeats, ArmedAreLinked, Perform;
    if ops != [] {
      if ops[0].Invoke? {
        PerformStaysReset(q, ops[0].call);
      }
      assert Step(q, ops[0]).0.reset;
      NothingFiresUntilTimeoutRead(Step(q, ops[0]).0, ops[1..]);
    }
  }

  /** Reading the timeout gives the smallest remaining time of an armed timer. */
  lemma TimeoutIsTheSmallest(q: Queue, i: nat)
    requires Valid(q) && i in q.ring
    ensures q.ring != [] && q.ring[0] < |q.sched| && i < |q.sched| && Remaining(q, q.ring[0]) <= Remaining(q, i)
  {
    FirstIsEarliest(q, i);
  }

  /** Killing the only timer sets the clock to zero and stops it; killing one of several
      leaves the clock as it is, and both leave the other timers alone. */
  lemma KillStopsClockIff(q: Queue, i: nat)
    requires Chained(q) && i < |q.sched| && q.sched[i] > 0
    ensures var r := KillTimer(q, i);
      && i !in r.ring && r.sched == q.sched[i := 0]
      && if forall x :: x in q.ring ==> x == i then r.ring == [] && r.elapsed == 0 && r.reset
         else r.ring != [] && r.elapsed == q.elapsed && r.reset == q.reset
  {
    OnlyOne(q.ring, i);
    if x :| x in q.ring && x != i {
      assert x in Without(q.ring, i);
    }
  }

  lemma {:induction false} OnlyOne(ring: seq<nat>, i: nat)
    ensures (forall x :: x in ring ==> x == i) ==> Without(ring, i) == []
  {
    if ring != [] {
      OnlyOne(ring[1..], i);
      assert ring[0] in ring && forall x :: x in ring[1..] ==> x in ring;
    }
  }
}
