/** What goes wrong when the clock of the timer queue is rebased: a timer that is
    overdue gets a deadline far away and holds up those behind it, and a timer
    that is due at that very moment cannot be killed any more. */
module TimerOverdue {
  import opened TimerModel
  import opened TimerRuns
  import opened TimerDeadlines

  // ---------- one advance ----------

  ghost predicate Fits32(q: Queue, dt: nat) {
    q.elapsed + dt < UINT32 && forall i :: 0 <= i < |q.sched| ==> q.sched[i] < UINT32
  }

  /** With a timer overdue, the advance that rebases the clock fires nothing at all: the
      first timer is now due in 2^32 less its delay. */
  lemma OverdueFiresNothing(q: Queue, dt: nat, script: seq<seq<Call>>)
    requires Valid(q) && !Stands(q) && Fits32(q, dt) && ScriptInRange(q, script) && !NoneOverdue(q, dt)
    ensures AdvanceDefined(q, dt, script) && Advance(q, dt, script) == (Tick(q, dt), [])
    ensures var h, r := q.ring[0], Tick(q, dt);
      q.sched[h] < q.elapsed + dt && r.elapsed == 0 && r.sched[h] == q.sched[h] - (q.elapsed + dt) + UINT32
  {
    hide Ordered, NoRepeats, ArmedAreLinked, Minus;
    var x :| x in q.ring && x < |q.sched| && q.sched[x] < q.elapsed + dt;
    FirstIsEarliest(q, x);
    MinusBorrows(q.sched[q.ring[0]], q.elapsed + dt);
    TickChained(q, dt);
    assert q.ring[0] in q.ring;
    assert Stops(Tick(q, dt));
  }

  /** An advance that finds timers due fires some of them if and only if it does not
      rebase the clock, or none of them is overdue. */
  lemma DueFireIffNoneOverdue(q: Queue, dt: nat, script: seq<seq<Call>>)
    requires Valid(q) && !Stands(q) && Fits32(q, dt) && ScriptInRange(q, script) && AdvanceDefined(q, dt, script)
    requires DueOf(q.ring, q.sched, q.elapsed + dt) != []
    ensures Advance(q, dt, script).1 != [] <==> NoneOverdue(q, dt)
  {
    hide Ordered, NoRepeats, ArmedAreLinked, Tick, Defined, NoneOverdue;
    if NoneOverdue(q, dt) {
      TickValid(q, dt);
      if Stops(Tick(q, dt)) {
        NothingDue(Tick(q, dt));
      }
    } else {
      OverdueFiresNothing(q, dt, script);
    }
  }

  // ---------- the timers behind ----------

  /** h stands before x. */
  predicate Before(ring: seq<nat>, h: nat, x: nat) {
    ring != [] && if ring[0] == h then x in ring[1..] else ring[0] != x && Before(ring[1..], h, x)
  }

  lemma {:induction false} BeforeMembers(ring: seq<nat>, h: nat, x: nat)
    requires Before(ring, h, x)
    ensures h in ring && x in ring
  {
    if ring[0] != h {
      BeforeMembers(ring[1..], h, x);
    }
  }

  lemma {:induction false} BeforeInsert(a: seq<nat>, b: seq<nat>, id: nat, h: nat, x: nat)
    requires Before(a + b, h, x) && id != h && id != x
    ensures Before(a + [id] + b, h, x)
  {
    var r := a + [id] + b;
    if a == [] {
      assert a + b == b && r[1..] == b;
    } else {
      assert (a + b)[0] == r[0] == a[0];
      assert (a + b)[1..] == a[1..] + b && r[1..] == a[1..] + [id] + b;
      if a[0] != h {
        BeforeInsert(a[1..], b, id, h, x);
      }
    }
  }

  lemma {:induction false} InsertSplits(ring: seq<nat>, sched: seq<nat>, id: nat) returns (k: nat)
    ensures k <= |ring| && Insert(ring, sched, id) == ring[..k] + [id] + ring[k..]
    decreases |ring|
  {
    if ring == [] {
      k := 0;
    } else {
      var n := |ring| - 1;
      if ring[n] < |sched| && id < |sched| && sched[ring[n]] > sched[id] {
        k := InsertSplits(ring[..n], sched, id);
        assert ring[..n][..k] == ring[..k] && ring[..n][k..] + [ring[n]] == ring[k..];
        assert Insert(ring, sched, id) == ring[..k] + [id] + ring[k..];
      } else {
        k := |ring|;
        assert ring[..k] == ring && ring[k..] == [];
      }
    }
  }

  lemma InsertKeepsOrder(ring: seq<nat>, sched: seq<nat>, id: nat, h: nat, x: nat)
    requires Before(ring, h, x) && id != h && id != x
    ensures Before(Insert(ring, sched, id), h, x)
  {
    hide Insert, Before;
    var k := InsertSplits(ring, sched, id);
    assert ring[..k] + ring[k..] == ring;
    BeforeInsert(ring[..k], ring[k..], id, h, x);
  }

  lemma {:induction false} WithoutKeepsOrder(ring: seq<nat>, id: nat, h: nat, x: nat)
    requires Before(ring, h, x) && id != h && id != x
    ensures Before(Without(ring, id), h, x)
  {
    if ring[0] != h {
      WithoutKeepsOrder(ring[1..], id, h, x);
      var rest := Without(ring[1..], id);
      assert ([ring[0]] + rest)[1..] == rest;
    }
  }

  lemma PerformKeepsOrder(q: Queue, call: Call, h: nat, x: nat)
    requires call.id < |q.sched| && Before(q.ring, h, x) && !Touches(call, h) && !Touches(call, x)
    ensures Before(Perform(q, call).ring, h, x)
  {
    hide Before, Insert;
    if Touches(call, call.id) {
      WithoutKeepsOrder(q.ring, call.id, h, x);
      if call.Set? {
        var q1 := if q.sched[call.id] != 0 then Remove(q, call.id) else q;
        InsertKeepsOrder(q1.ring, q1.sched[call.id := q1.elapsed + call.timeout], call.id, h, x);
      }
    }
  }

  lemma {:induction false} PerformAllKeepsOrder(q: Queue, calls: seq<Call>, h: nat, x: nat)
    requires CallsInRange(q, calls) && Before(q.ring, h, x) && !AnyTouches(calls, h) && !AnyTouches(calls, x)
    ensures Before(PerformAll(q, calls).ring, h, x)
    decreases |calls|
  {
    hide Before, Perform, Touches;
    if calls != [] {
      PerformKeepsOrder(q, calls[0], h, x);
      LaterTouches(calls, h);
      LaterTouches(calls, x);
      PerformAllKeepsOrder(Perform(q, calls[0]), calls[1..], h, x);
    }
  }

  /** The loop never gets past a timer that is not due. */
  lemma {:induction false} LoopStopsBefore(q: Queue, script: seq<seq<Call>>, h: nat, x: nat)
    requires Chained(q) && ScriptInRange(q, script) && Defined(q, script) && Before(q.ring, h, x)
    requires h < |q.sched| && q.sched[h] > q.elapsed && Untouched(script, h) && Untouched(script, x)
    ensures Before(FireDue(q, script).0.ring, h, x) && x !in FireDue(q, script).1
    ensures SameTimer(q, FireDue(q, script).0, h)
    decreases Due(q)
  {
    hide NoRepeats, ArmedAreLinked, AnyTouches, FireFirst, Untouched, Zeros, PerformAll;
    BeforeMembers(q.ring, h, x);
    if !Stops(q) {
      var calls := FirstCalls(script);
      UntouchedParts(script, h);
      UntouchedParts(script, x);
      FireFirstChained(q, calls);
      FireFirstKeeps(q, calls, h);
      FireFirstKeepsOrder(q, calls, h, x);
      LoopStopsBefore(FireFirst(q, calls), LaterCalls(script), h, x);
    }
  }

  lemma FireFirstKeepsOrder(q: Queue, calls: seq<Call>, h: nat, x: nat)
    requires Chained(q) && q.ring != [] && CallsInRange(q, calls) && Before(q.ring, h, x) && q.ring[0] != h
    requires !AnyTouches(calls, h) && !AnyTouches(calls, x)
    ensures q.ring[0] != x && Before(FireFirst(q, calls).ring, h, x)
  {
    hide AnyTouches, PerformAll, NoRepeats, ArmedAreLinked;
    PerformAllKeepsOrder(Popped(q), calls, h, x);
  }

  lemma AdvanceStopsBefore(q: Queue, dt: nat, script: seq<seq<Call>>, h: nat, x: nat)
    requires Chained(q) && ScriptInRange(q, script) && AdvanceDefined(q, dt, script) && Before(q.ring, h, x)
    requires h < |q.sched| && Remaining(q, h) > dt && Untouched(script, h) && Untouched(script, x)
    ensures var (r, fired) := Advance(q, dt, script);
      && Before(r.ring, h, x) && x !in fired && h < |r.sched|
      && Remaining(q, h) - dt <= Remaining(r, h)
  {
    hide NoRepeats, ArmedAreLinked, Defined, FireDue, Before, Untouched;
    BeforeMembers(q.ring, h, x);
    if !Stands(q) {
      TickChained(q, dt);
      LoopStopsBefore(Tick(q, dt), script, h, x);
    }
  }

  /** In every run, rebases included: while a timer is linked and not due, and it and x
      are left alone, a timer x behind it does not fire, however long it is due. */
  lemma {:induction false} BehindNeverFires(q: Queue, ops: seq<Op>, h: nat, x: nat)
    requires Chained(q) && IsRun(q, ops) && Before(q.ring, h, x) && h < |q.sched|
    requires TotalTime(ops) < Remaining(q, h)
    requires forall k :: 0 <= k < |ops| ==> LeftAlone(ops[k], h) && LeftAlone(ops[k], x)
    ensures x !in After(q, ops).1 && Before(After(q, ops).0.ring, h, x)
    decreases |ops|
  {
    hide NoRepeats, ArmedAreLinked, Before, Untouched, Touches, Perform, Advance, AdvanceDefined, CallDefined;
    if ops != [] {
      assert LeftAlone(ops[0], h) && LeftAlone(ops[0], x);
      BeforeMembers(q.ring, h, x);
      match ops[0] {
        case Invoke(call) =>
          PerformKeeps(q, call, h);
          PerformKeepsOrder(q, call, h, x);
        case Elapse(dt, script) => AdvanceStopsBefore(q, dt, script, h, x);
        case TimeoutRead =>
      }
      BehindNeverFires(Step(q, ops[0]).0, ops[1..], h, x);
    }
  }

  // ---------- runs from an empty queue ----------

  function EmptyQueue(timers: nat): Queue {
    Queue([], seq(timers, i => 0), 0, false)
  }

  lemma RunStarts(q: Queue, op: Op, ops: seq<Op>)
    requires Chained(q) && Allowed(q, op) && IsRun(Step(q, op).0, ops)
    ensures IsRun(q, [op] + ops)
    ensures After(q, [op] + ops) == (After(Step(q, op).0, ops).0, Step(q, op).1 + After(Step(q, op).0, ops).1)
  {
    hide Step, Allowed;
    assert ([op] + ops)[1..] == ops;
  }

  lemma TimeStarts(op: Op, ops: seq<Op>)
    ensures TotalTime([op] + ops) == (if op.Elapse? then op.dt else 0) + TotalTime(ops)
  {
    assert ([op] + ops)[1..] == ops;
  }

  lemma RunEnds(q: Queue)
    requires Chained(q)
    ensures IsRun(q, []) && After(q, []) == (q, [])
  {
  }

  lemma FirstSet(n: nat, i: nat, timeout: nat)
    requires i < n && timeout > 0
    ensures Chained(EmptyQueue(n)) && CallDefined(EmptyQueue(n), Set(i, timeout))
    ensures SetTimer(EmptyQueue(n), i, timeout) == Queue([i], seq(n, j => 0)[i := timeout], 0, false)
  {
  }

  lemma SetBefore(q: Queue, i: nat, j: nat, timeout: nat)
    requires q.ring == [j] && i != j && i < |q.sched| && j < |q.sched| && q.sched[i] == 0 && timeout > 0
    requires q.sched[j] > q.elapsed + timeout
    ensures SetTimer(q, i, timeout) == q.(ring := [i, j], sched := q.sched[i := q.elapsed + timeout])
  {
    var sched := q.sched[i := q.elapsed + timeout];
    assert [j][..0] == [];
    assert Insert([j], sched, i) == Insert([], sched, i) + [j] == [i, j];
  }

  lemma QuietAdvance(q: Queue, dt: nat)
    requires Chained(q) && !Stands(q) && Stops(Tick(q, dt)) && InRange(Tick(q, dt))
    ensures AdvanceDefined(q, dt, []) && Advance(q, dt, []) == (Tick(q, dt), [])
  {
    TickChained(q, dt);
  }

  /** Timer 1 is set for 70 s.  When 65.5 s have passed, timer 0 is set for 50 ms, and the
      next 100 ms take the clock past 0xFFFF: timer 0 does not fire, and neither does
      timer 1 when its time is up, nor for any time up to 2^32 - 50 ms. */
  lemma OverdueIsReachable(later: seq<Op>) returns (ops: seq<Op>)
    ensures Chained(EmptyQueue(2)) && IsRun(EmptyQueue(2), ops) && TotalTime(ops) == 65600
    ensures var (q, fired) := After(EmptyQueue(2), ops);
      && fired == [] && q == Queue([0, 1], [UINT32 - 50, 4400], 0, false)
      && (IsRun(q, later) && TotalTime(later) < UINT32 - 50
          && (forall k :: 0 <= k < |later| ==> LeftAlone(later[k], 0) && LeftAlone(later[k], 1)) ==>
          1 !in After(q, later).1)
  {
    hide IsRun, After, Advance, AdvanceDefined, SetTimer, Tick, Chained, LeftAlone;
    var q0 := EmptyQueue(2);
    FirstSet(2, 1, 70000);
    var q1 := Queue([1], [0, 70000], 0, false);
    assert seq(2, j => 0)[1 := 70000] == [0, 70000];
    var q2 := Queue([1], [0, 70000], 65500, false);
    var q3 := Queue([0, 1], [65550, 70000], 65500, false);
    var q4 := Queue([0, 1], [UINT32 - 50, 4400], 0, false);
    Simple(q1);
    Ticks(q1, 65500);
    Simple(q2);
    SetBefore(q2, 0, 1, 50);
    assert [0, 70000][0 := 65550] == [65550, 70000];
    Simple(q3);
    TicksOver(q3);
    Simple(q4);
    RunEnds(q4);
    RunStarts(q3, Elapse(100, []), []);
    ops := [Elapse(100, [])] + [];
    RunStarts(q2, Invoke(Set(0, 50)), ops);
    TimeStarts(Invoke(Set(0, 50)), ops);
    ops := [Invoke(Set(0, 50))] + ops;
    RunStarts(q1, Elapse(65500, []), ops);
    TimeStarts(Elapse(65500, []), ops);
    ops := [Elapse(65500, [])] + ops;
    RunStarts(q0, Invoke(Set(1, 70000)), ops);
    TimeStarts(Invoke(Set(1, 70000)), ops);
    ops := [Invoke(Set(1, 70000))] + ops;
    if IsRun(q4, later) && TotalTime(later) < UINT32 - 50
       && (forall k :: 0 <= k < |later| ==> LeftAlone(later[k], 0) && LeftAlone(later[k], 1)) {
      assert q4.ring[1..] == [1];
      BehindNeverFires(q4, later, 0, 1);
    }
  }

  /** The queues of the example are in order. */
  lemma Simple(q: Queue)
    requires |q.sched| == 2 && ((q.ring == [1] && q.sched[0] == 0) || q.ring == [0, 1])
    ensures Chained(q)
  {
  }

  lemma Ticks(q: Queue, dt: nat)
    requires Chained(q) && !Stands(q) && q.elapsed + dt < REBASE_AT && q.sched[q.ring[0]] > q.elapsed + dt
    ensures AdvanceDefined(q, dt, []) && Advance(q, dt, []) == (q.(elapsed := q.elapsed + dt), [])
  {
    QuietAdvance(q, dt);
  }

  lemma TicksOver(q: Queue)
    requires q == Queue([0, 1], [65550, 70000], 65500, false) && Chained(q)
    ensures AdvanceDefined(q, 100, []) && Advance(q, 100, []) == (Queue([0, 1], [UINT32 - 50, 4400], 0, false), [])
  {
    var q1 := q.(elapsed := 65600);
    MinusBorrows(65550, 65600);
    assert Rebase(q1).sched == [UINT32 - 50, 4400];
    assert Tick(q, 100) == Queue([0, 1], [UINT32 - 50, 4400], 0, false);
    QuietAdvance(q, 100);
  }

  // ---------- a kill that is ignored ----------

  /** Two timers are due when the clock is rebased; the callback of the first kills the
      second, which fires all the same. */
  lemma KilledTimerFires(q: Queue, a: nat, b: nat)
    requires Valid(q) && !q.reset && q.ring == [a, b] && q.elapsed < REBASE_AT && a < |q.sched| && b < |q.sched|
    requires q.sched[a] == q.sched[b] == REBASE_AT
    ensures var dt, script := REBASE_AT - q.elapsed, [[Kill(b)]];
      && ScriptInRange(q, script) && AdvanceDefined(q, dt, script) && NoneOverdue(q, dt)
      && Advance(q, dt, script).1 == [a, b] && !AdvanceClean(q, dt, script)
  {
    hide Ordered, NoRepeats, ArmedAreLinked;
    var dt, script := REBASE_AT - q.elapsed, [[Kill(b)]];
    TickChained(q, dt);
    var r := Tick(q, dt);
    assert a in q.ring && b in q.ring;
    assert r.ring == [a, b] && r.sched[a] == r.sched[b] == 0 && r.elapsed == 0;
    KillIgnored(r, a, b);
  }

  /** Such a queue is reached by setting two timers for 65535 ms. */
  lemma IgnoredKillIsReachable() returns (ops: seq<Op>)
    ensures Chained(EmptyQueue(2)) && IsRun(EmptyQueue(2), ops) && After(EmptyQueue(2), ops).1 == [0, 1]
    ensures ops[|ops| - 1] == Elapse(REBASE_AT, [[Kill(1)]])
  {
    hide IsRun, After, Advance, AdvanceDefined, AdvanceClean, SetTimer, Chained, NoneOverdue;
    var q1 := Queue([0], [REBASE_AT, 0], 0, false);
    var q2 := Queue([0, 1], [REBASE_AT, REBASE_AT], 0, false);
    FirstSet(2, 0, REBASE_AT);
    assert seq(2, j => 0)[0 := REBASE_AT] == [REBASE_AT, 0];
    SetBehind(q1);
    InOrder(q2);
    KilledTimerFires(q2, 0, 1);
    var last := Elapse(REBASE_AT, [[Kill(1)]]);
    RunEnds(Advance(q2, REBASE_AT, [[Kill(1)]]).0);
    RunStarts(q2, last, []);
    RunStarts(q1, Invoke(Set(1, REBASE_AT)), [last] + []);
    RunStarts(EmptyQueue(2), Invoke(Set(0, REBASE_AT)), [Invoke(Set(1, REBASE_AT))] + ([last] + []));
    ops := [Invoke(Set(0, REBASE_AT))] + ([Invoke(Set(1, REBASE_AT))] + ([last] + []));
  }

  lemma InOrder(q: Queue)
    requires q == Queue([0, 1], [REBASE_AT, REBASE_AT], 0, false)
    ensures Valid(q) && Chained(q)
  {
  }

  lemma SetBehind(q: Queue)
    requires q == Queue([0], [REBASE_AT, 0], 0, false)
    ensures Chained(q) && CallDefined(q, Set(1, REBASE_AT))
    ensures SetTimer(q, 1, REBASE_AT) == Queue([0, 1], [REBASE_AT, REBASE_AT], 0, false)
  {
    assert [REBASE_AT, 0][1 := REBASE_AT] == [REBASE_AT, REBASE_AT];
  }

  lemma KillIgnored(r: Queue, a: nat, b: nat)
    requires Chained(r) && r.ring == [a, b] && a < |r.sched| && b < |r.sched| && r.sched[a] == r.sched[b] == 0
    ensures var script := [[Kill(b)]];
      ScriptInRange(r, script) && Defined(r, script) && !Clean(r, script) && FireDue(r, script).1 == [a, b]
  {
    hide NoRepeats, ArmedAreLinked;
    var script := [[Kill(b)]];
    PoppedChained(r);
    var p := Popped(r);
    assert p.ring == [b] && b in Zeros(p) && p.sched[b] == 0;
    assert PerformAll(p, [Kill(b)]) == PerformAll(Perform(p, Kill(b)), []) == p;
    assert FireFirst(r, FirstCalls(script)) == p && LaterCalls(script) == [];
    FireFirstChained(r, FirstCalls(script));
    LastFires(p, b);
    assert Touches(script[0][0], b);
    assert [a] + [b] == [a, b];
  }

  lemma LastFires(p: Queue, b: nat)
    requires Chained(p) && p.ring == [b] && b < |p.sched| && p.sched[b] == 0
    ensures Defined(p, []) && FireDue(p, []).1 == [b]
  {
    hide NoRepeats, ArmedAreLinked;
    PoppedChained(p);
    FireFirstChained(p, []);
    assert FireFirst(p, []).ring == [];
    assert [b] + [] == [b];
  }
}
