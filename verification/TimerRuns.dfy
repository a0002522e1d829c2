/** What one advance fires, and what holds over every run of the timer queue. */
module TimerRuns {
  import opened TimerModel

  // ---------- the due timers ----------

  /** The due timers of a ring, in its order. */
  function DueOf(ring: seq<nat>, sched: seq<nat>, elapsed: nat): seq<nat> {
    if ring == [] then []
    else
      var rest := DueOf(ring[1..], sched, elapsed);
      if ring[0] < |sched| && sched[ring[0]] <= elapsed then [ring[0]] + rest else rest
  }

  ghost function DueIn(q: Queue): seq<nat> {
    DueOf(q.ring, q.sched, q.elapsed)
  }

  lemma {:induction false} DueMembers(ring: seq<nat>, sched: seq<nat>, elapsed: nat)
    ensures forall x :: x in DueOf(ring, sched, elapsed) <==> x in ring && x < |sched| && sched[x] <= elapsed
  {
    if ring != [] {
      DueMembers(ring[1..], sched, elapsed);
    }
  }

  lemma {:induction false} DueOrdered(ring: seq<nat>, sched: seq<nat>, elapsed: nat)
    requires Ordered(ring, sched)
    ensures Ordered(DueOf(ring, sched, elapsed), sched)
  {
    hide Ordered;
    if ring == [] {
      NothingOrdered(sched);
    } else {
      OrderedParts(ring, sched);
      OrderedFirst(ring, sched);
      DueOrdered(ring[1..], sched, elapsed);
      DueMembers(ring[1..], sched, elapsed);
      if sched[ring[0]] <= elapsed {
        OrderedCons(ring[0], DueOf(ring[1..], sched, elapsed), sched);
      }
    }
  }

  lemma {:induction false} DueConcat(a: seq<nat>, b: seq<nat>, sched: seq<nat>, elapsed: nat)
    ensures DueOf(a + b, sched, elapsed) == DueOf(a, sched, elapsed) + DueOf(b, sched, elapsed)
  {
    if a == [] {
      assert a + b == b;
    } else {
      assert (a + b)[1..] == a[1..] + b;
      DueConcat(a[1..], b, sched, elapsed);
    }
  }

  lemma {:induction false} DueElsewhere(ring: seq<nat>, sched: seq<nat>, elapsed: nat, id: nat, v: nat)
    requires id < |sched| && id !in ring
    ensures DueOf(ring, sched[id := v], elapsed) == DueOf(ring, sched, elapsed)
  {
    if ring != [] {
      DueElsewhere(ring[1..], sched, elapsed, id, v);
    }
  }

  lemma {:induction false} DueWithout(ring: seq<nat>, sched: seq<nat>, elapsed: nat, id: nat)
    ensures DueOf(Without(ring, id), sched, elapsed) == Without(DueOf(ring, sched, elapsed), id)
  {
    if ring != [] {
      DueWithout(ring[1..], sched, elapsed, id);
      var due := DueOf(ring[1..], sched, elapsed);
      if ring[0] < |sched| && sched[ring[0]] <= elapsed {
        assert ([ring[0]] + due)[1..] == due;
      }
      if ring[0] != id {
        assert ([ring[0]] + Without(ring[1..], id))[1..] == Without(ring[1..], id);
      }
    }
  }

  /** A timer armed for later joins the ring without joining the due timers. */
  lemma {:induction false} DueInsert(ring: seq<nat>, sched: seq<nat>, elapsed: nat, id: nat)
    requires id < |sched| && sched[id] > elapsed
    ensures DueOf(Insert(ring, sched, id), sched, elapsed) == DueOf(ring, sched, elapsed)
    decreases |ring|
  {
    assert DueOf([id], sched, elapsed) == [];
    if ring != [] {
      var n := |ring| - 1;
      assert ring == ring[..n] + [ring[n]];
      DueInsert(ring[..n], sched, elapsed, id);
      DueConcat(ring[..n], [ring[n]], sched, elapsed);
      DueConcat(Insert(ring[..n], sched, id), [ring[n]], sched, elapsed);
      DueConcat(ring, [id], sched, elapsed);
    }
  }

  // ---------- callbacks ----------

  predicate Touches(call: Call, id: nat) {
    call.id == id && (call.Set? ==> call.timeout > 0)
  }

  predicate AnyTouches(calls: seq<Call>, id: nat) {
    exists k :: 0 <= k < |calls| && Touches(calls[k], id)
  }

  /** The timers of a list that none of the calls kills or arms again. */
  function Spared(due: seq<nat>, calls: seq<Call>): seq<nat>
    decreases |calls|
  {
    if calls == [] then due
    else Spared(if Touches(calls[0], calls[0].id) then Without(due, calls[0].id) else due, calls[1..])
  }

  lemma {:induction false} SparedMembers(due: seq<nat>, calls: seq<Call>, x: nat)
    ensures x in Spared(due, calls) <==> x in due && !AnyTouches(calls, x)
    decreases |calls|
  {
    if calls != [] {
      var due1 := if Touches(calls[0], calls[0].id) then Without(due, calls[0].id) else due;
      SparedMembers(due1, calls[1..], x);
      if AnyTouches(calls, x) && !Touches(calls[0], x) {
        var k :| 0 <= k < |calls| && Touches(calls[k], x);
        assert Touches(calls[1..][k - 1], x);
      }
      if AnyTouches(calls[1..], x) {
        var k :| 0 <= k < |calls[1..]| && Touches(calls[1..][k], x);
        assert Touches(calls[k + 1], x);
      }
    }
  }

  lemma {:induction false} SparedOrdered(due: seq<nat>, calls: seq<Call>, sched: seq<nat>)
    requires Ordered(due, sched)
    ensures Ordered(Spared(due, calls), sched)
    decreases |calls|
  {
    hide Ordered;
    if calls != [] {
      WithoutOrdered(due, sched, calls[0].id);
      SparedOrdered(if Touches(calls[0], calls[0].id) then Without(due, calls[0].id) else due, calls[1..], sched);
    }
  }

  lemma RemoveDue(q: Queue, id: nat)
    requires id < |q.sched|
    ensures DueIn(Remove(q, id)) == Without(DueIn(q), id)
  {
    DueWithout(q.ring, q.sched, q.elapsed, id);
    DueElsewhere(Without(q.ring, id), q.sched, q.elapsed, id, 0);
  }

  /** A call that touches a linked timer touches one whose time is not 0. */
  ghost predicate CallsClean(q: Queue, calls: seq<Call>) {
    forall k :: 0 <= k < |calls| ==> (Touches(calls[k], calls[k].id) ==> calls[k].id !in Zeros(q))
  }

  lemma DisarmedDue(q: Queue, id: nat)
    requires Chained(q) && id < |q.sched| && id !in Zeros(q)
    ensures var q1 := if q.sched[id] != 0 then Remove(q, id) else q;
      id !in q1.ring && DueIn(q1) == Without(DueIn(q), id)
  {
    hide NoRepeats;
    if q.sched[id] == 0 {
      DueMembers(q.ring, q.sched, q.elapsed);
      WithoutAbsent(DueIn(q), id);
    } else {
      RemoveDue(q, id);
    }
  }

  lemma ArmedDue(q: Queue, id: nat, timeout: nat)
    requires id < |q.sched| && id !in q.ring && timeout > 0
    ensures DueIn(Arm(q, id, timeout)) == DueIn(q)
  {
    hide Insert;
    var sched := q.sched[id := q.elapsed + timeout];
    DueElsewhere(q.ring, q.sched, q.elapsed, id, q.elapsed + timeout);
    DueInsert(q.ring, sched, q.elapsed, id);
  }

  lemma PerformDue(q: Queue, call: Call)
    requires Chained(q) && call.id < |q.sched| && (Touches(call, call.id) ==> call.id !in Zeros(q))
    ensures DueIn(Perform(q, call)) == if Touches(call, call.id) then Without(DueIn(q), call.id) else DueIn(q)
  {
    hide Chained, DueIn, Insert, Remove, Zeros;
    if Touches(call, call.id) {
      DisarmedDue(q, call.id);
      if call.Set? {
        ArmedDue(if q.sched[call.id] != 0 then Remove(q, call.id) else q, call.id, call.timeout);
      }
    }
  }

  lemma {:induction false} WithoutAbsent(s: seq<nat>, id: nat)
    requires id !in s
    ensures Without(s, id) == s
  {
    if s != [] {
      WithoutAbsent(s[1..], id);
    }
  }

  lemma {:induction false} PerformAllDue(q: Queue, calls: seq<Call>)
    requires Chained(q) && CallsInRange(q, calls) && CallsClean(q, calls)
    ensures DueIn(PerformAll(q, calls)) == Spared(DueIn(q), calls)
    decreases |calls|
  {
    hide Chained, Perform;
    if calls != [] {
      PerformChained(q, calls[0]);
      PerformDue(q, calls[0]);
      PerformAllDue(Perform(q, calls[0]), calls[1..]);
    }
  }

  // ---------- the firing loop ----------

  /** The first timer out of the ring, before its callback runs. */
  function Popped(q: Queue): Queue
    requires q.ring != [] && q.ring[0] < |q.sched|
  {
    q.(ring := q.ring[1..], sched := q.sched[q.ring[0] := 0])
  }

  lemma PoppedChained(q: Queue)
    requires Chained(q) && q.ring != []
    ensures Chained(Popped(q)) && Zeros(Popped(q)) == Zeros(q) - {q.ring[0]}
    ensures q.sched[q.ring[0]] <= q.elapsed ==> Due(Popped(q)) <= Due(q) - {q.ring[0]} && q.ring[0] in Due(q)
    ensures forall x :: x in q.ring <==> x == q.ring[0] || x in q.ring[1..]
    ensures q.ring[0] !in q.ring[1..]
  {
  }

  lemma PoppedValid(q: Queue)
    requires Valid(q) && q.ring != []
    ensures Valid(Popped(q))
  {
    hide Ordered, NoRepeats;
    PoppedChained(q);
    OrderedParts(q.ring, q.sched);
    OrderedElsewhere(q.ring[1..], q.sched, q.ring[0], 0);
  }

  lemma PoppedDue(q: Queue)
    requires Chained(q) && q.ring != [] && q.sched[q.ring[0]] <= q.elapsed
    ensures DueIn(q) == [q.ring[0]] + DueIn(Popped(q))
  {
    PoppedChained(q);
    DueElsewhere(q.ring[1..], q.sched, q.elapsed, q.ring[0], 0);
  }

  lemma FireFirstChained(q: Queue, calls: seq<Call>)
    requires Chained(q) && q.ring != [] && q.sched[q.ring[0]] <= q.elapsed
    requires CallsInRange(q, calls) && CallsDefined(Popped(q), calls)
    ensures Chained(FireFirst(q, calls)) && Due(FireFirst(q, calls)) < Due(q)
    ensures Zeros(FireFirst(q, calls)) == Zeros(q) - {q.ring[0]}
  {
    hide NoRepeats, ArmedAreLinked, PerformAll, Due, Zeros;
    PoppedChained(q);
    PerformAllChained(Popped(q), calls);
  }

  lemma FireFirstValid(q: Queue, calls: seq<Call>)
    requires Valid(q) && q.ring != [] && q.sched[q.ring[0]] <= q.elapsed
    requires CallsInRange(q, calls) && CallsDefined(Popped(q), calls)
    ensures Valid(FireFirst(q, calls))
  {
    hide NoRepeats, ArmedAreLinked, PerformAll, Due, Zeros, Ordered;
    PoppedValid(q);
    PerformAllValid(Popped(q), calls);
  }

  lemma FireFirstDue(q: Queue, calls: seq<Call>)
    requires Chained(q) && q.ring != [] && q.sched[q.ring[0]] <= q.elapsed
    requires CallsInRange(q, calls) && CallsClean(Popped(q), calls)
    ensures DueIn(q) != [] && DueIn(q)[0] == q.ring[0]
    ensures DueIn(FireFirst(q, calls)) == Spared(DueIn(q)[1..], calls)
  {
    hide NoRepeats, ArmedAreLinked, PerformAll, Due, Zeros, DueIn;
    PoppedChained(q);
    PoppedDue(q);
    assert DueIn(q)[1..] == DueIn(Popped(q));
    PerformAllDue(Popped(q), calls);
  }

  predicate Stops(q: Queue)
    requires InRange(q)
  {
    q.ring == [] || q.sched[q.ring[0]] > q.elapsed
  }

  /** No callback that runs sets a timer that is linked with a time of 0. */
  ghost predicate Defined(q: Queue, script: seq<seq<Call>>)
    requires Chained(q) && ScriptInRange(q, script)
    decreases Due(q)
  {
    Stops(q) ||
    (CallsDefined(Popped(q), FirstCalls(script)) &&
     (FireFirstChained(q, FirstCalls(script)); Defined(FireFirst(q, FirstCalls(script)), LaterCalls(script))))
  }

  /** ... or kills one. */
  ghost predicate Clean(q: Queue, script: seq<seq<Call>>)
    requires Chained(q) && ScriptInRange(q, script)
    decreases Due(q)
  {
    Stops(q) ||
    (CallsClean(Popped(q), FirstCalls(script)) &&
     (CleanIsDefined(Popped(q), FirstCalls(script));
      FireFirstChained(q, FirstCalls(script));
      Clean(FireFirst(q, FirstCalls(script)), LaterCalls(script))))
  }

  lemma CleanIsDefined(q: Queue, calls: seq<Call>)
    requires CallsClean(q, calls)
    ensures CallsDefined(q, calls)
  {
  }

  /** The processing loop of apt_timer_queue_advance: the timers it fires, in order. */
  ghost function FireDue(q: Queue, script: seq<seq<Call>>): (r: (Queue, seq<nat>))
    requires Chained(q) && ScriptInRange(q, script) && Defined(q, script)
    ensures Chained(r.0) && |r.0.sched| == |q.sched|
    decreases Due(q)
  {
    if Stops(q) then (q, [])
    else
      FireFirstChained(q, FirstCalls(script));
      var (q1, fired) := FireDue(FireFirst(q, FirstCalls(script)), LaterCalls(script));
      (q1, [q.ring[0]] + fired)
  }

  lemma {:induction false} CleanRuns(q: Queue, script: seq<seq<Call>>)
    requires Chained(q) && ScriptInRange(q, script) && Clean(q, script)
    ensures Defined(q, script)
    decreases Due(q)
  {
    hide NoRepeats, ArmedAreLinked, FireFirst, Zeros;
    if !Stops(q) {
      CleanIsDefined(Popped(q), FirstCalls(script));
      FireFirstChained(q, FirstCalls(script));
      CleanRuns(FireFirst(q, FirstCalls(script)), LaterCalls(script));
    }
  }

  /** Without linked timers at 0 every script will do. */
  lemma {:induction false} NoZerosIsClean(q: Queue, script: seq<seq<Call>>)
    requires Chained(q) && ScriptInRange(q, script) && Zeros(q) == {}
    ensures Clean(q, script)
    decreases Due(q)
  {
    hide NoRepeats, ArmedAreLinked, FireFirst, Zeros;
    if !Stops(q) {
      PoppedChained(q);
      CleanIsDefined(Popped(q), FirstCalls(script));
      FireFirstChained(q, FirstCalls(script));
      NoZerosIsClean(FireFirst(q, FirstCalls(script)), LaterCalls(script));
    }
  }

  /** Said without the queue: the due timers fire in order, except those that an
      earlier callback of the same advance killed or armed again. */
  function Expected(due: seq<nat>, script: seq<seq<Call>>): seq<nat>
    decreases |due|
  {
    if due == [] then []
    else
      SparedShorter(due[1..], FirstCalls(script));
      [due[0]] + Expected(Spared(due[1..], FirstCalls(script)), LaterCalls(script))
  }

  lemma {:induction false} SparedShorter(due: seq<nat>, calls: seq<Call>)
    ensures |Spared(due, calls)| <= |due|
    decreases |calls|
  {
    if calls != [] {
      WithoutShorter(due, calls[0].id);
      SparedShorter(if Touches(calls[0], calls[0].id) then Without(due, calls[0].id) else due, calls[1..]);
    }
  }

  lemma WithoutShorter(s: seq<nat>, id: nat)
    ensures |Without(s, id)| <= |s|
  {
  }

  lemma {:induction false} NoneDue(ring: seq<nat>, sched: seq<nat>, elapsed: nat)
    requires forall x :: x in ring ==> x < |sched| && sched[x] > elapsed
    ensures DueOf(ring, sched, elapsed) == []
  {
    if ring != [] {
      assert ring[0] in ring && forall x :: x in ring[1..] ==> x in ring;
      NoneDue(ring[1..], sched, elapsed);
    }
  }

  lemma NothingDue(q: Queue)
    requires Valid(q) && Stops(q)
    ensures DueIn(q) == [] && Quiet(q)
  {
    if q.ring != [] {
      OrderedParts(q.ring, q.sched);
      forall x | x in q.ring
        ensures x < |q.sched| && q.sched[x] > q.elapsed
      {
        assert x == q.ring[0] || x in q.ring[1..];
      }
      NoneDue(q.ring, q.sched, q.elapsed);
    }
  }

  lemma {:induction false} FiresExpected(q: Queue, script: seq<seq<Call>>)
    requires Valid(q) && ScriptInRange(q, script) && Clean(q, script)
    ensures Defined(q, script) && FireDue(q, script).1 == Expected(DueIn(q), script)
    decreases Due(q)
  {
    hide Ordered, NoRepeats, ArmedAreLinked, FireFirst, DueIn, Quiet, Zeros;
    CleanRuns(q, script);
    if Stops(q) {
      NothingDue(q);
    } else {
      CleanIsDefined(Popped(q), FirstCalls(script));
      FireFirstChained(q, FirstCalls(script));
      FireFirstValid(q, FirstCalls(script));
      FireFirstDue(q, FirstCalls(script));
      FiresExpected(FireFirst(q, FirstCalls(script)), LaterCalls(script));
    }
  }

  /** Whatever the callbacks do, afterwards the queue is sorted and nothing is due. */
  lemma {:induction false} FireDueValid(q: Queue, script: seq<seq<Call>>)
    requires Valid(q) && ScriptInRange(q, script) && Defined(q, script)
    ensures Valid(FireDue(q, script).0) && Quiet(FireDue(q, script).0) && Zeros(FireDue(q, script).0) == {}
    decreases Due(q)
  {
    hide Ordered, NoRepeats, ArmedAreLinked, FireFirst;
    if Stops(q) {
      NothingDue(q);
      QuietHasNoZeros(q);
    } else {
      FireFirstChained(q, FirstCalls(script));
      FireFirstValid(q, FirstCalls(script));
      FireDueValid(FireFirst(q, FirstCalls(script)), LaterCalls(script));
    }
  }

  lemma QuietMembers(q: Queue)
    requires InRange(q) && Quiet(q)
    ensures forall x :: x in q.ring ==> x < |q.sched| && q.sched[x] > q.elapsed
  {
    forall x | x in q.ring
      ensures x < |q.sched| && q.sched[x] > q.elapsed
    {
      var k :| 0 <= k < |q.ring| && q.ring[k] == x;
    }
  }

  lemma QuietHasNoZeros(q: Queue)
    requires InRange(q) && Quiet(q)
    ensures Zeros(q) == {}
  {
    QuietMembers(q);
  }

  /** No timer fires once a callback of this advance has touched it. */
  ghost predicate NeverTouched(fired: seq<nat>, script: seq<seq<Call>>) {
    forall j, k :: 0 <= j < k < |fired| && j < |script| ==> !AnyTouches(script[j], fired[k])
  }

  ghost predicate TouchedByFired(script: seq<seq<Call>>, fired: nat, x: nat) {
    exists j :: 0 <= j < fired && j < |script| && AnyTouches(script[j], x)
  }

  lemma NeverTouchedCons(first: nat, fired: seq<nat>, script: seq<seq<Call>>)
    requires NeverTouched(fired, LaterCalls(script))
    requires forall x :: x in fired ==> !AnyTouches(FirstCalls(script), x)
    ensures NeverTouched([first] + fired, script)
  {
    hide AnyTouches;
    var all := [first] + fired;
    forall j, k | 0 <= j < k < |all| && j < |script|
      ensures !AnyTouches(script[j], all[k])
    {
      assert all[k] == fired[k - 1] && fired[k - 1] in fired;
      if j > 0 {
        assert script[j] == LaterCalls(script)[j - 1];
      }
    }
  }

  lemma TouchedLater(script: seq<seq<Call>>, fired: nat, x: nat)
    requires TouchedByFired(LaterCalls(script), fired, x)
    ensures TouchedByFired(script, fired + 1, x)
  {
    hide AnyTouches;
    var j :| 0 <= j < fired && j < |LaterCalls(script)| && AnyTouches(LaterCalls(script)[j], x);
    assert AnyTouches(script[j + 1], x);
  }

  lemma TouchedFirst(script: seq<seq<Call>>, fired: nat, x: nat)
    requires AnyTouches(FirstCalls(script), x) && fired > 0
    ensures TouchedByFired(script, fired, x)
  {
    assert script != [];
    assert AnyTouches(script[0], x);
  }

  /** What that means for a single timer: it fires at most once, in deadline order,
      only if it is due, never after a callback touched it, and a due timer that
      does not fire was touched by the callback of a timer that did. */
  lemma {:induction false} ExpectedMeaning(due: seq<nat>, script: seq<seq<Call>>, sched: seq<nat>)
    requires Ordered(due, sched)
    ensures Ordered(Expected(due, script), sched)
    ensures forall x :: x in Expected(due, script) ==> x in due
    ensures NeverTouched(Expected(due, script), script)
    ensures forall x :: x in due && x !in Expected(due, script) ==> TouchedByFired(script, |Expected(due, script)|, x)
    decreases |due|
  {
    hide Ordered, AnyTouches, TouchedByFired, NeverTouched;
    if due == [] {
      NothingOrdered(sched);
      NothingTouched(script);
    } else {
      var calls, later := FirstCalls(script), LaterCalls(script);
      var rest := Spared(due[1..], calls);
      OrderedParts(due, sched);
      OrderedFirst(due, sched);
      SparedOrdered(due[1..], calls, sched);
      SparedShorter(due[1..], calls);
      ExpectedMeaning(rest, later, sched);
      var fired := Expected(rest, later);
      forall x ensures x in rest <==> x in due[1..] && !AnyTouches(calls, x) { SparedMembers(due[1..], calls, x); }
      OrderedCons(due[0], fired, sched);
      NeverTouchedCons(due[0], fired, script);
      forall x | x in due && x !in [due[0]] + fired
        ensures TouchedByFired(script, |fired| + 1, x)
      {
        assert x in due[1..];
        if x in rest {
          TouchedLater(script, |fired|, x);
        } else {
          TouchedFirst(script, |fired| + 1, x);
        }
      }
    }
  }

  lemma NothingTouched(script: seq<seq<Call>>)
    ensures NeverTouched([], script)
  {
  }

  // ---------- the clock ----------

  /** A rebase finds no timer overdue. */
  ghost predicate NoneOverdue(q: Queue, dt: nat) {
    q.elapsed + dt >= REBASE_AT ==> forall x :: x in q.ring && x < |q.sched| ==> q.sched[x] >= q.elapsed + dt
  }

  lemma MinusBorrows(a: nat, b: nat)
    requires a < b < UINT32
    ensures Minus(a, b) == a - b + UINT32
  {
  }

  lemma TickChained(q: Queue, dt: nat)
    requires Chained(q)
    ensures Chained(Tick(q, dt)) && Tick(q, dt).ring == q.ring && Tick(q, dt).reset == q.reset
  {
    hide NoRepeats, Minus;
  }

  lemma RebaseValid(q: Queue)
    requires Valid(q) && forall x :: x in q.ring ==> q.sched[x] >= q.elapsed
    ensures Valid(Rebase(q)) && Rebase(q).ring == q.ring && Rebase(q).elapsed == 0
    ensures forall i :: i in q.ring ==> Rebase(q).sched[i] == q.sched[i] - q.elapsed
    ensures DueIn(Rebase(q)) == DueIn(q)
  {
    hide Ordered, NoRepeats;
    RebaseOrdered(q);
    RebasedDue(q.ring, q.sched, Rebase(q).sched, q.elapsed);
  }

  lemma {:induction false} RebasedDue(ring: seq<nat>, sched: seq<nat>, rebased: seq<nat>, elapsed: nat)
    requires |rebased| == |sched| && forall x :: x in ring ==> x < |sched| && sched[x] >= elapsed && rebased[x] == sched[x] - elapsed
    ensures DueOf(ring, rebased, 0) == DueOf(ring, sched, elapsed)
  {
    if ring != [] {
      assert ring[0] in ring && forall x :: x in ring[1..] ==> x in ring;
      RebasedDue(ring[1..], sched, rebased, elapsed);
    }
  }

  /** As long as no timer is overdue at a rebase, moving the clock keeps the order, every
      remaining time and the timers that are due. */
  lemma TickValid(q: Queue, dt: nat)
    requires Valid(q) && NoneOverdue(q, dt)
    ensures Valid(Tick(q, dt)) && Tick(q, dt).ring == q.ring && Tick(q, dt).reset == q.reset
    ensures forall i :: i in q.ring ==> Tick(q, dt).sched[i] - Tick(q, dt).elapsed == q.sched[i] - (q.elapsed + dt)
    ensures DueIn(Tick(q, dt)) == DueOf(q.ring, q.sched, q.elapsed + dt)
  {
    hide Ordered, DueOf, Rebase, NoRepeats;
    TickChained(q, dt);
    if q.elapsed + dt >= REBASE_AT {
      RebaseValid(q.(elapsed := q.elapsed + dt));
    }
  }

  lemma RebaseOrdered(q: Queue)
    requires Ordered(q.ring, q.sched) && forall x :: x in q.ring ==> x < |q.sched| && q.sched[x] >= q.elapsed
    ensures Ordered(q.ring, Rebase(q).sched)
  {
    var r := Rebase(q).sched;
    forall k | 0 <= k < |q.ring|
      ensures r[q.ring[k]] == q.sched[q.ring[k]] - q.elapsed
    {
      assert q.ring[k] in q.ring;
    }
  }

  /** Rebasing preserves every remaining time exactly when no timer is overdue. */
  lemma RebaseKeepsRemainingIff(q: Queue)
    requires Valid(q)
    ensures (forall i :: i in q.ring ==> Rebase(q).sched[i] - Rebase(q).elapsed == q.sched[i] - q.elapsed)
       <==> (forall i :: i in q.ring ==> q.sched[i] >= q.elapsed)
  {
    hide Ordered;
    var r := Rebase(q);
    forall i | i in q.ring
      ensures r.sched[i] - r.elapsed == q.sched[i] - q.elapsed <==> q.sched[i] >= q.elapsed
    {
    }
  }

  /** ... and keeps every armed timer armed exactly when none is due at that very moment. */
  lemma RebaseKeepsArmedIff(q: Queue)
    requires Valid(q) && forall i :: 0 <= i < |q.sched| ==> q.sched[i] < UINT32 && q.elapsed < UINT32
    ensures ExactlyArmed(q.ring, Rebase(q).sched) <==> forall i :: i in q.ring ==> q.sched[i] != q.elapsed
  {
    hide Ordered, Minus;
    var r := Rebase(q);
    forall i | 0 <= i < |q.sched|
      ensures (i in q.ring <==> r.sched[i] > 0) <==> (i in q.ring ==> q.sched[i] != q.elapsed)
    {
      if i in q.ring {
        RebasedIsArmed(q.sched[i], q.elapsed);
      }
    }
  }

  lemma RebasedIsArmed(a: nat, b: nat)
    requires a < UINT32 && b < UINT32
    ensures Minus(a, b) > 0 <==> a != b
  {
    if a < b {
      MinusBorrows(a, b);
    }
  }

  /** The timers the loop would fire if no callback did anything: those at the head
      of the ring that are due. */
  function HeadDue(ring: seq<nat>, sched: seq<nat>, elapsed: nat): seq<nat> {
    if ring == [] || ring[0] >= |sched| || sched[ring[0]] > elapsed then []
    else [ring[0]] + HeadDue(ring[1..], sched, elapsed)
  }

  lemma {:induction false} HeadDueIsDue(ring: seq<nat>, sched: seq<nat>, elapsed: nat)
    requires Ordered(ring, sched)
    ensures HeadDue(ring, sched, elapsed) == DueOf(ring, sched, elapsed)
  {
    if ring != [] {
      OrderedParts(ring, sched);
      HeadDueIsDue(ring[1..], sched, elapsed);
      if sched[ring[0]] > elapsed {
        NoneDue(ring[1..], sched, elapsed);
      }
    }
  }

  lemma FirstIsEarliest(q: Queue, i: nat)
    requires Valid(q) && i in q.ring
    ensures q.ring != [] && q.ring[0] < |q.sched| && q.sched[q.ring[0]] <= q.sched[i] && i < |q.sched|
  {
    var k :| 0 <= k < |q.ring| && q.ring[k] == i;
  }

  /** At a rebase the due timers fire exactly when none of them is overdue; with one
      overdue timer, none fires at all. */
  lemma RebaseFiresDueIff(q: Queue)
    requires Valid(q) && forall i :: 0 <= i < |q.sched| ==> q.sched[i] < UINT32 && q.elapsed < UINT32
    ensures var r, overdue := Rebase(q), exists i :: i in q.ring && q.sched[i] < q.elapsed;
      && (HeadDue(r.ring, r.sched, r.elapsed) == DueOf(q.ring, q.sched, q.elapsed) <==> !overdue)
      && (overdue ==> HeadDue(r.ring, r.sched, r.elapsed) == [])
  {
    hide Ordered, Minus, ExactlyArmed, DueOf;
    HeadDueIsDue(q.ring, q.sched, q.elapsed);
    var r := Rebase(q);
    if i :| i in q.ring && q.sched[i] < q.elapsed {
      FirstIsEarliest(q, i);
      var first := q.ring[0];
      MinusBorrows(q.sched[first], q.elapsed);
      assert r.sched[first] > 0;
    } else {
      forall x | x in q.ring
        ensures r.sched[x] == q.sched[x] - q.elapsed
      {
        MinusExact(q.sched[x], q.elapsed);
      }
      RebasedHead(q.ring, q.sched, r.sched, q.elapsed);
    }
  }

  lemma MinusExact(a: nat, b: nat)
    requires a >= b
    ensures Minus(a, b) == a - b
  {
  }

  lemma {:induction false} RebasedHead(ring: seq<nat>, sched: seq<nat>, rebased: seq<nat>, elapsed: nat)
    requires |rebased| == |sched| && forall x :: x in ring ==> x < |sched| && sched[x] >= elapsed && rebased[x] == sched[x] - elapsed
    ensures HeadDue(ring, rebased, 0) == HeadDue(ring, sched, elapsed)
  {
    if ring != [] {
      assert ring[0] in ring && forall x :: x in ring[1..] ==> x in ring;
      RebasedHead(ring[1..], sched, rebased, elapsed);
    }
  }

  // ---------- advance ----------

  predicate Stands(q: Queue) {
    q.ring == [] || q.reset
  }

  /** The callbacks of an advance do not set a timer that is linked with a time of 0. */
  ghost predicate AdvanceDefined(q: Queue, dt: nat, script: seq<seq<Call>>)
    requires Chained(q) && ScriptInRange(q, script)
  {
    Stands(q) || (TickChained(q, dt); Defined(Tick(q, dt), script))
  }

  ghost predicate AdvanceClean(q: Queue, dt: nat, script: seq<seq<Call>>)
    requires Chained(q) && ScriptInRange(q, script)
  {
    Stands(q) || (TickChained(q, dt); Clean(Tick(q, dt), script))
  }

  /** apt_timer_queue_advance: the queue after it and the timers fired. */
  ghost function Advance(q: Queue, dt: nat, script: seq<seq<Call>>): (r: (Queue, seq<nat>))
    requires Chained(q) && ScriptInRange(q, script) && AdvanceDefined(q, dt, script)
    ensures Chained(r.0) && |r.0.sched| == |q.sched|
  {
    if Stands(q) then (q, [])
    else
      TickChained(q, dt);
      FireDue(Tick(q, dt), script)
  }

  /** Unless the clock has just been reset, an advance fires the timers that became
      due, each at most once, in deadline order, never one that an earlier callback
      of the same advance killed or armed again, and leaves out no other; afterwards
      no linked timer is due. */
  lemma AdvanceFiresTheDue(q: Queue, dt: nat, script: seq<seq<Call>>)
    requires Valid(q) && NoneOverdue(q, dt) && ScriptInRange(q, script) && !q.reset
    requires AdvanceClean(q, dt, script)
    ensures AdvanceDefined(q, dt, script)
    ensures var due, fired := DueOf(q.ring, q.sched, q.elapsed + dt), Advance(q, dt, script).1;
      && (forall x :: x in due <==> x in q.ring && q.sched[x] <= q.elapsed + dt)
      && Ordered(fired, q.sched) && NeverTouched(fired, script)
      && (forall x :: x in fired ==> x in due)
      && (forall x :: x in due && x !in fired ==> TouchedByFired(script, |fired|, x))
    ensures Valid(Advance(q, dt, script).0) && Quiet(Advance(q, dt, script).0)
  {
    hide FireDue, Tick, Expected, NeverTouched, TouchedByFired, Clean, Defined, Ordered;
    var due := DueOf(q.ring, q.sched, q.elapsed + dt);
    DueMembers(q.ring, q.sched, q.elapsed + dt);
    DueOrdered(q.ring, q.sched, q.elapsed + dt);
    ExpectedMeaning(due, script, q.sched);
    if q.ring == [] {
      NothingExpected(script);
    } else {
      TickValid(q, dt);
      FiresExpected(Tick(q, dt), script);
      FireDueValid(Tick(q, dt), script);
    }
  }

  /** Every script will do if and only if at most one linked timer is at 0. */
  lemma EveryScriptCleanIff(q: Queue)
    requires Valid(q)
    ensures (forall script | ScriptInRange(q, script) :: Clean(q, script))
       <==> (forall a, b :: a in Zeros(q) && b in Zeros(q) ==> a == b)
  {
    hide Clean, Chained, Ordered, Zeros;
    if forall a, b :: a in Zeros(q) && b in Zeros(q) ==> a == b {
      forall script | ScriptInRange(q, script) ensures Clean(q, script) {
        OneZeroIsClean(q, script);
      }
    } else {
      var a, b :| a in Zeros(q) && b in Zeros(q) && a != b;
      var script := TwoZerosAreNot(q, a, b);
    }
  }

  lemma TwoZerosAreNot(q: Queue, a: nat, b: nat) returns (script: seq<seq<Call>>)
    requires Valid(q) && a in Zeros(q) && b in Zeros(q) && a != b
    ensures ScriptInRange(q, script) && !Clean(q, script)
  {
    hide NoRepeats, ArmedAreLinked, FireFirst, Ordered;
    FirstIsEarliest(q, a);
    PoppedChained(q);
    var z := if a == q.ring[0] then b else a;
    var calls := [Kill(z)];
    script := [calls];
    assert FirstCalls(script) == calls && calls[0].id == z && z in Zeros(Popped(q));
    assert !CallsClean(Popped(q), calls);
  }

  /** A single timer at 0 is the first to fire. */
  lemma OneZeroIsClean(q: Queue, script: seq<seq<Call>>)
    requires Valid(q) && ScriptInRange(q, script) && forall a, b :: a in Zeros(q) && b in Zeros(q) ==> a == b
    ensures Clean(q, script)
  {
    hide NoRepeats, ArmedAreLinked, FireFirst, Ordered;
    if !Stops(q) {
      if z :| z in Zeros(q) {
        FirstIsEarliest(q, z);
        assert q.ring[0] in Zeros(q);
      }
      PoppedChained(q);
      assert Zeros(Popped(q)) == {};
      CleanIsDefined(Popped(q), FirstCalls(script));
      FireFirstChained(q, FirstCalls(script));
      NoZerosIsClean(FireFirst(q, FirstCalls(script)), LaterCalls(script));
    }
  }

  /** The callbacks of an advance that leaves no timer overdue are free to do anything,
      if and only if it does not rebase the clock to the time of two timers at once. */
  lemma AnyCallbacksWillDoIff(q: Queue, dt: nat)
    requires Valid(q) && NoneOverdue(q, dt) && !Stands(q) && Zeros(q) == {}
    ensures (forall script | ScriptInRange(q, script) :: AdvanceClean(q, dt, script))
       <==> (q.elapsed + dt >= REBASE_AT ==>
               forall a, b | a in q.ring && b in q.ring ::
                 q.sched[a] == q.elapsed + dt == q.sched[b] ==> a == b)
  {
    hide Clean, Ordered, NoRepeats, ArmedAreLinked, Minus;
    var t := Tick(q, dt);
    TickValid(q, dt);
    EveryScriptCleanIff(t);
    assert forall script :: ScriptInRange(q, script) <==> ScriptInRange(t, script);
    if q.elapsed + dt >= REBASE_AT {
      assert forall x :: x in Zeros(t) <==> x in q.ring && q.sched[x] == q.elapsed + dt;
    } else {
      assert Zeros(t) == Zeros(q);
    }
    assert (forall script | ScriptInRange(q, script) :: AdvanceClean(q, dt, script))
      <==> (forall script | ScriptInRange(t, script) :: Clean(t, script));
  }

  lemma NothingExpected(script: seq<seq<Call>>)
    ensures Expected([], script) == []
  {
  }

  // ---------- a kill that is ignored ----------

  lemma {:induction false} ZeroFires(q: Queue, script: seq<seq<Call>>, z: nat)
    requires Valid(q) && ScriptInRange(q, script) && Defined(q, script) && z in Zeros(q)
    ensures z in FireDue(q, script).1
    decreases Due(q)
  {
    hide Ordered, NoRepeats, ArmedAreLinked, FireFirst;
    if Stops(q) {
      NothingDue(q);
      QuietHasNoZeros(q);
    } else {
      FireFirstChained(q, FirstCalls(script));
      FireFirstValid(q, FirstCalls(script));
      if z != q.ring[0] {
        ZeroFires(FireFirst(q, FirstCalls(script)), LaterCalls(script), z);
      }
    }
  }

  lemma TouchedAfter(first: nat, fired: seq<nat>, script: seq<seq<Call>>)
    requires NeverTouched([first] + fired, script)
    ensures NeverTouched(fired, LaterCalls(script))
    ensures forall x :: x in fired ==> !AnyTouches(FirstCalls(script), x)
  {
    hide AnyTouches;
    var all := [first] + fired;
    forall j, k | 0 <= j < k < |fired| && j < |LaterCalls(script)|
      ensures !AnyTouches(LaterCalls(script)[j], fired[k])
    {
      assert all[k + 1] == fired[k] && script[j + 1] == LaterCalls(script)[j];
    }
    forall x | x in fired
      ensures !AnyTouches(FirstCalls(script), x)
    {
      var k :| 0 <= k < |fired| && fired[k] == x;
      assert all[k + 1] == x;
      NothingTouches(x);
    }
  }

  lemma NothingTouches(x: nat)
    ensures !AnyTouches([], x)
  {
  }

  /** A script that touches a linked timer at 0 sees it fire afterwards. */
  lemma {:induction false} UncleanIsSeen(q: Queue, script: seq<seq<Call>>)
    requires Valid(q) && ScriptInRange(q, script) && Defined(q, script) && NeverTouched(FireDue(q, script).1, script)
    ensures Clean(q, script)
    decreases Due(q)
  {
    hide Ordered, NoRepeats, ArmedAreLinked, FireFirst, NeverTouched, AnyTouches;
    if !Stops(q) {
      var calls, p := FirstCalls(script), Popped(q);
      FireFirstChained(q, calls);
      FireFirstValid(q, calls);
      PoppedChained(q);
      var q1 := FireFirst(q, calls);
      TouchedAfter(q.ring[0], FireDue(q1, LaterCalls(script)).1, script);
      forall k | 0 <= k < |calls| && Touches(calls[k], calls[k].id)
        ensures calls[k].id !in Zeros(p)
      {
        ATouch(calls, k);
        if calls[k].id in Zeros(p) {
          ZeroFires(q1, LaterCalls(script), calls[k].id);
        }
      }
      UncleanIsSeen(q1, LaterCalls(script));
    }
  }

  lemma ATouch(calls: seq<Call>, k: nat)
    requires k < |calls| && Touches(calls[k], calls[k].id)
    ensures AnyTouches(calls, calls[k].id)
  {
  }

  /** In an advance that finds no timer overdue, no timer fires after an earlier callback
      killed or armed it if and only if no callback touches a linked timer whose time a
      rebase has brought to 0. */
  lemma KillsAreObeyedIff(q: Queue, dt: nat, script: seq<seq<Call>>)
    requires Valid(q) && NoneOverdue(q, dt) && ScriptInRange(q, script) && !q.reset
    requires AdvanceDefined(q, dt, script)
    ensures NeverTouched(Advance(q, dt, script).1, script) <==> AdvanceClean(q, dt, script)
  {
    hide FireDue, Tick, NeverTouched, Clean, Defined, Ordered, NoRepeats, ArmedAreLinked;
    if AdvanceClean(q, dt, script) {
      AdvanceFiresTheDue(q, dt, script);
    } else {
      TickValid(q, dt);
      if NeverTouched(FireDue(Tick(q, dt), script).1, script) {
        UncleanIsSeen(Tick(q, dt), script);
      }
    }
  }
}
