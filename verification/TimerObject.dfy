/** The timer queue as the code writes it: a ring changed in place by insertion
    from the tail, removal, rebasing and the firing loop. */
module TimerObject {
  import opened TimerModel
  import opened TimerRuns

  /** The timers of a ring, from position k on, have been rebased. */
  ghost predicate RebasedFrom(now: seq<nat>, was: seq<nat>, ring: seq<nat>, k: nat, elapsed: nat)
    requires k <= |ring|
  {
    && |now| == |was|
    && forall i :: 0 <= i < |now| ==> now[i] == if i in ring[k..] then Minus(was[i], elapsed) else was[i]
  }

  lemma RebasedNext(now: seq<nat>, was: seq<nat>, ring: seq<nat>, k: nat, elapsed: nat)
    requires 0 < k <= |ring| && RebasedFrom(now, was, ring, k, elapsed) && NoRepeats(ring) && ring[k - 1] < |now|
    ensures RebasedFrom(now[ring[k - 1] := Minus(now[ring[k - 1]], elapsed)], was, ring, k - 1, elapsed)
  {
    hide Minus;
    var x := ring[k - 1];
    assert ring[k - 1..] == [x] + ring[k..];
    assert x !in ring[k..];
  }

  lemma NothingRebased(sched: seq<nat>, ring: seq<nat>, elapsed: nat)
    ensures RebasedFrom(sched, sched, ring, |ring|, elapsed)
  {
  }

  lemma RebaseChangesOnlyTimes(q: Queue)
    ensures Rebase(q) == Queue(q.ring, Rebase(q).sched, 0, q.reset)
  {
  }

  lemma RebasedWhole(now: seq<nat>, q: Queue)
    requires RebasedFrom(now, q.sched, q.ring, 0, q.elapsed)
    ensures now == Rebase(q).sched
  {
    hide Minus;
    assert q.ring[0..] == q.ring;
  }

  lemma FireFirstIsPopped(q: Queue, calls: seq<Call>)
    requires q.ring != [] && q.ring[0] < |q.sched| && CallsInRange(q, calls)
    ensures FireFirst(q, calls) == PerformAll(Popped(q), calls)
  {
  }

  lemma FireStep(q: Queue, script: seq<seq<Call>>)
    requires Chained(q) && ScriptInRange(q, script) && Defined(q, script) && !Stops(q)
    ensures CallsDefined(Popped(q), FirstCalls(script))
    ensures var q1 := FireFirst(q, FirstCalls(script));
      && Chained(q1) && ScriptInRange(q1, LaterCalls(script)) && Defined(q1, LaterCalls(script)) && Due(q1) < Due(q)
      && FireDue(q, script).0 == FireDue(q1, LaterCalls(script)).0
      && FireDue(q, script).1 == [q.ring[0]] + FireDue(q1, LaterCalls(script)).1
  {
    hide NoRepeats, ArmedAreLinked, FireFirst, Due, Zeros;
    FireFirstChained(q, FirstCalls(script));
  }

  lemma NothingToFire(q: Queue, script: seq<seq<Call>>)
    requires Chained(q) && ScriptInRange(q, script) && Defined(q, script) && Stops(q)
    ensures FireDue(q, script) == (q, [])
  {
  }

  lemma CallsStayDefined(q: Queue, calls: seq<Call>)
    requires Chained(q) && calls != [] && CallsInRange(q, calls) && CallsDefined(q, calls)
    ensures CallDefined(q, calls[0]) && Chained(Perform(q, calls[0]))
    ensures CallsInRange(Perform(q, calls[0]), calls[1..]) && CallsDefined(Perform(q, calls[0]), calls[1..])
  {
    hide NoRepeats, ArmedAreLinked, Perform;
    PerformChained(q, calls[0]);
  }

  class TimerQueue {
    var ring: seq<nat>
    var sched: seq<nat>
    var elapsed: nat
    var reset: bool

    ghost function View(): Queue
      reads this
    {
      Queue(ring, sched, elapsed, reset)
    }

    constructor (timers: nat)
      ensures View() == Queue([], seq(timers, i => 0), 0, false) && Valid(View())
    {
      ring, sched, elapsed, reset := [], seq(timers, i => 0), 0, false;
    }

    /** apt_timer_remove */
    method Unlink(id: nat)
      requires id < |sched|
      modifies this
      ensures View() == Remove(old(View()), id)
    {
      var k, kept := 0, [];
      while k < |ring|
        invariant k <= |ring| && Without(ring, id) == kept + Without(ring[k..], id)
      {
        assert ring[k..][0] == ring[k] && ring[k..][1..] == ring[k + 1..];
        if ring[k] != id {
          kept := kept + [ring[k]];
        }
        k := k + 1;
      }
      assert ring[k..] == [] && kept + [] == kept;
      ring := kept;
      sched := sched[id := 0];
      if ring == [] {
        elapsed := 0;
        reset := true;
      }
    }

    /** apt_timer_insert: look for the place from the tail on. */
    method Link(id: nat)
      requires id < |sched| && forall k :: 0 <= k < |ring| ==> ring[k] < |sched|
      modifies this`ring
      ensures ring == Insert(old(ring), sched, id)
    {
      var k := |ring|;
      assert ring[..k] == ring && ring[k..] == [];
      while k > 0 && sched[ring[k - 1]] > sched[id]
        invariant k <= |ring| && Insert(ring, sched, id) == Insert(ring[..k], sched, id) + ring[k..]
      {
        assert ring[..k][..k - 1] == ring[..k - 1] && ring[..k][k - 1] == ring[k - 1];
        assert [ring[k - 1]] + ring[k..] == ring[k - 1..];
        assert Insert(ring[..k], sched, id) + ring[k..] == Insert(ring[..k - 1], sched, id) + ring[k - 1..];
        k := k - 1;
      }
      assert Insert(ring[..k], sched, id) == ring[..k] + [id];
      ring := ring[..k] + [id] + ring[k..];
    }

    /** apt_timer_set */
    method SetTimeout(id: nat, timeout: nat) returns (ok: bool)
      requires id < |sched| && Chained(View()) && CallDefined(View(), Set(id, timeout))
      modifies this
      ensures View() == SetTimer(old(View()), id, timeout) && ok == (timeout > 0)
    {
      hide NoRepeats, ArmedAreLinked;
      if timeout == 0 {
        return false;
      }
      if sched[id] != 0 {
        RemoveChained(View(), id);
        Unlink(id);
      }
      sched := sched[id := elapsed + timeout];
      Link(id);
      ok := true;
    }

    /** apt_timer_kill */
    method KillTimeout(id: nat) returns (ok: bool)
      requires id < |sched|
      modifies this
      ensures View() == KillTimer(old(View()), id) && ok == (old(sched[id]) != 0)
    {
      ok := sched[id] != 0;
      if ok {
        Unlink(id);
      }
    }

    /** What a callback does. */
    method RunCallback(calls: seq<Call>)
      requires Chained(View()) && CallsInRange(View(), calls) && CallsDefined(View(), calls)
      modifies this
      ensures View() == PerformAll(old(View()), calls)
    {
      hide NoRepeats, ArmedAreLinked, SetTimer, KillTimer, CallDefined, CallsDefined, InRange;
      var k := 0;
      assert calls[0..] == calls;
      while k < |calls|
        invariant k <= |calls| && Chained(View()) && CallsInRange(View(), calls[k..]) && CallsDefined(View(), calls[k..])
        invariant PerformAll(View(), calls[k..]) == PerformAll(old(View()), calls)
      {
        assert calls[k..][0] == calls[k] && calls[k..][1..] == calls[k + 1..];
        CallsStayDefined(View(), calls[k..]);
        match calls[k] {
          case Set(id, timeout) => var _ := SetTimeout(id, timeout);
          case Kill(id) => var _ := KillTimeout(id);
        }
        k := k + 1;
      }
      assert calls[k..] == [];
    }

    /** apt_timers_reschedule: from the last timer to the first. */
    method Reschedule()
      requires Chained(View())
      modifies this`sched, this`elapsed
      ensures View() == Rebase(old(View()))
    {
      hide RebasedFrom, Minus, Rebase;
      ghost var q := View();
      var k: nat := |ring|;
      assert RebasedFrom(sched, q.sched, ring, k, elapsed) by { NothingRebased(sched, ring, elapsed); }
      while k > 0
        invariant k <= |ring| && |sched| == |q.sched| && elapsed == q.elapsed && RebasedFrom(sched, q.sched, ring, k, elapsed)
      {
        RebasedNext(sched, q.sched, ring, k, elapsed);
        k := k - 1;
        sched := sched[ring[k] := Minus(sched[ring[k]], elapsed)];
      }
      RebasedWhole(sched, q);
      elapsed := 0;
      assert View() == Rebase(q) by { RebaseChangesOnlyTimes(q); }
    }

    /** The firing loop of apt_timer_queue_advance. */
    method FireLoop(script: seq<seq<Call>>) returns (fired: seq<nat>)
      requires Chained(View()) && ScriptInRange(View(), script) && Defined(View(), script)
      modifies this
      ensures (View(), fired) == FireDue(old(View()), script)
    {
      hide NoRepeats, ArmedAreLinked, FireDue, FireFirst, Due, Defined, CallsDefined, Zeros;
      fired := [];
      var rest := script;
      ghost var all := FireDue(View(), script);
      assert [] + all.1 == all.1;
      while ring != [] && sched[ring[0]] <= elapsed
        invariant Chained(View()) && ScriptInRange(View(), rest) && Defined(View(), rest)
        invariant FireDue(View(), rest).0 == all.0 && fired + FireDue(View(), rest).1 == all.1
        decreases Due(View())
      {
        ghost var q, more := View(), FireDue(View(), rest).1;
        FireStep(q, rest);
        var first := ring[0];
        PoppedChained(q);
        ring := ring[1..];
        sched := sched[first := 0];
        assert View() == Popped(q);
        RunCallback(FirstCalls(rest));
        assert View() == FireFirst(q, FirstCalls(rest)) by { FireFirstIsPopped(q, FirstCalls(rest)); }
        rest := LaterCalls(rest);
        assert fired + more == fired + [first] + FireDue(View(), rest).1;
        fired := fired + [first];
      }
      NothingToFire(View(), rest);
      assert fired + [] == fired;
    }

    /** apt_timer_queue_advance */
    method AdvanceTime(dt: nat, script: seq<seq<Call>>) returns (fired: seq<nat>)
      requires Chained(View()) && ScriptInRange(View(), script) && AdvanceDefined(View(), dt, script)
      modifies this
      ensures (View(), fired) == Advance(old(View()), dt, script)
    {
      hide NoRepeats, ArmedAreLinked, FireDue, Rebase, Defined;
      if ring == [] || reset {
        return [];
      }
      TickChained(View(), dt);
      ghost var q := View();
      elapsed := elapsed + dt;
      if elapsed >= REBASE_AT {
        Reschedule();
      }
      assert View() == Tick(q, dt);
      fired := FireLoop(script);
    }

    /** apt_timer_queue_timeout_get: the smallest remaining time, if nothing is due. */
    method Timeout() returns (ok: bool, timeout: nat)
      requires Chained(View())
      modifies this`reset
      ensures !reset && ok == (ring != [])
      ensures ok ==> ring[0] < |sched| && timeout == Minus(sched[ring[0]], elapsed)
      ensures ok && Valid(View()) && Quiet(View()) ==>
        forall k :: 0 <= k < |ring| ==> timeout <= sched[ring[k]] - elapsed
    {
      reset := false;
      if ring == [] {
        return false, 0;
      }
      return true, Minus(sched[ring[0]], elapsed);
    }
  }
}
