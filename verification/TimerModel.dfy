/** The timer queue (apt_timer_queue.c): a ring of armed timers sorted by their
    deadline, and a clock that is rebased when it reaches 0xFFFF.  What the
    callbacks of elapsed timers do to the queue is given as a script: the list
    of set and kill calls made by the first, second, ... callback. */
module TimerModel {

  const REBASE_AT := 0xFFFF
  const UINT32 := 0x1_0000_0000

  datatype Queue = Queue(
    ring: seq<nat>,        // linked timers, first to elapse first
    sched: seq<nat>,       // scheduled_time of every timer
    elapsed: nat,
    reset: bool)

  datatype Call = Set(id: nat, timeout: nat) | Kill(id: nat)

  predicate InRange(q: Queue) {
    forall k :: 0 <= k < |q.ring| ==> q.ring[k] < |q.sched|
  }

  predicate NoRepeats(ring: seq<nat>) {
    forall j, k :: 0 <= j < k < |ring| ==> ring[j] != ring[k]
  }

  predicate Sorted(ring: seq<nat>, sched: seq<nat>) {
    forall j, k :: 0 <= j < k < |ring| && ring[j] < |sched| && ring[k] < |sched| ==> sched[ring[j]] <= sched[ring[k]]
  }

  /** In the ring each timer stands once, in the order of the deadlines. */
  ghost predicate Ordered(ring: seq<nat>, sched: seq<nat>) {
    && (forall k :: 0 <= k < |ring| ==> ring[k] < |sched|)
    && NoRepeats(ring) && Sorted(ring, sched)
  }

  ghost predicate ExactlyArmed(ring: seq<nat>, sched: seq<nat>) {
    forall i :: 0 <= i < |sched| ==> (i in ring <==> sched[i] > 0)
  }

  ghost predicate ArmedAreLinked(ring: seq<nat>, sched: seq<nat>) {
    forall i :: 0 <= i < |sched| && sched[i] > 0 ==> i in ring
  }

  /** Each timer is linked at most once, and every timer with a scheduled time is. */
  ghost predicate Chained(q: Queue) {
    InRange(q) && NoRepeats(q.ring) && ArmedAreLinked(q.ring, q.sched)
  }

  /** ... and the ring is sorted by deadline. */
  ghost predicate Valid(q: Queue) {
    Chained(q) && Ordered(q.ring, q.sched)
  }

  /** Linked timers that look unarmed because their scheduled time is 0. */
  ghost function Zeros(q: Queue): set<nat> {
    set i | i in q.ring && i < |q.sched| && q.sched[i] == 0
  }

  /** Between two advances no armed timer is due. */
  ghost predicate Quiet(q: Queue)
    requires InRange(q)
  {
    forall k :: 0 <= k < |q.ring| ==> q.sched[q.ring[k]] > q.elapsed
  }

  // ---------- operations ----------

  function Without(ring: seq<nat>, id: nat): (r: seq<nat>)
    ensures forall x :: x in r <==> x in ring && x != id
  {
    if ring == [] then []
    else
      var rest := Without(ring[1..], id);
      if ring[0] == id then rest else [ring[0]] + rest
  }

  /** apt_timer_remove: emptying the queue resets the clock. */
  function Remove(q: Queue, id: nat): (r: Queue)
    requires id < |q.sched|
    ensures |r.sched| == |q.sched|
  {
    var q1 := q.(ring := Without(q.ring, id), sched := q.sched[id := 0]);
    if q1.ring == [] then q1.(elapsed := 0, reset := true) else q1
  }

  /** apt_timer_insert: after the last timer that does not elapse later. */
  function Insert(ring: seq<nat>, sched: seq<nat>, id: nat): seq<nat> {
    if ring == [] then [id]
    else
      var last := ring[|ring| - 1];
      if last < |sched| && id < |sched| && sched[last] > sched[id]
      then Insert(ring[..|ring| - 1], sched, id) + [last]
      else ring + [id]
  }

  function SetTimer(q: Queue, id: nat, timeout: nat): Queue
    requires id < |q.sched|
  {
    if timeout == 0 then q
    else
      var q1 := if q.sched[id] != 0 then Remove(q, id) else q;
      var sched := q1.sched[id := q1.elapsed + timeout];
      q1.(sched := sched, ring := Insert(q1.ring, sched, id))
  }

  function KillTimer(q: Queue, id: nat): Queue
    requires id < |q.sched|
  {
    if q.sched[id] == 0 then q else Remove(q, id)
  }

  predicate CallsInRange(q: Queue, calls: seq<Call>) {
    forall k :: 0 <= k < |calls| ==> calls[k].id < |q.sched|
  }

  function Perform(q: Queue, call: Call): (r: Queue)
    requires call.id < |q.sched|
    ensures |r.sched| == |q.sched|
  {
    match call
    case Set(id, timeout) => SetTimer(q, id, timeout)
    case Kill(id) => KillTimer(q, id)
  }

  function PerformAll(q: Queue, calls: seq<Call>): (r: Queue)
    requires CallsInRange(q, calls)
    ensures |r.sched| == |q.sched|
    decreases |calls|
  {
    if calls == [] then q else PerformAll(Perform(q, calls[0]), calls[1..])
  }

  /** Subtraction of 32-bit unsigned numbers. */
  function Minus(a: nat, b: nat): nat {
    if a >= b then a - b else (a - b) % UINT32
  }

  /** apt_timers_reschedule, with the unsigned subtraction as written. */
  function Rebase(q: Queue): (r: Queue)
    ensures |r.sched| == |q.sched|
  {
    q.(sched := seq(|q.sched|, i requires 0 <= i < |q.sched| =>
                      if i in q.ring then Minus(q.sched[i], q.elapsed) else q.sched[i]),
       elapsed := 0)
  }

  /** The clock moves on; it is rebased when it has grown too far. */
  function Tick(q: Queue, dt: nat): (r: Queue)
    ensures |r.sched| == |q.sched|
  {
    var q1 := q.(elapsed := q.elapsed + dt);
    if q1.elapsed >= REBASE_AT then Rebase(q1) else q1
  }

  /** The first timer elapses: it leaves the ring and its callback runs. */
  function FireFirst(q: Queue, calls: seq<Call>): (r: Queue)
    requires q.ring != [] && q.ring[0] < |q.sched| && CallsInRange(q, calls)
    ensures |r.sched| == |q.sched|
  {
    PerformAll(q.(ring := q.ring[1..], sched := q.sched[q.ring[0] := 0]), calls)
  }

  ghost function Due(q: Queue): set<nat>
    requires InRange(q)
  {
    set i | i in q.ring && q.sched[i] <= q.elapsed
  }

  predicate ScriptInRange(q: Queue, script: seq<seq<Call>>) {
    forall k :: 0 <= k < |script| ==> CallsInRange(q, script[k])
  }

  function FirstCalls(script: seq<seq<Call>>): seq<Call> {
    if script == [] then [] else script[0]
  }

  function LaterCalls(script: seq<seq<Call>>): seq<seq<Call>> {
    if script == [] then [] else script[1..]
  }

  // ---------- the operations keep the queue valid ----------

  lemma OrderedParts(ring: seq<nat>, sched: seq<nat>)
    requires Ordered(ring, sched) && ring != []
    ensures Ordered(ring[1..], sched) && Ordered(ring[..|ring| - 1], sched)
    ensures forall x :: x in ring[1..] ==> x < |sched| && x != ring[0] && sched[ring[0]] <= sched[x]
    ensures forall x :: x in ring[..|ring| - 1] ==> x < |sched| && x != ring[|ring| - 1] && sched[x] <= sched[ring[|ring| - 1]]
  {
  }

  lemma OrderedCons(a: nat, ring: seq<nat>, sched: seq<nat>)
    requires Ordered(ring, sched) && a < |sched| && forall x :: x in ring ==> x != a && sched[a] <= sched[x]
    ensures Ordered([a] + ring, sched)
  {
    var r := [a] + ring;
    forall j, k | 0 <= j < k < |r|
      ensures r[j] != r[k] && sched[r[j]] <= sched[r[k]]
    {
      assert r[k] == ring[k - 1] && r[k] in ring;
    }
  }

  lemma OrderedSnoc(ring: seq<nat>, a: nat, sched: seq<nat>)
    requires Ordered(ring, sched) && a < |sched| && forall x :: x in ring ==> x != a && sched[x] <= sched[a]
    ensures Ordered(ring + [a], sched)
  {
    var r := ring + [a];
    forall j, k | 0 <= j < k < |r|
      ensures r[j] != r[k] && sched[r[j]] <= sched[r[k]]
    {
      assert r[j] == ring[j] && r[j] in ring;
    }
  }

  lemma {:induction false} WithoutOrdered(ring: seq<nat>, sched: seq<nat>, id: nat)
    requires Ordered(ring, sched)
    ensures Ordered(Without(ring, id), sched)
  {
    hide Ordered;
    if ring == [] {
      assert Without(ring, id) == ring;
    } else {
      OrderedParts(ring, sched);
      OrderedFirst(ring, sched);
      WithoutOrdered(ring[1..], sched, id);
      if ring[0] != id {
        OrderedCons(ring[0], Without(ring[1..], id), sched);
      }
    }
  }

  lemma OrderedFirst(ring: seq<nat>, sched: seq<nat>)
    requires Ordered(ring, sched) && ring != []
    ensures ring[0] < |sched| && ring[|ring| - 1] < |sched|
  {
  }

  lemma {:induction false} InsertMembers(ring: seq<nat>, sched: seq<nat>, id: nat)
    ensures forall x :: x in Insert(ring, sched, id) <==> x in ring || x == id
    decreases |ring|
  {
    if ring != [] {
      var n := |ring| - 1;
      InsertMembers(ring[..n], sched, id);
      assert ring == ring[..n] + [ring[n]];
    }
  }

  lemma {:induction false} InsertOrdered(ring: seq<nat>, sched: seq<nat>, id: nat)
    requires Ordered(ring, sched) && id < |sched| && id !in ring
    ensures Ordered(Insert(ring, sched, id), sched)
    decreases |ring|
  {
    hide Ordered;
    if ring == [] {
      OrderedSnoc([], id, sched) by { assert Ordered([], sched) by { NothingOrdered(sched); } }
      assert [] + [id] == [id];
    } else {
      var n := |ring| - 1;
      OrderedParts(ring, sched);
      OrderedFirst(ring, sched);
      assert ring == ring[..n] + [ring[n]];
      if sched[ring[n]] > sched[id] {
        InsertOrdered(ring[..n], sched, id);
        InsertMembers(ring[..n], sched, id);
        OrderedSnoc(Insert(ring[..n], sched, id), ring[n], sched);
      } else {
        OrderedSnoc(ring, id, sched);
      }
    }
  }

  lemma NothingOrdered(sched: seq<nat>)
    ensures Ordered([], sched)
  {
  }

  lemma OrderedElsewhere(ring: seq<nat>, sched: seq<nat>, id: nat, v: nat)
    requires Ordered(ring, sched) && id < |sched| && id !in ring
    ensures Ordered(ring, sched[id := v])
  {
  }

  // ---------- linking and unlinking ----------

  lemma {:induction false} WithoutNoRepeats(ring: seq<nat>, id: nat)
    requires NoRepeats(ring)
    ensures NoRepeats(Without(ring, id))
  {
    if ring != [] {
      var rest := Without(ring[1..], id);
      WithoutNoRepeats(ring[1..], id);
      assert forall x :: x in rest ==> x in ring[1..];
      assert ring[0] !in rest;
      NoRepeatsCons(ring[0], rest);
    }
  }

  lemma NoRepeatsCons(a: nat, ring: seq<nat>)
    requires NoRepeats(ring) && a !in ring
    ensures NoRepeats([a] + ring)
  {
    var r := [a] + ring;
    forall j, k | 0 <= j < k < |r|
      ensures r[j] != r[k]
    {
      assert r[k] == ring[k - 1] && r[k] in ring;
    }
  }

  lemma NoRepeatsSnoc(ring: seq<nat>, a: nat)
    requires NoRepeats(ring) && a !in ring
    ensures NoRepeats(ring + [a])
  {
    var r := ring + [a];
    forall j, k | 0 <= j < k < |r|
      ensures r[j] != r[k]
    {
      assert r[j] == ring[j] && r[j] in ring;
    }
  }

  lemma {:induction false} InsertNoRepeats(ring: seq<nat>, sched: seq<nat>, id: nat)
    requires NoRepeats(ring) && id !in ring
    ensures NoRepeats(Insert(ring, sched, id))
    decreases |ring|
  {
    if ring != [] {
      var n := |ring| - 1;
      assert ring == ring[..n] + [ring[n]];
      InsertNoRepeats(ring[..n], sched, id);
      InsertMembers(ring[..n], sched, id);
      assert ring[n] !in ring[..n];
      if ring[n] < |sched| && id < |sched| && sched[ring[n]] > sched[id] {
        NoRepeatsSnoc(Insert(ring[..n], sched, id), ring[n]);
      } else {
        NoRepeatsSnoc(ring, id);
      }
    }
  }

  lemma RemoveChained(q: Queue, id: nat)
    requires Chained(q) && id < |q.sched|
    ensures Chained(Remove(q, id)) && Due(Remove(q, id)) <= Due(q) - {id} && Zeros(Remove(q, id)) == Zeros(q) - {id}
    ensures id !in Remove(q, id).ring
  {
    hide NoRepeats;
    WithoutNoRepeats(q.ring, id);
    var rest := Without(q.ring, id);
    assert forall k :: 0 <= k < |rest| ==> rest[k] in rest;
    if rest == [] {
      forall x | x in q.ring
        ensures x == id
      {
        assert x != id ==> x in rest;
      }
    }
  }

  /** Arming a timer that is not linked. */
  function Arm(q: Queue, id: nat, timeout: nat): Queue
    requires id < |q.sched|
  {
    var sched := q.sched[id := q.elapsed + timeout];
    q.(sched := sched, ring := Insert(q.ring, sched, id))
  }

  lemma ArmChained(q: Queue, id: nat, timeout: nat)
    requires Chained(q) && id < |q.sched| && id !in q.ring && timeout > 0
    ensures Chained(Arm(q, id, timeout)) && Due(Arm(q, id, timeout)) <= Due(q) - {id}
    ensures Zeros(Arm(q, id, timeout)) == Zeros(q)
  {
    hide NoRepeats, Insert;
    var sched := q.sched[id := q.elapsed + timeout];
    InsertNoRepeats(q.ring, sched, id);
    InsertMembers(q.ring, sched, id);
    var r := Arm(q, id, timeout);
    assert forall k :: 0 <= k < |r.ring| ==> r.ring[k] in r.ring;
  }

  /** A call does not link a timer that is linked: it sets none whose time is 0. */
  predicate CallDefined(q: Queue, call: Call) {
    call.Set? && call.timeout > 0 && call.id in q.ring && call.id < |q.sched| ==> q.sched[call.id] != 0
  }

  ghost predicate CallsDefined(q: Queue, calls: seq<Call>) {
    forall k :: 0 <= k < |calls| ==> (calls[k].Set? && calls[k].timeout > 0 ==> calls[k].id !in Zeros(q))
  }

  /** A call links each timer once, makes none due, and neither sets nor clears a
      scheduled time of 0. */
  lemma PerformChained(q: Queue, call: Call)
    requires Chained(q) && call.id < |q.sched| && CallDefined(q, call)
    ensures Chained(Perform(q, call)) && Due(Perform(q, call)) <= Due(q) && Zeros(Perform(q, call)) == Zeros(q)
  {
    hide NoRepeats, Insert, Remove, ArmedAreLinked, Due;
    var id := call.id;
    if q.sched[id] != 0 {
      RemoveChained(q, id);
      assert id !in Zeros(q);
    }
    if call.Set? && call.timeout > 0 {
      ArmChained(if q.sched[id] != 0 then Remove(q, id) else q, id, call.timeout);
    }
  }

  lemma {:induction false} PerformAllChained(q: Queue, calls: seq<Call>)
    requires Chained(q) && CallsInRange(q, calls) && CallsDefined(q, calls)
    ensures Chained(PerformAll(q, calls)) && Due(PerformAll(q, calls)) <= Due(q)
    ensures Zeros(PerformAll(q, calls)) == Zeros(q)
    decreases |calls|
  {
    hide Perform, NoRepeats, ArmedAreLinked, Due;
    if calls != [] {
      PerformChained(q, calls[0]);
      PerformAllChained(Perform(q, calls[0]), calls[1..]);
    }
  }

  // ---------- order ----------

  lemma RemoveOrdered(q: Queue, id: nat)
    requires Ordered(q.ring, q.sched) && id < |q.sched|
    ensures Ordered(Remove(q, id).ring, Remove(q, id).sched)
  {
    hide Ordered;
    WithoutOrdered(q.ring, q.sched, id);
    OrderedElsewhere(Without(q.ring, id), q.sched, id, 0);
  }

  lemma ArmOrdered(q: Queue, id: nat, timeout: nat)
    requires Ordered(q.ring, q.sched) && id < |q.sched| && id !in q.ring
    ensures Ordered(Arm(q, id, timeout).ring, Arm(q, id, timeout).sched)
  {
    hide Ordered;
    var sched := q.sched[id := q.elapsed + timeout];
    OrderedElsewhere(q.ring, q.sched, id, q.elapsed + timeout);
    InsertOrdered(q.ring, sched, id);
  }

  /** A call keeps the queue valid and makes no timer due. */
  lemma PerformValid(q: Queue, call: Call)
    requires Valid(q) && call.id < |q.sched| && CallDefined(q, call)
    ensures Valid(Perform(q, call)) && Due(Perform(q, call)) <= Due(q) && Zeros(Perform(q, call)) == Zeros(q)
  {
    hide Ordered, NoRepeats, Insert, Remove, ArmedAreLinked, Due;
    PerformChained(q, call);
    var id := call.id;
    if q.sched[id] != 0 {
      RemoveOrdered(q, id);
      RemoveChained(q, id);
    }
    if call.Set? && call.timeout > 0 {
      ArmOrdered(if q.sched[id] != 0 then Remove(q, id) else q, id, call.timeout);
    }
  }

  /** Setting a timer leaves it linked, and not due. */
  lemma SetValid(q: Queue, id: nat, timeout: nat)
    requires Valid(q) && id < |q.sched| && CallDefined(q, Set(id, timeout))
    ensures Valid(SetTimer(q, id, timeout)) && Due(SetTimer(q, id, timeout)) <= Due(q)
    ensures timeout > 0 ==> Due(SetTimer(q, id, timeout)) <= Due(q) - {id}
  {
    hide Ordered, NoRepeats, Insert, Remove, ArmedAreLinked, Due;
    PerformValid(q, Set(id, timeout));
    if timeout > 0 {
      if q.sched[id] != 0 {
        RemoveChained(q, id);
      }
      ArmChained(if q.sched[id] != 0 then Remove(q, id) else q, id, timeout);
    }
  }

  lemma {:induction false} PerformAllValid(q: Queue, calls: seq<Call>)
    requires Valid(q) && CallsInRange(q, calls) && CallsDefined(q, calls)
    ensures Valid(PerformAll(q, calls)) && Due(PerformAll(q, calls)) <= Due(q)
    ensures Zeros(PerformAll(q, calls)) == Zeros(q)
    decreases |calls|
  {
    hide Perform, Ordered, NoRepeats, ArmedAreLinked, Due;
    if calls != [] {
      PerformValid(q, calls[0]);
      PerformAllValid(Perform(q, calls[0]), calls[1..]);
    }
  }
}
