/** Setting a timer that is linked with a scheduled time of 0.  The code takes it for
    unlinked and links it a second time.  The ring is modelled here with its pointers,
    and what becomes of it is stated exactly. */
module TimerRelink {
  import opened TimerModel

  /** Both pointers of each timer and, under a number of its own, of the head of the ring. */
  datatype Links = Links(next: seq<nat>, prev: seq<nat>)

  function Next(l: Links, k: nat): nat {
    if k < |l.next| then l.next[k] else k
  }

  function Prev(l: Links, k: nat): nat {
    if k < |l.prev| then l.prev[k] else k
  }

  function SetNext(l: Links, k: nat, v: nat): Links {
    if k < |l.next| then l.(next := l.next[k := v]) else l
  }

  function SetPrev(l: Links, k: nat, v: nat): Links {
    if k < |l.prev| then l.(prev := l.prev[k := v]) else l
  }

  /** APR_RING_INSERT_AFTER: four assignments, one after the other. */
  function InsertAfter(l: Links, at: nat, x: nat): Links {
    var l1 := SetPrev(l, x, at);
    var l2 := SetNext(l1, x, Next(l1, at));
    var l3 := SetPrev(l2, Next(l2, at), x);
    SetNext(l3, at, x)
  }

  /** Each next pointer leads to the next node of the path. */
  ghost predicate Forward(l: Links, path: seq<nat>) {
    forall k :: 0 <= k < |path| - 1 ==> Next(l, path[k]) == path[k + 1]
  }

  ghost predicate Backward(l: Links, path: seq<nat>) {
    forall k :: 0 <= k < |path| - 1 ==> Prev(l, path[k + 1]) == path[k]
  }

  /** From the head through timers, each once, and back to the head. */
  ghost predicate IsRing(l: Links, head: nat, path: seq<nat>) {
    && |path| > 1 && path[0] == path[|path| - 1] == head
    && (forall k :: 0 <= k < |path| ==> path[k] < |l.next| == |l.prev|)
    && (forall j, k :: 0 <= j < k < |path| - 1 ==> path[j] != path[k])
  }

  /** The pointers link these timers, in this order, in both directions. */
  ghost predicate Represents(l: Links, head: nat, path: seq<nat>) {
    IsRing(l, head, path) && Forward(l, path) && Backward(l, path)
  }

  /** What inserting x behind another node makes of the pointers. */
  lemma InsertIs(l: Links, at: nat, x: nat, k: nat)
    requires |l.next| == |l.prev| && at < |l.next| && x < |l.next| && l.next[at] < |l.next|
    ensures var r := InsertAfter(l, at, x);
      && |r.next| == |l.next| && |r.prev| == |l.prev|
      && Next(r, k) == (if k == at then x else if k == x then Next(l, at) else Next(l, k))
      && (at != x ==> Prev(r, k) == if k == Next(l, at) then x else if k == x then at else Prev(l, k))
      && (at == x ==> Prev(r, k) == if k == Next(l, at) || k == x then x else Prev(l, k))
  {
  }

  // ---------- linking a timer that is not linked ----------

  /** It goes between the node at i and the next one, in both directions. */
  lemma LinksBetween(l: Links, head: nat, path: seq<nat>, i: nat, x: nat)
    requires Represents(l, head, path) && i < |path| - 1 && x < |l.next| && x !in path
    ensures Represents(InsertAfter(l, path[i], x), head, path[..i + 1] + [x] + path[i + 1..])
  {
    hide InsertAfter, Next, Prev;
    var longer, r := path[..i + 1] + [x] + path[i + 1..], InsertAfter(l, path[i], x);
    InRing(l, head, path, i);
    InsertIs(l, path[i], x, x);
    assert forall k :: 0 <= k < |longer| ==> longer[k] == if k <= i then path[k] else if k == i + 1 then x else path[k - 1];
    forall k | 0 <= k < |longer| - 1
      ensures Next(r, longer[k]) == longer[k + 1] && Prev(r, longer[k + 1]) == longer[k]
    {
      if k < i {
        KeptBetween(l, head, path, i, x, k);
      } else if k > i + 1 {
        KeptBetween(l, head, path, i, x, k - 1);
      } else {
        InsertIs(l, path[i], x, longer[k]);
        InsertIs(l, path[i], x, longer[k + 1]);
      }
    }
  }

  /** The pointers between the other neighbours stay. */
  lemma KeptBetween(l: Links, head: nat, path: seq<nat>, i: nat, x: nat, k: nat)
    requires Represents(l, head, path) && i < |path| - 1 && x < |l.next| && x !in path && k < |path| - 1 && k != i
    ensures var r := InsertAfter(l, path[i], x); Next(r, path[k]) == path[k + 1] && Prev(r, path[k + 1]) == path[k]
  {
    hide InsertAfter, Next, Prev;
    InRing(l, head, path, i);
    InRing(l, head, path, k);
    Apart(l, head, path, i, k);
    InsertIs(l, path[i], x, path[k]);
    InsertIs(l, path[i], x, path[k + 1]);
  }

  lemma InRing(l: Links, head: nat, path: seq<nat>, k: nat)
    requires Represents(l, head, path) && k < |path| - 1
    ensures Next(l, path[k]) == path[k + 1] && Prev(l, path[k + 1]) == path[k]
    ensures path[k] < |l.next| == |l.prev| && l.next[path[k]] < |l.next|
  {
  }

  /** Nodes at different places of the ring are different, and so are their successors. */
  lemma Apart(l: Links, head: nat, path: seq<nat>, i: nat, k: nat)
    requires IsRing(l, head, path) && i < |path| - 1 && k < |path| - 1 && i != k
    ensures path[i] != path[k] && path[i + 1] != path[k + 1]
  {
  }

  // ---------- linking it again ----------

  /** The pointers once the timer at i of the ring is linked again behind the later one at j. */
  lemma AgainIs(l: Links, head: nat, path: seq<nat>, i: nat, j: nat, k: nat)
    requires Represents(l, head, path) && 0 < i < j < |path| - 1 && k < |path| - 1
    ensures var r := InsertAfter(l, path[j], path[i]);
      && Next(r, path[k]) == (if k == j then path[i] else if k == i then path[j + 1] else path[k + 1])
      && Prev(r, path[k + 1]) == (if k == j then path[i] else if k + 1 == i then path[j] else path[k])
  {
    hide InsertAfter, Next, Prev;
    InRing(l, head, path, j);
    InRing(l, head, path, k);
    if k != i {
      Apart(l, head, path, i, k);
    }
    if k != j {
      Apart(l, head, path, j, k);
    }
    if k + 1 != i {
      Apart(l, head, path, i - 1, k);
    }
    Apart(l, head, path, i, j);
    InsertIs(l, path[j], path[i], path[k]);
    InsertIs(l, path[j], path[i], path[k + 1]);
  }

  /** Followed forwards, the ring goes on behind the later timer: those between are lost. */
  lemma LostForwards(l: Links, head: nat, path: seq<nat>, i: nat, j: nat)
    requires Represents(l, head, path) && 0 < i < j < |path| - 1
    ensures Forward(InsertAfter(l, path[j], path[i]), path[..i + 1] + path[j + 1..])
  {
    hide InsertAfter, Next, Represents;
    var front := path[..i + 1] + path[j + 1..];
    assert forall k :: 0 <= k < |front| ==> front[k] == if k <= i then path[k] else path[k + (j - i)];
    forall k | 0 <= k < |front| - 1
      ensures Next(InsertAfter(l, path[j], path[i]), front[k]) == front[k + 1]
    {
      AgainIs(l, head, path, i, j, if k <= i then k else k + (j - i));
    }
  }

  /** Followed backwards, it comes to them and goes round among them. */
  lemma RoundBackwards(l: Links, head: nat, path: seq<nat>, i: nat, j: nat)
    requires Represents(l, head, path) && 0 < i < j < |path| - 1
    ensures var r := InsertAfter(l, path[j], path[i]);
      Backward(r, [path[i]] + path[j + 1..]) && Backward(r, path[i..j + 1] + [path[i]])
  {
    hide InsertAfter, Prev, Represents;
    var r := InsertAfter(l, path[j], path[i]);
    var back, round := [path[i]] + path[j + 1..], path[i..j + 1] + [path[i]];
    assert forall k :: 0 < k < |back| ==> back[k] == path[j + k];
    forall k | 0 <= k < |back| - 1 ensures Prev(r, back[k + 1]) == back[k] {
      AgainIs(l, head, path, i, j, j + k);
    }
    assert forall k :: 0 <= k < |round| - 1 ==> round[k] == path[i + k];
    forall k | 0 <= k < |round| - 1 ensures Prev(r, round[k + 1]) == round[k] {
      AgainIs(l, head, path, i, j, if i + k < j then i + k else i - 1);
    }
  }

  /** Linked again behind itself it is its own neighbour on both sides: in either
      direction the ring comes to it and never leaves it. */
  lemma LinkedBehindItself(l: Links, head: nat, path: seq<nat>, i: nat)
    requires Represents(l, head, path) && 0 < i < |path| - 1
    ensures var r := InsertAfter(l, path[i], path[i]);
      && Next(r, path[i]) == Prev(r, path[i]) == path[i]
      && Forward(r, path[..i + 1]) && Backward(r, path[i..])
  {
    hide InsertAfter;
    assert Next(l, path[i]) == path[i + 1];
    forall k | 0 <= k < |path|
      ensures var r := InsertAfter(l, path[i], path[i]);
        && Next(r, path[k]) == (if k == i then path[i] else Next(l, path[k]))
        && (k > 0 ==> Prev(r, path[k]) == if k == i + 1 || k == i then path[i] else Prev(l, path[k]))
    {
      InsertIs(l, path[i], path[i], path[k]);
    }
  }

  // ---------- a search that does not end ----------

  /** The node so many steps back from another. */
  function Back(l: Links, from: nat, steps: nat): nat {
    if steps == 0 then from else Prev(l, Back(l, from, steps - 1))
  }

  /** In such a ring no number of steps leads from the tail back to the head: a search that
      is stopped by no timer on the way does not end. */
  lemma {:induction false} NeverBack(l: Links, head: nat, path: seq<nat>, i: nat, j: nat, steps: nat)
    requires Represents(l, head, path) && 0 < i < j < |path| - 1 && steps > 0
    ensures var at := Back(InsertAfter(l, path[j], path[i]), head, steps); at in path[i..|path| - 1] && at != head
  {
    hide InsertAfter, Prev;
    var r := InsertAfter(l, path[j], path[i]);
    RoundBackwards(l, head, path, i, j);
    if steps == 1 {
      var back := [path[i]] + path[j + 1..];
      var m := |back| - 2;
      assert back[m + 1] == head && back[m] == if m == 0 then path[i] else path[|path| - 2];
      assert Prev(r, back[m + 1]) == back[m];
      assert forall n :: i <= n < |path| - 1 ==> path[n] in path[i..|path| - 1];
      assert Back(r, head, 0) == head;
    } else {
      NeverBack(l, head, path, i, j, steps - 1);
      StaysBack(r, head, path, i, j, Back(r, head, steps - 1));
    }
    assert forall k :: i <= k < |path| - 1 ==> path[k] != path[0];
  }

  lemma StaysBack(r: Links, head: nat, path: seq<nat>, i: nat, j: nat, y: nat)
    requires 0 < i < j < |path| - 1 && y in path[i..|path| - 1]
    requires Backward(r, [path[i]] + path[j + 1..]) && Backward(r, path[i..j + 1] + [path[i]])
    ensures Prev(r, y) in path[i..|path| - 1]
  {
    var back, round := [path[i]] + path[j + 1..], path[i..j + 1] + [path[i]];
    var k :| i <= k < |path| - 1 && path[k] == y;
    if k > j {
      var m := k - j - 1;
      assert back[m + 1] == y && back[m] == if m == 0 then path[i] else path[k - 1];
    } else {
      var m := if k > i then k - i - 1 else j - i;
      assert round[m + 1] == y && round[m] == path[i + m];
    }
    assert forall n :: i <= n < |path| - 1 ==> path[n] in path[i..|path| - 1];
  }

  // ---------- where the code links it ----------

  /** apt_timer_insert looks from the tail for a timer that does not elapse later.  The
      timer to be linked is among those it looks at, with its new time. */
  lemma SearchStops(path: seq<nat>, sched: seq<nat>, i: nat) returns (j: nat)
    requires 0 < i < |path| - 1 && forall k :: 0 < k < |path| - 1 ==> path[k] < |sched|
    ensures i <= j < |path| - 1 && sched[path[j]] <= sched[path[i]]
    ensures forall k :: j < k < |path| - 1 ==> sched[path[k]] > sched[path[i]]
  {
    j := |path| - 2;
    while sched[path[j]] > sched[path[i]]
      invariant i <= j < |path| - 1 && forall k :: j < k < |path| - 1 ==> sched[path[k]] > sched[path[i]]
      decreases j
    {
      j := j - 1;
    }
  }

  /** A linked timer is set without being unlinked: it is linked again behind the last
      timer that elapses no later.  If that is another one, the timers from behind the
      first place up to it are not found any more from the front, and from the tail the
      head is not found any more.  If it is the timer itself, nothing behind it is found
      from the front, and nothing before it from the tail. */
  lemma LinkedTwice(l: Links, head: nat, path: seq<nat>, sched: seq<nat>, i: nat) returns (j: nat)
    requires Represents(l, head, path) && 0 < i < |path| - 1
    requires forall k :: 0 < k < |path| - 1 ==> path[k] < |sched|
    ensures i <= j < |path| - 1 && sched[path[j]] <= sched[path[i]]
    ensures forall k :: j < k < |path| - 1 ==> sched[path[k]] > sched[path[i]]
    ensures var r := InsertAfter(l, path[j], path[i]);
      if j > i then Forward(r, path[..i + 1] + path[j + 1..]) && forall steps: nat :: steps > 0 ==> Back(r, head, steps) != head
      else Next(r, path[i]) == Prev(r, path[i]) == path[i] && Forward(r, path[..i + 1]) && Backward(r, path[i..])
  {
    hide InsertAfter, Represents, Forward, Backward;
    j := SearchStops(path, sched, i);
    if j > i {
      LostForwards(l, head, path, i, j);
      forall steps: nat | steps > 0 ensures Back(InsertAfter(l, path[j], path[i]), head, steps) != head {
        NeverBack(l, head, path, i, j, steps);
      }
    } else {
      LinkedBehindItself(l, head, path, i);
    }
  }
}
