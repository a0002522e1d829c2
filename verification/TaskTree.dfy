/** The start wave over a tree of tasks (apt_task.c).  Every task runs in its own
    thread: it starts its children one by one, then takes start-complete
    messages from its queue, in whatever order they come.  A step is one child
    started, one loop over the children finished, or one message processed. */
module TaskTree {

  datatype Phase = Idle | Starting(next: nat) | Ready

  /** The child tasks of every task, in the order of its ring, and the parent of every task. */
  datatype Tree = Tree(children: seq<seq<nat>>, parent: seq<nat>)

  /** Task 0 is the root; children are numbered after their parent and listed once. */
  ghost predicate WellFormed(tree: Tree) {
    && 0 < |tree.children| == |tree.parent|
    && (forall t :: 0 < t < |tree.parent| ==> tree.parent[t] < t && t in tree.children[tree.parent[t]])
    && (forall p, k :: 0 <= p < |tree.children| && 0 <= k < |tree.children[p]| ==>
          p < tree.children[p][k] < |tree.parent| && tree.parent[tree.children[p][k]] == p)
    && (forall p, j, k :: 0 <= p < |tree.children| && 0 <= j < k < |tree.children[p]| ==>
          tree.children[p][j] != tree.children[p][k])
  }

  datatype Wave = Wave(
    phase: seq<Phase>,
    pending: seq<nat>,            // pending_start
    inbox: seq<set<nat>>,         // children whose start-complete message is queued
    log: seq<nat>)                // tasks that raised start-complete, in order

  /** A tree and the state of its tasks. */
  ghost predicate Sized(tree: Tree, w: Wave) {
    WellFormed(tree) && |w.phase| == |w.pending| == |w.inbox| == |tree.parent|
  }

  function InitialWave(n: nat): Wave {
    Wave(seq(n, t => if t == 0 then Starting(0) else Idle), seq(n, t => 0), seq(n, t => {}), [])
  }

  /** apt_task_start_complete_raise */
  ghost function Raise(tree: Tree, w: Wave, t: nat): (r: Wave)
    requires Sized(tree, w) && t < |tree.parent|
    ensures Sized(tree, r)
  {
    var w1 := w.(log := w.log + [t]);
    if t == 0 then w1
    else
      var p := tree.parent[t];
      w1.(inbox := w.inbox[p := w.inbox[p] + {t}])
  }

  datatype Step = StartChild(t: nat, ok: bool) | FinishLoop(t: nat) | Process(t: nat, sender: nat)

  ghost predicate Enabled(tree: Tree, w: Wave, step: Step)
    requires Sized(tree, w)
  {
    && step.t < |tree.parent|
    && match step
       case StartChild(t, _) => w.phase[t].Starting? && w.phase[t].next < |tree.children[t]|
       case FinishLoop(t) => w.phase[t] == Starting(|tree.children[t]|)
       case Process(t, sender) => w.phase[t] == Ready && sender in w.inbox[t]
  }

  /** One child of the loop in apt_task_start_process_internal: a child that is
      idle and whose thread is created is counted as pending. */
  ghost function OnStartChild(tree: Tree, w: Wave, t: nat, ok: bool): (r: Wave)
    requires Sized(tree, w) && Enabled(tree, w, StartChild(t, ok))
    ensures Sized(tree, r)
  {
    var c := tree.children[t][w.phase[t].next];
    var phase1 := w.phase[t := Starting(w.phase[t].next + 1)];
    if ok && w.phase[c] == Idle
    then w.(phase := phase1[c := Starting(0)], pending := w.pending[t := w.pending[t] + 1])
    else w.(phase := phase1)
  }

  ghost function OnFinishLoop(tree: Tree, w: Wave, t: nat): (r: Wave)
    requires Sized(tree, w) && t < |tree.parent|
    ensures Sized(tree, r)
  {
    var w1 := w.(phase := w.phase[t := Ready]);
    if w.pending[t] == 0 then Raise(tree, w1, t) else w1
  }

  /** apt_task_start_request_remove */
  ghost function OnProcess(tree: Tree, w: Wave, t: nat, sender: nat): (r: Wave)
    requires Sized(tree, w) && t < |tree.parent|
    ensures Sized(tree, r)
  {
    var w1 := w.(inbox := w.inbox[t := w.inbox[t] - {sender}]);
    if w.pending[t] == 0 then w1
    else
      var w2 := w1.(pending := w.pending[t := w.pending[t] - 1]);
      if w2.pending[t] == 0 then Raise(tree, w2, t) else w2
  }

  ghost function Next(tree: Tree, w: Wave, step: Step): (r: Wave)
    requires Sized(tree, w) && Enabled(tree, w, step)
    ensures Sized(tree, r)
  {
    match step
    case StartChild(t, ok) => OnStartChild(tree, w, t, ok)
    case FinishLoop(t) => OnFinishLoop(tree, w, t)
    case Process(t, sender) => OnProcess(tree, w, t, sender)
  }

  // ---------- invariant ----------

  ghost predicate Started(w: Wave, t: nat) {
    t < |w.phase| && w.phase[t] != Idle
  }

  /** Children of t that were started and whose start-complete t has not processed. */
  ghost function Unacknowledged(tree: Tree, w: Wave, t: nat): set<nat>
    requires Sized(tree, w) && t < |tree.parent|
  {
    set c | c in tree.children[t] && Started(w, c) && !(c in w.log && c !in w.inbox[t])
  }

  /** Children of t from this position of its ring on have not been tried yet. */
  ghost function Tried(tree: Tree, w: Wave, t: nat): nat
    requires Sized(tree, w) && t < |tree.parent|
  {
    match w.phase[t]
    case Idle => 0
    case Starting(next) => next
    case Ready => |tree.children[t]|
  }

  /** The counter, the queue and the loop position of a task agree with its children. */
  ghost predicate Counted(tree: Tree, w: Wave, t: nat)
    requires Sized(tree, w) && t < |tree.parent|
  {
    && w.pending[t] == |Unacknowledged(tree, w, t)|
    && Tried(tree, w, t) <= |tree.children[t]|
    && (forall k :: Tried(tree, w, t) <= k < |tree.children[t]| ==> w.phase[tree.children[t][k]] == Idle)
    && (forall c :: c in w.inbox[t] ==> c in tree.children[t] && c in w.log)
  }

  /** A task raised start-complete exactly when it is ready and nothing is pending. */
  ghost predicate Logged(w: Wave, t: nat)
    requires t < |w.phase| == |w.pending|
  {
    t in w.log <==> w.phase[t] == Ready && w.pending[t] == 0
  }

  ghost predicate NoRepeats(log: seq<nat>) {
    forall i, j :: 0 <= i < j < |log| ==> log[i] != log[j]
  }

  /** Each task in the log comes after all its started children. */
  ghost predicate ChildrenFirst(tree: Tree, w: Wave)
    requires Sized(tree, w)
  {
    forall i :: 0 <= i < |w.log| ==> w.log[i] < |tree.parent| && StartedChildrenIn(tree, w, w.log[i], w.log[..i])
  }

  ghost predicate StartedChildrenIn(tree: Tree, w: Wave, t: nat, log: seq<nat>)
    requires Sized(tree, w) && t < |tree.parent|
  {
    forall c :: c in tree.children[t] && Started(w, c) ==> c in log
  }

  ghost predicate Inv(tree: Tree, w: Wave) {
    && Sized(tree, w)
    && (forall t :: 0 <= t < |tree.parent| ==> Counted(tree, w, t) && Logged(w, t))
    && NoRepeats(w.log) && ChildrenFirst(tree, w) && Started(w, 0)
  }

  lemma StartChildInv(tree: Tree, w: Wave, t: nat, ok: bool)
    requires Inv(tree, w) && Enabled(tree, w, StartChild(t, ok))
    ensures Inv(tree, OnStartChild(tree, w, t, ok))
  {
    var r := OnStartChild(tree, w, t, ok);
    var c := tree.children[t][w.phase[t].next];
    assert Counted(tree, w, t) && Logged(w, t) && Logged(w, c) && Counted(tree, w, c);
    assert w.phase[c] == Idle;
    forall u | 0 <= u < |tree.parent|
      ensures Counted(tree, r, u) && Logged(r, u)
    {
      assert Counted(tree, w, u) && Logged(w, u);
      StartChildCounted(tree, w, t, ok, u);
    }
    forall i | 0 <= i < |r.log|
      ensures StartedChildrenIn(tree, r, r.log[i], r.log[..i])
    {
      assert StartedChildrenIn(tree, w, w.log[i], w.log[..i]);
      assert Logged(w, w.log[i]);
      assert w.log[i] != t;
    }
  }

  lemma SameChildren(tree: Tree, w: Wave, r: Wave, u: nat)
    requires Sized(tree, w) && Sized(tree, r) && u < |tree.parent|
    requires r.log == w.log && r.inbox[u] == w.inbox[u] && r.pending[u] == w.pending[u]
    requires forall c :: c in tree.children[u] ==> (Started(w, c) <==> Started(r, c))
    requires Counted(tree, w, u) && Tried(tree, w, u) <= Tried(tree, r, u) <= |tree.children[u]|
    ensures Counted(tree, r, u)
  {
    assert Unacknowledged(tree, r, u) == Unacknowledged(tree, w, u);
    forall k | Tried(tree, r, u) <= k < |tree.children[u]|
      ensures r.phase[tree.children[u][k]] == Idle
    {
      assert !Started(w, tree.children[u][k]);
    }
  }

  lemma OnlyParent(tree: Tree, p: nat, c: nat)
    requires WellFormed(tree) && p < |tree.parent| && c in tree.children[p]
    ensures p < c < |tree.parent| && tree.parent[c] == p
  {
  }

  lemma StartedBy(tree: Tree, w: Wave, t: nat, x: nat)
    requires Sized(tree, w) && Enabled(tree, w, StartChild(t, true))
    requires var c := tree.children[t][w.phase[t].next]; w.phase[c] == Idle
    ensures var c := tree.children[t][w.phase[t].next];
      Started(OnStartChild(tree, w, t, true), x) <==> Started(w, x) || x == c
  {
    OnlyParent(tree, t, tree.children[t][w.phase[t].next]);
  }

  lemma CountsNewChild(tree: Tree, w: Wave, t: nat)
    requires Sized(tree, w) && Enabled(tree, w, StartChild(t, true)) && Counted(tree, w, t)
    requires var c := tree.children[t][w.phase[t].next]; w.phase[c] == Idle && c !in w.log
    ensures Counted(tree, OnStartChild(tree, w, t, true), t)
  {
    var r := OnStartChild(tree, w, t, true);
    var c := tree.children[t][w.phase[t].next];
    forall x: nat ensures Started(r, x) <==> Started(w, x) || x == c { StartedBy(tree, w, t, x); }
    hide OnStartChild;
    assert Unacknowledged(tree, r, t) == Unacknowledged(tree, w, t) + {c} by {
      assert r.inbox == w.inbox && r.log == w.log by { OnlyPhases(tree, w, t, true); }
    }
    assert c !in Unacknowledged(tree, w, t);
    OnlyPhases(tree, w, t, true);
    SiblingsStayIdle(tree, w, t);
  }

  lemma OnlyPhases(tree: Tree, w: Wave, t: nat, ok: bool)
    requires Sized(tree, w) && Enabled(tree, w, StartChild(t, ok))
    ensures var r := OnStartChild(tree, w, t, ok);
      && r.inbox == w.inbox && r.log == w.log
      && (forall u :: 0 <= u < |tree.parent| && u != t ==> r.pending[u] == w.pending[u])
      && (var c := tree.children[t][w.phase[t].next];
          && r.phase[t] == Starting(w.phase[t].next + 1)
          && r.pending[t] == w.pending[t] + if ok && w.phase[c] == Idle then 1 else 0)
  {
    OnlyParent(tree, t, tree.children[t][w.phase[t].next]);
  }

  lemma SiblingsStayIdle(tree: Tree, w: Wave, t: nat)
    requires Sized(tree, w) && Enabled(tree, w, StartChild(t, true)) && Counted(tree, w, t)
    ensures var r := OnStartChild(tree, w, t, true);
      forall k :: w.phase[t].next + 1 <= k < |tree.children[t]| ==> r.phase[tree.children[t][k]] == Idle
  {
  }

  lemma StartChildCounted(tree: Tree, w: Wave, t: nat, ok: bool, u: nat)
    requires Sized(tree, w) && Enabled(tree, w, StartChild(t, ok)) && u < |tree.parent|
    requires Counted(tree, w, u)
    requires var c := tree.children[t][w.phase[t].next]; w.phase[c] == Idle && c !in w.log
    ensures Counted(tree, OnStartChild(tree, w, t, ok), u)
  {
    if ok && u == t {
      CountsNewChild(tree, w, t);
    } else {
      hide Counted, WellFormed;
      var r := OnStartChild(tree, w, t, ok);
      OnlyPhases(tree, w, t, ok);
      forall x | x in tree.children[u]
        ensures Started(r, x) <==> Started(w, x)
      {
        OnlyParent(tree, u, x);
        OnlyParent(tree, t, tree.children[t][w.phase[t].next]);
      }
      TriedGrows(tree, w, t, ok, u);
      SameChildren(tree, w, r, u);
    }
  }

  lemma TriedGrows(tree: Tree, w: Wave, t: nat, ok: bool, u: nat)
    requires Sized(tree, w) && Enabled(tree, w, StartChild(t, ok)) && u < |tree.parent| && Counted(tree, w, u)
    ensures Tried(tree, w, u) <= Tried(tree, OnStartChild(tree, w, t, ok), u) <= |tree.children[u]|
  {
    OnlyParent(tree, t, tree.children[t][w.phase[t].next]);
  }

  lemma RaiseCounted(tree: Tree, w: Wave, t: nat, u: nat)
    requires Sized(tree, w) && t < |tree.parent| && t !in w.log && u < |tree.parent| && Counted(tree, w, u)
    ensures Counted(tree, Raise(tree, w, t), u)
  {
    var r := Raise(tree, w, t);
    assert forall x :: x in r.log <==> x in w.log || x == t;
    if t > 0 && u == tree.parent[t] {
      assert t in r.inbox[u];
    } else {
      assert r.inbox[u] == w.inbox[u] && t !in tree.children[u];
    }
    assert Unacknowledged(tree, r, u) == Unacknowledged(tree, w, u);
  }

  lemma RaiseChildrenFirst(tree: Tree, w: Wave, t: nat)
    requires Sized(tree, w) && t < |tree.parent| && ChildrenFirst(tree, w)
    requires Unacknowledged(tree, w, t) == {}
    ensures ChildrenFirst(tree, Raise(tree, w, t))
  {
    var r := Raise(tree, w, t);
    forall i | 0 <= i < |r.log|
      ensures r.log[i] < |tree.parent| && StartedChildrenIn(tree, r, r.log[i], r.log[..i])
    {
      if i < |w.log| {
        assert StartedChildrenIn(tree, w, w.log[i], w.log[..i]);
        assert r.log[..i] == w.log[..i];
      } else {
        assert r.log[..i] == w.log;
        forall c | c in tree.children[t] && Started(r, c)
          ensures c in w.log
        {
          assert c !in Unacknowledged(tree, w, t);
        }
      }
    }
  }

  lemma NothingPending(tree: Tree, w: Wave, t: nat)
    requires Sized(tree, w) && t < |tree.parent| && Counted(tree, w, t) && w.pending[t] == 0
    ensures Unacknowledged(tree, w, t) == {}
  {
  }

  /** Raising start-complete for a ready task with nothing pending. */
  lemma RaiseInv(tree: Tree, w: Wave, t: nat)
    requires Sized(tree, w) && t < |tree.parent| && w.phase[t] == Ready && w.pending[t] == 0 && t !in w.log
    requires forall u :: 0 <= u < |tree.parent| ==> Counted(tree, w, u)
    requires forall u :: 0 <= u < |tree.parent| && u != t ==> Logged(w, u)
    requires NoRepeats(w.log) && ChildrenFirst(tree, w) && Started(w, 0)
    ensures Inv(tree, Raise(tree, w, t))
  {
    hide WellFormed, ChildrenFirst, Counted;
    var r := Raise(tree, w, t);
    NothingPending(tree, w, t);
    RaiseChildrenFirst(tree, w, t);
    assert forall x :: x in r.log <==> x in w.log || x == t;
    forall u | 0 <= u < |tree.parent|
      ensures Counted(tree, r, u) && Logged(r, u)
    {
      RaiseCounted(tree, w, t, u);
      assert u != t ==> Logged(w, u);
    }
  }

  lemma FinishLoopInv(tree: Tree, w: Wave, t: nat)
    requires Inv(tree, w) && Enabled(tree, w, FinishLoop(t))
    ensures Inv(tree, OnFinishLoop(tree, w, t))
  {
    var w1 := w.(phase := w.phase[t := Ready]);
    assert Logged(w, t);
    forall u | 0 <= u < |tree.parent|
      ensures Counted(tree, w1, u) && (u != t ==> Logged(w1, u))
    {
      assert Counted(tree, w, u) && Logged(w, u);
      assert Unacknowledged(tree, w1, u) == Unacknowledged(tree, w, u);
    }
    SameStarted(tree, w, w1);
    if w.pending[t] == 0 {
      RaiseInv(tree, w1, t);
    }
  }

  lemma SameStarted(tree: Tree, w: Wave, r: Wave)
    requires Sized(tree, w) && Sized(tree, r) && ChildrenFirst(tree, w) && r.log == w.log
    requires forall t :: 0 <= t < |w.phase| ==> (w.phase[t] == Idle <==> r.phase[t] == Idle)
    ensures ChildrenFirst(tree, r)
  {
    forall i | 0 <= i < |r.log|
      ensures r.log[i] < |tree.parent| && StartedChildrenIn(tree, r, r.log[i], r.log[..i])
    {
      assert StartedChildrenIn(tree, w, w.log[i], w.log[..i]);
    }
  }

  lemma ProcessInv(tree: Tree, w: Wave, t: nat, sender: nat)
    requires Inv(tree, w) && Enabled(tree, w, Process(t, sender))
    ensures Inv(tree, OnProcess(tree, w, t, sender))
    ensures w.pending[t] > 0
  {
    assert Counted(tree, w, t) && Logged(w, t);
    var before := Unacknowledged(tree, w, t);
    assert Logged(w, sender);
    assert sender in before;
    var w2 := w.(inbox := w.inbox[t := w.inbox[t] - {sender}], pending := w.pending[t := w.pending[t] - 1]);
    forall u | 0 <= u < |tree.parent|
      ensures Counted(tree, w2, u) && (u != t ==> Logged(w2, u))
    {
      assert Counted(tree, w, u) && Logged(w, u);
      assert Unacknowledged(tree, w2, u) == if u == t then before - {sender} else Unacknowledged(tree, w, u);
    }
    SameStarted(tree, w, w2);
    if w2.pending[t] == 0 {
      RaiseInv(tree, w2, t);
    }
  }
}
