/** Whole start waves: what holds in every run, that every run ends, and that a
    run that cannot go on has started every task it could. */
module TaskWave {
  import opened TaskTree

  lemma StepInv(tree: Tree, w: Wave, step: Step)
    requires Inv(tree, w) && Enabled(tree, w, step)
    ensures Inv(tree, Next(tree, w, step))
  {
    hide Inv;
    assert Sized(tree, w) by { InvSized(tree, w); }
    match step
    case StartChild(t, ok) => StartChildInv(tree, w, t, ok);
    case FinishLoop(t) => FinishLoopInv(tree, w, t);
    case Process(t, sender) => ProcessInv(tree, w, t, sender);
  }

  lemma InvSized(tree: Tree, w: Wave)
    requires Inv(tree, w)
    ensures Sized(tree, w)
  {
  }

  ghost predicate IsRun(tree: Tree, w: Wave, steps: seq<Step>)
    requires Sized(tree, w)
    decreases |steps|
  {
    steps == [] || (Enabled(tree, w, steps[0]) && IsRun(tree, Next(tree, w, steps[0]), steps[1..]))
  }

  ghost function After(tree: Tree, w: Wave, steps: seq<Step>): (r: Wave)
    requires Sized(tree, w) && IsRun(tree, w, steps)
    ensures Sized(tree, r)
    decreases |steps|
  {
    if steps == [] then w else After(tree, Next(tree, w, steps[0]), steps[1..])
  }

  lemma {:induction false} RunInv(tree: Tree, w: Wave, steps: seq<Step>)
    requires Inv(tree, w) && IsRun(tree, w, steps)
    ensures Inv(tree, After(tree, w, steps))
    decreases |steps|
  {
    hide Enabled, Next;
    if steps != [] {
      StepInv(tree, w, steps[0]);
      RunInv(tree, Next(tree, w, steps[0]), steps[1..]);
    }
  }

  lemma InitialInv(tree: Tree)
    requires WellFormed(tree)
    ensures Inv(tree, InitialWave(|tree.parent|))
  {
    var w := InitialWave(|tree.parent|);
    assert Sized(tree, w);
    forall t | 0 <= t < |tree.parent|
      ensures Counted(tree, w, t) && Logged(w, t)
    {
      assert Unacknowledged(tree, w, t) == {};
    }
  }

  /** In every run: the pending counter of a task is the number of started children
      whose completion it has not processed, no task raises start-complete twice,
      and none before a child it started. */
  lemma EveryWave(tree: Tree, steps: seq<Step>)
    requires WellFormed(tree) && IsRun(tree, InitialWave(|tree.parent|), steps)
    ensures var w := After(tree, InitialWave(|tree.parent|), steps);
      && (forall t :: 0 <= t < |tree.parent| ==> w.pending[t] == |Unacknowledged(tree, w, t)|)
      && (forall i, j :: 0 <= i < j < |w.log| ==> w.log[i] != w.log[j])
      && (forall i :: 0 <= i < |w.log| ==> w.log[i] < |tree.parent| && StartedChildrenIn(tree, w, w.log[i], w.log[..i]))
      && (forall t :: 0 <= t < |tree.parent| && t in w.log ==> w.phase[t] == Ready && w.pending[t] == 0)
  {
    InitialInv(tree);
    RunInv(tree, InitialWave(|tree.parent|), steps);
    var w := After(tree, InitialWave(|tree.parent|), steps);
    forall t | 0 <= t < |tree.parent|
      ensures w.pending[t] == |Unacknowledged(tree, w, t)|
      ensures t in w.log ==> w.phase[t] == Ready && w.pending[t] == 0
    {
      assert Counted(tree, w, t) && Logged(w, t);
    }
  }

  // ---------- when nothing is left to do ----------

  ghost predicate Quiescent(tree: Tree, w: Wave)
    requires Sized(tree, w)
  {
    forall step: Step :: !Enabled(tree, w, step)
  }

  lemma {:induction false} StartedIsComplete(tree: Tree, w: Wave, t: nat)
    requires Inv(tree, w) && Quiescent(tree, w) && t < |tree.parent| && Started(w, t)
    ensures t in w.log
    decreases |tree.parent| - t
  {
    assert Counted(tree, w, t) && Logged(w, t);
    assert !Enabled(tree, w, StartChild(t, true)) && !Enabled(tree, w, FinishLoop(t));
    assert w.phase[t] == Ready;
    forall c | c in tree.children[t] && Started(w, c)
      ensures c in w.log && c !in w.inbox[t]
    {
      OnlyParent(tree, t, c);
      StartedIsComplete(tree, w, c);
      assert !Enabled(tree, w, Process(t, c));
    }
    assert Unacknowledged(tree, w, t) == {};
  }

  /** Once every queue is drained, every task that was started has raised
      start-complete exactly once, the root among them. */
  lemma DrainedWaveIsComplete(tree: Tree, steps: seq<Step>)
    requires WellFormed(tree) && IsRun(tree, InitialWave(|tree.parent|), steps)
    requires Quiescent(tree, After(tree, InitialWave(|tree.parent|), steps))
    ensures var w := After(tree, InitialWave(|tree.parent|), steps);
      && 0 in w.log
      && (forall t :: 0 <= t < |tree.parent| ==> (w.phase[t] != Idle <==> multiset(w.log)[t] == 1))
  {
    InitialInv(tree);
    RunInv(tree, InitialWave(|tree.parent|), steps);
    var w := After(tree, InitialWave(|tree.parent|), steps);
    StartedIsComplete(tree, w, 0);
    forall t | 0 <= t < |tree.parent|
      ensures w.phase[t] != Idle <==> multiset(w.log)[t] == 1
    {
      assert Logged(w, t);
      if w.phase[t] != Idle {
        StartedIsComplete(tree, w, t);
      }
      OnceIfPresent(w.log, t);
    }
  }

  lemma {:induction false} OnceIfPresent(log: seq<nat>, t: nat)
    requires NoRepeats(log)
    ensures multiset(log)[t] == if t in log then 1 else 0
  {
    if log != [] {
      var n := |log| - 1;
      OnceIfPresent(log[..n], t);
      assert log == log[..n] + [log[n]];
    }
  }

  // ---------- every run ends ----------

  function Sum(s: seq<nat>): nat {
    if s == [] then 0 else s[0] + Sum(s[1..])
  }

  lemma {:induction false} SumUpdate(s: seq<nat>, i: nat, v: nat)
    requires i < |s|
    ensures Sum(s[i := v]) == Sum(s) - s[i] + v
    decreases |s|
  {
    if i > 0 {
      assert s[i := v][1..] == s[1..][i - 1 := v];
      SumUpdate(s[1..], i - 1, v);
    } else {
      assert s[0 := v][1..] == s[1..];
    }
  }

  /** What a task still has to do: children to try, the end of its loop, its own
      completion, and the messages in its queue. */
  ghost function Load(tree: Tree, w: Wave, t: nat): nat
    requires Sized(tree, w) && t < |tree.parent|
  {
    |w.inbox[t]| +
    match w.phase[t]
    case Idle => |tree.children[t]| + 2
    case Starting(next) => if next <= |tree.children[t]| then |tree.children[t]| - next + 2 else 0
    case Ready => if w.pending[t] == 0 then 0 else 1
  }

  ghost function Loads(tree: Tree, w: Wave): (s: seq<nat>)
    requires Sized(tree, w)
    ensures |s| == |tree.parent| && forall t :: 0 <= t < |s| ==> s[t] == Load(tree, w, t)
  {
    seq(|tree.parent|, t requires 0 <= t < |tree.parent| => Load(tree, w, t))
  }

  ghost function Work(tree: Tree, w: Wave): nat
    requires Sized(tree, w)
  {
    Sum(Loads(tree, w))
  }

  lemma StartChildWork(tree: Tree, w: Wave, t: nat, ok: bool)
    requires Inv(tree, w) && Enabled(tree, w, StartChild(t, ok))
    ensures Work(tree, OnStartChild(tree, w, t, ok)) < Work(tree, w)
  {
    var r := OnStartChild(tree, w, t, ok);
    var loads := Loads(tree, w);
    OnlyParent(tree, t, tree.children[t][w.phase[t].next]);
    assert Loads(tree, r) == loads[t := loads[t] - 1];
    SumUpdate(loads, t, loads[t] - 1);
  }

  lemma RaiseWork(tree: Tree, w: Wave, t: nat)
    requires Sized(tree, w) && t < |tree.parent|
    ensures Work(tree, Raise(tree, w, t)) <= Work(tree, w) + 1
  {
    var r := Raise(tree, w, t);
    var loads := Loads(tree, w);
    if t == 0 {
      assert Loads(tree, r) == loads;
    } else {
      var p := tree.parent[t];
      var v := |r.inbox[p]| - |w.inbox[p]| + loads[p];
      assert Loads(tree, r) == loads[p := v];
      SumUpdate(loads, p, v);
    }
  }

  lemma FinishLoopWork(tree: Tree, w: Wave, t: nat)
    requires Sized(tree, w) && Enabled(tree, w, FinishLoop(t))
    ensures Work(tree, OnFinishLoop(tree, w, t)) < Work(tree, w)
  {
    var w1 := w.(phase := w.phase[t := Ready]);
    var loads := Loads(tree, w);
    var v := if w.pending[t] == 0 then loads[t] - 2 else loads[t] - 1;
    assert Loads(tree, w1) == loads[t := v];
    SumUpdate(loads, t, v);
    if w.pending[t] == 0 {
      RaiseWork(tree, w1, t);
    }
  }

  lemma ProcessWork(tree: Tree, w: Wave, t: nat, sender: nat)
    requires Sized(tree, w) && Enabled(tree, w, Process(t, sender)) && w.pending[t] > 0
    ensures Work(tree, OnProcess(tree, w, t, sender)) < Work(tree, w)
  {
    var w2 := w.(inbox := w.inbox[t := w.inbox[t] - {sender}], pending := w.pending[t := w.pending[t] - 1]);
    var loads := Loads(tree, w);
    var v := if w2.pending[t] == 0 then loads[t] - 2 else loads[t] - 1;
    assert Loads(tree, w2) == loads[t := v];
    SumUpdate(loads, t, v);
    if w2.pending[t] == 0 {
      RaiseWork(tree, w2, t);
    }
  }

  /** Every step takes work away. */
  lemma StepWork(tree: Tree, w: Wave, step: Step)
    requires Inv(tree, w) && Enabled(tree, w, step)
    ensures Work(tree, Next(tree, w, step)) < Work(tree, w)
  {
    match step
    case StartChild(t, ok) => StartChildWork(tree, w, t, ok);
    case FinishLoop(t) => FinishLoopWork(tree, w, t);
    case Process(t, sender) =>
      ProcessInv(tree, w, t, sender);
      ProcessWork(tree, w, t, sender);
  }

  lemma {:induction false} RunWork(tree: Tree, w: Wave, steps: seq<Step>)
    requires Inv(tree, w) && IsRun(tree, w, steps)
    ensures |steps| + Work(tree, After(tree, w, steps)) <= Work(tree, w)
    decreases |steps|
  {
    hide Enabled, Next, Work;
    if steps != [] {
      StepWork(tree, w, steps[0]);
      StepInv(tree, w, steps[0]);
      RunWork(tree, Next(tree, w, steps[0]), steps[1..]);
    }
  }

  /** No order of deliveries goes on for ever. */
  lemma EveryWaveEnds(tree: Tree, steps: seq<Step>)
    requires WellFormed(tree) && IsRun(tree, InitialWave(|tree.parent|), steps)
    ensures |steps| <= Work(tree, InitialWave(|tree.parent|))
  {
    InitialInv(tree);
    RunWork(tree, InitialWave(|tree.parent|), steps);
  }
}
