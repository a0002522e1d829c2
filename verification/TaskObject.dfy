/** The two handlers of a task as the code writes them: the loop that starts the
    children, and the handler of a start-complete message. */
module TaskObject {
  import opened TaskTree
  import opened TaskWave

  /** The whole loop of one task, given which threads could be created. */
  ghost function StartLoop(tree: Tree, w: Wave, t: nat, created: seq<bool>): (r: Wave)
    requires Sized(tree, w) && t < |tree.parent| && w.phase[t].Starting?
    requires w.phase[t].next + |created| == |tree.children[t]|
    ensures Sized(tree, r)
    decreases |created|
  {
    if created == [] then OnFinishLoop(tree, w, t)
    else
      OnlyPhases(tree, w, t, created[0]);
      StartLoop(tree, OnStartChild(tree, w, t, created[0]), t, created[1..])
  }

  function LoopSteps(t: nat, created: seq<bool>): seq<Step> {
    if created == [] then [FinishLoop(t)] else [StartChild(t, created[0])] + LoopSteps(t, created[1..])
  }

  /** The loop is a sequence of steps, so all that holds of every run holds after it. */
  lemma {:induction false} StartLoopIsARun(tree: Tree, w: Wave, t: nat, created: seq<bool>)
    requires Sized(tree, w) && t < |tree.parent| && w.phase[t].Starting?
    requires w.phase[t].next + |created| == |tree.children[t]|
    ensures IsRun(tree, w, LoopSteps(t, created))
    ensures After(tree, w, LoopSteps(t, created)) == StartLoop(tree, w, t, created)
    decreases |created|
  {
    hide OnStartChild, OnFinishLoop;
    var steps := LoopSteps(t, created);
    if created == [] {
      assert steps[1..] == [];
      assert Enabled(tree, w, steps[0]);
    } else {
      OnlyPhases(tree, w, t, created[0]);
      StartLoopIsARun(tree, OnStartChild(tree, w, t, created[0]), t, created[1..]);
      assert steps[0] == StartChild(t, created[0]) && steps[1..] == LoopSteps(t, created[1..]);
    }
  }

  class Tasks {
    const children: seq<seq<nat>>
    const parent: seq<nat>
    var phase: seq<Phase>
    var pending: seq<nat>
    var inbox: seq<set<nat>>
    var log: seq<nat>

    ghost function TreeOf(): Tree {
      Tree(children, parent)
    }

    ghost function View(): Wave
      reads this
    {
      Wave(phase, pending, inbox, log)
    }

    constructor (children: seq<seq<nat>>, parent: seq<nat>)
      ensures TreeOf() == Tree(children, parent) && View() == InitialWave(|parent|)
    {
      this.children, this.parent := children, parent;
      phase := seq(|parent|, t => if t == 0 then Starting(0) else Idle);
      pending, inbox, log := seq(|parent|, t => 0), seq(|parent|, t => {}), [];
    }

    /** apt_task_start_complete_raise: tell the parent, if there is one. */
    method RaiseStartComplete(t: nat)
      requires Sized(TreeOf(), View()) && t < |parent|
      modifies this`log, this`inbox
      ensures View() == Raise(TreeOf(), old(View()), t)
    {
      log := log + [t];
      if t != 0 {
        var p := parent[t];
        inbox := inbox[p := inbox[p] + {t}];
      }
    }

    /** apt_task_start: only an idle task whose thread is created is started. */
    method Start(c: nat, created: bool) returns (ok: bool)
      requires c < |phase|
      modifies this`phase
      ensures ok == (created && old(phase[c]) == Idle)
      ensures phase == if ok then old(phase)[c := Starting(0)] else old(phase)
    {
      ok := created && phase[c] == Idle;
      if ok {
        phase := phase[c := Starting(0)];
      }
    }

    /** apt_task_start_process_internal */
    method ProcessStart(t: nat, created: seq<bool>)
      requires Sized(TreeOf(), View()) && t < |parent| && phase[t] == Starting(0) && |created| == |children[t]|
      modifies this
      ensures View() == StartLoop(TreeOf(), old(View()), t, created)
    {
      hide OnFinishLoop;
      var k := 0;
      while k < |children[t]|
        invariant k <= |children[t]| && Sized(TreeOf(), View()) && phase[t] == Starting(k)
        invariant StartLoop(TreeOf(), View(), t, created[k..]) == StartLoop(TreeOf(), old(View()), t, created)
      {
        ghost var w := View();
        OnlyParent(TreeOf(), t, children[t][k]);
        OnlyPhases(TreeOf(), w, t, created[k]);
        assert created[k..][0] == created[k] && created[k..][1..] == created[k + 1..];
        var ok := Start(children[t][k], created[k]);
        if ok {
          pending := pending[t := pending[t] + 1];
        }
        phase := phase[t := Starting(k + 1)];
        assert View() == OnStartChild(TreeOf(), w, t, created[k]);
        k := k + 1;
      }
      assert created[k..] == [];
      FinishStart(t);
    }

    method FinishStart(t: nat)
      requires Sized(TreeOf(), View()) && t < |parent|
      modifies this
      ensures View() == OnFinishLoop(TreeOf(), old(View()), t)
    {
      phase := phase[t := Ready];
      if pending[t] == 0 {
        RaiseStartComplete(t);
      }
    }

    /** apt_task_start_request_remove, for a message taken from the queue */
    method ProcessStartComplete(t: nat, sender: nat)
      requires Sized(TreeOf(), View()) && t < |parent|
      modifies this
      ensures View() == OnProcess(TreeOf(), old(View()), t, sender)
    {
      inbox := inbox[t := inbox[t] - {sender}];
      if pending[t] == 0 {
        return;
      }
      pending := pending[t := pending[t] - 1];
      if pending[t] == 0 {
        RaiseStartComplete(t);
      }
    }
  }
}
