/** The counters of a media context are bytes.  They count right in every run exactly
    when the context has fewer than 256 slots; in a larger one a termination can have
    256 sinks, its counter reads 0, and applying the topology serves none of them. */
module ContextLimits {
  import opened ContextModel
  import opened Topology

  function Adds(n: nat): seq<Op> {
    if n == 0 then [] else Adds(n - 1) + [AddOp(n - 1)]
  }

  /** Terminations 0 to m - 1 are added, then the first is given the first n as sinks. */
  function FanOut(m: nat, n: nat): seq<Op> {
    if n == 0 then Adds(m) else FanOut(m, n - 1) + [AssociateOp(0, n - 1, true, false)]
  }

  lemma {:induction false} OneMore(c: Context, ops: seq<Op>, op: Op)
    ensures After(c, ops + [op]) == Step(After(c, ops), op)
    decreases |ops|
  {
    hide Step;
    var all := ops + [op];
    if ops == [] {
      assert all[0] == op && all[1..] == [];
    } else {
      assert all[0] == ops[0] && all[1..] == ops[1..] + [op];
      OneMore(Step(c, ops[0]), ops[1..], op);
    }
  }

  /** The first m slots hold the terminations of their number, the others are empty. */
  ghost predicate FilledTo(c: Context, m: nat) {
    && m <= |c.slots|
    && (forall i :: 0 <= i < |c.slots| ==> c.slots[i] == if i < m then Some(i) else None)
    && (forall i: nat :: i < m ==> i in c.slotOf && c.slotOf[i] == i)
  }

  lemma FirstEmptyIs(c: Context, m: nat)
    requires FilledTo(c, m) && m < |c.slots|
    ensures FirstEmpty(c.slots) == m
  {
    var i := FirstEmpty(c.slots);
    assert i < |c.slots| ==> c.slots[i].None?;
    assert c.slots[m].None?;
  }

  lemma {:induction false} AddsFill(capacity: nat, m: nat)
    requires m <= capacity
    ensures var c := After(NewContext(capacity), Adds(m));
      FilledTo(c, m) && |c.slots| == capacity && c.cells == {}
  {
    hide Subtract, Associate, Dissociate, Reset, FirstEmpty;
    if m > 0 {
      AddsFill(capacity, m - 1);
      OneMore(NewContext(capacity), Adds(m - 1), AddOp(m - 1));
      var c := After(NewContext(capacity), Adds(m - 1));
      FirstEmptyIs(c, m - 1);
    }
  }

  function Fan(n: nat): set<Cell> {
    set j: nat | j < n :: (0, j)
  }

  lemma {:induction false} FansOut(capacity: nat, m: nat, n: nat)
    requires n <= m <= capacity
    ensures var c := After(NewContext(capacity), FanOut(m, n));
      FilledTo(c, m) && |c.slots| == capacity && c.cells == Fan(n)
  {
    hide Step, Add, Subtract, Dissociate, Reset, FirstEmpty;
    if n == 0 {
      AddsFill(capacity, m);
      assert Fan(0) == {};
    } else {
      FansOut(capacity, m, n - 1);
      var c := After(NewContext(capacity), FanOut(m, n - 1));
      OneMore(NewContext(capacity), FanOut(m, n - 1), AssociateOp(0, n - 1, true, false));
      StepAssociates(c, 0, n - 1);
      assert Fan(n) == Fan(n - 1) + {(0, n - 1)};
    }
  }

  lemma StepAssociates(c: Context, t: nat, u: nat)
    requires SlotOf(c, t) == Some(t) && SlotOf(c, u) == Some(u)
    ensures var r := Step(c, AssociateOp(t, u, true, false));
      r.slots == c.slots && r.slotOf == c.slotOf && r.cells == c.cells + {(t, u)}
  {
  }

  lemma {:induction false} FanCounts(n: nat)
    ensures |Row(Fan(n), 0)| == n
  {
    if n == 0 {
      assert Row(Fan(0), 0) == {};
    } else {
      FanCounts(n - 1);
      var row, last := Row(Fan(n - 1), 0), (0, n - 1);
      assert Fan(n) == Fan(n - 1) + {last} && last !in Fan(n - 1);
      RowMember(Fan(n - 1), 0, n - 1);
      forall j: nat ensures j in Row(Fan(n), 0) <==> j in row + {n - 1} {
        RowMember(Fan(n), 0, j);
        RowMember(Fan(n - 1), 0, j);
      }
      assert Row(Fan(n), 0) == row + {n - 1};
    }
  }

  lemma FanElsewhere(n: nat, i: nat)
    ensures i > 0 ==> Row(Fan(n), i) == {}
    ensures |Column(Fan(n), i)| <= 1
  {
    assert Column(Fan(n), i) <= {0};
    Bounded(Column(Fan(n), i), 1);
  }

  /** The counters of a context are right in all its runs exactly when it has fewer
      than 256 slots. */
  lemma CountersExactIff(capacity: nat)
    ensures capacity < BYTE <==> forall ops :: Counts(After(NewContext(capacity), ops))
  {
    hide After, FanOut, Row, Column, NewContext, Fan;
    if capacity < BYTE {
      forall ops ensures Counts(After(NewContext(capacity), ops)) {
        EveryContext(capacity, ops);
      }
    } else {
      FanIsNotServed(capacity);
      FanCounts(BYTE);
      assert !Counts(After(NewContext(capacity), FanOut(BYTE, BYTE)));
    }
  }

  lemma NoObjectsBelow(c: Context, n: nat)
    requires n <= |c.slots| == |c.tx| == |c.rx|
    requires forall i :: 0 <= i < |c.slots| ==> c.tx[i] == 0 && c.rx[i] <= 1
    ensures Objects(c, n) == []
  {
    hide Sinks, Sources;
  }

  /** 256 sinks: all the associations are on, the counter of the source reads 0, and
      no object at all is created for them. */
  lemma FanIsNotServed(capacity: nat)
    requires capacity >= BYTE
    ensures var c := After(NewContext(capacity), FanOut(BYTE, BYTE));
      && |c.slots| == |c.tx| == |c.rx| == capacity && c.cells == Fan(BYTE)
      && c.tx[0] == 0 && Objects(c, capacity) == []
      && forall j :: 0 <= j < BYTE ==> (0, j) in c.cells && Served(Objects(c, capacity), (0, j)) == 0
  {
    hide After, FanOut, NewContext, Objects, Row, Column;
    var c := After(NewContext(capacity), FanOut(BYTE, BYTE));
    FansOut(capacity, BYTE, BYTE);
    NewInv(capacity);
    RunInv(NewContext(capacity), FanOut(BYTE, BYTE));
    FanCounts(BYTE);
    forall i | 0 <= i < capacity ensures c.tx[i] == 0 && c.rx[i] <= 1 {
      FanElsewhere(BYTE, i);
    }
    NoObjectsBelow(c, capacity);
  }
}
