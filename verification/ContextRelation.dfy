/** The association matrix as a relation between terminations: what each operation does
    to it, for every pair. */
module ContextRelation {
  import opened ContextModel

  /** The context holds the termination. */
  predicate Present(c: Context, t: nat) {
    SlotOf(c, t).Some?
  }

  /** Audio goes from the first to the second. */
  predicate Linked(c: Context, t: nat, u: nat) {
    Present(c, t) && Present(c, u) && (SlotOf(c, t).value, SlotOf(c, u).value) in c.cells
  }

  predicate Full(c: Context) {
    forall i :: 0 <= i < |c.slots| ==> c.slots[i].Some?
  }

  lemma FullIff(c: Context)
    ensures Full(c) <==> FirstEmpty(c.slots) == |c.slots|
  {
    var i := FirstEmpty(c.slots);
    assert i < |c.slots| ==> c.slots[i].None?;
  }

  /** Unless the context is full, a termination that is added is present and linked to
      nothing; all others stay as they are. */
  lemma AddRelates(c: Context, t: nat, x: nat, y: nat)
    requires Inv(c)
    ensures Full(c) ==> Add(c, t) == c
    ensures !Full(c) ==>
      && (Present(Add(c, t), x) <==> x == t || Present(c, x))
      && (Linked(Add(c, t), x, y) <==> x != t && y != t && Linked(c, x, y))
  {
    FullIff(c);
    var i, r := FirstEmpty(c.slots), Add(c, t);
    if i < |c.slots| {
      assert i !in Occupied(c.slots);
      assert SlotOf(r, t) == Some(i);
      assert x != t ==> SlotOf(r, x) == SlotOf(c, x);
      assert y != t ==> SlotOf(r, y) == SlotOf(c, y);
    }
  }

  /** A termination that is subtracted is gone with all its links; all others stay. */
  lemma SubtractRelates(c: Context, t: nat, x: nat, y: nat)
    ensures Present(Subtract(c, t), x) <==> x != t && Present(c, x)
    ensures Linked(Subtract(c, t), x, y) <==> x != t && y != t && Linked(c, x, y)
  {
    if Present(c, t) {
      var i, r := SlotOf(c, t).value, Subtract(c, t);
      assert x != t ==> SlotOf(r, x) == SlotOf(c, x);
      assert y != t ==> SlotOf(r, y) == SlotOf(c, y);
      assert t !in r.slotOf;
    }
  }

  /** Both present, the two are linked in the directions that are compatible; nothing else
      changes. */
  lemma AssociateRelates(c: Context, t: nat, u: nat, forward: bool, backward: bool, x: nat, y: nat)
    ensures var r := Associate(c, t, u, forward, backward);
      && (Present(r, x) <==> Present(c, x))
      && (Linked(r, x, y) <==>
            || Linked(c, x, y)
            || (Present(c, t) && Present(c, u) && ((forward && x == t && y == u) || (backward && x == u && y == t))))
  {
  }

  /** Both present, the two are linked no longer, in either direction; nothing else changes. */
  lemma DissociateRelates(c: Context, t: nat, u: nat, x: nat, y: nat)
    ensures var r := Dissociate(c, t, u);
      && (Present(r, x) <==> Present(c, x))
      && (Linked(r, x, y) <==> Linked(c, x, y) && !((x == t && y == u) || (x == u && y == t)))
  {
  }

  /** A reset unlinks all and removes none. */
  lemma ResetRelates(c: Context, x: nat, y: nat)
    ensures (Present(Reset(c), x) <==> Present(c, x)) && !Linked(Reset(c), x, y)
  {
  }

  // ---------- over runs ----------

  /** What the operations say about a pair: linked by the last one that is about it. */
  ghost function Says(c: Context, op: Op, x: nat, y: nat, linked: bool): bool {
    match op
    case AddOp(t) => if Full(c) then linked else x != t && y != t && linked
    case SubtractOp(t) => x != t && y != t && linked
    case AssociateOp(t, u, forward, backward) =>
      linked || (Present(c, t) && Present(c, u) && ((forward && x == t && y == u) || (backward && x == u && y == t)))
    case DissociateOp(t, u) => linked && !((x == t && y == u) || (x == u && y == t))
    case ResetOp => false
  }

  ghost function Said(c: Context, ops: seq<Op>, x: nat, y: nat, linked: bool): bool
    decreases |ops|
  {
    if ops == [] then linked else Said(Step(c, ops[0]), ops[1..], x, y, Says(c, ops[0], x, y, linked))
  }

  lemma StepRelates(c: Context, op: Op, x: nat, y: nat)
    requires Inv(c)
    ensures Linked(Step(c, op), x, y) <==> Says(c, op, x, y, Linked(c, x, y))
  {
    hide Add, Subtract, Associate, Dissociate, Reset, Linked, Present, Full, Inv;
    match op
    case AddOp(t) => AddRelates(c, t, x, y);
    case SubtractOp(t) => SubtractRelates(c, t, x, y);
    case AssociateOp(t, u, forward, backward) => AssociateRelates(c, t, u, forward, backward, x, y);
    case DissociateOp(t, u) => DissociateRelates(c, t, u, x, y);
    case ResetOp => ResetRelates(c, x, y);
  }

  /** In every run two terminations are linked exactly if the operations, one after the
      other, say so. */
  lemma {:induction false} EveryPair(c: Context, ops: seq<Op>, x: nat, y: nat)
    requires Inv(c)
    ensures Linked(After(c, ops), x, y) <==> Said(c, ops, x, y, Linked(c, x, y))
    decreases |ops|
  {
    hide Step, Says, Linked, Inv;
    if ops != [] {
      StepRelates(c, ops[0], x, y);
      StepInv(c, ops[0]);
      EveryPair(Step(c, ops[0]), ops[1..], x, y);
    }
  }
}
