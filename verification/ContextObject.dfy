/** The media context as the code writes it: cells and byte counters changed one
    by one in loops over the slots, with the early exits and skips of the code. */
module ContextObject {
  import opened ContextModel

  function Inc(x: nat): nat {
    (x + 1) % BYTE
  }

  function Dec(x: nat): nat {
    (x + BYTE - 1) % BYTE
  }

  lemma OneOff(cells: set<Cell>, capacity: nat, i: nat, j: nat)
    requires (i, j) in cells && i < capacity && j < capacity
    ensures var tx, rx := TxCounts(cells, capacity), RxCounts(cells, capacity);
      && TxCounts(cells - {(i, j)}, capacity) == tx[i := Dec(tx[i])]
      && RxCounts(cells - {(i, j)}, capacity) == rx[j := Dec(rx[j])]
  {
    var less := cells - {(i, j)};
    RowOff(cells, i, j);
    forall k: nat | k != i ensures Row(less, k) == Row(cells, k) { SameRow(cells, i, j, k); }
    forall k: nat | k != j ensures Column(less, k) == Column(cells, k) { SameColumn(cells, i, j, k); }
  }

  lemma RowOff(cells: set<Cell>, i: nat, j: nat)
    requires (i, j) in cells
    ensures |Row(cells - {(i, j)}, i)| == |Row(cells, i)| - 1
    ensures |Column(cells - {(i, j)}, j)| == |Column(cells, j)| - 1
  {
    assert Row(cells - {(i, j)}, i) == Row(cells, i) - {j} && j in Row(cells, i) by {
      assert (i, j).1 == j;
    }
    assert Column(cells - {(i, j)}, j) == Column(cells, j) - {i} && i in Column(cells, j) by {
      assert (i, j).0 == i;
    }
  }

  lemma SameRow(cells: set<Cell>, i: nat, j: nat, k: nat)
    requires k != i
    ensures Row(cells - {(i, j)}, k) == Row(cells, k)
  {
    forall x | x in Row(cells, k) ensures x in Row(cells - {(i, j)}, k) { assert (k, x) in cells - {(i, j)}; }
  }

  lemma SameColumn(cells: set<Cell>, i: nat, j: nat, k: nat)
    requires k != j
    ensures Column(cells - {(i, j)}, k) == Column(cells, k)
  {
    forall x | x in Column(cells, k) ensures x in Column(cells - {(i, j)}, k) { assert (x, k) in cells - {(i, j)}; }
  }

  lemma OneOn(cells: set<Cell>, capacity: nat, i: nat, j: nat)
    requires (i, j) !in cells && i < capacity && j < capacity
    ensures var tx, rx := TxCounts(cells, capacity), RxCounts(cells, capacity);
      && TxCounts(cells + {(i, j)}, capacity) == tx[i := Inc(tx[i])]
      && RxCounts(cells + {(i, j)}, capacity) == rx[j := Inc(rx[j])]
  {
    var more := cells + {(i, j)};
    assert more - {(i, j)} == cells;
    RowOff(more, i, j);
    forall k: nat | k != i ensures Row(cells, k) == Row(more, k) { SameRow(more, i, j, k); }
    forall k: nat | k != j ensures Column(cells, k) == Column(more, k) { SameColumn(more, i, j, k); }
  }

  /** Occupied slots below j. */
  function OccupiedBelow(slots: seq<Option<nat>>, j: nat): set<nat> {
    set k | 0 <= k < j && k < |slots| && slots[k].Some?
  }

  lemma OneMoreSlot(slots: seq<Option<nat>>, j: nat)
    requires j < |slots|
    ensures OccupiedBelow(slots, j + 1) == OccupiedBelow(slots, j) + if slots[j].Some? then {j} else {}
    ensures |OccupiedBelow(slots, j + 1)| == |OccupiedBelow(slots, j)| + if slots[j].Some? then 1 else 0
  {
    assert OccupiedBelow(slots, j + 1) == OccupiedBelow(slots, j) + if slots[j].Some? then {j} else {};
    assert j !in OccupiedBelow(slots, j);
  }

  /** Once as many occupied slots were met as there are, the rest is empty. */
  lemma AllMet(slots: seq<Option<nat>>, j: nat)
    requires j <= |slots| && (|OccupiedBelow(slots, j)| >= |Occupied(slots)| || j == |slots|)
    ensures Occupied(slots) == OccupiedBelow(slots, j)
  {
    assert OccupiedBelow(slots, j) <= Occupied(slots);
    Subset(OccupiedBelow(slots, j), Occupied(slots));
  }

  lemma Subset(a: set<nat>, b: set<nat>)
    requires a <= b
    ensures |a| <= |b| && (|a| == |b| ==> a == b)
  {
    assert b == a + (b - a);
    assert |b| == |a| + |b - a|;
  }

  class MediaContext {
    var slots: seq<Option<nat>>
    var slotOf: map<nat, nat>
    var count: nat
    var cells: set<Cell>
    var tx: seq<nat>
    var rx: seq<nat>

    ghost function View(): Context
      reads this
    {
      Context(slots, slotOf, count, cells, tx, rx)
    }

    ghost predicate Counted()
      reads this
    {
      tx == TxCounts(cells, |slots|) && rx == RxCounts(cells, |slots|)
    }

    constructor (capacity: nat)
      ensures View() == NewContext(capacity) && Inv(View())
    {
      slots, slotOf, count, cells := seq(capacity, i => None), map[], 0, {};
      tx, rx := seq(capacity, i => 0), seq(capacity, i => 0);
      new;
      NewInv(capacity);
    }

    method SwitchOff(i: nat, j: nat)
      requires Counted() && i < |slots| && j < |slots|
      modifies this`cells, this`tx, this`rx
      ensures Counted() && cells == old(cells) - {(i, j)}
    {
      if (i, j) in cells {
        OneOff(cells, |slots|, i, j);
        cells := cells - {(i, j)};
        tx := tx[i := Dec(tx[i])];
        rx := rx[j := Dec(rx[j])];
      }
    }

    method SwitchOn(i: nat, j: nat)
      requires Counted() && i < |slots| && j < |slots|
      modifies this`cells, this`tx, this`rx
      ensures Counted() && cells == old(cells) + {(i, j)}
    {
      if (i, j) !in cells {
        OneOn(cells, |slots|, i, j);
        cells := cells + {(i, j)};
        tx := tx[i := Inc(tx[i])];
        rx := rx[j := Inc(rx[j])];
      }
    }

    /** mpf_context_termination_add */
    method AddTermination(t: nat) returns (ok: bool)
      requires Inv(View())
      modifies this
      ensures View() == Add(old(View()), t) && ok == (FirstEmpty(old(slots)) < |old(slots)|)
    {
      var i := 0;
      while i < |slots|
        invariant i <= |slots| && FirstEmpty(slots) == i + FirstEmpty(slots[i..])
      {
        if slots[i].None? {
          break;
        }
        assert slots[i..][1..] == slots[i + 1..];
        i := i + 1;
      }
      if i == |slots| {
        return false;
      }
      ReusedSlotIsFresh(View(), t);
      slots := slots[i := Some(t)];
      tx := tx[i := 0];
      rx := rx[i := 0];
      slotOf := slotOf[t := i];
      count := count + 1;
      ok := true;
    }

    /** The loop of mpf_context_termination_subtract over the occupied slots. */
    method ClearSlot(i: nat)
      requires Inv(View()) && i < |slots|
      modifies this`cells, this`tx, this`rx
      ensures Counted() && cells == old(cells) - Touching(old(cells), i)
    {
      var j, k := 0, 0;
      while j < |slots| && k < count
        invariant j <= |slots| && k == |OccupiedBelow(slots, j)| && Counted()
        invariant cells == old(cells) - set e | e in old(cells) && ((e.0 == i && e.1 < j) || (e.1 == i && e.0 < j))
      {
        OneMoreSlot(slots, j);
        if slots[j].Some? {
          k := k + 1;
          SwitchOff(i, j);
          SwitchOff(j, i);
        } else {
          assert j !in Occupied(slots);
        }
        j := j + 1;
      }
      AllMet(slots, j);
    }

    /** mpf_context_termination_subtract */
    method SubtractTermination(t: nat) returns (ok: bool)
      requires Inv(View())
      modifies this
      ensures View() == Subtract(old(View()), t) && ok == SlotOf(old(View()), t).Some?
    {
      hide Inv;
      var s := Lookup(t);
      if s.None? {
        return false;
      }
      var i := s.value;
      assert count > 0 by { HoldsOne(View(), t); }
      ClearSlot(i);
      slots := slots[i := None];
      slotOf := slotOf - {t};
      count := count - 1;
      ok := true;
    }

    /** The slot kept in a termination, checked against the header. */
    method Lookup(t: nat) returns (s: Option<nat>)
      ensures s == SlotOf(View(), t) && (s.Some? ==> s.value < |slots|)
    {
      if t !in slotOf || slotOf[t] >= |slots| || slots[slotOf[t]] != Some(t) {
        return None;
      }
      s := Some(slotOf[t]);
    }

    /** mpf_context_association_add */
    method AddAssociation(t: nat, u: nat, forward: bool, backward: bool) returns (ok: bool)
      requires Inv(View())
      modifies this`cells, this`tx, this`rx
      ensures View() == Associate(old(View()), t, u, forward, backward)
      ensures ok == (SlotOf(old(View()), t).Some? && SlotOf(old(View()), u).Some?)
    {
      hide Inv, TxCounts, RxCounts, SlotOf;
      var i := Lookup(t);
      var j := Lookup(u);
      if i.None? || j.None? {
        return false;
      }
      assert Counted() by { InvCounted(View()); }
      if forward {
        SwitchOn(i.value, j.value);
      }
      ghost var half := old(cells) + (if forward then {(i.value, j.value)} else {});
      assert cells == half;
      if backward {
        SwitchOn(j.value, i.value);
      }
      assert cells == half + (if backward then {(j.value, i.value)} else {});
      ok := true;
    }

    /** mpf_context_association_remove */
    method RemoveAssociation(t: nat, u: nat) returns (ok: bool)
      requires Inv(View())
      modifies this`cells, this`tx, this`rx
      ensures View() == Dissociate(old(View()), t, u)
      ensures ok == (SlotOf(old(View()), t).Some? && SlotOf(old(View()), u).Some?)
    {
      hide Inv, TxCounts, RxCounts, SlotOf;
      var i := Lookup(t);
      var j := Lookup(u);
      if i.None? || j.None? {
        return false;
      }
      assert Counted() by { InvCounted(View()); }
      SwitchOff(i.value, j.value);
      SwitchOff(j.value, i.value);
      assert cells == old(cells) - {(i.value, j.value), (j.value, i.value)};
      ok := true;
    }

    /** The inner loop of mpf_context_associations_reset, from slot i on. */
    method ClearFrom(i: nat)
      requires Counted() && i < |slots| && forall e :: e in cells ==> e.0 in Occupied(slots) && e.1 in Occupied(slots)
      modifies this`cells, this`tx, this`rx
      ensures Counted() && cells == old(cells) - set e | e in old(cells) && ((e.0 == i && e.1 >= i) || (e.1 == i && e.0 >= i))
    {
      var j := i;
      while j < |slots|
        invariant i <= j <= |slots| && Counted()
        invariant cells == old(cells) -
          set e | e in old(cells) && ((e.0 == i && i <= e.1 < j) || (e.1 == i && i <= e.0 < j))
      {
        if slots[j].Some? {
          SwitchOff(i, j);
          SwitchOff(j, i);
        } else {
          assert j !in Occupied(slots);
        }
        j := j + 1;
      }
    }

    /** mpf_context_associations_reset: with exact counters the skips lose nothing. */
    method ResetAssociations()
      requires Inv(View()) && Counts(View())
      modifies this`cells, this`tx, this`rx
      ensures View() == Reset(old(View()))
    {
      var i, k := 0, 0;
      ghost var was := cells;
      while i < |slots| && k < count
        invariant i <= |slots| && k == |OccupiedBelow(slots, i)| && Counted()
        invariant cells == set e | e in was && e.0 >= i && e.1 >= i
      {
        OneMoreSlot(slots, i);
        if slots[i].Some? {
          k := k + 1;
          if tx[i] == 0 && rx[i] == 0 {
            NothingThere(was, cells, i);
          } else {
            ClearFrom(i);
          }
        } else {
          assert i !in Occupied(slots);
        }
        i := i + 1;
      }
      AllMet(slots, i);
      assert cells == {};
    }
  }

  /** A counter that reads 0 is 0, as long as no row and no column had 256 cells. */
  lemma NothingThere(was: set<Cell>, cells: set<Cell>, i: nat)
    requires cells <= was && |Row(was, i)| < BYTE && |Column(was, i)| < BYTE
    requires |Row(cells, i)| % BYTE == 0 && |Column(cells, i)| % BYTE == 0
    ensures forall e :: e in cells ==> e.0 != i && e.1 != i
  {
    Subset(Row(cells, i), Row(was, i));
    Subset(Column(cells, i), Column(was, i));
    assert Row(cells, i) == {} && Column(cells, i) == {};
    forall e | e in cells
      ensures e.0 != i && e.1 != i
    {
      assert e.0 == i ==> e.1 in Row(cells, i);
      assert e.1 == i ==> e.0 in Column(cells, i);
    }
  }

  lemma HoldsOne(c: Context, t: nat)
    requires Inv(c) && SlotOf(c, t).Some?
    ensures c.count > 0
  {
    SlotIsOccupied(c, t);
  }

  lemma InvCounted(c: Context)
    requires Inv(c)
    ensures c.tx == TxCounts(c.cells, |c.slots|) && c.rx == RxCounts(c.cells, |c.slots|)
  {
  }
}
