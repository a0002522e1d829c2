/** The media context (mpf_context.c): termination slots, the association matrix
    and its per-row and per-column counters.  The counters are bytes.  The
    operations are stated here by what they do to the set of cells that are on;
    the counters follow from it. */
module ContextModel {

  datatype Option<T> = None | Some(value: T)

  type Cell = (nat, nat)

  const BYTE := 256

  datatype Context = Context(
    slots: seq<Option<nat>>,     // termination in each slot
    slotOf: map<nat, nat>,       // slot kept in each termination
    count: nat,
    cells: set<Cell>,            // matrix cells that are on: (source, sink)
    tx: seq<nat>, rx: seq<nat>)

  function NewContext(capacity: nat): Context {
    Context(seq(capacity, i => None), map[], 0, {}, seq(capacity, i => 0), seq(capacity, i => 0))
  }

  // ---------- rows and columns ----------

  function Row(cells: set<Cell>, i: nat): set<nat> {
    set e | e in cells && e.0 == i :: e.1
  }

  function Column(cells: set<Cell>, j: nat): set<nat> {
    set e | e in cells && e.1 == j :: e.0
  }

  function Touching(cells: set<Cell>, i: nat): set<Cell> {
    set e | e in cells && (e.0 == i || e.1 == i)
  }

  function TxCounts(cells: set<Cell>, capacity: nat): (s: seq<nat>)
    ensures |s| == capacity && forall i :: 0 <= i < capacity ==> s[i] == |Row(cells, i)| % BYTE
  {
    seq(capacity, i requires 0 <= i < capacity => |Row(cells, i)| % BYTE)
  }

  function RxCounts(cells: set<Cell>, capacity: nat): (s: seq<nat>)
    ensures |s| == capacity && forall j :: 0 <= j < capacity ==> s[j] == |Column(cells, j)| % BYTE
  {
    seq(capacity, j requires 0 <= j < capacity => |Column(cells, j)| % BYTE)
  }

  function Occupied(slots: seq<Option<nat>>): set<nat> {
    set i | 0 <= i < |slots| && slots[i].Some?
  }

  /** The same context with other cells on: the counters are counted afresh. */
  function WithCells(c: Context, cells: set<Cell>): Context {
    c.(cells := cells, tx := TxCounts(cells, |c.slots|), rx := RxCounts(cells, |c.slots|))
  }

  /** Counters count the cells of their row and column, cells lie between occupied
      slots, and count is the number of occupied slots. */
  ghost predicate Inv(c: Context) {
    && c.tx == TxCounts(c.cells, |c.slots|) && c.rx == RxCounts(c.cells, |c.slots|)
    && (forall e :: e in c.cells ==> e.0 in Occupied(c.slots) && e.1 in Occupied(c.slots))
    && c.count == |Occupied(c.slots)|
  }

  /** Every counter is the number of on-cells of its row or column. */
  ghost predicate Counts(c: Context) {
    && |c.tx| == |c.rx| == |c.slots|
    && forall i :: 0 <= i < |c.slots| ==> c.tx[i] == |Row(c.cells, i)| && c.rx[i] == |Column(c.cells, i)|
  }

  // ---------- operations ----------

  /** The slot of a termination that the context really holds there. */
  function SlotOf(c: Context, t: nat): Option<nat> {
    if t in c.slotOf && c.slotOf[t] < |c.slots| && c.slots[c.slotOf[t]] == Some(t) then Some(c.slotOf[t]) else None
  }

  function FirstEmpty(slots: seq<Option<nat>>): (i: nat)
    ensures i <= |slots| && (i < |slots| ==> slots[i].None?)
    ensures forall k :: 0 <= k < i ==> slots[k].Some?
  {
    if slots == [] || slots[0].None? then 0 else 1 + FirstEmpty(slots[1..])
  }

  function Add(c: Context, t: nat): Context {
    var i := FirstEmpty(c.slots);
    if i == |c.slots| then c
    else c.(slots := c.slots[i := Some(t)], slotOf := c.slotOf[t := i], count := c.count + 1)
  }

  function Subtract(c: Context, t: nat): Context {
    var s := SlotOf(c, t);
    if s.None? then c
    else
      var c1 := WithCells(c, c.cells - Touching(c.cells, s.value));
      c1.(slots := c.slots[s.value := None], slotOf := c.slotOf - {t}, count := if c.count > 0 then c.count - 1 else 0)
  }

  /** The direction checks say which of the two associations are possible. */
  function Associate(c: Context, t: nat, u: nat, forward: bool, backward: bool): Context {
    var s, r := SlotOf(c, t), SlotOf(c, u);
    if s.None? || r.None? then c
    else WithCells(c, c.cells + (if forward then {(s.value, r.value)} else {})
                              + (if backward then {(r.value, s.value)} else {}))
  }

  function Dissociate(c: Context, t: nat, u: nat): Context {
    var s, r := SlotOf(c, t), SlotOf(c, u);
    if s.None? || r.None? then c
    else WithCells(c, c.cells - {(s.value, r.value), (r.value, s.value)})
  }

  function Reset(c: Context): Context {
    WithCells(c, {})
  }

  datatype Op =
    | AddOp(t: nat)
    | SubtractOp(t: nat)
    | AssociateOp(t: nat, u: nat, forward: bool, backward: bool)
    | DissociateOp(t: nat, u: nat)
    | ResetOp

  function Step(c: Context, op: Op): Context {
    match op
    case AddOp(t) => Add(c, t)
    case SubtractOp(t) => Subtract(c, t)
    case AssociateOp(t, u, forward, backward) => Associate(c, t, u, forward, backward)
    case DissociateOp(t, u) => Dissociate(c, t, u)
    case ResetOp => Reset(c)
  }

  function After(c: Context, ops: seq<Op>): Context
    decreases |ops|
  {
    if ops == [] then c else After(Step(c, ops[0]), ops[1..])
  }

  // ---------- every operation keeps the invariant ----------

  lemma RowWithin(cells: set<Cell>, i: nat, capacity: nat)
    requires forall e :: e in cells ==> e.0 < capacity && e.1 < capacity
    ensures |Row(cells, i)| <= capacity && |Column(cells, i)| <= capacity
  {
    Bounded(Row(cells, i), capacity);
    Bounded(Column(cells, i), capacity);
  }

  lemma {:induction false} Bounded(s: set<nat>, n: nat)
    requires forall x :: x in s ==> x < n
    ensures |s| <= n
  {
    if n > 0 {
      Bounded(s - {n - 1}, n - 1);
      assert s <= (s - {n - 1}) + {n - 1};
    } else {
      assert s == {};
    }
  }

  lemma AddInv(c: Context, t: nat)
    requires Inv(c)
    ensures Inv(Add(c, t))
  {
    var i := FirstEmpty(c.slots);
    if i < |c.slots| {
      assert Occupied(c.slots[i := Some(t)]) == Occupied(c.slots) + {i};
    }
  }

  lemma SubtractInv(c: Context, t: nat)
    requires Inv(c)
    ensures Inv(Subtract(c, t))
  {
    var s := SlotOf(c, t);
    if s.Some? {
      assert s.value in Occupied(c.slots);
      assert Occupied(c.slots[s.value := None]) == Occupied(c.slots) - {s.value};
    }
  }

  lemma WithCellsInv(c: Context, cells: set<Cell>)
    requires Inv(c) && forall e :: e in cells ==> e.0 in Occupied(c.slots) && e.1 in Occupied(c.slots)
    ensures Inv(WithCells(c, cells))
  {
  }

  lemma SlotIsOccupied(c: Context, t: nat)
    ensures var s := SlotOf(c, t); s.Some? ==> s.value in Occupied(c.slots)
  {
  }

  lemma AssociateInv(c: Context, t: nat, u: nat, forward: bool, backward: bool)
    requires Inv(c)
    ensures Inv(Associate(c, t, u, forward, backward))
  {
    hide Occupied, SlotOf, WithCells;
    SlotIsOccupied(c, t);
    SlotIsOccupied(c, u);
    var s, r := SlotOf(c, t), SlotOf(c, u);
    if s.Some? && r.Some? {
      WithCellsInv(c, c.cells + (if forward then {(s.value, r.value)} else {})
                              + (if backward then {(r.value, s.value)} else {}));
    }
  }

  lemma StepInv(c: Context, op: Op)
    requires Inv(c)
    ensures Inv(Step(c, op)) && |Step(c, op).slots| == |c.slots|
  {
    match op
    case AddOp(t) => AddInv(c, t);
    case SubtractOp(t) => SubtractInv(c, t);
    case AssociateOp(t, u, forward, backward) => AssociateInv(c, t, u, forward, backward);
    case DissociateOp(t, u) =>
    case ResetOp =>
  }

  lemma {:induction false} RunInv(c: Context, ops: seq<Op>)
    requires Inv(c)
    ensures Inv(After(c, ops)) && |After(c, ops).slots| == |c.slots|
    decreases |ops|
  {
    hide Inv, Step;
    if ops != [] {
      StepInv(c, ops[0]);
      RunInv(Step(c, ops[0]), ops[1..]);
    }
  }

  lemma NewInv(capacity: nat)
    ensures Inv(NewContext(capacity))
  {
    var c := NewContext(capacity);
    assert Occupied(c.slots) == {};
    assert forall i: nat :: Row({}, i) == {} && Column({}, i) == {};
  }

  /** Bytes are enough for fewer than 256 slots. */
  lemma InvCounts(c: Context)
    requires Inv(c) && |c.slots| < BYTE
    ensures Counts(c)
  {
    forall i | 0 <= i < |c.slots|
      ensures c.tx[i] == |Row(c.cells, i)| && c.rx[i] == |Column(c.cells, i)|
    {
      RowWithin(c.cells, i, |c.slots|);
    }
  }

  /** In every run of a context of at most 255 slots: the counters are the numbers of
      on-cells of their row and column, cells touching an empty slot are off, and
      count is the number of occupied slots. */
  lemma EveryContext(capacity: nat, ops: seq<Op>)
    requires capacity < BYTE
    ensures var c := After(NewContext(capacity), ops);
      && |c.slots| == capacity && Counts(c) && c.count == |Occupied(c.slots)|
      && (forall i, j :: (i, j) in c.cells ==> i < capacity && j < capacity && c.slots[i].Some? && c.slots[j].Some?)
  {
    hide After, Counts;
    NewInv(capacity);
    RunInv(NewContext(capacity), ops);
    InvCounts(After(NewContext(capacity), ops));
  }

  /** A slot that is taken again starts without associations. */
  lemma ReusedSlotIsFresh(c: Context, t: nat)
    requires Inv(c) && FirstEmpty(c.slots) < |c.slots|
    ensures var r := Add(c, t); var i := FirstEmpty(c.slots);
      SlotOf(r, t) == Some(i) && Touching(r.cells, i) == {} && r.tx[i] == 0 && r.rx[i] == 0
  {
    var i := FirstEmpty(c.slots);
    assert i !in Occupied(c.slots);
    assert Row(c.cells, i) == {} && Column(c.cells, i) == {};
  }
}
