/** Applying the topology of a media context: bridges, multipliers and mixers are
    created from the association matrix, and together serve exactly the
    associations that are on. */
module Topology {
  import opened ContextModel
  import ContextObject

  datatype Object =
    | Bridge(source: nat, sink: nat)
    | Multiplier(source: nat, sinks: seq<nat>)
    | Mixer(sources: seq<nat>, sink: nat)

  // ---------- rows and columns as lists ----------

  /** The elements of a set between two bounds, in ascending order. */
  function Ascending(s: set<nat>, from: nat, n: nat): seq<nat>
    decreases n - from
  {
    if from >= n then [] else (if from in s then [from] else []) + Ascending(s, from + 1, n)
  }

  lemma {:induction false} AscendingMembers(s: set<nat>, from: nat, n: nat, x: nat)
    ensures x in Ascending(s, from, n) <==> from <= x < n && x in s
    decreases n - from
  {
    if from < n {
      AscendingMembers(s, from + 1, n, x);
    }
  }

  function Between(s: set<nat>, from: nat, n: nat): set<nat> {
    set x | x in s && from <= x < n
  }

  lemma OneFewer(s: set<nat>, from: nat, n: nat)
    requires from < n
    ensures |Between(s, from, n)| == |Between(s, from + 1, n)| + if from in s then 1 else 0
  {
    var rest := Between(s, from + 1, n);
    if from in s {
      assert Between(s, from, n) == rest + {from} && from !in rest;
    } else {
      assert Between(s, from, n) == rest;
    }
  }

  lemma {:induction false} AscendingCounts(s: set<nat>, from: nat, n: nat)
    ensures |Ascending(s, from, n)| == |Between(s, from, n)|
    decreases n - from
  {
    if from < n {
      AscendingCounts(s, from + 1, n);
      OneFewer(s, from, n);
    } else {
      assert Between(s, from, n) == {};
    }
  }

  lemma AscendingWhole(s: set<nat>, n: nat)
    requires forall x :: x in s ==> x < n
    ensures |Ascending(s, 0, n)| == |s| && forall x :: x in Ascending(s, 0, n) <==> x in s
  {
    AscendingCounts(s, 0, n);
    assert Between(s, 0, n) == s;
    forall x: nat ensures x in Ascending(s, 0, n) <==> x in s { AscendingMembers(s, 0, n, x); }
  }

  /** Sinks of a source, and sources of a sink, by slot number. */
  function Sinks(c: Context, i: nat): seq<nat> {
    Ascending(Row(c.cells, i), 0, |c.slots|)
  }

  function Sources(c: Context, j: nat): seq<nat> {
    Ascending(Column(c.cells, j), 0, |c.slots|)
  }

  lemma RowMember(cells: set<Cell>, i: nat, j: nat)
    ensures (i, j) in cells <==> j in Row(cells, i)
    ensures (i, j) in cells <==> i in Column(cells, j)
  {
    assert (i, j).0 == i && (i, j).1 == j;
  }

  // ---------- exact counters ----------

  /** Counters that have not wrapped around, and cells inside the matrix. */
  ghost predicate Exact(c: Context) {
    && |c.tx| == |c.rx| == |c.slots|
    && (forall e :: e in c.cells ==> e.0 < |c.slots| && e.1 < |c.slots| && c.slots[e.0].Some? && c.slots[e.1].Some?)
    && (forall i :: 0 <= i < |c.slots| ==> c.tx[i] == |Row(c.cells, i)| && c.rx[i] == |Column(c.cells, i)|)
  }

  lemma InvIsExact(c: Context)
    requires Inv(c) && Counts(c)
    ensures Exact(c)
  {
  }

  /** The array of a multiplier has exactly tx_count entries, one for each sink of its
      row; likewise for a mixer. */
  lemma ArraysAreFilled(c: Context, i: nat)
    requires Exact(c) && i < |c.slots|
    ensures |Sinks(c, i)| == c.tx[i] && |Sources(c, i)| == c.rx[i]
    ensures forall x :: x in Sinks(c, i) <==> (i, x) in c.cells
    ensures forall x :: x in Sources(c, i) <==> (x, i) in c.cells
  {
    forall x: nat ensures ((i, x) in c.cells <==> x in Row(c.cells, i)) && ((x, i) in c.cells <==> x in Column(c.cells, i)) {
      RowMember(c.cells, i, x);
      RowMember(c.cells, x, i);
    }
    AscendingWhole(Row(c.cells, i), |c.slots|);
    AscendingWhole(Column(c.cells, i), |c.slots|);
  }

  // ---------- the objects ----------

  function SendingObjects(c: Context, i: nat): seq<Object>
    requires i < |c.slots| == |c.tx| == |c.rx|
  {
    var sinks := Sinks(c, i);
    if c.tx[i] == 0 || sinks == [] then []
    else if c.tx[i] == 1 then
      if sinks[0] < |c.rx| && c.rx[sinks[0]] > 1 then [] else [Bridge(i, sinks[0])]
    else [Multiplier(i, sinks)]
  }

  function ReceivingObjects(c: Context, j: nat): seq<Object>
    requires j < |c.slots| == |c.tx| == |c.rx|
  {
    if c.rx[j] > 1 then [Mixer(Sources(c, j), j)] else []
  }

  function ObjectsAt(c: Context, i: nat): seq<Object>
    requires i < |c.slots| == |c.tx| == |c.rx|
  {
    if c.slots[i].None? then [] else SendingObjects(c, i) + ReceivingObjects(c, i)
  }

  function Objects(c: Context, n: nat): seq<Object>
    requires n <= |c.slots| == |c.tx| == |c.rx|
  {
    if n == 0 then [] else Objects(c, n - 1) + ObjectsAt(c, n - 1)
  }

  predicate Serves(o: Object, e: Cell) {
    match o
    case Bridge(source, sink) => e == (source, sink)
    case Multiplier(source, sinks) => e.0 == source && e.1 in sinks
    case Mixer(sources, sink) => e.1 == sink && e.0 in sources
  }

  function Served(objects: seq<Object>, e: Cell): nat {
    if objects == [] then 0 else (if Serves(objects[0], e) then 1 else 0) + Served(objects[1..], e)
  }

  lemma {:induction false} ServedConcat(a: seq<Object>, b: seq<Object>, e: Cell)
    ensures Served(a + b, e) == Served(a, e) + Served(b, e)
  {
    if a == [] {
      assert a + b == b;
    } else {
      assert (a + b)[1..] == a[1..] + b;
      ServedConcat(a[1..], b, e);
    }
  }

  // ---------- what they serve ----------

  function Sending(c: Context, e: Cell): nat
    requires e.0 < |c.tx| && e.1 < |c.rx|
  {
    if c.tx[e.0] > 1 || c.rx[e.1] <= 1 then 1 else 0
  }

  function Receiving(c: Context, e: Cell): nat
    requires e.0 < |c.tx| && e.1 < |c.rx|
  {
    if c.rx[e.1] > 1 then 1 else 0
  }

  lemma ServedByOne(o: Object, e: Cell)
    ensures Served([o], e) == if Serves(o, e) then 1 else 0
  {
    assert Served([o][1..], e) == 0;
  }

  lemma NothingServed(e: Cell)
    ensures Served([], e) == 0
  {
  }

  /** What a slot sends is served by its bridge or multiplier, unless it has a single
      sink that a mixer serves. */
  lemma SendingServes(c: Context, i: nat, e: Cell)
    requires Exact(c) && i < |c.slots|
    ensures Served(SendingObjects(c, i), e) == if e in c.cells && e.0 == i then Sending(c, e) else 0
  {
    hide Sinks, Served;
    ArraysAreFilled(c, i);
    NothingServed(e);
    var sinks := Sinks(c, i);
    assert e == (e.0, e.1);
    assert e.0 == i ==> (e in c.cells <==> e.1 in sinks);
    if sinks != [] {
      ServedByOne(Bridge(i, sinks[0]), e);
      ServedByOne(Multiplier(i, sinks), e);
      assert sinks[0] in sinks;
      if |sinks| == 1 {
        assert sinks == [sinks[0]];
      }
    }
  }

  lemma ReceivingServes(c: Context, j: nat, e: Cell)
    requires Exact(c) && j < |c.slots|
    ensures Served(ReceivingObjects(c, j), e) == if e in c.cells && e.1 == j then Receiving(c, e) else 0
  {
    hide Sources, Served;
    ArraysAreFilled(c, j);
    NothingServed(e);
    ServedByOne(Mixer(Sources(c, j), j), e);
    assert e == (e.0, e.1);
  }

  lemma ServedAt(c: Context, i: nat, e: Cell)
    requires Exact(c) && i < |c.slots|
    ensures Served(ObjectsAt(c, i), e) ==
      if e in c.cells then (if e.0 == i then Sending(c, e) else 0) + (if e.1 == i then Receiving(c, e) else 0) else 0
  {
    hide SendingObjects, ReceivingObjects, Served, Sending, Receiving;
    SendingServes(c, i, e);
    ReceivingServes(c, i, e);
    ServedConcat(SendingObjects(c, i), ReceivingObjects(c, i), e);
    NothingServed(e);
  }

  lemma {:induction false} ServedBelow(c: Context, n: nat, e: Cell)
    requires Exact(c) && n <= |c.slots|
    ensures Served(Objects(c, n), e) ==
      if e in c.cells then (if e.0 < n then Sending(c, e) else 0) + (if e.1 < n then Receiving(c, e) else 0) else 0
  {
    hide ObjectsAt, Served, Sending, Receiving;
    if n == 0 {
      NothingServed(e);
    } else {
      ServedBelow(c, n - 1, e);
      ServedAt(c, n - 1, e);
      ServedConcat(Objects(c, n - 1), ObjectsAt(c, n - 1), e);
    }
  }

  /** Every association that is on is served, by two objects exactly when its source
      has several sinks and its sink several sources; no other is served at all. */
  lemma TopologyServesTheMatrix(c: Context, i: nat, j: nat)
    requires Inv(c) && Counts(c)
    ensures Exact(c)
    ensures Served(Objects(c, |c.slots|), (i, j)) ==
      if (i, j) !in c.cells then 0 else if c.tx[i] > 1 && c.rx[j] > 1 then 2 else 1
  {
    hide Objects;
    InvIsExact(c);
    ServedBelow(c, |c.slots|, (i, j));
  }

  // ---------- the loops as written ----------

  /** mpf_context_bridge_create */
  method CreateBridge(c: Context, i: nat) returns (r: Option<Object>)
    requires Exact(c) && i < |c.slots| && c.tx[i] == 1
    ensures SendingObjects(c, i) == if r.None? then [] else [r.value]
  {
    var row := Row(c.cells, i);
    var j := 0;
    while j < |c.slots|
      invariant j <= |c.slots| && Sinks(c, i) == Ascending(row, j, |c.slots|)
    {
      RowMember(c.cells, i, j);
      if c.slots[j].Some? && (i, j) in c.cells {
        assert Sinks(c, i)[0] == j;
        if c.rx[j] > 1 {
          return None;
        }
        return Some(Bridge(i, j));
      }
      j := j + 1;
    }
    return None;
  }

  /** The loop of multiplier and mixer creation: collect the slots of a row or column,
      stopping once the counter says that all are found. */
  method Collect(s: set<nat>, count: nat, n: nat) returns (found: seq<nat>)
    requires (forall x :: x in s ==> x < n) && count == |s|
    ensures found == Ascending(s, 0, n)
  {
    hide Ascending;
    found := [];
    AscendingWhole(s, n);
    ghost var all, rest := Ascending(s, 0, n), Ascending(s, 0, n);
    assert [] + rest == all;
    var k := 0;
    while k < n && |found| < count
      invariant k <= n && rest == Ascending(s, k, n) && all == found + rest
    {
      AscendingStep(s, k, n);
      rest := Ascending(s, k + 1, n);
      if k in s {
        assert found + ([k] + rest) == found + [k] + rest;
        found := found + [k];
      } else {
        assert [] + rest == rest;
      }
      k := k + 1;
    }
    AscendingEnd(s, k, n);
    assert |all| == |found| + |rest|;
    assert rest == [] && found + [] == found;
  }

  lemma AscendingStep(s: set<nat>, k: nat, n: nat)
    requires k < n
    ensures Ascending(s, k, n) == (if k in s then [k] else []) + Ascending(s, k + 1, n)
  {
  }

  lemma AscendingEnd(s: set<nat>, k: nat, n: nat)
    ensures k >= n ==> Ascending(s, k, n) == []
  {
  }

  method CreateObjects(c: Context, i: nat) returns (objects: seq<Object>)
    requires Exact(c) && i < |c.slots| && c.slots[i].Some?
    ensures objects == ObjectsAt(c, i)
  {
    ArraysAreFilled(c, i);
    objects := [];
    if c.tx[i] > 0 {
      if c.tx[i] == 1 {
        var bridge := CreateBridge(c, i);
        if bridge.Some? {
          objects := [bridge.value];
        }
      } else {
        var sinks := Collect(Row(c.cells, i), c.tx[i], |c.slots|);
        objects := [Multiplier(i, sinks)];
      }
    }
    assert objects == SendingObjects(c, i);
    if c.rx[i] > 1 {
      var sources := Collect(Column(c.cells, i), c.rx[i], |c.slots|);
      objects := objects + [Mixer(sources, i)];
    } else {
      assert objects + [] == objects;
    }
  }

  /** mpf_context_topology_apply: the loop stops once all terminations are met. */
  method ApplyTopology(c: Context) returns (objects: seq<Object>)
    requires Inv(c) && Counts(c)
    ensures Exact(c) && objects == Objects(c, |c.slots|)
  {
    hide ObjectsAt, Exact, Objects;
    InvIsExact(c);
    InvSizes(c);
    objects := [];
    ObjectsBelow(c, 0);
    var i, k := 0, 0;
    while i < |c.slots| && k < c.count
      invariant i <= |c.slots| == |c.tx| == |c.rx| && k == |ContextObject.OccupiedBelow(c.slots, i)|
      invariant objects == Objects(c, i)
    {
      ContextObject.OneMoreSlot(c.slots, i);
      ObjectsBelow(c, i + 1);
      if c.slots[i].Some? {
        k := k + 1;
        var more := CreateObjects(c, i);
        objects := objects + more;
      } else {
        NoObjects(c, i);
        assert objects + [] == objects;
      }
      i := i + 1;
    }
    ContextObject.AllMet(c.slots, i);
    EmptyAfter(c, i, |c.slots|);
  }

  lemma InvSizes(c: Context)
    requires Inv(c)
    ensures c.count == |Occupied(c.slots)| && |c.tx| == |c.rx| == |c.slots|
  {
  }

  lemma ObjectsBelow(c: Context, n: nat)
    requires n <= |c.slots| == |c.tx| == |c.rx|
    ensures Objects(c, n) == if n == 0 then [] else Objects(c, n - 1) + ObjectsAt(c, n - 1)
  {
  }

  /** Empty slots add no objects. */
  lemma {:induction false} EmptyAfter(c: Context, i: nat, n: nat)
    requires i <= n <= |c.slots| == |c.tx| == |c.rx|
    requires Occupied(c.slots) == ContextObject.OccupiedBelow(c.slots, i)
    ensures Objects(c, n) == Objects(c, i)
    decreases n
  {
    hide ObjectsAt, Objects;
    if i < n {
      EmptyAfter(c, i, n - 1);
      assert n - 1 !in ContextObject.OccupiedBelow(c.slots, i);
      assert n - 1 !in Occupied(c.slots);
      NoObjects(c, n - 1);
      ObjectsBelow(c, n);
    }
  }

  lemma NoObjects(c: Context, i: nat)
    requires i < |c.slots| == |c.tx| == |c.rx| && c.slots[i].None?
    ensures ObjectsAt(c, i) == []
  {
  }
}
