/** RTP ports: the range of a factory is split among its media engines
    (mpf_rtp_termination_factory.c), and each engine looks for a free port with a
    cursor that goes around its own range (mpf_rtp_stream.c). */
module RtpPorts {

  datatype Option<T> = None | Some(value: T)

  const PORT_MOD := 65536

  datatype Slot = Slot(engine: nat, min: nat, max: nat, cur: nat)

  // ---------- splitting the range ----------

  /** Even number of ports for each of n engines. */
  function PortsPerEngine(min: nat, max: nat, n: nat): (r: nat)
    requires min <= max && n > 0
    ensures r % 2 == 0
  {
    var p := (max - min) / n;
    if p % 2 != 0 then p - 1 else p
  }

  /** Where the range of slot i starts. */
  function Start(min: nat, ports: nat, i: nat): nat {
    min + i * ports
  }

  function SlotFor(engine: nat, i: nat, n: nat, min: nat, max: nat, ports: nat): Slot {
    Slot(engine, Start(min, ports, i), if i + 1 == n then max else Start(min, ports, i + 1), Start(min, ports, i))
  }

  /** What the slots are to be, for the engines assigned so far. */
  function SlotsFor(engines: seq<nat>, min: nat, max: nat): (s: seq<Slot>)
    requires min <= max
    ensures |s| == |engines|
  {
    var n := |engines|;
    seq(n, i requires 0 <= i < n => SlotFor(engines[i], i, n, min, max, PortsPerEngine(min, max, n)))
  }

  lemma StartNext(min: nat, ports: nat, i: nat)
    ensures Start(min, ports, i + 1) == Start(min, ports, i) + ports && Start(min, ports, 0) == min
  {
  }

  lemma ShareFits(min: nat, max: nat, n: nat)
    requires min <= max && n > 0
    ensures n * PortsPerEngine(min, max, n) <= max - min
  {
    var d := max - min;
    assert n * (d / n) <= d;
    var p := PortsPerEngine(min, max, n);
    assert p <= d / n;
    Monotone(n, p, d / n);
  }

  lemma Monotone(n: nat, a: nat, b: nat)
    requires a <= b
    ensures n * a <= n * b && a * n <= b * n
  {
    assert n * (b - a) >= 0;
  }

  /** Ranges are contiguous, cover the configured range, do not run backwards and start
      at ports of its parity. */
  lemma RangesPartition(engines: seq<nat>, min: nat, max: nat)
    requires min <= max && engines != []
    ensures var s := SlotsFor(engines, min, max); var n := |engines|;
      && s[0].min == min && s[n - 1].max == max
      && (forall i :: 0 <= i < n - 1 ==> s[i].max == s[i + 1].min)
      && (forall i :: 0 <= i < n ==> min <= s[i].min <= s[i].max <= max && (s[i].min - min) % 2 == 0 && s[i].cur == s[i].min)
  {
    var s, n := SlotsFor(engines, min, max), |engines|;
    var p := PortsPerEngine(min, max, n);
    ShareFits(min, max, n);
    forall i | 0 <= i < n
      ensures min <= s[i].min <= s[i].max <= max && (s[i].min - min) % 2 == 0
    {
      Monotone(p, i, n);
      Monotone(p, i, i + 1);
      Monotone(p, i + 1, n);
      EvenMultiple(i, p);
    }
  }

  lemma EvenMultiple(i: nat, p: nat)
    requires p % 2 == 0
    ensures (i * p) % 2 == 0
  {
    var h := p / 2;
    assert i * p == 2 * (i * h);
  }

  lemma RangesInOrder(engines: seq<nat>, min: nat, max: nat, i: nat, j: nat)
    requires min <= max && i < j < |engines|
    ensures SlotsFor(engines, min, max)[i].max <= SlotsFor(engines, min, max)[j].min
  {
    Monotone(PortsPerEngine(min, max, |engines|), i + 1, j);
  }

  /** No port belongs to two engines. */
  lemma RangesAreDisjoint(engines: seq<nat>, min: nat, max: nat, i: nat, j: nat, port: nat)
    requires min <= max && i < |engines| && j < |engines|
    requires var s := SlotsFor(engines, min, max); s[i].min <= port < s[i].max && s[j].min <= port < s[j].max
    ensures i == j
  {
    if i < j {
      RangesInOrder(engines, min, max, i, j);
    } else if j < i {
      RangesInOrder(engines, min, max, j, i);
    }
  }

  /** Every port of the range belongs to an engine. */
  lemma {:induction false} RangesCover(engines: seq<nat>, min: nat, max: nat, port: nat) returns (i: nat)
    requires min <= port < max && engines != []
    ensures i < |engines| && SlotsFor(engines, min, max)[i].min <= port < SlotsFor(engines, min, max)[i].max
  {
    RangesPartition(engines, min, max);
    var s := SlotsFor(engines, min, max);
    i := 0;
    while s[i].max <= port
      invariant i < |engines| && s[i].min <= port
      decreases |engines| - i
    {
      i := i + 1;
    }
  }

  class PortFactory {
    const min: nat
    const max: nat
    var slots: seq<Slot>

    ghost function Engines(): seq<nat>
      reads this
    {
      seq(|slots|, i requires 0 <= i < |slots| reads this => slots[i].engine)
    }

    ghost predicate Valid()
      reads this
    {
      min <= max && slots == SlotsFor(Engines(), min, max)
    }

    constructor (min: nat, max: nat)
      requires min <= max
      ensures Valid() && slots == [] && this.min == min && this.max == max
    {
      this.min, this.max, slots := min, max, [];
    }

    /** Rewrite ports of all slots: max of the first, all of those between, min of the last. */
    method Split()
      requires min <= max && |slots| > 1 && slots[0].min == slots[0].cur == min && slots[|slots| - 1].max == max
      modifies this
      ensures Valid() && Engines() == old(Engines())
    {
      var n := |slots|;
      ghost var engines := Engines();
      var ports := (max - min) / n;
      if ports % 2 != 0 {
        ports := ports - 1;
      }
      assert ports == PortsPerEngine(min, max, n);
      hide Start, PortsPerEngine;
      StartNext(min, ports, 0);
      slots := slots[0 := slots[0].(max := slots[0].min + ports)];
      var i := 1;
      while i < n - 1
        invariant 1 <= i <= n - 1 && |slots| == n && slots[n - 1].max == max
        invariant forall k :: 0 <= k < i ==> slots[k] == SlotFor(engines[k], k, n, min, max, ports)
        invariant forall k :: 0 <= k < n ==> slots[k].engine == engines[k]
      {
        var from := slots[i - 1].max;
        StartNext(min, ports, i);
        slots := slots[i := Slot(slots[i].engine, from, from + ports, from)];
        i := i + 1;
      }
      var from := slots[n - 2].max;
      slots := slots[n - 1 := slots[n - 1].(min := from, cur := from)];
      assert Engines() == engines;
      assert slots == SlotsFor(engines, min, max);
    }

    /** mpf_rtp_factory_engine_assign */
    method Assign(engine: nat)
      requires Valid()
      modifies this
      ensures Valid()
      ensures Engines() == if engine in old(Engines()) then old(Engines()) else old(Engines()) + [engine]
    {
      var i := 0;
      while i < |slots|
        invariant i <= |slots| && forall k :: 0 <= k < i ==> slots[k].engine != engine
      {
        if slots[i].engine == engine {
          assert Engines()[i] == engine;
          return;
        }
        i := i + 1;
      }
      assert engine !in Engines();
      ghost var before := Engines();
      if |before| > 0 { RangesPartition(before, min, max); }
      slots := slots + [Slot(engine, min, max, min)];
      assert Engines() == before + [engine];
      if |slots| > 1 {
        Split();
      } else {
        assert slots == SlotsFor(Engines(), min, max);
      }
    }
  }

  // ---------- searching a port ----------

  datatype Range = Range(min: nat, max: nat)

  predicate IsRange(r: Range) {
    r.min <= r.max < PORT_MOD
  }

  /** Ports at which a search should look: every second one. */
  function Candidates(r: Range): nat
    requires r.min <= r.max
  {
    (r.max - r.min + 1) / 2
  }

  function Candidate(r: Range, k: nat): nat {
    r.min + 2 * k
  }

  predicate IsCandidate(r: Range, port: nat) {
    r.min <= port < r.max && (port - r.min) % 2 == 0
  }

  /** The cursor moves on, with 16-bit arithmetic, and wraps at the end of the range. */
  function NextCursor(r: Range, cur: nat): nat {
    var next := (cur + 2) % PORT_MOD;
    if next >= r.max then r.min else next
  }

  /** Where the cursor is after n moves. */
  function Cursor(r: Range, cur: nat, n: nat): nat {
    if n == 0 then cur else NextCursor(r, Cursor(r, cur, n - 1))
  }

  /** Port 65534 is a candidate and port 0 is not. */
  predicate ReachesTop(r: Range) {
    r.max == PORT_MOD - 1 && r.min % 2 == 0 && r.min > 0
  }

  /** From a candidate the cursor always goes to a candidate, unless it can leave the
      range at port 65534, from where it goes on at port 0. */
  lemma CursorStaysIff(r: Range)
    requires IsRange(r) && r.min < r.max
    ensures (forall c :: IsCandidate(r, c) ==> IsCandidate(r, NextCursor(r, c))) <==> !ReachesTop(r)
  {
    if ReachesTop(r) {
      assert IsCandidate(r, PORT_MOD - 2) && NextCursor(r, PORT_MOD - 2) == 0;
    }
  }

  /** A range that ends at port 65535 is left at port 0. */
  lemma TopOfPortsIsLeft()
    ensures var r := Range(65500, 65535);
      IsRange(r) && IsCandidate(r, 65534) && NextCursor(r, 65534) == 0 && !IsCandidate(r, 0)
  {
  }

  ghost predicate GoodRange(r: Range) {
    IsRange(r) && r.min < r.max && !ReachesTop(r)
  }

  /** Position x on a circle of c, at most one round on. */
  function Around(x: nat, c: nat): nat {
    if x >= c then x - c else x
  }

  lemma NextCandidate(r: Range, k: nat)
    requires GoodRange(r) && k < Candidates(r)
    ensures NextCursor(r, Candidate(r, k)) == Candidate(r, Around(k + 1, Candidates(r)))
  {
  }

  /** The n-th port a search looks at, starting from candidate k. */
  function Visited(r: Range, k: nat, n: nat): nat
    requires r.min <= r.max
  {
    Candidate(r, Around(k + n, Candidates(r)))
  }

  /** In one round no port is visited twice, and every candidate is visited. */
  lemma RoundVisitsEachOnce(r: Range, k: nat, a: nat, b: nat, port: nat)
    requires GoodRange(r) && k < Candidates(r) && a < b < Candidates(r)
    ensures Visited(r, k, a) != Visited(r, k, b)
    ensures IsCandidate(r, port) ==> exists n :: 0 <= n < Candidates(r) && Visited(r, k, n) == port
  {
    if IsCandidate(r, port) {
      var i := (port - r.min) / 2;
      var n := if i >= k then i - k else i + Candidates(r) - k;
      assert Visited(r, k, n) == port;
    }
  }

  /** A search finds a port exactly when some candidate can be bound. */
  lemma SearchIsComplete(r: Range, k: nat, tried: seq<nat>, binds: nat -> bool)
    requires GoodRange(r) && k < Candidates(r) && |tried| == Candidates(r)
    requires forall n :: 0 <= n < |tried| ==> tried[n] == Visited(r, k, n) && !binds(tried[n])
    ensures forall port: nat :: IsCandidate(r, port) ==> !binds(port)
  {
    forall port: nat | IsCandidate(r, port)
      ensures !binds(port)
    {
      var i := (port - r.min) / 2;
      var n := if i >= k then i - k else i + Candidates(r) - k;
      assert tried[n] == port;
    }
  }

  // ---------- when a search comes to an end ----------

  lemma {:induction false} CursorVisits(r: Range, k: nat, n: nat)
    requires GoodRange(r) && k < Candidates(r) && n <= Candidates(r)
    ensures Cursor(r, Candidate(r, k), n) == Visited(r, k, n)
  {
    if n > 0 {
      CursorVisits(r, k, n - 1);
      NextCandidate(r, Around(k + n - 1, Candidates(r)));
    }
  }

  /** Nothing stops the cursor at the end of the range: it runs through all ports of
      its parity. */
  predicate RunsFree(r: Range, cur: nat) {
    || (cur % 2 == 0 && (r.max == PORT_MOD - 1 || r.min == r.max == PORT_MOD - 2))
    || (cur % 2 == 1 && r.min == r.max == PORT_MOD - 1)
  }

  lemma FreeStep(r: Range, cur: nat)
    requires IsRange(r) && cur < PORT_MOD && RunsFree(r, cur)
    ensures NextCursor(r, cur) == (if cur + 2 < PORT_MOD then cur + 2 else cur + 2 - PORT_MOD)
    ensures NextCursor(r, cur) < PORT_MOD && RunsFree(r, NextCursor(r, cur))
  {
  }

  lemma {:induction false} FreeCircle(r: Range, cur: nat, n: nat)
    requires IsRange(r) && cur < PORT_MOD && RunsFree(r, cur) && n <= PORT_MOD / 2
    ensures Cursor(r, cur, n) == (if cur + 2 * n < PORT_MOD then cur + 2 * n else cur + 2 * n - PORT_MOD)
    ensures RunsFree(r, Cursor(r, cur, n))
  {
    hide NextCursor;
    if n > 0 {
      FreeCircle(r, cur, n - 1);
      FreeStep(r, Cursor(r, cur, n - 1));
    }
  }

  /** Where the cursor comes from the start of the range on. */
  predicate OfStart(r: Range, c: nat) {
    c % 2 == r.min % 2 && (IsCandidate(r, c) || c == r.min || RunsFree(r, c))
  }

  /** The cursor has left its starting point for good: it goes round from the start of
      the range, or is still on its way up. */
  ghost predicate Gone(r: Range, start: nat, c: nat) {
    && c != start && c < PORT_MOD
    && (OfStart(r, c) || (c < r.max && c % 2 == start % 2 && (start < c || start >= r.max)))
  }

  /** A cursor that comes back: it is on a candidate, on the only port of an empty
      range, or nothing stops it. */
  predicate ComesBack(r: Range, cur: nat) {
    IsCandidate(r, cur) || r.min == r.max == cur || RunsFree(r, cur)
  }

  lemma StartGoesRound(r: Range, c: nat)
    requires IsRange(r) && OfStart(r, c) && c < PORT_MOD
    ensures OfStart(r, NextCursor(r, c)) && NextCursor(r, c) < PORT_MOD
    ensures ComesBack(r, NextCursor(r, c))
  {
    if RunsFree(r, c) {
      FreeStep(r, c);
    }
  }

  lemma StartStays(r: Range, start: nat, c: nat)
    requires IsRange(r) && start < PORT_MOD && !ComesBack(r, start) && OfStart(r, c) && c < PORT_MOD
    ensures Gone(r, start, NextCursor(r, c))
  {
    hide NextCursor, ComesBack, OfStart;
    StartGoesRound(r, c);
  }

  lemma GoneForGood(r: Range, start: nat, c: nat)
    requires IsRange(r) && start < PORT_MOD && !ComesBack(r, start) && (c == start || Gone(r, start, c))
    ensures Gone(r, start, NextCursor(r, c))
  {
    if c != start && OfStart(r, c) {
      StartStays(r, start, c);
    }
  }

  lemma {:induction false} CursorNeverReturns(r: Range, cur: nat, n: nat)
    requires IsRange(r) && cur < PORT_MOD && !ComesBack(r, cur) && n > 0
    ensures Cursor(r, cur, n) != cur && Gone(r, cur, Cursor(r, cur, n))
  {
    hide NextCursor, ComesBack;
    if n == 1 {
      assert Cursor(r, cur, 0) == cur;
    } else {
      CursorNeverReturns(r, cur, n - 1);
    }
    GoneForGood(r, cur, Cursor(r, cur, n - 1));
  }

  /** How many moves bring the cursor back, where it comes back. */
  function Round(r: Range, cur: nat): (n: nat)
    requires IsRange(r)
    ensures n > 0
  {
    if RunsFree(r, cur) then PORT_MOD / 2
    else if r.min == r.max then 1
    else Candidates(r)
  }

  lemma BackAfterRound(r: Range, cur: nat)
    requires IsRange(r) && cur < PORT_MOD && ComesBack(r, cur)
    ensures Cursor(r, cur, Round(r, cur)) == cur
  {
    if RunsFree(r, cur) {
      FreeCircle(r, cur, PORT_MOD / 2);
    } else if r.min == r.max {
      assert Cursor(r, cur, 1) == NextCursor(r, Cursor(r, cur, 0));
    } else {
      var k, c := (cur - r.min) / 2, Candidates(r);
      CursorVisits(r, k, c);
    }
  }

  /** With every port taken, a search ends if and only if its cursor is one that comes back. */
  lemma SearchEndsIff(r: Range, cur: nat)
    requires IsRange(r) && cur < PORT_MOD
    ensures (exists n :: n > 0 && Cursor(r, cur, n) == cur) <==> ComesBack(r, cur)
  {
    hide Cursor, ComesBack;
    if ComesBack(r, cur) {
      BackAfterRound(r, cur);
    } else {
      forall n | n > 0
        ensures Cursor(r, cur, n) != cur
      {
        CursorNeverReturns(r, cur, n);
      }
    }
  }

  /** The search: the ports under the cursor are tried, in turn, until one can be bound
      or the cursor is back where it started. */
  method Search(r: Range, cursor: nat, binds: nat -> bool) returns (port: Option<nat>, cur: nat, tried: seq<nat>)
    requires IsRange(r) && cursor < PORT_MOD && ComesBack(r, cursor)
    ensures 0 < |tried| <= Round(r, cursor) && cur == Cursor(r, cursor, |tried|)
    ensures forall n :: 0 <= n < |tried| ==> tried[n] == Cursor(r, cursor, n)
    ensures forall n :: 0 < n < |tried| ==> tried[n] != cursor
    ensures forall n :: 0 <= n < |tried| - 1 ==> !binds(tried[n])
    ensures port.Some? ==> port.value == tried[|tried| - 1] && binds(port.value)
    ensures port.None? ==> !binds(tried[|tried| - 1]) && cur == cursor
  {
    BackAfterRound(r, cursor);
    hide NextCursor, ComesBack, Round;
    cur, tried, port := cursor, [], None;
    var more := true;
    while more
      invariant |tried| <= Round(r, cursor) && (more ==> |tried| < Round(r, cursor)) && (!more ==> |tried| > 0)
      invariant cur == Cursor(r, cursor, |tried|)
      invariant forall n :: 0 <= n < |tried| ==> tried[n] == Cursor(r, cursor, n)
      invariant forall n :: 0 < n < |tried| ==> tried[n] != cursor
      invariant |tried| > 0 && more ==> cur != cursor
      invariant forall n :: 0 <= n < |tried| && (n < |tried| - 1 || port.None?) ==> !binds(tried[n])
      invariant port.Some? ==> !more && port.value == tried[|tried| - 1] && binds(port.value)
      invariant !more && port.None? ==> cur == cursor
      decreases more, Round(r, cursor) - |tried|
    {
      var candidate := cur;
      cur := NextCursor(r, cur);
      tried := tried + [candidate];
      if binds(candidate) {
        port := Some(candidate);
        more := false;
      } else {
        more := cursor != cur;
      }
    }
  }

  /** In a range the cursor does not leave, what a search tries are the candidates, from
      its cursor on, each at most once, and all of them before it gives up. */
  lemma SearchTriesCandidates(r: Range, cursor: nat, tried: seq<nat>)
    requires GoodRange(r) && IsCandidate(r, cursor) && 0 < |tried| <= Round(r, cursor)
    requires forall n :: 0 <= n < |tried| ==> tried[n] == Cursor(r, cursor, n)
    ensures |tried| <= Candidates(r)
    ensures forall n :: 0 <= n < |tried| ==> tried[n] == Visited(r, (cursor - r.min) / 2, n)
    ensures Cursor(r, cursor, |tried|) == cursor ==> |tried| == Candidates(r)
  {
    var k, c := (cursor - r.min) / 2, Candidates(r);
    assert |tried| <= c;
    forall n | 0 <= n < |tried|
      ensures tried[n] == Visited(r, k, n)
    {
      CursorVisits(r, k, n);
    }
    CursorVisits(r, k, |tried|);
  }

  /** In an empty range one port is tried: the first one behind it. */
  lemma EmptyRangeTriesOne(r: Range)
    requires IsRange(r) && r.min == r.max < PORT_MOD - 2
    ensures ComesBack(r, r.min) && Round(r, r.min) == 1 && !IsCandidate(r, r.min)
  {
  }

  // ---------- ranges as they are assigned ----------

  predicate Searchable(s: Slot) {
    IsCandidate(Range(s.min, s.max), s.cur)
  }

  /** Every engine can be served from its own range if and only if there are two ports
      for each, or one for the only one. */
  lemma SearchableIff(engines: seq<nat>, min: nat, max: nat)
    requires min <= max && engines != []
    ensures (forall i :: 0 <= i < |engines| ==> Searchable(SlotsFor(engines, min, max)[i]))
       <==> if |engines| == 1 then min < max else max - min >= 2 * |engines|
  {
    var s, n := SlotsFor(engines, min, max), |engines|;
    var p := PortsPerEngine(min, max, n);
    RangesPartition(engines, min, max);
    SharesOfTwo(max - min, n);
    if n > 1 && p >= 2 {
      ShareFits(min, max, n);
      forall i | 0 <= i < n
        ensures Searchable(s[i])
      {
        StartNext(min, p, i);
        Monotone(p, i + 1, n);
      }
    } else if n > 1 {
      assert !Searchable(s[0]);
    }
  }

  lemma SharesOfTwo(ports: nat, n: nat)
    requires n > 0
    ensures PortsPerEngine(0, ports, n) >= 2 <==> ports >= 2 * n
  {
    var q := ports / n;
    assert ports == q * n + ports % n;
    if ports >= 2 * n {
      if q < 2 {
        Monotone(n, q, 1);
      }
    } else if q >= 2 {
      Monotone(n, 2, q);
    }
  }

  /** With fewer ports all engines but the last get the same empty range, and each of
      them tries the first port of the last one. */
  lemma TooFewPorts(engines: seq<nat>, min: nat, max: nat, i: nat)
    requires |engines| > 1 && min <= max < min + 2 * |engines| && i < |engines|
    ensures var s := SlotsFor(engines, min, max);
      && s[i].min == s[i].cur == min
      && s[i].max == if i + 1 < |engines| then min else max
  {
    SharesOfTwo(max - min, |engines|);
    Nothing(i, PortsPerEngine(min, max, |engines|));
    Nothing(i + 1, PortsPerEngine(min, max, |engines|));
  }

  lemma Nothing(i: nat, p: nat)
    requires p % 2 == 0 && p < 2
    ensures i * p == 0
  {
  }

  /** Two engines share three ports: the first has none of its own and tries the first
      port of the second. */
  lemma EmptySlotTriesNeighbour(a: nat, b: nat, min: nat)
    requires min < 60000
    ensures var s := SlotsFor([a, b], min, min + 3);
      && s[0] == Slot(a, min, min, min) && s[1] == Slot(b, min, min + 3, min)
      && !Searchable(s[0]) && Searchable(s[1]) && Round(Range(min, min), min) == 1
  {
    hide PortsPerEngine;
    TooFewPorts([a, b], min, min + 3, 0);
    TooFewPorts([a, b], min, min + 3, 1);
  }
}
