/** Whole runs of the jitter buffer: what every read shows, how the delay and
    the statistics behave, and exactly when a packet breaks the ring. */
module JitterRuns {
  import opened JitterBuffer
  import opened JitterRefinement

  datatype Op =
    | AudioPacket(data: seq<byte>, ts: int, marker: bool)
    | EventPacket(event: NamedEvent, ts: int, marker: bool)
    | Fetch
    | Reset

  /** A buffer and everything it accepted so far. */
  datatype World = World(buffer: Buffer, history: seq<Entry>)

  function Record(w: World, o: Outcome): World {
    World(o.buffer, w.history + o.entries)
  }

  function Step(w: World, op: Op): World
    requires Valid(w.buffer)
  {
    match op
    case AudioPacket(data, ts, marker) => Record(w, Write(w.buffer, data, ts, marker))
    case EventPacket(event, ts, marker) => Record(w, WriteEvent(w.buffer, event, ts, marker))
    case Fetch => w.(buffer := Read(w.buffer))
    case Reset => w.(buffer := Restart(w.buffer))
  }

  ghost predicate SameShape(b: Buffer, r: Buffer) {
    Valid(r) && r.config == b.config && |r.frames| == |b.frames|
  }

  lemma WriteValid(b: Buffer, data: seq<byte>, ts: int, marker: bool)
    requires Valid(b)
    ensures SameShape(b, Write(b, data, ts, marker).buffer)
  {
    hide Place, StoreAudio;
    PlacedInTime(b.config, b.clock, ts, marker);
  }

  lemma PlaceEventValid(b: Buffer, event: NamedEvent, w: int, first: bool)
    requires Valid(b)
    ensures SameShape(b, PlaceEvent(b, event, w, first).buffer)
  {
    hide Put;
  }

  lemma WriteEventValid(b: Buffer, event: NamedEvent, ts: int, marker: bool)
    requires Valid(b)
    ensures SameShape(b, WriteEvent(b, event, ts, marker).buffer)
  {
    hide Position, PlaceEvent, StartsEvent, Repeats;
    var c := Synced(b.config, b.clock, ts);
    var w := Position(b.config, c, ts);
    var first := StartsEvent(b.track, event, w, marker, b.config.frameTs);
    var track := Tracked(b.track, event, w, first);
    var b1 := b.(clock := c, track := track);
    PlaceEventValid(b1, event, w, true);
    if !first {
      assert StartsEvent(b.track, event, w, marker, b.config.frameTs) || b.track.update.Some? by {
        StartsWithoutUpdate(b.track, event, w, marker, b.config.frameTs);
      }
      PlaceEventValid(b1, event, w + track.update.value.duration, false);
    }
  }

  lemma StartsWithoutUpdate(t: EventTrack, event: NamedEvent, w: int, marker: bool, frameTs: nat)
    ensures StartsEvent(t, event, w, marker, frameTs) || t.update.Some?
  {
  }

  lemma StepValid(w: World, op: Op)
    requires Valid(w.buffer)
    ensures SameShape(w.buffer, Step(w, op).buffer)
  {
    hide Write, WriteEvent;
    match op
    case AudioPacket(data, ts, marker) => WriteValid(w.buffer, data, ts, marker);
    case EventPacket(event, ts, marker) => WriteEventValid(w.buffer, event, ts, marker);
    case Fetch => SameSlot(w.buffer.clock.readTs, w.buffer.config.frameTs);
    case Reset =>
  }

  function After(w: World, ops: seq<Op>): (r: World)
    requires Valid(w.buffer)
    ensures Valid(r.buffer) && r.buffer.config == w.buffer.config
    decreases |ops|
  {
    if ops == [] then w
    else
      StepValid(w, ops[0]);
      After(Step(w, ops[0]), ops[1..])
  }

  predicate Reachable(w: World, ops: seq<Op>)
    requires Valid(w.buffer)
    decreases |ops|
  {
    ops == [] ||
    (StepValid(w, ops[0]);
     && (ops[0].AudioPacket? ==> WithinReach(w.buffer, ops[0].ts, ops[0].marker))
     && Reachable(Step(w, ops[0]), ops[1..]))
  }

  // ---------- what a read shows ----------

  lemma StepRefines(w: World, op: Op)
    requires Refines(w.buffer, w.history)
    requires op.AudioPacket? ==> WithinReach(w.buffer, op.ts, op.marker)
    ensures Refines(Step(w, op).buffer, Step(w, op).history)
  {
    hide Shows, Bounded, Write, WriteEvent, Read;
    match op
    case AudioPacket(data, ts, marker) => WriteRefines(w.buffer, w.history, data, ts, marker);
    case EventPacket(event, ts, marker) => WriteEventRefines(w.buffer, w.history, event, ts, marker);
    case Fetch => ReadRefines(w.buffer, w.history);
    case Reset =>
  }

  lemma {:induction false} RunRefines(w: World, ops: seq<Op>)
    requires Valid(w.buffer) && Refines(w.buffer, w.history) && Reachable(w, ops)
    ensures Refines(After(w, ops).buffer, After(w, ops).history)
    decreases |ops|
  {
    hide Refines, Step, WithinReach;
    if ops != [] {
      StepValid(w, ops[0]);
      StepRefines(w, ops[0]);
      RunRefines(Step(w, ops[0]), ops[1..]);
    }
  }

  lemma CreatedRefines(initialMs: nat, maxMs: nat, adaptive: bool, skew: bool, frameTs: nat, frameSize: nat)
    requires frameTs > 0 && ValidatedMax(initialMs, maxMs) >= CODEC_FRAME_TIME_BASE
    ensures Refines(Create(initialMs, maxMs, adaptive, skew, frameTs, frameSize), [])
  {
    CreatedValid(initialMs, maxMs, adaptive, skew, frameTs, frameSize);
  }

  /** In every run, restarts included: a read shows exactly what was accepted for
      its timestamp, or nothing when the write position is not ahead of it. */
  lemma EveryReadShowsWhatWasAccepted(w: World, ops: seq<Op>)
    requires Refines(w.buffer, w.history) && Reachable(w, ops)
    ensures var r := After(w, ops);
      Shown(r.buffer) == if r.buffer.clock.writeTs > r.buffer.clock.readTs
                         then FrameAt(r.history, ReadFrame(r.buffer)) else EMPTY
  {
    RunRefines(w, ops);
  }

  /** Everything accepted lies below the write position. */
  ghost predicate Behind(h: seq<Entry>, writeTs: int, unit: nat) {
    forall k :: 0 <= k < |h| ==> h[k].n * unit + unit <= writeTs
  }

  lemma BehindGrows(h: seq<Entry>, writeTs: int, later: int, unit: nat)
    requires Behind(h, writeTs, unit) && writeTs <= later
    ensures Behind(h, later, unit)
  {
  }

  lemma StoredBehind(cfg: Config, frames: seq<Frame>, w: int, data: seq<byte>, available: nat)
    requires cfg.frameTs > 0 && frames != []
    ensures var s := StoreAudio(cfg, frames, w, data, available); Behind(s.entries, s.w, cfg.frameTs)
  {
    var s := StoreAudio(cfg, frames, w, data, available);
    StoredCount(cfg, frames, w, data, available);
    forall k | 0 <= k < |s.entries|
      ensures s.entries[k].n * cfg.frameTs + cfg.frameTs <= s.w
    {
      StoredNumbers(cfg, frames, w, data, available, k);
      FrameEnds(w, k, |s.entries|, cfg.frameTs);
    }
  }

  lemma FrameEnds(w: int, k: nat, n: nat, unit: nat)
    requires unit > 0 && k < n
    ensures (w / unit + k) * unit + unit <= w + n * unit
  {
    MultiplesApart(k, n, unit);
    assert (w / unit + k) * unit == (w / unit) * unit + k * unit;
  }

  ghost predicate AllBehind(w: World) {
    Behind(w.history, w.buffer.clock.writeTs, w.buffer.config.frameTs)
  }

  lemma BehindConcat(h: seq<Entry>, es: seq<Entry>, writeTs: int, unit: nat)
    requires Behind(h, writeTs, unit) && Behind(es, writeTs, unit)
    ensures Behind(h + es, writeTs, unit)
  {
  }

  lemma WriteBehind(w: World, data: seq<byte>, ts: int, marker: bool)
    requires Valid(w.buffer) && AllBehind(w)
    ensures AllBehind(Record(w, Write(w.buffer, data, ts, marker)))
  {
    hide Behind, Place, StoreAudio;
    var b := w.buffer;
    var p := Place(b.config, b.clock, ts, marker);
    PlacedInTime(b.config, b.clock, ts, marker);
    var o := Write(b, data, ts, marker);
    if o.result == Ok {
      var available := Available(|b.frames|, Ahead(b.config, b.clock.readTs, p.w));
      StoredBehind(b.config, b.frames, p.w, data, available);
      var s := StoreAudio(b.config, b.frames, p.w, data, available);
      BehindGrows(w.history, b.clock.writeTs, o.buffer.clock.writeTs, b.config.frameTs);
      BehindGrows(s.entries, s.w, o.buffer.clock.writeTs, b.config.frameTs);
      BehindConcat(w.history, s.entries, o.buffer.clock.writeTs, b.config.frameTs);
    } else {
      assert w.history + [] == w.history;
    }
  }

  lemma PlaceEventBehind(w: World, event: NamedEvent, ts: int, first: bool)
    requires Valid(w.buffer) && AllBehind(w)
    ensures AllBehind(Record(w, PlaceEvent(w.buffer, event, ts, first)))
  {
    hide Put;
    var b := w.buffer;
    var o := PlaceEvent(b, event, ts, first);
    if o.entries == [] {
      assert w.history + [] == w.history;
    } else {
      var t := if ts < b.clock.readTs then b.clock.readTs else ts;
      assert o.entries == [EventAt(t / b.config.frameTs, event, first)];
      FrameEnds(t, 0, 1, b.config.frameTs);
      assert Behind(o.entries, o.buffer.clock.writeTs, b.config.frameTs);
    }
  }

  lemma StepBehind(w: World, op: Op)
    requires Valid(w.buffer) && AllBehind(w) && !op.Reset?
    ensures AllBehind(Step(w, op))
  {
    hide Behind, Write, PlaceEvent, Position;
    match op
    case AudioPacket(data, ts, marker) => WriteBehind(w, data, ts, marker);
    case EventPacket(event, ts, marker) =>
      var b := w.buffer;
      var c := Synced(b.config, b.clock, ts);
      var at := Position(b.config, c, ts);
      var first := StartsEvent(b.track, event, at, marker, b.config.frameTs);
      var track := Tracked(b.track, event, at, first);
      var w1 := w.(buffer := b.(clock := c, track := track));
      assert w.history + [] == w.history;
      PlaceEventBehind(w1, event, if first then at else at + track.update.value.duration, first);
    case Fetch =>
  }

  lemma {:induction false} RunBehind(w: World, ops: seq<Op>)
    requires Valid(w.buffer) && AllBehind(w) && forall k :: 0 <= k < |ops| ==> !ops[k].Reset?
    ensures AllBehind(After(w, ops))
    decreases |ops|
  {
    hide AllBehind, Step;
    if ops != [] {
      StepValid(w, ops[0]);
      StepBehind(w, ops[0]);
      RunBehind(Step(w, ops[0]), ops[1..]);
    }
  }

  lemma UnderflowShowsNothing(w: World)
    requires Refines(w.buffer, w.history) && AllBehind(w) && w.buffer.clock.writeTs <= w.buffer.clock.readTs
    ensures FrameAt(w.history, ReadFrame(w.buffer)) == EMPTY
  {
    var unit, r := w.buffer.config.frameTs, ReadFrame(w.buffer);
    assert w.buffer.clock.readTs == r * unit;
    forall k | 0 <= k < |w.history|
      ensures w.history[k].n != r
    {
      MultiplesApart(w.history[k].n, r, unit);
    }
    NothingAccepted(w.history, r);
  }

  /** Without a restart the buffer is the list: a read shows the last audio and the
      last event accepted for its timestamp, and nothing exactly when none was. */
  lemma EveryReadIsTheLastAccepted(initialMs: nat, maxMs: nat, adaptive: bool, skew: bool, frameTs: nat, frameSize: nat,
                                   ops: seq<Op>)
    requires frameTs > 0 && ValidatedMax(initialMs, maxMs) >= CODEC_FRAME_TIME_BASE
    requires var w := World(Create(initialMs, maxMs, adaptive, skew, frameTs, frameSize), []);
      Valid(w.buffer) && Reachable(w, ops)
    requires forall k :: 0 <= k < |ops| ==> !ops[k].Reset?
    ensures var r := After(World(Create(initialMs, maxMs, adaptive, skew, frameTs, frameSize), []), ops);
      && Shown(r.buffer) == FrameAt(r.history, ReadFrame(r.buffer))
      && (forall i :: IsLastAudio(r.history, i, ReadFrame(r.buffer)) ==> Shown(r.buffer).audio == Some(r.history[i].data))
      && (Shown(r.buffer).audio.None? <==>
            forall k :: 0 <= k < |r.history| ==> !(r.history[k].AudioAt? && r.history[k].n == ReadFrame(r.buffer)))
  {
    hide Reachable, Refines, AllBehind;
    var w := World(Create(initialMs, maxMs, adaptive, skew, frameTs, frameSize), []);
    CreatedRefines(initialMs, maxMs, adaptive, skew, frameTs, frameSize);
    CreatedBehind(w);
    RunRefines(w, ops);
    RunBehind(w, ops);
    var r := After(w, ops);
    EveryReadShowsWhatWasAccepted(w, ops);
    if r.buffer.clock.writeTs <= r.buffer.clock.readTs {
      UnderflowShowsNothing(r);
    }
    FrameAtIsLastAudio(r.history, ReadFrame(r.buffer));
  }

  lemma CreatedBehind(w: World)
    requires w.history == []
    ensures AllBehind(w)
  {
  }

  /** An accepted packet leaves every other unread timestamp as it was. */
  lemma WriteLeavesOthersAlone(b: Buffer, h: seq<Entry>, data: seq<byte>, ts: int, marker: bool, n: int)
    requires Refines(b, h) && WithinReach(b, ts, marker)
    requires ReadFrame(b) <= n < ReadFrame(b) + |b.frames|
    requires var o := Write(b, data, ts, marker); forall k :: 0 <= k < |o.entries| ==> o.entries[k].n != n
    ensures var o := Write(b, data, ts, marker);
      |o.buffer.frames| == |b.frames| && o.buffer.frames[n % |b.frames|] == b.frames[n % |b.frames|]
  {
    hide Write, WithinReach;
    var o := Write(b, data, ts, marker);
    WriteRefines(b, h, data, ts, marker);
    StepValid(World(b, h), AudioPacket(data, ts, marker));
    ReadFrameKept(b, data, ts, marker);
    FrameAtConcat(h, o.entries, n);
  }

  lemma ReadFrameKept(b: Buffer, data: seq<byte>, ts: int, marker: bool)
    requires Valid(b)
    ensures var o := Write(b, data, ts, marker);
      Valid(o.buffer) && |o.buffer.frames| == |b.frames| && ReadFrame(o.buffer) == ReadFrame(b)
  {
    hide Place, StoreAudio;
    PlacedInTime(b.config, b.clock, ts, marker);
  }

  lemma {:induction false} FrameAtConcat(h: seq<Entry>, es: seq<Entry>, n: int)
    requires forall k :: 0 <= k < |es| ==> es[k].n != n
    ensures FrameAt(h + es, n) == FrameAt(h, n)
  {
    if es == [] {
      assert h + es == h;
    } else {
      var init := es[..|es| - 1];
      FrameAtConcat(h, init, n);
      assert h + es == (h + init) + [es[|es| - 1]];
      FrameAtAppend(h + init, es[|es| - 1], n);
    }
  }

  // ---------- delay ----------

  function Delay(w: World): nat {
    w.buffer.clock.delay
  }

  lemma RescueDelay(cfg: Config, c: Clock, ts: int, w: int)
    requires cfg.frameTs > 0 && w < c.readTs
    ensures var d := Rescue(cfg, c, ts, w).clock.delay;
      c.delay <= d && (d != c.delay ==> cfg.adaptive && d <= cfg.maxDelay)
  {
    hide Deficit, Skewed;
    DeficitCovers(cfg, c, w);
  }

  lemma PlaceDelay(cfg: Config, c: Clock, ts: int, marker: bool)
    requires cfg.frameTs > 0
    ensures var d := Place(cfg, c, ts, marker).clock.delay;
      c.delay <= d && (d != c.delay ==> cfg.adaptive && d <= cfg.maxDelay)
  {
    hide Rescue, Position;
    var c0 := Synced(cfg, if marker && c.writeTs <= c.readTs then c.(sync := true) else c, ts);
    var w := Position(cfg, c0, ts);
    if c0.writeTs <= w < c0.readTs {
      RescueDelay(cfg, c0, ts, w);
    }
  }

  /** The delay grows, up to the configured maximum, and only if the buffer is
      adaptive; a restart may only bring it back from the maximum to the initial one. */
  lemma StepDelay(w: World, op: Op)
    requires Valid(w.buffer)
    ensures var cfg := w.buffer.config;
      && (!op.Reset? ==> Delay(w) <= Delay(Step(w, op)))
      && (!op.Reset? && Delay(Step(w, op)) != Delay(w) ==> cfg.adaptive && Delay(Step(w, op)) <= cfg.maxDelay)
      && (op.Reset? && Delay(Step(w, op)) != Delay(w) ==> cfg.adaptive && Delay(Step(w, op)) == cfg.initialDelay)
  {
    hide Place, StoreAudio, Position, Put, StartsEvent;
    var b := w.buffer;
    match op
    case AudioPacket(data, ts, marker) =>
      PlaceDelay(b.config, b.clock, ts, marker);
      PlacedInTime(b.config, b.clock, ts, marker);
    case EventPacket(event, ts, marker) =>
      var c := Synced(b.config, b.clock, ts);
      StartsWithoutUpdate(b.track, event, Position(b.config, c, ts), marker, b.config.frameTs);
    case Fetch =>
    case Reset =>
  }

  lemma {:induction false} RunDelay(w: World, ops: seq<Op>)
    requires Valid(w.buffer)
    ensures !w.buffer.config.adaptive ==> Delay(After(w, ops)) == Delay(w)
    ensures (forall k :: 0 <= k < |ops| ==> !ops[k].Reset?) ==> Delay(w) <= Delay(After(w, ops))
    ensures w.buffer.config.initialDelay <= w.buffer.config.maxDelay && Delay(w) <= w.buffer.config.maxDelay
      ==> Delay(After(w, ops)) <= w.buffer.config.maxDelay
    decreases |ops|
  {
    hide Step, Delay, Valid;
    if ops != [] {
      StepValid(w, ops[0]);
      StepDelay(w, ops[0]);
      RunDelay(Step(w, ops[0]), ops[1..]);
    }
  }

  /** In timestamp units the initial delay fits exactly when its rounded value does. */
  lemma InitialFits(initialMs: nat, maxMs: nat, adaptive: bool, skew: bool, frameTs: nat, frameSize: nat)
    requires frameTs > 0
    ensures var cfg := Create(initialMs, maxMs, adaptive, skew, frameTs, frameSize).config;
      cfg.initialDelay <= cfg.maxDelay <==> RoundedUp(initialMs) <= ValidatedMax(initialMs, maxMs)
  {
    hide RoundedUp, ValidatedMax;
    ScaledOrder(frameTs, RoundedUp(initialMs), ValidatedMax(initialMs, maxMs));
  }

  lemma MultiplesKeepOrder(f: nat, a: nat, b: nat)
    requires f > 0
    ensures f * a <= f * b <==> a <= b
  {
    MultiplesApart(a, b, f);
    MultiplesApart(b, a, f);
  }

  lemma ScaledOrder(f: nat, r: nat, m: nat)
    requires f > 0 && r % CODEC_FRAME_TIME_BASE == 0
    ensures f * r / CODEC_FRAME_TIME_BASE <= f * m / CODEC_FRAME_TIME_BASE <==> r <= m
  {
    var a, b := f * (r / CODEC_FRAME_TIME_BASE), f * m;
    assert f * r == a * CODEC_FRAME_TIME_BASE;
    MultiplesKeepOrder(f, r, m);
    assert a * CODEC_FRAME_TIME_BASE <= b <==> a <= b / CODEC_FRAME_TIME_BASE;
  }

  /** The delay stays within the configured maximum in every run exactly when the
      initial delay, rounded up to whole frames, does. */
  lemma DelayWithinMaximum(initialMs: nat, maxMs: nat, adaptive: bool, skew: bool, frameTs: nat, frameSize: nat)
    requires frameTs > 0 && ValidatedMax(initialMs, maxMs) >= CODEC_FRAME_TIME_BASE
    ensures Valid(Create(initialMs, maxMs, adaptive, skew, frameTs, frameSize))
    ensures var w := World(Create(initialMs, maxMs, adaptive, skew, frameTs, frameSize), []);
      (forall ops: seq<Op> :: Delay(After(w, ops)) <= w.buffer.config.maxDelay)
        <==> RoundedUp(initialMs) <= ValidatedMax(initialMs, maxMs)
  {
    hide RoundedUp, ValidatedMax;
    CreatedValid(initialMs, maxMs, adaptive, skew, frameTs, frameSize);
    InitialFits(initialMs, maxMs, adaptive, skew, frameTs, frameSize);
    var w := World(Create(initialMs, maxMs, adaptive, skew, frameTs, frameSize), []);
    assert After(w, []) == w;
    assert Delay(w) == w.buffer.config.initialDelay;
    if w.buffer.config.initialDelay <= w.buffer.config.maxDelay {
      forall ops: seq<Op>
        ensures Delay(After(w, ops)) <= w.buffer.config.maxDelay
      {
        RunDelay(w, ops);
      }
    }
  }

  // ---------- packets too far ahead ----------

  function Constant(size: nat, v: byte): seq<byte> {
    seq(size, i => v)
  }

  lemma {:induction false} ConstantStays(cfg: Config, frames: seq<Frame>, w: int, size: nat, v: byte, available: nat, i: nat)
    requires cfg.frameTs > 0 && i < |frames| && frames[i].audio == Some(Constant(cfg.frameSize, v))
    ensures StoreAudio(cfg, frames, w, Constant(size, v), available).frames[i].audio == Some(Constant(cfg.frameSize, v))
    decreases size
  {
    if !(available == 0 || cfg.frameSize == 0 || size < cfg.frameSize) {
      var data := Constant(size, v);
      var e := AudioAt(w / cfg.frameTs, data[..cfg.frameSize]);
      assert data[..cfg.frameSize] == Constant(cfg.frameSize, v);
      assert data[cfg.frameSize..] == Constant(size - cfg.frameSize, v);
      ConstantStays(cfg, Put(frames, e), w + cfg.frameTs, size - cfg.frameSize, v, available - 1, i);
    }
  }

  /** The first frame of a packet lands in its slot, whatever is stored after it. */
  lemma ConstantLands(cfg: Config, frames: seq<Frame>, w: int, size: nat, v: byte, available: nat)
    requires cfg.frameTs > 0 && frames != [] && 0 < cfg.frameSize <= size && available > 0
    ensures StoreAudio(cfg, frames, w, Constant(size, v), available).frames[(w / cfg.frameTs) % |frames|].audio
         == Some(Constant(cfg.frameSize, v))
  {
    var data := Constant(size, v);
    var e := AudioAt(w / cfg.frameTs, data[..cfg.frameSize]);
    assert data[..cfg.frameSize] == Constant(cfg.frameSize, v);
    assert data[cfg.frameSize..] == Constant(size - cfg.frameSize, v);
    ConstantStays(cfg, Put(frames, e), w + cfg.frameTs, size - cfg.frameSize, v, available - 1, e.n % |frames|);
  }

  lemma WindowSlot(n: int, r: int, size: nat)
    requires size > 0
    ensures var t := r + (n - r) % size; r <= t < r + size && t % size == n % size
  {
    var t, q := r + (n - r) % size, (n - r) / size;
    assert t == n - q * size;
    SlotOfShifted(t, q, size);
  }

  lemma SlotOfShifted(t: int, q: int, size: nat)
    requires size > 0
    ensures (t + q * size) % size == t % size
  {
    var x := t / size;
    assert t + q * size == (x + q) * size + t % size;
    QuotientOf(t + q * size, x + q, t % size, size);
  }

  /** Some contents of a packet that starts more than a ring ahead replace a frame
      that is still to be read at an earlier timestamp. */
  lemma TooFarAheadOverwrites(b: Buffer, h: seq<Entry>, size: nat, ts: int, marker: bool) returns (data: seq<byte>)
    requires Refines(b, h) && 0 < b.config.frameSize <= size && !WithinReach(b, ts, marker)
    requires var p := Place(b.config, b.clock, ts, marker); Ahead(b.config, p.clock.readTs, p.w) < SIZE_MOD
    ensures |data| == size && SameShape(b, Write(b, data, ts, marker).buffer)
    ensures var o := Write(b, data, ts, marker); !Shows(o.buffer.frames, h + o.entries, ReadFrame(b))
  {
    hide Place, StoreAudio;
    var cfg, p := b.config, Place(b.config, b.clock, ts, marker);
    PlacedInTime(cfg, b.clock, ts, marker);
    var ahead := Ahead(cfg, b.clock.readTs, p.w);
    FramesAhead(b.clock.readTs, p.w, cfg.frameTs);
    var r, n, available := ReadFrame(b), p.w / cfg.frameTs, Available(|b.frames|, ahead);
    WindowSlot(n, r, |b.frames|);
    var t := r + (n - r) % |b.frames|;
    var v: byte := if FrameAt(h, t).audio == Some(Constant(cfg.frameSize, 0)) then 1 else 0;
    assert Constant(cfg.frameSize, 0)[0] != Constant(cfg.frameSize, 1)[0];
    data := Constant(size, v);
    WriteValid(b, data, ts, marker);
    ConstantLands(cfg, b.frames, p.w, size, v, available);
    var s := StoreAudio(cfg, b.frames, p.w, data, available);
    forall k | 0 <= k < |s.entries|
      ensures s.entries[k].n != t
    {
      StoredNumbers(cfg, b.frames, p.w, data, available, k);
    }
    FrameAtConcat(h, s.entries, t);
    assert s.frames[t % |b.frames|] != FrameAt(h + s.entries, t);
  }

  /** The ring keeps showing the list after a packet of that size, whatever its
      contents, exactly when the packet starts at most a whole ring ahead. */
  lemma RingHoldsIffWithinReach(b: Buffer, h: seq<Entry>, size: nat, ts: int, marker: bool)
    requires Refines(b, h) && 0 < b.config.frameSize <= size
    requires var p := Place(b.config, b.clock, ts, marker); p.At? ==> Ahead(b.config, p.clock.readTs, p.w) < SIZE_MOD
    ensures forall data | |data| == size :: SameShape(b, Write(b, data, ts, marker).buffer)
    ensures WithinReach(b, ts, marker) <==>
      (forall data | |data| == size :: var o := Write(b, data, ts, marker); Shows(o.buffer.frames, h + o.entries, ReadFrame(b)))
  {
    hide Place, Shows, Write;
    forall data: seq<byte> | |data| == size
      ensures SameShape(b, Write(b, data, ts, marker).buffer)
      ensures WithinReach(b, ts, marker) ==>
        var o := Write(b, data, ts, marker); Shows(o.buffer.frames, h + o.entries, ReadFrame(b))
    {
      WriteValid(b, data, ts, marker);
      if WithinReach(b, ts, marker) {
        WriteRefines(b, h, data, ts, marker);
        ReadFrameKept(b, data, ts, marker);
      }
    }
    if !WithinReach(b, ts, marker) {
      var data := TooFarAheadOverwrites(b, h, size, ts, marker);
    }
  }

  // ---------- an example ----------

  /** One frame per timestamp, one byte per frame, no adaptation. */
  function PlainConfig(initial: nat, max: nat): Config {
    Config(false, false, 1, 1, initial, max)
  }

  /** In sync, a single byte goes to the frame its timestamp names. */
  lemma PlainWrite(b: Buffer, v: byte, ts: int)
    requires Valid(b) && b.config.frameTs == 1 && b.config.frameSize == 1 && !b.clock.sync
    requires ts - b.clock.offset + b.clock.delay >= b.clock.readTs
    requires var w := ts - b.clock.offset + b.clock.delay; Available(|b.frames|, w - b.clock.readTs) > 0
    ensures var w := ts - b.clock.offset + b.clock.delay;
      Write(b, [v], ts, false) == Outcome(
        b.(frames := Put(b.frames, AudioAt(w, [v])), clock := Advance(b.clock, w + 1)), Ok, [AudioAt(w, [v])])
  {
    hide Rescue, Put;
    var w := ts - b.clock.offset + b.clock.delay;
    assert Place(b.config, b.clock, ts, false) == At(b.clock, w);
    assert [v][..1] == [v] && [v][1..] == [];
    var available := Available(|b.frames|, w - b.clock.readTs);
    var rest := StoreAudio(b.config, Put(b.frames, AudioAt(w, [v])), w + 1, [], available - 1);
    assert rest == Stored(Put(b.frames, AudioAt(w, [v])), w + 1, []);
  }

  /** The first packet only has to be synchronized before it is placed. */
  lemma SyncFirst(b: Buffer, data: seq<byte>, ts: int)
    requires Valid(b)
    ensures var s := b.(clock := Synced(b.config, b.clock, ts));
      Valid(s) && Write(b, data, ts, false) == Write(s, data, ts, false)
  {
    hide StoreAudio, Position, Rescue;
    var s := b.(clock := Synced(b.config, b.clock, ts));
    assert Place(b.config, b.clock, ts, false) == Place(s.config, s.clock, ts, false);
  }
}
