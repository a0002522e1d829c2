/** When a packet is played, and which packets are too late: exact statements in terms of
    timestamps, delay and configuration. */
module JitterTiming {
  import opened JitterBuffer
  import opened JitterRefinement

  // ---------- where a packet belongs ----------

  /** A packet synchronizes the clocks when that is due, and when it begins a talkspurt
      while nothing is left to be read. */
  predicate Resyncs(c: Clock, marker: bool) {
    c.sync || (marker && c.writeTs <= c.readTs)
  }

  /** The clock once the packet is seen. */
  function SeenClock(cfg: Config, c: Clock, ts: int, marker: bool): Clock {
    if Resyncs(c, marker) then
      c.(sync := false, offset := ts - c.readTs,
         stats := if cfg.skewDetection then Stats(c.delay, c.delay, 0) else c.stats)
    else c
  }

  /** The frame a packet belongs to: a synchronizing one is played once the delay has
      passed, any other as much later than that one as it was sent later. */
  function FrameFor(cfg: Config, c: Clock, ts: int, marker: bool): int
    requires cfg.frameTs > 0
  {
    if Resyncs(c, marker) then (c.readTs + c.delay) / cfg.frameTs
    else (ts - c.offset + c.delay) / cfg.frameTs
  }

  lemma AlignedIs(t: int, unit: nat)
    requires unit > 0
    ensures Aligned(t, unit) == (t / unit) * unit
  {
  }

  lemma PositionIs(cfg: Config, c: Clock, ts: int, marker: bool)
    requires cfg.frameTs > 0
    ensures var c0 := Synced(cfg, if marker && c.writeTs <= c.readTs then c.(sync := true) else c, ts);
      c0 == SeenClock(cfg, c, ts, marker) && Position(cfg, c0, ts) == FrameFor(cfg, c, ts, marker) * cfg.frameTs
  {
    var c0 := SeenClock(cfg, c, ts, marker);
    AlignedIs(ts - c0.offset + c0.delay, cfg.frameTs);
    if Resyncs(c, marker) {
      assert ts - c0.offset + c0.delay == c.readTs + c.delay;
    }
  }

  /** After a synchronizing packet one sent k frames later belongs k frames further on,
      as long as neither delay nor offset is adjusted. */
  lemma LaterBelongsLater(cfg: Config, c: Clock, ts: int, marker: bool, k: int)
    requires cfg.frameTs > 0 && Resyncs(c, marker)
    ensures FrameFor(cfg, SeenClock(cfg, c, ts, marker), ts + k * cfg.frameTs, false) == FrameFor(cfg, c, ts, marker) + k
  {
    Shifted(c.readTs + c.delay, k, cfg.frameTs);
    assert ts + k * cfg.frameTs - (ts - c.readTs) + c.delay == c.readTs + c.delay + k * cfg.frameTs;
  }

  lemma Shifted(x: int, k: int, unit: nat)
    requires unit > 0
    ensures (x + k * unit) / unit == x / unit + k && (x + k * unit) % unit == x % unit
  {
    var q, r := (x + k * unit) / unit, (x + k * unit) % unit;
    var q0, r0 := x / unit, x % unit;
    assert q * unit + r == (q0 + k) * unit + r0;
    MultiplesApart(q, q0 + k, unit);
    MultiplesApart(q0 + k, q, unit);
  }

  // ---------- packets in time ----------

  /** A packet that belongs at or behind the read position is placed where it belongs. */
  lemma InTimeStays(cfg: Config, c: Clock, ts: int, marker: bool)
    requires cfg.frameTs > 0 && FrameFor(cfg, c, ts, marker) * cfg.frameTs >= c.readTs
    ensures Place(cfg, c, ts, marker) == At(SeenClock(cfg, c, ts, marker), FrameFor(cfg, c, ts, marker) * cfg.frameTs)
  {
    PositionIs(cfg, c, ts, marker);
  }

  /** One frame of audio, in time and within the ring: it is stored for that frame. */
  lemma InTimeIsStored(b: Buffer, data: seq<byte>, ts: int, marker: bool)
    requires Valid(b) && |data| == b.config.frameSize > 0
    requires var n := FrameFor(b.config, b.clock, ts, marker); ReadFrame(b) <= n < ReadFrame(b) + |b.frames|
    ensures var o, n := Write(b, data, ts, marker), FrameFor(b.config, b.clock, ts, marker);
      && o.result == Ok && o.entries == [AudioAt(n, data)] && o.buffer.frames == Put(b.frames, AudioAt(n, data))
      && o.buffer.track == b.track && o.buffer.config == b.config
      && o.buffer.clock == Advance(SeenClock(b.config, b.clock, ts, marker), (n + 1) * b.config.frameTs)
  {
    hide Place, Put, StoreAudio, FrameFor, Ahead, SeenClock;
    var cfg, n := b.config, FrameFor(b.config, b.clock, ts, marker);
    WholeFrames(b, n);
    InTimeStays(cfg, b.clock, ts, marker);
    SeenAlike(cfg, b.clock, ts, marker);
    var available := Available(|b.frames|, n - ReadFrame(b));
    assert available == |b.frames| - (n - ReadFrame(b)) > 0;
    OneFrameStored(cfg, b.frames, n, data, available);
    assert n * cfg.frameTs + cfg.frameTs == (n + 1) * cfg.frameTs;
  }

  lemma SeenAlike(cfg: Config, c: Clock, ts: int, marker: bool)
    ensures SeenClock(cfg, c, ts, marker).readTs == c.readTs && SeenClock(cfg, c, ts, marker).writeTs == c.writeTs
  {
  }

  lemma OneFrameStored(cfg: Config, frames: seq<Frame>, n: int, data: seq<byte>, available: nat)
    requires cfg.frameTs > 0 && frames != [] && |data| == cfg.frameSize > 0 && available > 0
    ensures var w := n * cfg.frameTs;
      StoreAudio(cfg, frames, w, data, available) == Stored(Put(frames, AudioAt(n, data)), w + cfg.frameTs, [AudioAt(n, data)])
  {
    hide Put;
    var w := n * cfg.frameTs;
    MultipleHasNoRemainder(n, cfg.frameTs);
    assert data[..cfg.frameSize] == data && data[cfg.frameSize..] == [];
    var rest := StoreAudio(cfg, Put(frames, AudioAt(n, data)), w + cfg.frameTs, [], available - 1);
    assert rest == Stored(Put(frames, AudioAt(n, data)), w + cfg.frameTs, []);
  }

  lemma WholeFrames(b: Buffer, n: int)
    requires Valid(b) && n >= ReadFrame(b)
    ensures n * b.config.frameTs >= b.clock.readTs
    ensures Ahead(b.config, b.clock.readTs, n * b.config.frameTs) == n - ReadFrame(b)
  {
    var f, r := b.config.frameTs, ReadFrame(b);
    assert b.clock.readTs == r * f;
    MultiplesApart(n, r, f);
    assert n * f - r * f == (n - r) * f;
    MultipleHasNoRemainder(n - r, f);
  }

  // ---------- late packets, without skew detection ----------

  /** A late packet is discarded exactly when it is out of order, or the delay cannot grow
      by as much as it is late.  Otherwise it is played next, and the delay grows by just
      that. */
  lemma LateIff(cfg: Config, c: Clock, ts: int, marker: bool)
    requires cfg.frameTs > 0 && !cfg.skewDetection && FrameFor(cfg, c, ts, marker) * cfg.frameTs < c.readTs
    ensures var w, c0 := FrameFor(cfg, c, ts, marker) * cfg.frameTs, SeenClock(cfg, c, ts, marker);
      var late := c.readTs - w;
      Place(cfg, c, ts, marker) ==
        if w < c.writeTs || !cfg.adaptive || c.delay + late > cfg.maxDelay then Late(c0)
        else At(c0.(delay := c.delay + late), c.readTs)
  {
    PositionIs(cfg, c, ts, marker);
  }

  /** After such an adjustment the packet would be just in time, and the next one, sent a
      frame later, is in time for the next frame. */
  lemma AdjustmentLasts(cfg: Config, c: Clock, ts: int)
    requires WellTimed(cfg, c) && !c.sync && FrameFor(cfg, c, ts, false) * cfg.frameTs < c.readTs
    ensures var late := c.readTs - FrameFor(cfg, c, ts, false) * cfg.frameTs;
      var c1 := c.(delay := c.delay + late);
      && FrameFor(cfg, c1, ts, false) * cfg.frameTs == c.readTs
      && FrameFor(cfg, c1, ts + cfg.frameTs, false) * cfg.frameTs == c.readTs + cfg.frameTs
  {
    var f, x := cfg.frameTs, ts - c.offset + c.delay;
    var n, r := x / f, c.readTs / f;
    assert c.readTs == r * f;
    assert x + (c.readTs - n * f) == x + (r - n) * f by { assert r * f - n * f == (r - n) * f; }
    Shifted(x, r - n, f);
    Shifted(x, r - n + 1, f);
    assert (r - n + 1) * f == (r - n) * f + f && (r + 1) * f == r * f + f;
  }

  // ---------- late packets, with skew detection ----------

  /** What the delay lacks: as much as the packet is late, or more when the measured
      lengths of the buffer vary by more than that. */
  function Lacks(cfg: Config, c: Clock, w: int): int
    requires cfg.frameTs > 0
  {
    var spread := c.stats.max - c.stats.min;
    if spread > c.delay + (c.readTs - w) then ((spread - c.delay) / cfg.frameTs) * cfg.frameTs else c.readTs - w
  }

  /** The clocks have drifted apart: the buffer has not been as long as the delay. */
  predicate Drifted(c: Clock) {
    0 < c.stats.max < c.delay
  }

  function Drift(cfg: Config, c: Clock): int
    requires cfg.frameTs > 0
  {
    if Drifted(c) then ((c.delay - c.stats.max) / cfg.frameTs) * cfg.frameTs else 0
  }

  function Moved(s: Stats, d: int): Stats {
    Stats(s.min + d, s.max + d, s.count)
  }

  /** A late packet is discarded exactly when it is out of order, or the drift does not
      make up for what the delay lacks and the delay cannot grow by the rest.  The drift
      is taken off the offset and the rest added to the delay. */
  lemma LateIffWithSkew(cfg: Config, c: Clock, ts: int, marker: bool)
    requires cfg.frameTs > 0 && cfg.skewDetection && FrameFor(cfg, c, ts, marker) * cfg.frameTs < c.readTs
    ensures var w, c0 := FrameFor(cfg, c, ts, marker) * cfg.frameTs, SeenClock(cfg, c, ts, marker);
      var drift := Drift(cfg, c0);
      var rest := if Lacks(cfg, c0, w) > drift then Lacks(cfg, c0, w) - drift else 0;
      var c1 := c0.(offset := c0.offset - drift, stats := Moved(c0.stats, drift));
      var at := if Drifted(c0) then ts - c1.offset + c0.delay else w;
      && Place(cfg, c, ts, marker) ==
           (if w < c.writeTs then Late(c0)
            else if rest == 0 then At(c1, at)
            else if !cfg.adaptive || c.delay + rest > cfg.maxDelay then Late(c1)
            else At(c1.(delay := c0.delay + rest, stats := Moved(c1.stats, rest)), at + rest))
  {
    PositionIs(cfg, c, ts, marker);
    var w, c0 := FrameFor(cfg, c, ts, marker) * cfg.frameTs, SeenClock(cfg, c, ts, marker);
    AlignedIs(c0.stats.max - c0.stats.min - c0.delay, cfg.frameTs);
    AlignedIs(c0.delay - c0.stats.max, cfg.frameTs);
    DeficitCovers(cfg, c0, w);
  }

  // ---------- what a write answers ----------

  /** Too late exactly when it has no place, too early exactly when its place is the first
      one behind the ring or, the subtraction being one of 64 bits, a whole turn of it
      further on. */
  lemma AnswerIff(b: Buffer, data: seq<byte>, ts: int, marker: bool)
    requires Valid(b)
    ensures var o, p := Write(b, data, ts, marker), Place(b.config, b.clock, ts, marker);
      && (o.result == TooLate <==> p.Late?)
      && (p.At? ==> (o.result == TooEarly <==> (Ahead(b.config, b.clock.readTs, p.w) - |b.frames|) % SIZE_MOD == 0
                                                && Ahead(b.config, b.clock.readTs, p.w) >= |b.frames|))
      && (o.result != Ok ==> o.entries == [] && o.buffer == b.(clock := p.clock))
  {
    hide Place, StoreAudio;
    PlacedInTime(b.config, b.clock, ts, marker);
  }

  // ---------- the measured length ----------

  function Least(a: int, b: int): int { if a < b then a else b }

  function Greatest(a: int, b: int): int { if a > b then a else b }

  /** Reading with skew detection moves the clock by one frame and widens the measured
      range to the length there is then; after fifty readings the range starts again at
      its middle. */
  lemma ReadMeasures(b: Buffer)
    requires Valid(b)
    ensures var c, d := b.clock, Read(b).clock;
      && d == c.(readTs := c.readTs + b.config.frameTs, stats := d.stats)
      && (!b.config.skewDetection ==> d.stats == c.stats)
      && (b.config.skewDetection ==>
            var length, again := d.writeTs - d.readTs, c.stats.count == 50;
            var mid := c.stats.min + (c.stats.max - c.stats.min) / 2;
            && d.stats.min == Least(length, if again then mid else c.stats.min)
            && d.stats.max == Greatest(length, if again then mid else c.stats.max)
            && d.stats.count == if again then 1 else c.stats.count + 1)
      && Read(b) == b.(clock := d, frames := b.frames[ReadFrame(b) % |b.frames| := EMPTY])
  {
  }

  // ---------- restarts ----------

  /** A restart asks for synchronization and gives a delay that has reached the maximum
      back, and nothing else. */
  lemma RestartIs(b: Buffer)
    ensures var c, d := b.clock, Restart(b).clock;
      && Resyncs(d, false) && d.writeTs == d.readTs == c.readTs && d.stats == c.stats
      && d.delay == (if b.config.adaptive && c.delay == b.config.maxDelay then b.config.initialDelay else c.delay)
      && Restart(b).track.update.None? && Restart(b).frames == b.frames && Restart(b).config == b.config
  {
  }

  // ---------- creation ----------

  /** A new buffer waits for its first packet, holds as many frames as go into the maximum
      delay, and plays a packet once the initial delay, in whole frames of 10 ms, has
      passed.  Without a maximum it takes twice the initial delay, or 600 ms. */
  lemma CreatedIs(initialMs: nat, maxMs: nat, adaptive: bool, skew: bool, frameTs: nat, frameSize: nat)
    ensures var b := Create(initialMs, maxMs, adaptive, skew, frameTs, frameSize);
      var maximum := if maxMs < initialMs then 2 * initialMs else if maxMs == 0 then 600 else maxMs;
      && b.frames == seq(maximum / 10, i => EMPTY) && b.track == NO_EVENT
      && b.config == Config(adaptive, skew, frameTs, frameSize, frameTs * ((initialMs + 9) / 10), frameTs * maximum / 10)
      && b.clock == Clock(true, 0, 0, 0, frameTs * ((initialMs + 9) / 10), Stats(0, 0, 0))
  {
    var r := RoundedUp(initialMs);
    assert r == 10 * ((initialMs + 9) / 10);
    var k := (initialMs + 9) / 10;
    assert frameTs * r == 10 * (frameTs * k) by { assert frameTs * (10 * k) == 10 * (frameTs * k); }
  }
}
