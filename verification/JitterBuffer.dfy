/** The jitter buffer (mpf_jitter_buffer.c): a ring of frames indexed by RTP
    timestamp, with late, early, skew and adaptive-delay branches.
    Timestamps are mathematical integers; a timestamp divided by the frame
    duration is its frame number, and the ring keeps frame number n in slot
    n % N.  What the buffer accepted is recorded as a list of entries, and the
    ring is proved to show exactly what that list says. */
module JitterBuffer {

  datatype Option<T> = None | Some(value: T)

  type byte = x: int | 0 <= x < 256

  datatype Marker = NoMarker | StartOfEvent | EndOfEvent

  datatype NamedEvent = NamedEvent(id: nat, edge: bool, duration: nat)

  /** A media frame: the type flags say which of audio and event are there. */
  datatype Frame = Frame(audio: Option<seq<byte>>, event: Option<NamedEvent>, marker: Marker)

  const EMPTY := Frame(None, None, NoMarker)

  const CODEC_FRAME_TIME_BASE := 10
  const DEFAULT_MAX_DELAY := 600
  const MEASUREMENTS := 50
  const SIZE_MOD := 0x1_0000_0000_0000_0000

  datatype Config = Config(
    adaptive: bool, skewDetection: bool,
    frameTs: nat, frameSize: nat,
    initialDelay: nat, maxDelay: nat)   // both in timestamp units

  datatype Stats = Stats(min: int, max: int, count: nat)

  datatype Clock = Clock(
    sync: bool, offset: int, writeTs: int, readTs: int, delay: nat, stats: Stats)

  datatype EventTrack = EventTrack(baseTs: int, base: NamedEvent, update: Option<NamedEvent>)

  const NO_EVENT := EventTrack(0, NamedEvent(0, false, 0), None)

  datatype Buffer = Buffer(config: Config, clock: Clock, frames: seq<Frame>, track: EventTrack)

  datatype Result = Ok | TooLate | TooEarly

  /** Something the buffer stored for frame number n. */
  datatype Entry =
    | AudioAt(n: int, data: seq<byte>)
    | EventAt(n: int, event: NamedEvent, first: bool)

  // ---------- creation ----------

  /** The delay a configuration asks for, rounded up to whole frames. */
  function RoundedUp(ms: nat): (r: nat)
    ensures r % CODEC_FRAME_TIME_BASE == 0 && ms <= r < ms + CODEC_FRAME_TIME_BASE
  {
    if ms % CODEC_FRAME_TIME_BASE != 0 then ms + CODEC_FRAME_TIME_BASE - ms % CODEC_FRAME_TIME_BASE else ms
  }

  function ValidatedMax(initialMs: nat, maxMs: nat): (r: nat)
    ensures r > 0 && r >= initialMs
  {
    var m := if maxMs < initialMs then 2 * initialMs else maxMs;
    if m == 0 then DEFAULT_MAX_DELAY else m
  }

  function Create(initialMs: nat, maxMs: nat, adaptive: bool, skew: bool, frameTs: nat, frameSize: nat): Buffer {
    var m := ValidatedMax(initialMs, maxMs);
    var initial := frameTs * RoundedUp(initialMs) / CODEC_FRAME_TIME_BASE;
    Buffer(Config(adaptive, skew, frameTs, frameSize, initial, frameTs * m / CODEC_FRAME_TIME_BASE),
           Clock(true, 0, 0, 0, initial, Stats(0, 0, 0)),
           seq(m / CODEC_FRAME_TIME_BASE, i => EMPTY),
           NO_EVENT)
  }

  // ---------- placing a packet ----------

  function Aligned(t: int, unit: nat): int
    requires unit > 0
  {
    t - t % unit
  }

  function Shift(s: Stats, d: int): Stats {
    s.(min := s.min + d, max := s.max + d)
  }

  /** First packet after a (re)start fixes the offset between the two time lines. */
  function Synced(cfg: Config, c: Clock, ts: int): Clock {
    if !c.sync then c
    else c.(offset := ts - c.readTs, sync := false,
            stats := if cfg.skewDetection then Stats(c.delay, c.delay, 0) else c.stats)
  }

  function Position(cfg: Config, c: Clock, ts: int): int
    requires cfg.frameTs > 0
  {
    Aligned(ts - c.offset + c.delay, cfg.frameTs)
  }

  datatype Placement = Late(clock: Clock) | At(clock: Clock, w: int)

  /** Enlarge the playout delay by delta, if that is allowed. */
  function Adapt(cfg: Config, c: Clock, w: int, delta: nat): Placement {
    if delta == 0 then At(c, w)
    else if !cfg.adaptive || c.delay + delta > cfg.maxDelay then Late(c)
    else At(c.(delay := c.delay + delta, stats := if cfg.skewDetection then Shift(c.stats, delta) else c.stats),
            w + delta)
  }

  function Deficit(cfg: Config, c: Clock, w: int): int
    requires cfg.frameTs > 0
  {
    if cfg.skewDetection && c.stats.max - c.stats.min > c.delay + c.readTs - w then
      Aligned(c.stats.max - c.stats.min - c.delay, cfg.frameTs)
    else c.readTs - w
  }

  function Skewed(cfg: Config, c: Clock): bool {
    cfg.skewDetection && 0 < c.stats.max < c.delay
  }

  /** A packet that is late but not out of order. */
  function Rescue(cfg: Config, c: Clock, ts: int, w: int): Placement
    requires cfg.frameTs > 0 && w < c.readTs
  {
    DeficitCovers(cfg, c, w);
    var delta := Deficit(cfg, c, w);
    if Skewed(cfg, c) then
      var skew := Aligned(c.delay - c.stats.max, cfg.frameTs);
      var c1 := c.(offset := c.offset - skew, stats := Shift(c.stats, skew));
      Adapt(cfg, c1, ts - c1.offset + c.delay, if skew < delta then delta - skew else 0)
    else Adapt(cfg, c, w, delta)
  }

  function Place(cfg: Config, c: Clock, ts: int, marker: bool): Placement
    requires cfg.frameTs > 0
  {
    var c0 := Synced(cfg, if marker && c.writeTs <= c.readTs then c.(sync := true) else c, ts);
    var w := Position(cfg, c0, ts);
    if w >= c0.readTs then At(c0, w)
    else if w < c0.writeTs then Late(c0)
    else Rescue(cfg, c0, ts, w)
  }

  // ---------- storing ----------

  function Apply(e: Entry, f: Frame): Frame {
    match e
    case AudioAt(_, data) => f.(audio := Some(data))
    case EventAt(_, event, first) =>
      f.(event := Some(event),
         marker := if first then StartOfEvent else if event.edge then EndOfEvent else f.marker)
  }

  function Put(frames: seq<Frame>, e: Entry): (r: seq<Frame>)
    requires frames != []
    ensures |r| == |frames|
  {
    var i := e.n % |frames|;
    frames[i := Apply(e, frames[i])]
  }

  datatype Stored = Stored(frames: seq<Frame>, w: int, entries: seq<Entry>)

  /** Cut frames off the packet while it lasts and frames are available. */
  function StoreAudio(cfg: Config, frames: seq<Frame>, w: int, data: seq<byte>, available: nat): (r: Stored)
    requires cfg.frameTs > 0 && frames != []
    ensures |r.frames| == |frames|
    decreases |data|
  {
    if available == 0 || cfg.frameSize == 0 || |data| < cfg.frameSize then Stored(frames, w, [])
    else
      var e := AudioAt(w / cfg.frameTs, data[..cfg.frameSize]);
      var rest := StoreAudio(cfg, Put(frames, e), w + cfg.frameTs, data[cfg.frameSize..], available - 1);
      rest.(entries := [e] + rest.entries)
  }

  /** Frames ahead of the read position. */
  function Ahead(cfg: Config, readTs: int, w: int): int
    requires cfg.frameTs > 0
  {
    (w - readTs) / cfg.frameTs
  }

  /** The unsigned subtraction as written: too far ahead, it wraps around. */
  function Available(frameCount: nat, ahead: nat): nat {
    if ahead <= frameCount then frameCount - ahead else (frameCount - ahead) % SIZE_MOD
  }

  datatype Outcome = Outcome(buffer: Buffer, result: Result, entries: seq<Entry>)

  function Advance(c: Clock, w: int): Clock {
    if w > c.writeTs then c.(writeTs := w) else c
  }

  function Write(b: Buffer, data: seq<byte>, ts: int, marker: bool): Outcome
    requires Valid(b)
  {
    match Place(b.config, b.clock, ts, marker)
    case Late(c) => Outcome(b.(clock := c), TooLate, [])
    case At(c, w) =>
      PlacedInTime(b.config, b.clock, ts, marker);
      var available := Available(|b.frames|, Ahead(b.config, c.readTs, w));
      if available == 0 then Outcome(b.(clock := c), TooEarly, [])
      else
        var s := StoreAudio(b.config, b.frames, w, data, available);
        Outcome(b.(clock := Advance(c, s.w), frames := s.frames), Ok, s.entries)
  }

  // ---------- named events ----------

  predicate StartsEvent(t: EventTrack, event: NamedEvent, w: int, marker: bool, frameTs: nat) {
    || marker || t.base.id != event.id || t.update.None?
    || (t.baseTs != w && w > t.baseTs + t.update.value.duration + 4 * frameTs)
  }

  /** The event as tracked once this packet is seen. */
  function Tracked(t: EventTrack, event: NamedEvent, w: int, first: bool): EventTrack {
    if first || t.baseTs != w then EventTrack(w, event, Some(event)) else t
  }

  predicate Repeats(update: NamedEvent, event: NamedEvent) {
    || event.duration < update.duration
    || (event.duration == update.duration && (update.edge || update.edge == event.edge))
  }

  function StoreEvent(b: Buffer, event: NamedEvent, w: int, first: bool): Outcome
    requires Valid(b) && w >= b.clock.readTs
  {
    var e := EventAt(w / b.config.frameTs, event, first);
    Outcome(b.(frames := Put(b.frames, e),
               clock := Advance(b.clock, w + b.config.frameTs),
               track := b.track.(update := Some(event))), Ok, [e])
  }

  function PlaceEvent(b: Buffer, event: NamedEvent, w: int, first: bool): Outcome
    requires Valid(b)
  {
    var c := b.clock;
    if w < c.readTs then
      var delta := c.readTs - w;
      if !b.config.adaptive || c.delay + delta > b.config.maxDelay then Outcome(b, TooLate, [])
      else
        var track := if first then b.track.(baseTs := c.readTs) else b.track;
        StoreEvent(b.(clock := c.(delay := c.delay + delta), track := track), event, c.readTs, first)
    else if Ahead(b.config, c.readTs, w) >= |b.frames| then Outcome(b, TooEarly, [])
    else StoreEvent(b, event, w, first)
  }

  function WriteEvent(b: Buffer, event: NamedEvent, ts: int, marker: bool): Outcome
    requires Valid(b)
  {
    var c := Synced(b.config, b.clock, ts);
    var w := Position(b.config, c, ts);
    var first := StartsEvent(b.track, event, w, marker, b.config.frameTs);
    var track := Tracked(b.track, event, w, first);
    var b1 := b.(clock := c, track := track);
    if first then PlaceEvent(b1, event, w, true)
    else if Repeats(track.update.value, event) then Outcome(b1, Ok, [])
    else PlaceEvent(b1, event, w + track.update.value.duration, false)
  }

  // ---------- reading and restarting ----------

  function StatUpdate(c: Clock): Clock {
    var s := if c.stats.count == MEASUREMENTS then
               var mean := c.stats.min + (c.stats.max - c.stats.min) / 2;
               Stats(mean, mean, 0)
             else c.stats;
    var length := c.writeTs - c.readTs;
    c.(stats := Stats(if length <= s.max && length < s.min then length else s.min,
                      if length > s.max then length else s.max,
                      s.count + 1))
  }

  function ReadSlot(b: Buffer): (i: nat)
    requires Valid(b)
    ensures i < |b.frames|
  {
    (b.clock.readTs / b.config.frameTs) % |b.frames|
  }

  /** What a read hands out. */
  function Shown(b: Buffer): Frame
    requires Valid(b)
  {
    if b.clock.writeTs > b.clock.readTs then b.frames[ReadSlot(b)] else EMPTY
  }

  function Read(b: Buffer): Buffer
    requires Valid(b)
  {
    var c := b.clock.(readTs := b.clock.readTs + b.config.frameTs);
    b.(frames := b.frames[ReadSlot(b) := EMPTY],
       clock := if b.config.skewDetection then StatUpdate(c) else c)
  }

  function Restart(b: Buffer): Buffer {
    var c := b.clock;
    b.(track := NO_EVENT,
       clock := c.(sync := true, offset := 0, writeTs := c.readTs,
                   delay := if b.config.adaptive && c.delay == b.config.maxDelay then b.config.initialDelay
                            else c.delay))
  }

  // ---------- validity and timing facts ----------

  predicate WellTimed(cfg: Config, c: Clock) {
    cfg.frameTs > 0 && c.readTs >= 0 && c.readTs % cfg.frameTs == 0 && c.stats.min <= c.stats.max
  }

  predicate Valid(b: Buffer) {
    WellTimed(b.config, b.clock) && b.frames != []
  }

  lemma {:induction false} CreatedValid(initialMs: nat, maxMs: nat, adaptive: bool, skew: bool, frameTs: nat, frameSize: nat)
    ensures Valid(Create(initialMs, maxMs, adaptive, skew, frameTs, frameSize))
       <==> frameTs > 0 && ValidatedMax(initialMs, maxMs) >= CODEC_FRAME_TIME_BASE
  {
    assert |Create(initialMs, maxMs, adaptive, skew, frameTs, frameSize).frames|
        == ValidatedMax(initialMs, maxMs) / CODEC_FRAME_TIME_BASE;
  }

  /** Rounding down to a multiple never goes below a multiple already reached. */
  lemma AlignedKeepsMultiples(t: int, m: int, unit: nat)
    requires unit > 0 && m % unit == 0 && m <= t
    ensures m <= Aligned(t, unit)
  {
    var k, q := m / unit, t / unit;
    assert m == k * unit && t == q * unit + t % unit;
    MultiplesApart(q, k, unit);
  }

  lemma MultiplesApart(q: int, k: int, unit: nat)
    ensures q < k ==> q * unit + unit <= k * unit
    ensures q >= k ==> q * unit >= k * unit
  {
    if q < k {
      var d := k - q - 1;
      assert d * unit >= 0;
      assert k * unit == q * unit + unit + d * unit by { assert k == q + 1 + d; }
    } else {
      var d := q - k;
      assert d * unit >= 0;
      assert q * unit == k * unit + d * unit by { assert q == k + d; }
    }
  }

  lemma MultipleHasNoRemainder(q: int, unit: nat)
    requires unit > 0
    ensures (q * unit) % unit == 0 && (q * unit) / unit == q
  {
    var r, d := (q * unit) % unit, (q * unit) / unit;
    assert q * unit == d * unit + r;
    MultiplesApart(q, d, unit);
    MultiplesApart(d, q, unit);
  }

  lemma AlignedIsMultiple(t: int, unit: nat)
    requires unit > 0
    ensures Aligned(t, unit) % unit == 0
  {
    assert Aligned(t, unit) == (t / unit) * unit;
    MultipleHasNoRemainder(t / unit, unit);
  }

  lemma DifferenceIsMultiple(a: int, b: int, unit: nat)
    requires unit > 0 && a % unit == 0 && b % unit == 0
    ensures (a - b) % unit == 0
  {
    assert a - b == (a / unit - b / unit) * unit;
    MultipleHasNoRemainder(a / unit - b / unit, unit);
  }

  /** The statistics may enlarge the adjustment a late packet needs, never shrink it. */
  lemma DeficitCovers(cfg: Config, c: Clock, w: int)
    requires cfg.frameTs > 0 && w < c.readTs
    ensures Deficit(cfg, c, w) >= 0
    ensures c.readTs % cfg.frameTs == 0 && w % cfg.frameTs == 0 ==> Deficit(cfg, c, w) >= c.readTs - w
  {
    if cfg.skewDetection && c.stats.max - c.stats.min > c.delay + c.readTs - w {
      var x := c.stats.max - c.stats.min - c.delay;
      AlignedKeepsMultiples(x, 0, cfg.frameTs);
      if c.readTs % cfg.frameTs == 0 && w % cfg.frameTs == 0 {
        DifferenceIsMultiple(c.readTs, w, cfg.frameTs);
        AlignedKeepsMultiples(x, c.readTs - w, cfg.frameTs);
      }
    }
  }

  lemma RescuedInTime(cfg: Config, c: Clock, ts: int, w: int)
    requires WellTimed(cfg, c) && w < c.readTs && w == Position(cfg, c, ts)
    ensures var p := Rescue(cfg, c, ts, w);
      && WellTimed(cfg, p.clock) && p.clock.readTs == c.readTs && p.clock.writeTs == c.writeTs
      && (p.At? ==> p.w >= c.readTs)
  {
    AlignedIsMultiple(ts - c.offset + c.delay, cfg.frameTs);
    DeficitCovers(cfg, c, w);
  }

  /** Whatever branch placed it, an accepted packet starts at or after the read position. */
  lemma PlacedInTime(cfg: Config, c: Clock, ts: int, marker: bool)
    requires WellTimed(cfg, c)
    ensures var p := Place(cfg, c, ts, marker);
      && WellTimed(cfg, p.clock) && p.clock.readTs == c.readTs && p.clock.writeTs == c.writeTs
      && (p.At? ==> p.w >= c.readTs && Ahead(cfg, c.readTs, p.w) >= 0)
  {
    hide Rescue, Position;
    var c0 := Synced(cfg, if marker && c.writeTs <= c.readTs then c.(sync := true) else c, ts);
    var w := Position(cfg, c0, ts);
    if c0.writeTs <= w < c0.readTs {
      RescuedInTime(cfg, c0, ts, w);
    }
  }
}
