/** The ring of the jitter buffer refines the list of what was accepted: over
    every run, a read hands out exactly what the accepted packets say about
    that timestamp. */
module JitterRefinement {
  import opened JitterBuffer

  // ---------- the simple object the ring stands for ----------

  /** What the accepted entries say about frame number n. */
  function FrameAt(h: seq<Entry>, n: int): Frame {
    if h == [] then EMPTY
    else
      var before := FrameAt(h[..|h| - 1], n);
      var e := h[|h| - 1];
      if e.n == n then Apply(e, before) else before
  }

  predicate IsLastAudio(h: seq<Entry>, i: int, n: int) {
    && 0 <= i < |h| && h[i].AudioAt? && h[i].n == n
    && forall k :: i < k < |h| ==> !(h[k].AudioAt? && h[k].n == n)
  }

  /** Read off the list directly: the audio is that of the last audio entry for n,
      and there is none exactly when no audio was accepted for n. */
  lemma {:induction false} FrameAtIsLastAudio(h: seq<Entry>, n: int)
    ensures FrameAt(h, n).audio.None? <==> forall k :: 0 <= k < |h| ==> !(h[k].AudioAt? && h[k].n == n)
    ensures forall i :: IsLastAudio(h, i, n) ==> FrameAt(h, n).audio == Some(h[i].data)
  {
    if h != [] {
      var h0 := h[..|h| - 1];
      FrameAtIsLastAudio(h0, n);
      assert forall k :: 0 <= k < |h0| ==> h0[k] == h[k];
      forall i | IsLastAudio(h, i, n)
        ensures FrameAt(h, n).audio == Some(h[i].data)
      {
        if i < |h0| {
          assert IsLastAudio(h0, i, n);
        }
      }
    }
  }

  predicate IsLastEvent(h: seq<Entry>, i: int, n: int) {
    && 0 <= i < |h| && h[i].EventAt? && h[i].n == n
    && forall k :: i < k < |h| ==> !(h[k].EventAt? && h[k].n == n)
  }

  /** Likewise for named events. */
  lemma {:induction false} FrameAtIsLastEvent(h: seq<Entry>, n: int)
    ensures FrameAt(h, n).event.None? <==> forall k :: 0 <= k < |h| ==> !(h[k].EventAt? && h[k].n == n)
    ensures forall i :: IsLastEvent(h, i, n) ==> FrameAt(h, n).event == Some(h[i].event)
  {
    if h != [] {
      var h0 := h[..|h| - 1];
      FrameAtIsLastEvent(h0, n);
      assert forall k :: 0 <= k < |h0| ==> h0[k] == h[k];
      forall i | IsLastEvent(h, i, n)
        ensures FrameAt(h, n).event == Some(h[i].event)
      {
        if i < |h0| {
          assert IsLastEvent(h0, i, n);
        }
      }
    }
  }

  lemma FrameAtAppend(h: seq<Entry>, e: Entry, n: int)
    ensures FrameAt(h + [e], n) == if e.n == n then Apply(e, FrameAt(h, n)) else FrameAt(h, n)
  {
    assert (h + [e])[..|h|] == h;
  }

  lemma {:induction false} NothingAccepted(h: seq<Entry>, n: int)
    requires forall k :: 0 <= k < |h| ==> h[k].n != n
    ensures FrameAt(h, n) == EMPTY
  {
    if h != [] {
      NothingAccepted(h[..|h| - 1], n);
    }
  }

  // ---------- the ring shows the list ----------

  /** From frame number r on, a whole ring of frames shows the list. */
  ghost predicate Shows(frames: seq<Frame>, h: seq<Entry>, r: int)
    requires frames != []
  {
    forall n :: r <= n < r + |frames| ==> frames[n % |frames|] == FrameAt(h, n)
  }

  ghost predicate Bounded(h: seq<Entry>, limit: int) {
    forall k :: 0 <= k < |h| ==> h[k].n < limit
  }

  function ReadFrame(b: Buffer): int
    requires Valid(b)
  {
    b.clock.readTs / b.config.frameTs
  }

  ghost predicate Refines(b: Buffer, h: seq<Entry>) {
    && Valid(b)
    && Shows(b.frames, h, ReadFrame(b))
    && Bounded(h, ReadFrame(b) + |b.frames|)
  }

  lemma RingSlotsDiffer(a: int, b: int, size: nat)
    requires size > 0 && a < b < a + size
    ensures a % size != b % size
  {
    var x, y := a / size, b / size;
    assert a == x * size + a % size && b == y * size + b % size;
    MultiplesApart(x, y, size);
    MultiplesApart(y, x, size);
  }

  lemma PutShows(frames: seq<Frame>, h: seq<Entry>, r: int, e: Entry)
    requires frames != [] && Shows(frames, h, r) && r <= e.n < r + |frames|
    ensures Shows(Put(frames, e), h + [e], r)
  {
    var size := |frames|;
    forall n | r <= n < r + size
      ensures Put(frames, e)[n % size] == FrameAt(h + [e], n)
    {
      FrameAtAppend(h, e, n);
      if n < e.n {
        RingSlotsDiffer(n, e.n, size);
      } else if e.n < n {
        RingSlotsDiffer(e.n, n, size);
      }
    }
  }

  lemma NextFrame(t: int, unit: nat)
    requires unit > 0
    ensures (t + unit) / unit == t / unit + 1
  {
    var q := t / unit;
    MultipleHasNoRemainder(1, unit);
    QuotientOf(t + unit, q + 1, t % unit, unit);
  }

  lemma QuotientOf(t: int, q: int, rest: int, unit: nat)
    requires unit > 0 && t == q * unit + rest && 0 <= rest < unit
    ensures t / unit == q
  {
    var d := t / unit;
    assert t == d * unit + t % unit;
    MultiplesApart(q, d, unit);
    MultiplesApart(d, q, unit);
  }

  /** Whole frames in a packet, as far as there is room for them. */
  function Chunks(cfg: Config, size: nat, available: nat): nat {
    if cfg.frameSize == 0 then 0
    else if size / cfg.frameSize <= available then size / cfg.frameSize else available
  }

  lemma OneMore(a: int, b: int)
    ensures (a + 1) * b == a * b + b
  {
  }

  lemma OneChunkLess(cfg: Config, size: nat, available: nat)
    requires available > 0 && 0 < cfg.frameSize <= size
    ensures Chunks(cfg, size, available) == 1 + Chunks(cfg, size - cfg.frameSize, available - 1)
  {
    NextFrame(size - cfg.frameSize, cfg.frameSize);
  }

  lemma {:induction false} StoredCount(cfg: Config, frames: seq<Frame>, w: int, data: seq<byte>, available: nat)
    requires cfg.frameTs > 0 && frames != []
    ensures var s := StoreAudio(cfg, frames, w, data, available);
      |s.entries| == Chunks(cfg, |data|, available) && s.w == w + |s.entries| * cfg.frameTs
    decreases |data|
  {
    hide Chunks, Put;
    if available == 0 || cfg.frameSize == 0 || |data| < cfg.frameSize {
      NoChunks(cfg, |data|, available);
    } else {
      var e := AudioAt(w / cfg.frameTs, data[..cfg.frameSize]);
      var rest := StoreAudio(cfg, Put(frames, e), w + cfg.frameTs, data[cfg.frameSize..], available - 1);
      StoredCount(cfg, Put(frames, e), w + cfg.frameTs, data[cfg.frameSize..], available - 1);
      OneChunkLess(cfg, |data|, available);
      OneMore(|rest.entries|, cfg.frameTs);
    }
  }

  lemma NoChunks(cfg: Config, size: nat, available: nat)
    requires available == 0 || cfg.frameSize == 0 || size < cfg.frameSize
    ensures Chunks(cfg, size, available) == 0
  {
    if cfg.frameSize > 0 && size < cfg.frameSize {
      QuotientOf(size, 0, size, cfg.frameSize);
    }
  }

  /** The frames cut off a packet go to consecutive frame numbers. */
  lemma {:induction false} StoredNumbers(cfg: Config, frames: seq<Frame>, w: int, data: seq<byte>, available: nat, k: nat)
    requires cfg.frameTs > 0 && frames != []
    requires k < |StoreAudio(cfg, frames, w, data, available).entries|
    ensures StoreAudio(cfg, frames, w, data, available).entries[k].n == w / cfg.frameTs + k
    decreases k
  {
    if k > 0 {
      var e := AudioAt(w / cfg.frameTs, data[..cfg.frameSize]);
      StoredNumbers(cfg, Put(frames, e), w + cfg.frameTs, data[cfg.frameSize..], available - 1, k - 1);
      NextFrame(w, cfg.frameTs);
    }
  }

  /** The bytes: chunk k of the packet is what entry k holds. */
  lemma {:induction false} StoredData(cfg: Config, frames: seq<Frame>, w: int, data: seq<byte>, available: nat, k: nat)
    requires cfg.frameTs > 0 && frames != []
    requires k < |StoreAudio(cfg, frames, w, data, available).entries|
    ensures 0 <= k * cfg.frameSize && k * cfg.frameSize + cfg.frameSize <= |data|
    ensures var e := StoreAudio(cfg, frames, w, data, available).entries[k];
      e.AudioAt? && e.data == data[k * cfg.frameSize..k * cfg.frameSize + cfg.frameSize]
    decreases k
  {
    if k > 0 {
      var e := AudioAt(w / cfg.frameTs, data[..cfg.frameSize]);
      var tail := data[cfg.frameSize..];
      StoredData(cfg, Put(frames, e), w + cfg.frameTs, tail, available - 1, k - 1);
      var at := (k - 1) * cfg.frameSize;
      OneMore(k - 1, cfg.frameSize);
      assert tail[at..at + cfg.frameSize] == data[at + cfg.frameSize..at + cfg.frameSize + cfg.frameSize];
    }
  }

  lemma {:induction false} StoreAudioShows(cfg: Config, frames: seq<Frame>, w: int, data: seq<byte>, available: nat,
                                           h: seq<Entry>, r: int)
    requires cfg.frameTs > 0 && frames != [] && Shows(frames, h, r)
    requires r <= w / cfg.frameTs && w / cfg.frameTs + available <= r + |frames|
    ensures var s := StoreAudio(cfg, frames, w, data, available); Shows(s.frames, h + s.entries, r)
    decreases |data|
  {
    hide Shows, Put;
    var s := StoreAudio(cfg, frames, w, data, available);
    if available == 0 || cfg.frameSize == 0 || |data| < cfg.frameSize {
      assert h + s.entries == h;
    } else {
      var e := AudioAt(w / cfg.frameTs, data[..cfg.frameSize]);
      PutShows(frames, h, r, e);
      NextFrame(w, cfg.frameTs);
      StoreAudioShows(cfg, Put(frames, e), w + cfg.frameTs, data[cfg.frameSize..], available - 1, h + [e], r);
      var rest := StoreAudio(cfg, Put(frames, e), w + cfg.frameTs, data[cfg.frameSize..], available - 1);
      assert h + [e] + rest.entries == h + s.entries;
    }
  }

  // ---------- every operation keeps it ----------

  lemma FramesAhead(readTs: int, w: int, unit: nat)
    requires unit > 0 && readTs % unit == 0 && readTs <= w
    ensures 0 <= (w - readTs) / unit == w / unit - readTs / unit
  {
    var r, n := readTs / unit, w / unit;
    assert readTs == r * unit && w == n * unit + w % unit;
    assert w - readTs == (n - r) * unit + w % unit;
    QuotientOf(w - readTs, n - r, w % unit, unit);
  }

  /** The packet does not start more than a whole ring ahead of the read position. */
  predicate WithinReach(b: Buffer, ts: int, marker: bool)
    requires Valid(b)
  {
    var p := Place(b.config, b.clock, ts, marker);
    p.At? ==> Ahead(b.config, p.clock.readTs, p.w) <= |b.frames|
  }

  lemma StoredBounded(cfg: Config, frames: seq<Frame>, w: int, data: seq<byte>, available: nat, h: seq<Entry>, limit: int)
    requires cfg.frameTs > 0 && frames != [] && Bounded(h, limit) && w / cfg.frameTs + available <= limit
    ensures Bounded(h + StoreAudio(cfg, frames, w, data, available).entries, limit)
  {
    var s := StoreAudio(cfg, frames, w, data, available);
    StoredCount(cfg, frames, w, data, available);
    assert |s.entries| <= available;
    forall k | 0 <= k < |s.entries|
      ensures s.entries[k].n < limit
    {
      StoredNumbers(cfg, frames, w, data, available, k);
    }
  }

  lemma WriteRefines(b: Buffer, h: seq<Entry>, data: seq<byte>, ts: int, marker: bool)
    requires Refines(b, h) && WithinReach(b, ts, marker)
    ensures var o := Write(b, data, ts, marker); Refines(o.buffer, h + o.entries)
  {
    hide Shows, Bounded, Place, StoreAudio;
    var p := Place(b.config, b.clock, ts, marker);
    PlacedInTime(b.config, b.clock, ts, marker);
    assert h + [] == h;
    if p.At? {
      var ahead := Ahead(b.config, b.clock.readTs, p.w);
      FramesAhead(b.clock.readTs, p.w, b.config.frameTs);
      var available := Available(|b.frames|, ahead);
      StoreAudioShows(b.config, b.frames, p.w, data, available, h, ReadFrame(b));
      StoredBounded(b.config, b.frames, p.w, data, available, h, ReadFrame(b) + |b.frames|);
    }
  }

  lemma StoreEventRefines(b: Buffer, h: seq<Entry>, event: NamedEvent, w: int, first: bool)
    requires Refines(b, h) && w >= b.clock.readTs && Ahead(b.config, b.clock.readTs, w) < |b.frames|
    ensures var o := StoreEvent(b, event, w, first); Refines(o.buffer, h + o.entries)
  {
    hide Shows;
    FramesAhead(b.clock.readTs, w, b.config.frameTs);
    PutShows(b.frames, h, ReadFrame(b), EventAt(w / b.config.frameTs, event, first));
  }

  lemma PlaceEventRefines(b: Buffer, h: seq<Entry>, event: NamedEvent, w: int, first: bool)
    requires Refines(b, h)
    ensures var o := PlaceEvent(b, event, w, first); Refines(o.buffer, h + o.entries)
  {
    hide Shows, Bounded, StoreEvent;
    assert h + [] == h;
    var c := b.clock;
    if w < c.readTs {
      var track := if first then b.track.(baseTs := c.readTs) else b.track;
      var b1 := b.(clock := c.(delay := c.delay + (c.readTs - w)), track := track);
      assert Ahead(b.config, c.readTs, c.readTs) == 0;
      StoreEventRefines(b1, h, event, c.readTs, first);
    } else if Ahead(b.config, c.readTs, w) < |b.frames| {
      StoreEventRefines(b, h, event, w, first);
    }
  }

  lemma WriteEventRefines(b: Buffer, h: seq<Entry>, event: NamedEvent, ts: int, marker: bool)
    requires Refines(b, h)
    ensures var o := WriteEvent(b, event, ts, marker); Refines(o.buffer, h + o.entries)
  {
    hide Shows, Bounded, PlaceEvent, Position;
    assert h + [] == h;
    var c := Synced(b.config, b.clock, ts);
    var w := Position(b.config, c, ts);
    var first := StartsEvent(b.track, event, w, marker, b.config.frameTs);
    var track := Tracked(b.track, event, w, first);
    var b1 := b.(clock := c, track := track);
    assert Refines(b1, h);
    if first {
      PlaceEventRefines(b1, h, event, w, true);
    } else {
      PlaceEventRefines(b1, h, event, w + track.update.value.duration, false);
    }
  }

  lemma ReadShows(frames: seq<Frame>, h: seq<Entry>, r: int)
    requires frames != [] && Shows(frames, h, r) && Bounded(h, r + |frames|)
    ensures Shows(frames[r % |frames| := EMPTY], h, r + 1)
  {
    var size := |frames|;
    forall n | r + 1 <= n < r + 1 + size
      ensures frames[r % size := EMPTY][n % size] == FrameAt(h, n)
    {
      if n == r + size {
        SameSlot(r, size);
        NothingAccepted(h, n);
      } else {
        RingSlotsDiffer(r, n, size);
      }
    }
  }

  lemma SameSlot(r: int, size: nat)
    requires size > 0
    ensures (r + size) % size == r % size
  {
    NextFrame(r, size);
    OneMore(r / size, size);
  }

  lemma ReadRefines(b: Buffer, h: seq<Entry>)
    requires Refines(b, h)
    ensures Refines(Read(b), h)
    ensures ReadFrame(Read(b)) == ReadFrame(b) + 1
  {
    hide Shows;
    ReadShows(b.frames, h, ReadFrame(b));
    SameSlot(b.clock.readTs, b.config.frameTs);
    NextFrame(b.clock.readTs, b.config.frameTs);
  }
}
