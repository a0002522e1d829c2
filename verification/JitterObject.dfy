/** The jitter buffer as the code writes it: frames updated in place in an
    array, clock fields updated on the way.  Each operation is proved to
    compute what JitterBuffer specifies. */
module JitterObject {
  import opened JitterBuffer

  /** Storing one frame, behind those stored before. */
  lemma StoreStep(cfg: Config, frames: seq<Frame>, w: int, data: seq<byte>, left: nat, done: seq<Entry>)
    requires cfg.frameTs > 0 && frames != [] && left > 0 && 0 < cfg.frameSize <= |data|
    ensures var e := AudioAt(w / cfg.frameTs, data[..cfg.frameSize]);
      var all := StoreAudio(cfg, frames, w, data, left);
      var rest := StoreAudio(cfg, Put(frames, e), w + cfg.frameTs, data[cfg.frameSize..], left - 1);
      all.(entries := done + all.entries) == rest.(entries := done + [e] + rest.entries)
  {
    var e := AudioAt(w / cfg.frameTs, data[..cfg.frameSize]);
    var rest := StoreAudio(cfg, Put(frames, e), w + cfg.frameTs, data[cfg.frameSize..], left - 1);
    assert done + ([e] + rest.entries) == done + [e] + rest.entries;
  }

  lemma StoreEnd(cfg: Config, frames: seq<Frame>, w: int, data: seq<byte>, left: nat, done: seq<Entry>)
    requires cfg.frameTs > 0 && frames != [] && (left == 0 || cfg.frameSize == 0 || |data| < cfg.frameSize || data == [])
    ensures var all := StoreAudio(cfg, frames, w, data, left);
      all.(entries := done + all.entries) == Stored(frames, w, done)
  {
    assert done + [] == done;
  }

  lemma PutIs(before: seq<Frame>, after: seq<Frame>, e: Entry)
    requires before != [] && e.AudioAt? && |after| == |before|
    requires after == before[e.n % |before| := before[e.n % |before|].(audio := Some(e.data))]
    ensures after == Put(before, e)
  {
  }

  class JitterRing {
    const config: Config
    const frames: array<Frame>
    var clock: Clock
    var track: EventTrack

    ghost function View(): Buffer
      reads this, frames
    {
      Buffer(config, clock, frames[..], track)
    }

    constructor (initialMs: nat, maxMs: nat, adaptive: bool, skew: bool, frameTs: nat, frameSize: nat)
      ensures View() == Create(initialMs, maxMs, adaptive, skew, frameTs, frameSize)
      ensures fresh(frames)
    {
      var max := maxMs;
      if max < initialMs {
        max := 2 * initialMs;
      }
      if max == 0 {
        max := DEFAULT_MAX_DELAY;
      }
      var initial := initialMs;
      if initial % CODEC_FRAME_TIME_BASE != 0 {
        initial := initial + CODEC_FRAME_TIME_BASE - initial % CODEC_FRAME_TIME_BASE;
      }
      var delay := frameTs * initial / CODEC_FRAME_TIME_BASE;
      config := Config(adaptive, skew, frameTs, frameSize, delay, frameTs * max / CODEC_FRAME_TIME_BASE);
      frames := new Frame[max / CODEC_FRAME_TIME_BASE](i => EMPTY);
      clock := Clock(true, 0, 0, 0, delay, Stats(0, 0, 0));
      track := NO_EVENT;
    }

    method Reset()
      modifies this
      ensures View() == Restart(old(View()))
    {
      clock := clock.(sync := true, offset := 0, writeTs := clock.readTs);
      track := NO_EVENT;
      if config.adaptive && clock.delay == config.maxDelay {
        clock := clock.(delay := config.initialDelay);
      }
    }

    /** write_prepare: synchronize and find the aligned write position. */
    method Prepare(ts: int) returns (w: int)
      requires config.frameTs > 0
      modifies this`clock
      ensures clock == Synced(config, old(clock), ts) && w == Position(config, clock, ts)
    {
      if clock.sync {
        clock := clock.(offset := ts - clock.readTs, sync := false);
        if config.skewDetection {
          clock := clock.(stats := Stats(clock.delay, clock.delay, 0));
        }
      }
      w := ts - clock.offset + clock.delay;
      if w % config.frameTs != 0 {
        w := w - w % config.frameTs;
      }
    }

    method AdaptTo(w0: int, delta: nat) returns (ok: bool, w: int)
      modifies this`clock
      ensures Adapt(config, old(clock), w0, delta) == if ok then At(clock, w) else Late(clock)
    {
      w := w0;
      if delta == 0 {
        return true, w;
      }
      if !config.adaptive || clock.delay + delta > config.maxDelay {
        return false, w;
      }
      clock := clock.(delay := clock.delay + delta);
      w := w + delta;
      if config.skewDetection {
        clock := clock.(stats := clock.stats.(min := clock.stats.min + delta, max := clock.stats.max + delta));
      }
      ok := true;
    }

    /** The branch for a packet that is late but not out of order. */
    method RescueLate(ts: int, w0: int) returns (ok: bool, w: int)
      requires config.frameTs > 0 && w0 < clock.readTs
      modifies this`clock
      ensures Rescue(config, old(clock), ts, w0) == if ok then At(clock, w) else Late(clock)
    {
      hide Adapt;
      DeficitCovers(config, clock, w0);
      w := w0;
      var delta := clock.readTs - w;
      if config.skewDetection {
        if clock.stats.max - clock.stats.min > clock.delay + delta {
          delta := clock.stats.max - clock.stats.min - clock.delay;
          delta := delta - delta % config.frameTs;
        }
        if 0 < clock.stats.max < clock.delay {
          var skew := clock.delay - clock.stats.max;
          skew := skew - skew % config.frameTs;
          clock := clock.(offset := clock.offset - skew);
          w := ts - clock.offset + clock.delay;
          clock := clock.(stats := clock.stats.(min := clock.stats.min + skew, max := clock.stats.max + skew));
          delta := if skew < delta then delta - skew else 0;
        }
      }
      ok, w := AdaptTo(w, delta);
    }

    method PlacePacket(ts: int, marker: bool) returns (ok: bool, w: int)
      requires config.frameTs > 0
      modifies this`clock
      ensures Place(config, old(clock), ts, marker) == if ok then At(clock, w) else Late(clock)
    {
      hide Rescue, Position;
      if marker {
        if clock.writeTs <= clock.readTs {
          clock := clock.(sync := true);
        }
      }
      w := Prepare(ts);
      if w >= clock.readTs {
        return true, w;
      }
      if w < clock.writeTs {
        return false, w;
      }
      ok, w := RescueLate(ts, w);
    }

    method StoreFrames(w0: int, data: seq<byte>, available: nat) returns (w: int, ghost entries: seq<Entry>)
      requires config.frameTs > 0 && frames.Length > 0
      modifies frames
      ensures Stored(frames[..], w, entries) == StoreAudio(config, old(frames[..]), w0, data, available)
    {
      hide StoreAudio, Put;
      w := w0;
      entries := [];
      var buffer, left := data, available;
      ghost var all := StoreAudio(config, frames[..], w, buffer, left);
      assert [] + all.entries == all.entries;
      while left > 0 && |buffer| > 0
        invariant var rest := StoreAudio(config, frames[..], w, buffer, left);
          rest.(entries := entries + rest.entries) == all
        decreases |buffer|, left
      {
        if |buffer| < config.frameSize || config.frameSize == 0 {
          break;
        }
        StoreStep(config, frames[..], w, buffer, left, entries);
        ghost var e := AudioAt(w / config.frameTs, buffer[..config.frameSize]);
        ghost var before := frames[..];
        var slot := (w / config.frameTs) % frames.Length;
        frames[slot] := frames[slot].(audio := Some(buffer[..config.frameSize]));
        PutIs(before, frames[..], e);
        entries := entries + [e];
        buffer := buffer[config.frameSize..];
        w := w + config.frameTs;
        left := left - 1;
      }
      StoreEnd(config, frames[..], w, buffer, left, entries);
    }

    method Receive(data: seq<byte>, ts: int, marker: bool) returns (result: Result, ghost entries: seq<Entry>)
      requires Valid(View())
      modifies this`clock, frames
      ensures Outcome(View(), result, entries) == Write(old(View()), data, ts, marker)
    {
      hide Place, StoreAudio;
      PlacedInTime(config, clock, ts, marker);
      entries := [];
      var ok, w := PlacePacket(ts, marker);
      if !ok {
        return TooLate, entries;
      }
      var ahead := (w - clock.readTs) / config.frameTs;
      var available := Available(frames.Length, ahead);
      if available == 0 {
        return TooEarly, entries;
      }
      w, entries := StoreFrames(w, data, available);
      if w > clock.writeTs {
        clock := clock.(writeTs := w);
      }
      result := Ok;
    }

    method KeepEvent(event: NamedEvent, w: int, first: bool) returns (result: Result, ghost entries: seq<Entry>)
      requires Valid(View()) && w >= clock.readTs
      modifies this`clock, this`track, frames
      ensures Outcome(View(), result, entries) == StoreEvent(old(View()), event, w, first)
    {
      ghost var e := EventAt(w / config.frameTs, event, first);
      ghost var before := frames[..];
      var slot := (w / config.frameTs) % frames.Length;
      frames[slot] := frames[slot].(event := Some(event));
      if first {
        frames[slot] := frames[slot].(marker := StartOfEvent);
      } else if event.edge {
        frames[slot] := frames[slot].(marker := EndOfEvent);
      }
      assert frames[..] == Put(before, e);
      track := track.(update := Some(event));
      if w + config.frameTs > clock.writeTs {
        clock := clock.(writeTs := w + config.frameTs);
      }
      return Ok, [e];
    }

    method PlaceNamedEvent(event: NamedEvent, w: int, first: bool) returns (result: Result, ghost entries: seq<Entry>)
      requires Valid(View())
      modifies this`clock, this`track, frames
      ensures Outcome(View(), result, entries) == PlaceEvent(old(View()), event, w, first)
    {
      hide StoreEvent;
      entries := [];
      if w < clock.readTs {
        var delta := clock.readTs - w;
        if !config.adaptive || clock.delay + delta > config.maxDelay {
          return TooLate, entries;
        }
        clock := clock.(delay := clock.delay + delta);
        if first {
          track := track.(baseTs := clock.readTs);
        }
        result, entries := KeepEvent(event, w + delta, first);
      } else if (w - clock.readTs) / config.frameTs >= frames.Length {
        result := TooEarly;
      } else {
        result, entries := KeepEvent(event, w, first);
      }
    }

    method ReceiveEvent(event: NamedEvent, ts: int, marker: bool) returns (result: Result, ghost entries: seq<Entry>)
      requires Valid(View())
      modifies this`clock, this`track, frames
      ensures Outcome(View(), result, entries) == WriteEvent(old(View()), event, ts, marker)
    {
      hide PlaceEvent, Position;
      entries := [];
      var w := Prepare(ts);
      var first := marker;
      if !first {
        if track.base.id != event.id || track.update.None? {
          first := true;
        } else if track.baseTs != w {
          if w > track.baseTs + track.update.value.duration + 4 * config.frameTs {
            first := true;
          } else {
            track := EventTrack(w, event, Some(event));
          }
        }
      }
      if first {
        track := EventTrack(w, event, Some(event));
        result, entries := PlaceNamedEvent(event, w, true);
        return;
      }
      var update := track.update.value;
      if event.duration < update.duration {
        return Ok, entries;
      }
      if event.duration == update.duration && (update.edge || update.edge == event.edge) {
        return Ok, entries;
      }
      result, entries := PlaceNamedEvent(event, w + update.duration, false);
    }

    method UpdateStats()
      modifies this`clock
      ensures clock == StatUpdate(old(clock))
    {
      if clock.stats.count == MEASUREMENTS {
        var mean := clock.stats.min + (clock.stats.max - clock.stats.min) / 2;
        clock := clock.(stats := Stats(mean, mean, 0));
      }
      var length := clock.writeTs - clock.readTs;
      if length > clock.stats.max {
        clock := clock.(stats := clock.stats.(max := length));
      } else if length < clock.stats.min {
        clock := clock.(stats := clock.stats.(min := length));
      }
      clock := clock.(stats := clock.stats.(count := clock.stats.count + 1));
    }

    method Fetch() returns (frame: Frame)
      requires Valid(View())
      modifies this`clock, frames
      ensures frame == Shown(old(View())) && View() == Read(old(View()))
    {
      hide StatUpdate;
      var slot := (clock.readTs / config.frameTs) % frames.Length;
      if clock.writeTs > clock.readTs {
        frame := frames[slot];
      } else {
        frame := EMPTY;
      }
      frames[slot] := EMPTY;
      clock := clock.(readTs := clock.readTs + config.frameTs);
      if config.skewDetection {
        UpdateStats();
      }
    }
  }
}
