/** Named events in the jitter buffer: which packets of an event are kept, and for which
    frames. */
module JitterEvents {
  import opened JitterBuffer
  import opened JitterRefinement
  import JitterRuns
  import opened JitterTiming

  // ---------- what is new about a packet ----------

  /** The packet tells more of the event than the last one kept: it lasted longer, or it
      is over now. */
  predicate TellsMore(last: NamedEvent, event: NamedEvent) {
    event.duration > last.duration || (event.duration == last.duration && event.edge && !last.edge)
  }

  /** Some event is being tracked. */
  predicate Tracking(b: Buffer) {
    b.track.update.Some?
  }

  /** The packet begins an event: it says so, or none is tracked, or another one, or it
      comes more than four frames behind the end of the tracked one. */
  predicate Begins(b: Buffer, event: NamedEvent, w: int, marker: bool) {
    || marker || !Tracking(b) || b.track.base.id != event.id
    || (w > b.track.baseTs + b.track.update.value.duration + 4 * b.config.frameTs && w != b.track.baseTs)
  }

  // ---------- placing ----------

  /** Where an event packet would go, and what the buffer answers. */
  predicate TooLateAt(b: Buffer, w: int) {
    w < b.clock.readTs && (!b.config.adaptive || b.clock.delay + (b.clock.readTs - w) > b.config.maxDelay)
  }

  predicate TooEarlyAt(b: Buffer, w: int)
    requires b.config.frameTs > 0
  {
    w >= b.clock.readTs && (w - b.clock.readTs) / b.config.frameTs >= |b.frames|
  }

  /** Refused exactly when too late or too early; a late one that is kept is played next
      and lengthens the delay by as much as it was late. */
  lemma EventPlacedIff(b: Buffer, event: NamedEvent, w: int, first: bool)
    requires Valid(b)
    ensures var o := PlaceEvent(b, event, w, first);
      && (o.result == TooLate <==> TooLateAt(b, w)) && (o.result == TooEarly <==> TooEarlyAt(b, w))
      && (o.result != Ok ==> o.buffer == b && o.entries == [])
      && (o.result == Ok ==>
            var at := Greatest(w, b.clock.readTs);
            var e := EventAt(at / b.config.frameTs, event, first);
            && o.entries == [e] && o.buffer.frames == Put(b.frames, e) && o.buffer.config == b.config
            && o.buffer.clock == b.clock.(delay := b.clock.delay + (at - w),
                                          writeTs := Greatest(b.clock.writeTs, at + b.config.frameTs))
            && o.buffer.track == EventTrack(if first && at > w then at else b.track.baseTs, b.track.base, Some(event)))
  {
  }

  // ---------- one packet ----------

  /** The buffer once an event packet is seen: in sync, and tracking the event; a later
      segment of a long event is tracked from its own place on. */
  function Seen(b: Buffer, event: NamedEvent, ts: int, marker: bool): Buffer
    requires b.config.frameTs > 0
  {
    var c := SeenClock(b.config, b.clock, ts, false);
    var w := FrameFor(b.config, b.clock, ts, false) * b.config.frameTs;
    if Begins(b, event, w, marker) || w != b.track.baseTs then b.(clock := c, track := EventTrack(w, event, Some(event)))
    else b.(clock := c)
  }

  /** The first packet of an event goes where its timestamp says.  A later one is dropped
      unless it tells more than the last one kept, and goes behind what that one told. */
  lemma EventPacketIs(b: Buffer, event: NamedEvent, ts: int, marker: bool)
    requires Valid(b)
    ensures Valid(Seen(b, event, ts, marker))
    ensures var w, s := FrameFor(b.config, b.clock, ts, false) * b.config.frameTs, Seen(b, event, ts, marker);
      WriteEvent(b, event, ts, marker) ==
        if Begins(b, event, w, marker) then PlaceEvent(s, event, w, true)
        else
          var last := s.track.update.value;
          if TellsMore(last, event) then PlaceEvent(s, event, w + last.duration, false) else Outcome(s, Ok, [])
  {
    hide PlaceEvent, Position;
    PositionIs(b.config, b.clock, ts, false);
  }

  // ---------- the packets of one event ----------

  /** The packets that tell more than all before them. */
  function News(last: NamedEvent, events: seq<NamedEvent>): seq<NamedEvent>
    decreases |events|
  {
    if events == [] then []
    else if TellsMore(last, events[0]) then [events[0]] + News(events[0], events[1..])
    else News(last, events[1..])
  }

  /** Their frames: each is stored behind what the one before told. */
  function Kept(w: int, frameTs: nat, last: NamedEvent, news: seq<NamedEvent>): seq<Entry>
    requires frameTs > 0
    decreases |news|
  {
    if news == [] then []
    else [EventAt((w + last.duration) / frameTs, news[0], false)] + Kept(w, frameTs, news[0], news[1..])
  }

  /** An event is tracked from a place on, and the clocks run in step. */
  ghost predicate Follows(b: Buffer, ts: int, w: int, id: nat) {
    && Valid(b) && !b.clock.sync && Tracking(b) && b.track.base.id == id && b.track.baseTs == w
    && FrameFor(b.config, b.clock, ts, false) * b.config.frameTs == w
  }

  /** Places up to the duration of these events are in time and within the ring. */
  ghost predicate Fits(b: Buffer, w: int, events: seq<NamedEvent>)
    requires Valid(b)
  {
    forall k :: 0 <= k < |events| ==> !TooEarlyAt(b, w + events[k].duration)
  }

  ghost function WriteEvents(b: Buffer, events: seq<NamedEvent>, ts: int): (Buffer, seq<Entry>)
    requires Valid(b)
    decreases |events|
  {
    if events == [] then (b, [])
    else
      var o := WriteEvent(b, events[0], ts, false);
      JitterRuns.WriteEventValid(b, events[0], ts, false);
      var (r, more) := WriteEvents(o.buffer, events[1..], ts);
      (r, o.entries + more)
  }

  lemma OneUpdate(b: Buffer, event: NamedEvent, ts: int, w: int)
    requires Follows(b, ts, w, event.id) && b.clock.readTs <= w && Tracking(b)
    requires !TooEarlyAt(b, w + b.track.update.value.duration)
    ensures var o, last := WriteEvent(b, event, ts, false), b.track.update.value;
      && Follows(o.buffer, ts, w, event.id) && o.buffer.clock.readTs == b.clock.readTs && o.buffer.config == b.config
      && |o.buffer.frames| == |b.frames| && o.result == Ok
      && o.buffer.track.update == Some(if TellsMore(last, event) then event else last)
      && o.entries == if TellsMore(last, event) then [EventAt((w + last.duration) / b.config.frameTs, event, false)] else []
  {
    hide PlaceEvent, WriteEvent, Put;
    EventPacketIs(b, event, ts, false);
    var last := b.track.update.value;
    assert Seen(b, event, ts, false) == b;
    EventPlacedIff(b, event, w + last.duration, false);
    JitterRuns.WriteEventValid(b, event, ts, false);
  }

  /** Packets of one event, repeated, lost or out of order: kept are exactly those that
      tell more than all before, each behind what the one before told. */
  lemma {:induction false} EventIsFollowed(b: Buffer, events: seq<NamedEvent>, ts: int, w: int, id: nat)
    requires Follows(b, ts, w, id) && b.clock.readTs <= w
    requires forall k :: 0 <= k < |events| ==> events[k].id == id
    requires Fits(b, w, events) && !TooEarlyAt(b, w + b.track.update.value.duration)
    ensures WriteEvents(b, events, ts).1 == Kept(w, b.config.frameTs, b.track.update.value, News(b.track.update.value, events))
    decreases |events|
  {
    hide WriteEvent, Follows;
    if events != [] {
      FollowsIs(b, ts, w, id);
      var last, e := b.track.update.value, events[0];
      OneUpdate(b, e, ts, w);
      var b1 := WriteEvent(b, e, ts, false).buffer;
      FollowsIs(b1, ts, w, id);
      assert Fits(b1, w, events[1..]);
      EventIsFollowed(b1, events[1..], ts, w, id);
      if !TellsMore(last, e) {
        assert [] + WriteEvents(b1, events[1..], ts).1 == WriteEvents(b1, events[1..], ts).1;
      } else {
        var news := News(last, events);
        assert news[0] == e && news[1..] == News(e, events[1..]);
      }
    }
  }

  lemma FollowsIs(b: Buffer, ts: int, w: int, id: nat)
    requires Follows(b, ts, w, id)
    ensures Valid(b) && Tracking(b)
  {
  }

  /** What is kept tells more and more. */
  lemma {:induction false} NewsGrow(last: NamedEvent, events: seq<NamedEvent>)
    ensures var news := News(last, events);
      && (news != [] ==> TellsMore(last, news[0]))
      && forall k :: 0 <= k < |news| - 1 ==> TellsMore(news[k], news[k + 1])
    decreases |events|
  {
    if events != [] {
      NewsGrow(if TellsMore(last, events[0]) then events[0] else last, events[1..]);
    }
  }

  // ---------- markers ----------

  /** The entry marks its frame: the start of an event, or its end. */
  predicate Marks(e: Entry, n: int) {
    e.EventAt? && e.n == n && (e.first || e.event.edge)
  }

  predicate IsLastMark(h: seq<Entry>, i: int, n: int) {
    0 <= i < |h| && Marks(h[i], n) && forall k :: i < k < |h| ==> !Marks(h[k], n)
  }

  /** The marker of a frame is that of the last accepted packet that marked it, and it has
      none if none did. */
  lemma {:induction false} MarkerIsLast(h: seq<Entry>, n: int)
    ensures FrameAt(h, n).marker == NoMarker <==> forall k :: 0 <= k < |h| ==> !Marks(h[k], n)
    ensures forall i :: IsLastMark(h, i, n) ==> FrameAt(h, n).marker == if h[i].first then StartOfEvent else EndOfEvent
  {
    if h != [] {
      var last := |h| - 1;
      var before := h[..last];
      MarkerIsLast(before, n);
      assert forall k :: 0 <= k < last ==> before[k] == h[k];
      forall i | IsLastMark(h, i, n)
        ensures FrameAt(h, n).marker == if h[i].first then StartOfEvent else EndOfEvent
      {
        if i < last {
          assert IsLastMark(before, i, n);
        }
      }
    }
  }
}
