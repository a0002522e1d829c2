/** Every frame of a DTMF digit, with its duration, and the silence behind it. */
module DtmfDurations {
  import opened Dtmf
  import opened DtmfEndToEnd
  import opened DtmfEnds

  /** The k-th frame of a tone: it tells how long its segment has lasted, as far as a
      frame can tell; the first one starts the event, the last one ends it. */
  function FrameNo(t: Timing, event: nat, k: nat): EventFrame
    requires t.frame > 0 && k > 0
  {
    var before := (k - 1) % SegmentFrames(t);
    var duration := (before + 1) * t.frame;
    EventFrame(event, k == ToneFrames(t), if duration > MAX_DURATION then MAX_DURATION else duration,
               if k == ToneFrames(t) then EndOfEvent
               else if k == 1 then StartOfEvent
               else if before == 0 then NewSegment else NoMarker)
  }

  /** The end is repeated with the duration of the last segment, or the greatest one. */
  function EndAgain(t: Timing, event: nat): EventFrame
    requires t.frame > 0 && ToneFrames(t) > 0
  {
    if Uneven(t) then EventFrame(event, true, MAX_DURATION, EndOfEvent) else FrameNo(t, event, ToneFrames(t))
  }

  lemma FirstIs(g: Generator, t: Timing)
    requires GoodTiming(t) && StartTone(g).state == Tone && g.state == Idle
    ensures PutFrame(g, t).1 == Some(FrameNo(t, StartTone(g).event, 1))
  {
    hide NextDigit;
    ToneFramesIs(t, 1);
    SegmentFramesIs(t, 1);
    SmallRemainder(0, SegmentFrames(t));
    hide ToneFrames, SegmentFrames;
  }

  lemma SmallRemainder(k: nat, m: nat)
    requires k < m
    ensures k % m == k
  {
  }

  lemma NextIs(g: Generator, t: Timing, k: nat)
    requires GoodTiming(t) && AtFrame(g, t, k)
    ensures PutFrame(g, t).1 == Some(FrameNo(t, g.event, k + 1))
  {
    var p, m := DtmfEnds.Position(k, SegmentFrames(t)), SegmentFrames(t);
    ToneFramesIs(t, k + 1);
    SegmentFramesIs(t, p + 1);
    Next(k, t.frame);
    Next(p, t.frame);
    PositionIsRemainder(k, m);
    hide ToneFrames, SegmentFrames;
    assert k * t.frame > 0;
  }

  // ---------- several frames ----------

  function PutFrames(g: Generator, t: Timing, k: nat): (Generator, seq<Option<EventFrame>>) {
    if k == 0 then (g, [])
    else
      var (g1, frames) := PutFrames(g, t, k - 1);
      var (g2, f) := PutFrame(g1, t);
      (g2, frames + [f])
  }

  ghost predicate IsTone(frames: seq<Option<EventFrame>>, t: Timing, event: nat)
    requires t.frame > 0
  {
    forall k :: 0 <= k < |frames| ==> frames[k] == Some(FrameNo(t, event, k + 1))
  }

  lemma {:induction false} ToneSoFar(g: Generator, t: Timing, k: nat)
    requires GoodTiming(t) && StartTone(g).state == Tone && g.state == Idle && 0 < k < ToneFrames(t)
    ensures var (r, frames) := PutFrames(g, t, k);
      AtFrame(r, t, k) && r.event == StartTone(g).event && r.queue == StartTone(g).queue
      && |frames| == k && IsTone(frames, t, r.event)
  {
    hide PutFrame, StartTone, FrameNo, ToneFrames;
    if k == 1 {
      FirstFrame(g, t);
      FirstIs(g, t);
      assert PutFrames(g, t, 0) == (g, []);
    } else {
      ToneSoFar(g, t, k - 1);
      FrameInTone(PutFrames(g, t, k - 1).0, t, k - 1);
      NextIs(PutFrames(g, t, k - 1).0, t, k - 1);
    }
  }

  /** A digit taken from the queue is sent as its whole tone and two more ends. */
  lemma EveryTone(g: Generator, t: Timing)
    requires GoodTiming(t) && StartTone(g).state == Tone && g.state == Idle
    ensures ToneFrames(t) > 1
    ensures var n, event := ToneFrames(t), StartTone(g).event; var (r, frames) := PutFrames(g, t, n + 2);
      && |frames| == n + 2 && IsTone(frames[..n], t, event)
      && frames[n] == frames[n + 1] == Some(EndAgain(t, event))
      && r.state == Silence && r.counter == 2 * t.frame && r.queue == StartTone(g).queue
  {
    hide PutFrame, StartTone, FrameNo, ToneFrames, Uneven;
    TwoFrames(t);
    var n, event := ToneFrames(t), StartTone(g).event;
    ToneSoFar(g, t, n - 1);
    var (a, tone) := PutFrames(g, t, n - 1);
    FrameInTone(a, t, n - 1);
    NextIs(a, t, n - 1);
    LastIs(t, event);
    var (b, f) := PutFrame(a, t);
    assert PutFrames(g, t, n) == (b, tone + [f]);
    EndsTwice(b, t);
    var (c, e1) := PutFrame(b, t);
    var (d, e2) := PutFrame(c, t);
    assert PutFrames(g, t, n + 1) == (c, tone + [f] + [e1]);
    assert PutFrames(g, t, n + 2) == (d, tone + [f] + [e1] + [e2]);
    assert (tone + [f] + [e1] + [e2])[..n] == tone + [f];
  }

  lemma LastIs(t: Timing, event: nat)
    requires t.frame > 0 && ToneFrames(t) > 0
    ensures var f := FrameNo(t, event, ToneFrames(t)); f.edge && f.marker == EndOfEvent && f.id == event
  {
  }

  lemma EndsTwice(g: Generator, t: Timing)
    requires g.state == Ending && g.counter == 0 && g.sinceLast == 0
    ensures var (c, e1) := PutFrame(g, t); var (d, e2) := PutFrame(c, t);
      && e1 == e2 == Some(EventFrame(g.event, true, Repeated(g), EndOfEvent))
      && d.state == Silence && d.counter == 2 * t.frame && d.queue == g.queue
  {
  }

  // ---------- silence ----------

  /** Silent frames: what is left of the silence once the two ends are counted, and at
      least one. */
  function SilentFrames(t: Timing): nat
    requires t.frame > 0
  {
    var all := (t.silence + t.frame - 1) / t.frame;
    if all > 3 then all - 2 else 1
  }

  lemma SilenceLasts(t: Timing, k: nat)
    requires t.frame > 0 && k > 0
    ensures (2 + k) * t.frame >= t.silence <==> k >= SilentFrames(t)
  {
    var all := (t.silence + t.frame - 1) / t.frame;
    var r := (t.silence + t.frame - 1) % t.frame;
    assert t.silence + t.frame - 1 == all * t.frame + r;
    if 2 + k >= all {
      Apart(all - 1, 2 + k, t.frame);
      var d := 2 + k - all;
      assert (2 + k) * t.frame == all * t.frame + d * t.frame by { assert 2 + k == all + d; }
    } else {
      Apart(2 + k, all, t.frame);
    }
  }

  /** Behind the ends the generator sends nothing for exactly that many frames, and is
      then ready for the next digit. */
  lemma {:induction false} SilenceIs(g: Generator, t: Timing, k: nat)
    requires t.frame > 0 && g.state == Silence && g.counter == 2 * t.frame && k <= SilentFrames(t)
    ensures var (r, frames) := PutFrames(g, t, k);
      && |frames| == k && (forall i :: 0 <= i < k ==> frames[i].None?) && r.queue == g.queue
      && r.state == (if k == SilentFrames(t) then Idle else Silence) && r.counter == (2 + k) * t.frame
  {
    if k > 0 {
      SilenceIs(g, t, k - 1);
      SilenceLasts(t, k);
      hide SilentFrames;
      Next(1 + k, t.frame);
    }
  }

  // ---------- the queue ----------

  /** Digits are queued all or none, if and only if no more than 32 are waiting then. */
  lemma QueuedIff(g: Generator, digits: string)
    ensures var (r, ok) := Enqueue(g, digits);
      (ok <==> |g.queue| + |digits| <= 32) && r == if ok then g.(queue := g.queue + digits) else g
  {
  }

  lemma {:induction false} TakesOff(queue: string)
    requires queue != ""
    ensures |NextDigit(queue).1| < |queue|
  {
    if EventOf(queue[0]) > EVENT_ID_MAX && |queue| > 1 {
      TakesOff(queue[1..]);
    }
  }

  lemma StepQueue(l: Line, t: Timing, op: Op)
    requires |l.gen.queue| <= 32 && |l.det.buffer| <= 32
    ensures |Step(l, t, op).gen.queue| <= 32 && |Step(l, t, op).det.buffer| <= 32
  {
    hide NextDigit, CharOf;
    if l.gen.queue != "" {
      TakesOff(l.gen.queue);
    }
  }

  /** In every run neither the queue of the generator nor the buffer of the detector holds
      more than 32 digits. */
  lemma {:induction false} EveryQueueFits(l: Line, t: Timing, ops: seq<Op>)
    requires |l.gen.queue| <= 32 && |l.det.buffer| <= 32
    ensures |After(l, t, ops).gen.queue| <= 32 && |After(l, t, ops).det.buffer| <= 32
    decreases |ops|
  {
    hide Step;
    if ops != [] {
      StepQueue(l, t, ops[0]);
      EveryQueueFits(Step(l, t, ops[0]), t, ops[1..]);
    }
  }

  /** A queue without digits is emptied at once, and nothing is sent. */
  lemma NothingToSend(g: Generator, t: Timing)
    requires g.state == Idle && Digits(g.queue) == ""
    ensures var (r, f) := PutFrame(g, t); f.None? && r.state == Idle && r.queue == ""
  {
    hide NextDigit, Digits;
    if g.queue != "" {
      NextDigitTakes(g.queue);
    }
  }

  /** The detector gives its digits out one by one, the oldest first. */
  lemma DrainsOldest(d: Detector)
    ensures var (r, c) := GetDigit(d);
      && c + r.buffer == d.buffer && r.lost == d.lost
      && |c| == if d.buffer == "" then 0 else 1
  {
    if d.buffer != "" {
      assert d.buffer == d.buffer[..1] + d.buffer[1..];
    }
  }
}
