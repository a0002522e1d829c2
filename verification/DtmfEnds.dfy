/** The end of a DTMF event is sent three times.  Exactly for which timings the
    three carry the same duration, over every run. */
module DtmfEnds {
  import opened Dtmf
  import opened DtmfEndToEnd

  // ---------- frames and segments of a tone ----------

  /** Frames a tone takes, the one that ends it included. */
  function ToneFrames(t: Timing): nat
    requires t.frame > 0
  {
    (t.tone + t.frame - 1) / t.frame
  }

  /** Frames until the duration of a segment is beyond what a frame can carry. */
  function SegmentFrames(t: Timing): nat
    requires t.frame > 0
  {
    MAX_DURATION / t.frame + 1
  }

  /** A new segment starts with the last frame of the tone, so that the first end
      tells the duration of that frame only, while the repeated ones tell the
      greatest duration there is. */
  predicate Uneven(t: Timing)
    requires t.frame > 0
  {
    (ToneFrames(t) - 1) % SegmentFrames(t) == 0 && t.frame < MAX_DURATION
  }

  /** Position in its segment after k frames. */
  function Position(k: nat, m: nat): (p: nat)
    requires m > 0
    ensures p < m
  {
    if k == 0 then 0
    else
      var p := Position(k - 1, m) + 1;
      if p == m then 0 else p
  }

  lemma {:induction false} PositionIsRemainder(k: nat, m: nat)
    requires m > 0
    ensures Position(k, m) == k % m
  {
    if k == 0 {
      Quotient(0, 0, 0, m);
    } else {
      PositionIsRemainder(k - 1, m);
      NextRemainder(k - 1, m);
    }
  }

  lemma NextRemainder(k: nat, m: nat)
    requires m > 0
    ensures (k + 1) % m == if k % m + 1 == m then 0 else k % m + 1
  {
    var q := k / m;
    assert k == q * m + k % m;
    if k % m + 1 == m {
      Quotient(k + 1, q + 1, 0, m);
    } else {
      Quotient(k + 1, q, k % m + 1, m);
    }
  }

  lemma Quotient(x: nat, q: nat, r: nat, m: nat)
    requires m > 0 && x == q * m + r && r < m
    ensures x % m == r && x / m == q
  {
    var q1, r1 := x / m, x % m;
    assert x == q1 * m + r1;
    Apart(q, q1, m);
    Apart(q1, q, m);
  }

  lemma Apart(a: int, b: int, m: nat)
    ensures a < b ==> a * m + m <= b * m
  {
    if a < b {
      var d := b - a - 1;
      assert d * m >= 0;
      assert b * m == a * m + m + d * m by { assert b == a + 1 + d; }
    }
  }

  lemma ToneFramesIs(t: Timing, k: nat)
    requires t.frame > 0 && t.tone > 0
    ensures ToneFrames(t) > 0
    ensures k * t.frame >= t.tone <==> k >= ToneFrames(t)
  {
    var n, x := ToneFrames(t), t.tone + t.frame - 1;
    assert x == n * t.frame + x % t.frame;
    Apart(k, n, t.frame);
    Apart(n - 1, k, t.frame);
    assert (n - 1) * t.frame == n * t.frame - t.frame;
  }

  lemma SegmentFramesIs(t: Timing, j: nat)
    requires t.frame > 0
    ensures j * t.frame > MAX_DURATION <==> j >= SegmentFrames(t)
  {
    var q := MAX_DURATION / t.frame;
    assert MAX_DURATION == q * t.frame + MAX_DURATION % t.frame;
    Apart(q, j, t.frame);
    Apart(j - 1, q, t.frame);
    assert (j - 1) * t.frame == j * t.frame - t.frame;
  }

  // ---------- the generator along a tone ----------

  /** k frames of the tone were sent and the next one is not sent yet. */
  ghost predicate AtFrame(g: Generator, t: Timing, k: nat)
    requires t.frame > 0
  {
    && g.state == Tone && 0 < k < ToneFrames(t) && g.counter == k * t.frame && g.sinceLast == 0
    && g.eventDuration == Position(k, SegmentFrames(t)) * t.frame
    && g.newSegment == (Position(k, SegmentFrames(t)) == 0)
  }

  /** Duration of the ends still to be repeated. */
  function Repeated(g: Generator): nat {
    if g.newSegment then MAX_DURATION else g.eventDuration
  }

  lemma Next(k: nat, frame: nat)
    ensures (k + 1) * frame == k * frame + frame
  {
  }

  lemma FrameInTone(g: Generator, t: Timing, k: nat)
    requires GoodTiming(t) && AtFrame(g, t, k)
    ensures var (g1, f) := PutFrame(g, t);
      && f.Some? && g1.queue == g.queue && g1.event == g.event
      && if k + 1 < ToneFrames(t) then AtFrame(g1, t, k + 1) && f.value.marker != EndOfEvent
         else
           && g1.state == Ending && g1.counter == 0 && g1.sinceLast == 0 && f.value.marker == EndOfEvent
           && (f.value.duration == Repeated(g1) <==> !Uneven(t))
           && (Uneven(t) ==> f.value.duration == t.frame && Repeated(g1) == MAX_DURATION)
  {
    var p, m := Position(k, SegmentFrames(t)), SegmentFrames(t);
    ToneFramesIs(t, k + 1);
    SegmentFramesIs(t, p + 1);
    Next(k, t.frame);
    Next(p, t.frame);
    PositionIsRemainder(k, m);
    SegmentFramesIs(t, 1);
    hide ToneFrames, SegmentFrames;
    if p == 0 {
      assert p * t.frame == 0;
    }
  }

  /** The first frame of a tone. */
  lemma FirstFrame(g: Generator, t: Timing)
    requires GoodTiming(t) && StartTone(g).state == Tone && g.state == Idle
    ensures var (g1, f) := PutFrame(g, t);
      && f.Some? && f.value.marker != EndOfEvent && AtFrame(g1, t, 1) && g1.queue == StartTone(g).queue
      && g1.event == StartTone(g).event
  {
    hide NextDigit;
    var m := SegmentFrames(t);
    ToneFramesIs(t, 1);
    SegmentFramesIs(t, 1);
    assert Position(0, m) == 0;
    assert Position(1, m) == if m == 1 then 0 else 1;
    hide ToneFrames, SegmentFrames, Position;
  }

  // ---------- every run ----------

  /** Adjacent ends belong to one event and carry the same duration. */
  ghost predicate Even(sent: seq<EventFrame>) {
    forall i :: 0 <= i && i + 1 < |sent| && sent[i].marker == EndOfEvent && sent[i + 1].marker == EndOfEvent ==>
      sent[i].duration == sent[i + 1].duration
  }

  /** What holds of generator and frames along a run of an even timing. */
  ghost predicate Steady(g: Generator, sent: seq<EventFrame>, t: Timing)
    requires t.frame > 0
  {
    && Even(sent)
    && (g.state == Tone ==> exists k :: AtFrame(g, t, k))
    && (g.state == Tone ==> sent == [] || sent[|sent| - 1].marker != EndOfEvent)
    && (g.state == Ending ==>
          && g.sinceLast == 0 && g.counter < 2
          && sent != [] && sent[|sent| - 1].marker == EndOfEvent && sent[|sent| - 1].duration == Repeated(g))
  }

  lemma EvenAppend(sent: seq<EventFrame>, f: EventFrame)
    requires Even(sent)
    requires sent != [] && sent[|sent| - 1].marker == EndOfEvent && f.marker == EndOfEvent ==>
      sent[|sent| - 1].duration == f.duration
    ensures Even(sent + [f])
  {
  }

  lemma SteadyTone(g: Generator, sent: seq<EventFrame>, t: Timing)
    requires GoodTiming(t) && !Uneven(t) && Steady(g, sent, t) && g.state == Tone
    ensures var (g1, f) := PutFrame(g, t); f.Some? && Steady(g1, sent + [f.value], t)
  {
    hide PutFrame, AtFrame, Even, Uneven;
    var k :| AtFrame(g, t, k);
    FrameInTone(g, t, k);
    var f := PutFrame(g, t).1;
    EvenAppend(sent, f.value);
    TonesOrEnds(g, t, k);
  }

  lemma TonesOrEnds(g: Generator, t: Timing, k: nat)
    requires GoodTiming(t) && AtFrame(g, t, k)
    ensures var (g1, f) := PutFrame(g, t);
      (k + 1 < ToneFrames(t) ==> g1.state == Tone) && (k + 1 >= ToneFrames(t) ==> g1.state == Ending)
  {
    hide PutFrame;
    FrameInTone(g, t, k);
  }

  lemma SteadyEnding(g: Generator, sent: seq<EventFrame>, t: Timing)
    requires GoodTiming(t) && Steady(g, sent, t) && g.state == Ending
    ensures var (g1, f) := PutFrame(g, t); f.Some? && Steady(g1, sent + [f.value], t)
  {
    hide AtFrame, Even;
    EvenAppend(sent, PutFrame(g, t).1.value);
  }

  lemma SteadyIdle(g: Generator, sent: seq<EventFrame>, t: Timing)
    requires GoodTiming(t) && Steady(g, sent, t) && g.state in {Idle, Silence}
    ensures var (g1, f) := PutFrame(g, t); Steady(g1, if f.Some? then sent + [f.value] else sent, t)
  {
    hide AtFrame, Even, NextDigit;
    if g.state == Idle && StartTone(g).state == Tone {
      FirstFrame(g, t);
      EvenAppend(sent, PutFrame(g, t).1.value);
      assert AtFrame(PutFrame(g, t).0, t, 1);
    }
  }

  lemma SteadyStep(l: Line, t: Timing, op: Op)
    requires GoodTiming(t) && !Uneven(t) && Steady(l.gen, l.sent, t)
    ensures Steady(Step(l, t, op).gen, Step(l, t, op).sent, t)
  {
    hide PutFrame, Even, Uneven;
    match op
    case EnqueueOp(digits) =>
      if l.gen.state == Tone {
        var k :| AtFrame(l.gen, t, k);
        assert AtFrame(Step(l, t, op).gen, t, k);
      }
    case FrameOp =>
      match l.gen.state {
        case Tone => SteadyTone(l.gen, l.sent, t);
        case Ending => SteadyEnding(l.gen, l.sent, t);
        case _ => SteadyIdle(l.gen, l.sent, t);
      }
    case DrainOp =>
  }

  lemma {:induction false} SteadyRun(l: Line, t: Timing, ops: seq<Op>)
    requires GoodTiming(t) && !Uneven(t) && Steady(l.gen, l.sent, t)
    ensures Even(After(l, t, ops).sent)
    decreases |ops|
  {
    hide Step, Even, Uneven;
    if ops != [] {
      SteadyStep(l, t, ops[0]);
      SteadyRun(Step(l, t, ops[0]), t, ops[1..]);
    }
  }

  // ---------- the run that shows it ----------

  /** One digit and k frames. */
  function OneTone(k: nat): seq<Op> {
    if k == 0 then [EnqueueOp("1")] else OneTone(k - 1) + [FrameOp]
  }

  lemma {:induction false} AfterAppend(l: Line, t: Timing, ops: seq<Op>, last: Op)
    ensures After(l, t, ops + [last]) == Step(After(l, t, ops), t, last)
    decreases |ops|
  {
    hide Step;
    if ops == [] {
      assert ops + [last] == [last] && [last][1..] == [];
    } else {
      assert (ops + [last])[0] == ops[0] && (ops + [last])[1..] == ops[1..] + [last];
      AfterAppend(Step(l, t, ops[0]), t, ops[1..], last);
    }
  }

  lemma Queued(t: Timing)
    ensures After(OPENED, t, OneTone(0)) == OPENED.(gen := CREATED.(queue := "1"), taken := "1")
  {
    QueueOne(t);
    assert [EnqueueOp("1")][1..] == [];
    assert After(OPENED, t, [EnqueueOp("1")]) == After(Step(OPENED, t, EnqueueOp("1")), t, []);
  }

  lemma {:induction false} ToneGoesOn(t: Timing, k: nat)
    requires GoodTiming(t) && 0 < k < ToneFrames(t)
    ensures AtFrame(After(OPENED, t, OneTone(k)).gen, t, k)
  {
    hide PutFrame, AtFrame, ToneFrames, After;
    AfterAppend(OPENED, t, OneTone(k - 1), FrameOp);
    if k == 1 {
      Queued(t);
      OneStarts();
      FirstFrame(CREATED.(queue := "1"), t);
    } else {
      ToneGoesOn(t, k - 1);
      FrameInTone(After(OPENED, t, OneTone(k - 1)).gen, t, k - 1);
    }
  }

  lemma OneStarts()
    ensures StartTone(CREATED.(queue := "1")).state == Tone
  {
    assert "1"[1..] == "";
    assert NextDigit("1") == (1, "");
  }

  /** For an uneven timing the ends of the very first tone differ. */
  lemma UnevenEnds(t: Timing) returns (ops: seq<Op>)
    requires GoodTiming(t) && Uneven(t)
    ensures var sent := After(OPENED, t, ops).sent; var n := |sent|;
      && n > 1 && sent[n - 2].marker == sent[n - 1].marker == EndOfEvent
      && sent[n - 2].duration == t.frame && sent[n - 1].duration == MAX_DURATION
  {
    hide PutFrame, AtFrame, ToneFrames, After, Uneven;
    var n := ToneFrames(t);
    TwoFrames(t);
    ToneGoesOn(t, n - 1);
    var l := After(OPENED, t, OneTone(n - 1));
    FrameInTone(l.gen, t, n - 1);
    AfterAppend(OPENED, t, OneTone(n - 1), FrameOp);
    var l1 := After(OPENED, t, OneTone(n));
    EndRepeats(l1.gen, t);
    AfterAppend(OPENED, t, OneTone(n), FrameOp);
    ops := OneTone(n + 1);
  }

  lemma TwoFrames(t: Timing)
    requires GoodTiming(t)
    ensures ToneFrames(t) > 1
  {
    ToneFramesIs(t, 1);
  }

  lemma EndRepeats(g: Generator, t: Timing)
    requires g.state == Ending && g.sinceLast == 0
    ensures var f := PutFrame(g, t).1; f.Some? && f.value.marker == EndOfEvent && f.value.duration == Repeated(g)
  {
  }

  /** In all runs all ends of an event carry the same duration, if and only if the last
      frame of a tone does not start a new segment. */
  lemma EndsAgreeIff(t: Timing)
    requires GoodTiming(t)
    ensures (forall ops: seq<Op> :: Even(After(OPENED, t, ops).sent)) <==> !Uneven(t)
  {
    hide After, Uneven;
    if Uneven(t) {
      var ops := UnevenEnds(t);
      FrameIsShorter(t);
      var sent := After(OPENED, t, ops).sent;
      var i := |sent| - 2;
      assert sent[i].marker == EndOfEvent && sent[i + 1].marker == EndOfEvent && sent[i].duration != sent[i + 1].duration;
    } else {
      forall ops: seq<Op>
        ensures Even(After(OPENED, t, ops).sent)
      {
        SteadyRun(OPENED, t, ops);
      }
    }
  }

  lemma FrameIsShorter(t: Timing)
    requires t.frame > 0 && Uneven(t)
    ensures t.frame < MAX_DURATION
  {
  }

  /** A tone of 8.21 seconds at 8 kHz, in frames of 10 ms: its first end tells 80, the
      repeated one 65535. */
  lemma LongToneIsUneven() returns (ops: seq<Op>)
    ensures var t := Timing(65680, 400, 80); GoodTiming(t) && Uneven(t)
    ensures var sent := After(OPENED, Timing(65680, 400, 80), ops).sent; var n := |sent|;
      && n > 1 && sent[n - 2].marker == sent[n - 1].marker == EndOfEvent
      && sent[n - 2].duration == 80 && sent[n - 1].duration == 65535
  {
    hide After;
    assert (65680 + 80 - 1) / 80 == 821 && 0xFFFF / 80 + 1 == 820;
    ops := UnevenEnds(Timing(65680, 400, 80));
  }
}
