/** Every digit that is queued comes out of the detector, once and in order, and
    every tone on the line has the shape RFC 4733 asks for. */
module DtmfEndToEnd {
  import opened Dtmf

  // ---------- what always holds of the generator ----------

  predicate GoodTiming(t: Timing) {
    0 < t.frame < t.tone
  }

  ghost predicate GenInv(g: Generator) {
    && (g.state == Tone ==> g.counter > 0 && g.sinceLast == 0 && g.event <= EVENT_ID_MAX && g.eventDuration <= MAX_DURATION)
    && (g.state == Ending ==> g.counter < 2 && g.sinceLast == 0 && g.event <= EVENT_ID_MAX && g.eventDuration <= MAX_DURATION)
  }

  lemma {:induction false} NextDigitTakes(queue: string)
    requires queue != ""
    ensures var (event, rest) := NextDigit(queue);
      if event <= EVENT_ID_MAX then CharOf(event).Some? && Digits(queue) == [CharOf(event).value] + Digits(rest)
      else Digits(queue) == "" && rest == ""
  {
    EventsRoundTrip(queue[0], 0);
    if EventOf(queue[0]) > EVENT_ID_MAX && |queue| > 1 {
      NextDigitTakes(queue[1..]);
    }
  }

  /** What one frame does: either a digit leaves the queue and its start goes out, or
      no digit leaves it and no start goes out. */
  lemma FrameTakes(g: Generator, t: Timing)
    requires GenInv(g) && GoodTiming(t)
    ensures var (g1, f) := PutFrame(g, t);
      && GenInv(g1)
      && (if f.Some? && f.value.marker == StartOfEvent
          then f.value.id <= EVENT_ID_MAX && CharOf(f.value.id).Some?
               && Digits(g.queue) == [CharOf(f.value.id).value] + Digits(g1.queue)
          else Digits(g.queue) == Digits(g1.queue))
  {
    hide Digits, NextDigit, CharOf;
    if g.state == Idle && g.queue != "" {
      NextDigitTakes(g.queue);
      NoDigits();
    }
  }

  lemma NoDigits()
    ensures Digits("") == ""
  {
  }

  // ---------- conservation ----------

  function OnTheWay(l: Line): string {
    l.drained + l.det.buffer + Digits(l.gen.queue)
  }

  ghost predicate LineInv(l: Line) {
    && GenInv(l.gen)
    && |Digits(l.taken)| == |OnTheWay(l)| + l.det.lost
    && (l.det.lost == 0 ==> Digits(l.taken) == OnTheWay(l))
  }

  lemma EnqueueInv(l: Line, t: Timing, digits: string)
    requires LineInv(l)
    ensures LineInv(Step(l, t, EnqueueOp(digits)))
  {
    hide Digits;
    DigitsConcat(l.taken, digits);
    DigitsConcat(l.gen.queue, digits);
    var r := Step(l, t, EnqueueOp(digits));
    assert r != l ==> OnTheWay(r) == OnTheWay(l) + Digits(digits);
  }

  lemma FrameInv(l: Line, t: Timing)
    requires LineInv(l) && GoodTiming(t)
    ensures LineInv(Step(l, t, FrameOp))
  {
    hide Digits, PutFrame, CharOf;
    FrameTakes(l.gen, t);
    var (g, f) := PutFrame(l.gen, t);
    var r := Step(l, t, FrameOp);
    if f.Some? && f.value.marker == StartOfEvent {
      var c := [CharOf(f.value.id).value];
      if |l.det.buffer| < BUFFER_LENGTH {
        assert l.drained + (l.det.buffer + c) + Digits(g.queue) == l.drained + l.det.buffer + (c + Digits(g.queue));
      }
    }
  }

  lemma DrainInv(l: Line, t: Timing)
    requires LineInv(l)
    ensures LineInv(Step(l, t, DrainOp))
  {
    if l.det.buffer != "" {
      assert l.drained + l.det.buffer[..1] + l.det.buffer[1..] == l.drained + l.det.buffer;
    } else {
      assert l.drained + "" == l.drained;
    }
  }

  lemma {:induction false} RunInv(l: Line, t: Timing, ops: seq<Op>)
    requires LineInv(l) && GoodTiming(t)
    ensures LineInv(After(l, t, ops))
    decreases |ops|
  {
    hide LineInv, Step;
    if ops != [] {
      match ops[0] {
        case EnqueueOp(digits) => EnqueueInv(l, t, digits);
        case FrameOp => FrameInv(l, t);
        case DrainOp => DrainInv(l, t);
      }
      RunInv(Step(l, t, ops[0]), t, ops[1..]);
    }
  }

  ghost predicate Conserved(l: Line) {
    Digits(l.taken) == l.drained + l.det.buffer + Digits(l.gen.queue)
  }

  /** For every interleaving of queueing, frames and draining: the digits taken by the
      queue are those drained, then those detected, then those still queued, in this
      order, exactly when the detector lost none. */
  lemma DigitsArriveIffNoneLost(t: Timing, ops: seq<Op>)
    requires GoodTiming(t)
    ensures var l := After(OPENED, t, ops); Conserved(l) <==> l.det.lost == 0
  {
    RunInv(OPENED, t, ops);
  }

  // ---------- exactly these timings ----------

  lemma QueueOne(t: Timing)
    ensures Step(OPENED, t, EnqueueOp("1")) == OPENED.(gen := CREATED.(queue := "1"), taken := "1")
  {
    assert "" + "1" == "1";
  }

  lemma OneFrame(t: Timing)
    ensures var l := Step(OPENED.(gen := CREATED.(queue := "1"), taken := "1"), t, FrameOp);
      && l.taken == "1" && l.drained == "" && l.gen.queue == "" && l.det.lost == 0
      && l.det.buffer == (if t.frame < t.tone then "1" else "")
      && (t.frame == 0 < t.tone ==> l.gen == Generator(Tone, "", 1, 0, 0, false, 0))
  {
    assert "1"[1..] == "";
    assert NextDigit("1") == (1, "");
    assert "" + "1" == "1";
  }

  lemma AfterTwo(t: Timing, a: Op, b: Op)
    ensures After(OPENED, t, [a, b]) == Step(Step(OPENED, t, a), t, b)
  {
    hide Step;
    var l := Step(OPENED, t, a);
    assert [a, b][1..] == [b] && [b][1..] == [];
    assert After(l, t, [b]) == After(Step(l, t, b), t, []);
  }

  lemma AfterThree(t: Timing, a: Op, b: Op, c: Op)
    ensures After(OPENED, t, [a, b, c]) == Step(Step(Step(OPENED, t, a), t, b), t, c)
  {
    hide Step;
    var l := Step(OPENED, t, a);
    var m := Step(l, t, b);
    assert [a, b, c][1..] == [b, c] && [b, c][1..] == [c] && [c][1..] == [];
    assert After(l, t, [b, c]) == After(m, t, [c]);
    assert After(m, t, [c]) == After(Step(m, t, c), t, []);
  }

  lemma OneDigit()
    ensures Digits("1") == "1" && Digits("") == ""
  {
    assert "1"[1..] == "";
  }

  /** A tone not longer than a frame never starts, and with empty frames it starts
      again and again: then the digits do not arrive. */
  lemma BadTimingFails(t: Timing) returns (ops: seq<Op>)
    requires !GoodTiming(t)
    ensures var l := After(OPENED, t, ops); l.det.lost == 0 && !Conserved(l)
  {
    hide Step;
    QueueOne(t);
    OneFrame(t);
    OneDigit();
    var l := Step(OPENED.(gen := CREATED.(queue := "1"), taken := "1"), t, FrameOp);
    if t.frame >= t.tone {
      ops := [EnqueueOp("1"), FrameOp];
      AfterTwo(t, EnqueueOp("1"), FrameOp);
    } else {
      ops := [EnqueueOp("1"), FrameOp, FrameOp];
      AfterThree(t, EnqueueOp("1"), FrameOp, FrameOp);
      StartsAgain(l, t);
    }
  }

  lemma StartsAgain(l: Line, t: Timing)
    requires t.frame == 0 < t.tone && l.gen == Generator(Tone, "", 1, 0, 0, false, 0) && l.det == Detector("1", 0)
    ensures var r := Step(l, t, FrameOp);
      r.taken == l.taken && r.drained == l.drained && r.det == Detector("11", 0) && r.gen.queue == ""
  {
    assert "1" + "1" == "11";
  }

  /** The digits arrive in every run that loses none exactly when a tone lasts longer
      than a frame and frames are not empty. */
  lemma DigitsArriveIffGoodTiming(t: Timing)
    ensures (forall ops: seq<Op> | After(OPENED, t, ops).det.lost == 0 :: Conserved(After(OPENED, t, ops))) <==> GoodTiming(t)
  {
    if GoodTiming(t) {
      forall ops: seq<Op> | After(OPENED, t, ops).det.lost == 0
        ensures Conserved(After(OPENED, t, ops))
      {
        DigitsArriveIffNoneLost(t, ops);
      }
    } else {
      var ops := BadTimingFails(t);
    }
  }

  // ---------- the shape of a tone ----------

  datatype Phase = Between | InTone(id: nat) | Repeating(id: nat, ends: nat)

  /** One start, any number of updates, three ends, all of one event. */
  function Accept(phase: Phase, f: EventFrame): Option<Phase> {
    if f.id > EVENT_ID_MAX || f.duration > MAX_DURATION then None
    else match phase
      case Between => if f.marker == StartOfEvent && !f.edge then Some(InTone(f.id)) else None
      case InTone(id) =>
        if f.id != id then None
        else if f.marker in {NoMarker, NewSegment} && !f.edge then Some(InTone(id))
        else if f.marker == EndOfEvent && f.edge then Some(Repeating(id, 1))
        else None
      case Repeating(id, ends) =>
        if f.id == id && f.marker == EndOfEvent && f.edge
        then Some(if ends == 2 then Between else Repeating(id, ends + 1))
        else None
  }

  function Scan(frames: seq<EventFrame>): Option<Phase> {
    if frames == [] then Some(Between)
    else
      var before := Scan(frames[..|frames| - 1]);
      if before.None? then None else Accept(before.value, frames[|frames| - 1])
  }

  function PhaseOf(g: Generator): Phase {
    match g.state
    case Tone => InTone(g.event)
    case Ending => Repeating(g.event, g.counter + 1)
    case _ => Between
  }

  lemma ScanAppend(frames: seq<EventFrame>, f: EventFrame)
    ensures Scan(frames + [f]) == var before := Scan(frames); if before.None? then None else Accept(before.value, f)
  {
    assert (frames + [f])[..|frames|] == frames;
  }

  lemma FrameShape(g: Generator, t: Timing)
    requires GenInv(g) && GoodTiming(t)
    ensures var (g1, f) := PutFrame(g, t);
      if f.Some? then Accept(PhaseOf(g), f.value) == Some(PhaseOf(g1)) else PhaseOf(g1) == PhaseOf(g)
  {
    hide NextDigit;
  }

  lemma StepShape(l: Line, t: Timing, op: Op)
    requires LineInv(l) && GoodTiming(t) && Scan(l.sent) == Some(PhaseOf(l.gen))
    ensures var r := Step(l, t, op); Scan(r.sent) == Some(PhaseOf(r.gen))
  {
    hide Scan, PutFrame, Digits, Accept;
    if op.FrameOp? {
      FrameShape(l.gen, t);
      var f := PutFrame(l.gen, t).1;
      if f.Some? {
        ScanAppend(l.sent, f.value);
      }
    }
  }

  lemma {:induction false} RunShape(l: Line, t: Timing, ops: seq<Op>)
    requires LineInv(l) && GoodTiming(t) && Scan(l.sent) == Some(PhaseOf(l.gen))
    ensures var r := After(l, t, ops); Scan(r.sent) == Some(PhaseOf(r.gen))
    decreases |ops|
  {
    hide LineInv, Step, Scan;
    if ops != [] {
      StepShape(l, t, ops[0]);
      assert LineInv(Step(l, t, ops[0])) by { StepInv(l, t, ops[0]); }
      RunShape(Step(l, t, ops[0]), t, ops[1..]);
    }
  }

  lemma StepInv(l: Line, t: Timing, op: Op)
    requires LineInv(l) && GoodTiming(t)
    ensures LineInv(Step(l, t, op))
  {
    hide LineInv, Step;
    match op
    case EnqueueOp(digits) => EnqueueInv(l, t, digits);
    case FrameOp => FrameInv(l, t);
    case DrainOp => DrainInv(l, t);
  }

  /** In every run the frames sent are a sequence of tones, each with one start, then
      updates, then three ends, all with the same event and a duration of at most
      0xFFFF; whenever the generator rests the last tone is complete. */
  lemma EveryToneIsWellFormed(t: Timing, ops: seq<Op>)
    requires GoodTiming(t)
    ensures var l := After(OPENED, t, ops);
      && Scan(l.sent).Some?
      && (l.gen.state in {Idle, Silence} ==> Scan(l.sent) == Some(Between))
  {
    RunShape(OPENED, t, ops);
  }
}
