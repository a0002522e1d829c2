/** Out-of-band DTMF, after RFC 4733: the generator that turns queued digits into
    named-event frames (mpf_dtmf_generator.c), the detector that turns frames
    back into digits (mpf_dtmf_detector.c), and the two together. */
module Dtmf {

  datatype Option<T> = None | Some(value: T)

  const QUEUE_LENGTH := 32
  const BUFFER_LENGTH := 32
  const EVENT_ID_MAX := 15
  const INVALID_EVENT := 255
  const FRAME_TIME := 10           // CODEC_FRAME_TIME_BASE
  const EVENTS_PTIME := 10
  const MAX_DURATION := 0xFFFF

  // ---------- characters and event identifiers ----------

  function EventOf(c: char): (id: nat)
    ensures id <= EVENT_ID_MAX || id == INVALID_EVENT
  {
    if '0' <= c <= '9' then (c - '0') as nat
    else if c == '*' then 10
    else if c == '#' then 11
    else if 'A' <= c <= 'D' then 12 + (c - 'A') as nat
    else INVALID_EVENT
  }

  function CharOf(id: nat): Option<char> {
    if id <= 9 then Some('0' + id as char)
    else if id == 10 then Some('*')
    else if id == 11 then Some('#')
    else if id <= EVENT_ID_MAX then Some('A' + (id - 12) as char)
    else None
  }

  predicate IsDigit(c: char) {
    EventOf(c) <= EVENT_ID_MAX
  }

  /** The two conversions undo each other on digits and on event identifiers. */
  lemma EventsRoundTrip(c: char, id: nat)
    ensures IsDigit(c) <==> CharOf(EventOf(c)) == Some(c)
    ensures id <= EVENT_ID_MAX <==> CharOf(id).Some? && EventOf(CharOf(id).value) == id
  {
    if 12 <= id <= EVENT_ID_MAX {
      assert id == 12 || id == 13 || id == 14 || id == 15;
    }
  }

  function Digits(s: string): string {
    if s == "" then "" else (if IsDigit(s[0]) then [s[0]] else "") + Digits(s[1..])
  }

  lemma {:induction false} DigitsConcat(a: string, b: string)
    ensures Digits(a + b) == Digits(a) + Digits(b)
  {
    if a == "" {
      assert a + b == b;
    } else {
      assert (a + b)[1..] == a[1..] + b;
      DigitsConcat(a[1..], b);
    }
  }

  // ---------- the generator ----------

  datatype State = Idle | Tone | Ending | Silence

  datatype Marker = NoMarker | StartOfEvent | EndOfEvent | NewSegment

  datatype EventFrame = EventFrame(id: nat, edge: bool, duration: nat, marker: Marker)

  /** Durations in timestamp units. */
  datatype Timing = Timing(tone: nat, silence: nat, frame: nat)

  datatype Generator = Generator(
    state: State, queue: string, event: nat,
    counter: nat, eventDuration: nat, newSegment: bool, sinceLast: nat)

  const CREATED := Generator(Idle, "", 0, 0, 0, false, 0)

  function Enqueue(g: Generator, digits: string): (Generator, bool) {
    if |g.queue| + |digits| > QUEUE_LENGTH then (g, false) else (g.(queue := g.queue + digits), true)
  }

  /** Take characters off the queue up to and including the first digit. */
  function NextDigit(queue: string): (r: (nat, string))
    requires queue != ""
  {
    if EventOf(queue[0]) > EVENT_ID_MAX && |queue| > 1 then NextDigit(queue[1..])
    else (EventOf(queue[0]), queue[1..])
  }

  function StartTone(g: Generator): Generator {
    if g.state != Idle || g.queue == "" then g
    else
      var (event, rest) := NextDigit(g.queue);
      if event <= EVENT_ID_MAX
      then g.(queue := rest, event := event, state := Tone, counter := 0, eventDuration := 0,
              sinceLast := EVENTS_PTIME, newSegment := false)
      else g.(queue := rest, event := event)
  }

  function Shortened(duration: nat): nat {
    if duration > MAX_DURATION then MAX_DURATION else duration
  }

  /** A frame of the tone; the last one marks the end of the event. */
  function ToneFrame(g: Generator, t: Timing): (Generator, EventFrame) {
    var overflow := g.eventDuration > MAX_DURATION;
    var duration := if overflow then 0 else g.eventDuration;
    if g.counter >= t.tone then
      (g.(state := Ending, counter := 0, eventDuration := duration, newSegment := g.newSegment || overflow),
       EventFrame(g.event, true, Shortened(g.eventDuration), EndOfEvent))
    else
      var first := g.counter == t.frame;
      (g.(eventDuration := duration, newSegment := overflow || (first && g.newSegment)),
       EventFrame(g.event, false, Shortened(g.eventDuration),
                  if first then StartOfEvent else if g.newSegment then NewSegment else NoMarker))
  }

  /** The end of the event is sent again, twice in all. */
  function EndingFrame(g: Generator, t: Timing): (Generator, EventFrame) {
    var g1 := g.(counter := g.counter + 1);
    (if g1.counter >= 2 then g1.(state := Silence, counter := g1.counter * t.frame) else g1,
     EventFrame(g.event, true, if g.newSegment then MAX_DURATION else g.eventDuration, EndOfEvent))
  }

  /** mpf_dtmf_generator_put_frame */
  function PutFrame(g: Generator, t: Timing): (Generator, Option<EventFrame>) {
    var g1 := StartTone(g);
    match g1.state
    case Idle => (g1, None)
    case Tone =>
      var g2 := g1.(counter := g1.counter + t.frame, eventDuration := g1.eventDuration + t.frame,
                    sinceLast := g1.sinceLast + FRAME_TIME);
      if g2.sinceLast < EVENTS_PTIME then (g2, None)
      else
        var (g3, f) := ToneFrame(g2.(sinceLast := 0), t);
        (g3, Some(f))
    case Ending =>
      var g2 := g1.(sinceLast := g1.sinceLast + FRAME_TIME);
      if g2.sinceLast < EVENTS_PTIME then (g2, None)
      else
        var (g3, f) := EndingFrame(g2.(sinceLast := 0), t);
        (g3, Some(f))
    case Silence =>
      var g2 := g1.(counter := g1.counter + t.frame);
      (if g2.counter >= t.silence then g2.(state := Idle) else g2, None)
  }

  // ---------- the detector ----------

  datatype Detector = Detector(buffer: string, lost: nat)

  function AddDigit(d: Detector, c: Option<char>): Detector {
    if c.None? then d
    else if |d.buffer| < BUFFER_LENGTH then d.(buffer := d.buffer + [c.value])
    else d.(lost := d.lost + 1)
  }

  /** The out-of-band branch of mpf_dtmf_detector_get_frame. */
  function GetFrame(d: Detector, f: Option<EventFrame>): Detector {
    if f.Some? && f.value.id <= EVENT_ID_MAX && f.value.marker == StartOfEvent then AddDigit(d, CharOf(f.value.id)) else d
  }

  function GetDigit(d: Detector): (Detector, string) {
    if d.buffer == "" then (d, "") else (d.(buffer := d.buffer[1..]), d.buffer[..1])
  }

  // ---------- the two together ----------

  /** Generator and detector, the characters taken by the queue, the digits drained
      from the detector, and the frames sent. */
  datatype Line = Line(gen: Generator, det: Detector, taken: string, drained: string, sent: seq<EventFrame>)

  const OPENED := Line(CREATED, Detector("", 0), "", "", [])

  datatype Op = EnqueueOp(digits: string) | FrameOp | DrainOp

  function Step(l: Line, t: Timing, op: Op): Line {
    match op
    case EnqueueOp(digits) =>
      var (g, ok) := Enqueue(l.gen, digits);
      l.(gen := g, taken := if ok then l.taken + digits else l.taken)
    case FrameOp =>
      var (g, f) := PutFrame(l.gen, t);
      l.(gen := g, det := GetFrame(l.det, f), sent := if f.Some? then l.sent + [f.value] else l.sent)
    case DrainOp =>
      var (d, c) := GetDigit(l.det);
      l.(det := d, drained := l.drained + c)
  }

  function After(l: Line, t: Timing, ops: seq<Op>): Line
    decreases |ops|
  {
    if ops == [] then l else After(Step(l, t, ops[0]), t, ops[1..])
  }
}
