/** Generator and detector as the code writes them. */
module DtmfObject {
  import opened Dtmf

  class DtmfGenerator {
    const timing: Timing
    var state: State
    var queue: string
    var event: nat
    var counter: nat
    var eventDuration: nat
    var newSegment: bool
    var sinceLast: nat

    ghost function View(): Generator
      reads this
    {
      Generator(state, queue, event, counter, eventDuration, newSegment, sinceLast)
    }

    constructor (timing: Timing)
      ensures View() == CREATED && this.timing == timing
    {
      this.timing := timing;
      state, queue, event, counter, eventDuration, newSegment, sinceLast := Idle, "", 0, 0, 0, false, 0;
    }

    method Accept(digits: string) returns (ok: bool)
      modifies this`queue
      ensures (View(), ok) == Enqueue(old(View()), digits)
    {
      ok := |queue| + |digits| <= QUEUE_LENGTH;
      if ok {
        queue := queue + digits;
      }
    }

    /** The loop that takes characters off the queue up to the next digit. */
    method Begin()
      modifies this
      ensures View() == StartTone(old(View()))
    {
      if state != Idle || queue == "" {
        return;
      }
      ghost var g := View();
      event := EventOf(queue[0]);
      queue := queue[1..];
      while queue != "" && event > EVENT_ID_MAX
        invariant View() == g.(queue := queue, event := event)
        invariant NextDigit(g.queue) == if event > EVENT_ID_MAX && queue != "" then NextDigit(queue) else (event, queue)
        decreases |queue|
      {
        event := EventOf(queue[0]);
        queue := queue[1..];
      }
      if event <= EVENT_ID_MAX {
        state, counter, eventDuration := Tone, 0, 0;
        sinceLast := EVENTS_PTIME;
        newSegment := false;
      }
    }

    method SendTone() returns (f: EventFrame)
      modifies this
      ensures (View(), f) == ToneFrame(old(View()), timing)
    {
      if counter >= timing.tone {
        state, counter := Ending, 0;
        f := EventFrame(event, true, eventDuration, EndOfEvent);
        if eventDuration > MAX_DURATION {
          newSegment := true;
          f := f.(duration := MAX_DURATION);
          eventDuration := 0;
        }
      } else {
        f := EventFrame(event, false, eventDuration, NoMarker);
        if counter == timing.frame {
          f := f.(marker := StartOfEvent);
        } else if newSegment {
          f := f.(marker := NewSegment);
          newSegment := false;
        }
        if eventDuration > MAX_DURATION {
          f := f.(duration := MAX_DURATION);
          eventDuration := 0;
          newSegment := true;
        }
      }
    }

    method SendEnding() returns (f: EventFrame)
      modifies this
      ensures (View(), f) == EndingFrame(old(View()), timing)
    {
      counter := counter + 1;
      f := EventFrame(event, true, if newSegment then MAX_DURATION else eventDuration, EndOfEvent);
      if counter >= 2 {
        state := Silence;
        counter := counter * timing.frame;
      }
    }

    method Next() returns (f: Option<EventFrame>)
      modifies this
      ensures (View(), f) == PutFrame(old(View()), timing)
    {
      hide StartTone, ToneFrame, EndingFrame;
      f := None;
      Begin();
      match state
      case Idle =>
      case Tone =>
        counter := counter + timing.frame;
        eventDuration := eventDuration + timing.frame;
        sinceLast := sinceLast + FRAME_TIME;
        if sinceLast >= EVENTS_PTIME {
          sinceLast := 0;
          var frame := SendTone();
          f := Some(frame);
        }
      case Ending =>
        sinceLast := sinceLast + FRAME_TIME;
        if sinceLast >= EVENTS_PTIME {
          sinceLast := 0;
          var frame := SendEnding();
          f := Some(frame);
        }
      case Silence =>
        counter := counter + timing.frame;
        if counter >= timing.silence {
          state := Idle;
        }
    }
  }

  class DtmfDetector {
    var buffer: string
    var lost: nat

    ghost function View(): Detector
      reads this
    {
      Detector(buffer, lost)
    }

    constructor ()
      ensures View() == Detector("", 0)
    {
      buffer, lost := "", 0;
    }

    method Take(f: Option<EventFrame>)
      modifies this
      ensures View() == GetFrame(old(View()), f)
    {
      if f.Some? && f.value.id <= EVENT_ID_MAX && f.value.marker == StartOfEvent {
        var c := CharOf(f.value.id);
        if c.Some? {
          if |buffer| < BUFFER_LENGTH {
            buffer := buffer + [c.value];
          } else {
            lost := lost + 1;
          }
        }
      }
    }

    method Drain() returns (digit: string)
      modifies this`buffer
      ensures (View(), digit) == GetDigit(old(View()))
    {
      digit := "";
      if buffer != "" {
        digit := buffer[..1];
        buffer := buffer[1..];
      }
    }
  }
}
