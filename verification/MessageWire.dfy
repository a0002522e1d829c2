/** Whole messages on the wire: whatever the segmentation, exactly the messages
    that were sent are read, with their headers and bodies. */
module MessageWire {
  import opened TextStream
  import opened MessageModel
  import opened MessageSegments

  /** A message as sent: start line, header lines, body. */
  datatype Sent = Sent(start: string, lines: seq<string>, body: string)

  function LinesText(lines: seq<string>): string {
    if lines == [] then "" else lines[0] + CRLF + LinesText(lines[1..])
  }

  function WireText(m: Sent): string {
    m.start + CRLF + LinesText(m.lines) + CRLF + m.body
  }

  function WireAll(ms: seq<Sent>): string {
    if ms == [] then "" else WireText(ms[0]) + WireAll(ms[1..])
  }

  function FieldOf(line: string): seq<Header> {
    var h := HeaderOf(line);
    if h.Field? then [Header(h.name, h.value)] else []
  }

  function HeadersOf(lines: seq<string>): seq<Header> {
    if lines == [] then [] else FieldOf(lines[0]) + HeadersOf(lines[1..])
  }

  function ReadOf(m: Sent): Message {
    Message(m.start, HeadersOf(m.lines), m.body)
  }

  function ReadAll(ms: seq<Sent>): seq<Message> {
    if ms == [] then [] else [ReadOf(ms[0])] + ReadAll(ms[1..])
  }

  /** An unfolded header line: not empty, no end of line in it, no white space in front. */
  predicate Unfolded(line: string) {
    line != "" && NoEol(line) && !IsWsp(line[0])
  }

  predicate WellFormed(proto: Protocol, m: Sent) {
    && NoEol(m.start) && proto.accepts(m.start)
    && (forall i :: 0 <= i < |m.lines| ==> Unfolded(m.lines[i]))
    && proto.bodyLength(m.start, HeadersOf(m.lines)) == Some(|m.body|)
  }

  lemma FeedCrlfLine(proto: Protocol, p: Parser, messages: seq<Message>, line: string)
    requires LineStage(p) && MayExtend(At(p, messages), line)
    ensures Feed(proto, At(p, messages), line + CRLF) == EndOfLine(proto, At(p, messages).(line := line), false)
  {
    hide EndOfLine, FeedChar;
    FeedExtends(proto, At(p, messages), line);
    FeedConcat(proto, At(p, messages), line, CRLF);
    FeedEol(proto, At(p, messages).(line := line), CRLF, 0);
    assert CRLF[0..] == CRLF && CRLF[2..] == "" && "" + line == line;
  }

  lemma FeedHeaderLine(proto: Protocol, p: Parser, messages: seq<Message>, line: string)
    requires LineStage(p) && p.stage == HeaderSection && Unfolded(line)
    ensures Feed(proto, At(p, messages), line + CRLF) == At(p.(headers := p.headers + FieldOf(line)), messages)
  {
    hide Feed, HeaderOf;
    FeedCrlfLine(proto, p, messages, line);
    NotBlank(line);
    assert p.headers + [] == p.headers;
  }

  lemma {:induction false} FeedHeaderLines(proto: Protocol, p: Parser, messages: seq<Message>, lines: seq<string>)
    requires LineStage(p) && p.stage == HeaderSection && forall i :: 0 <= i < |lines| ==> Unfolded(lines[i])
    ensures Feed(proto, At(p, messages), LinesText(lines)) == At(p.(headers := p.headers + HeadersOf(lines)), messages)
    decreases |lines|
  {
    hide Feed, FieldOf, Unfolded;
    if lines == [] {
      assert p.headers + [] == p.headers;
      FeedEmpty(proto, At(p, messages));
    } else {
      var p1 := p.(headers := p.headers + FieldOf(lines[0]));
      FeedHeaderLine(proto, p, messages, lines[0]);
      FeedConcat(proto, At(p, messages), lines[0] + CRLF, LinesText(lines[1..]));
      FeedHeaderLines(proto, p1, messages, lines[1..]);
      assert p1.headers + HeadersOf(lines[1..]) == p.headers + HeadersOf(lines);
    }
  }

  lemma FeedEmpty(proto: Protocol, r: Reader)
    ensures Feed(proto, r, "") == r
  {
  }

  lemma NotBlank(line: string)
    requires Unfolded(line)
    ensures !HeaderOf(line).Blank?
  {
  }

  lemma FeedBlankAndBody(proto: Protocol, p: Parser, messages: seq<Message>, body: string)
    requires LineStage(p) && p.stage == HeaderSection && proto.bodyLength(p.start, p.headers) == Some(|body|)
    ensures Feed(proto, At(p, messages), CRLF + body) == At(FRESH, messages + [Message(p.start, p.headers, body)])
  {
    hide FeedChar;
    FeedCrlfLine(proto, p, messages, "");
    assert "" + CRLF == CRLF;
    FeedConcat(proto, At(p, messages), CRLF, body);
    assert HeaderOf("") == Blank;
    var r := EndOfLine(proto, At(p, messages), false);
    assert p.(skipLf := false) == p;
    if body == "" {
    } else {
      assert r == At(p.(stage := Body, contentLength := |body|, body := ""), messages);
      BodyFeeds(proto, r, body);
      assert "" + body[..|body|] == body;
    }
  }

  /** The reader reads back the message that was sent. */
  lemma FeedMessage(proto: Protocol, messages: seq<Message>, m: Sent)
    requires WellFormed(proto, m)
    ensures Feed(proto, At(FRESH, messages), WireText(m)) == At(FRESH, messages + [ReadOf(m)])
  {
    hide Feed, HeadersOf, LinesText;
    FeedCrlfLine(proto, FRESH, messages, m.start);
    var p := FRESH.(stage := HeaderSection, start := m.start, headers := []);
    FeedHeaderLines(proto, p, messages, m.lines);
    var p1 := p.(headers := HeadersOf(m.lines));
    assert [] + HeadersOf(m.lines) == HeadersOf(m.lines);
    FeedBlankAndBody(proto, p1, messages, m.body);
    FeedConcat(proto, At(p, messages), LinesText(m.lines), CRLF + m.body);
    FeedConcat(proto, At(FRESH, messages), m.start + CRLF, LinesText(m.lines) + (CRLF + m.body));
    assert WireText(m) == (m.start + CRLF) + (LinesText(m.lines) + (CRLF + m.body));
  }

  lemma {:induction false} FeedMessages(proto: Protocol, messages: seq<Message>, ms: seq<Sent>)
    requires forall i :: 0 <= i < |ms| ==> WellFormed(proto, ms[i])
    ensures Feed(proto, At(FRESH, messages), WireAll(ms)) == At(FRESH, messages + ReadAll(ms))
    decreases |ms|
  {
    hide Feed, WireText, ReadOf, WellFormed;
    if ms == [] {
      assert messages + [] == messages;
      FeedEmpty(proto, At(FRESH, messages));
    } else {
      FeedMessage(proto, messages, ms[0]);
      FeedConcat(proto, At(FRESH, messages), WireText(ms[0]), WireAll(ms[1..]));
      FeedMessages(proto, messages + [ReadOf(ms[0])], ms[1..]);
      assert messages + [ReadOf(ms[0])] + ReadAll(ms[1..]) == messages + ReadAll(ms);
    }
  }

  /** Cut the text of any messages into segments anywhere, even between CR and LF:
      the connection reads exactly those messages and keeps nothing back. */
  lemma EverySegmentationReadsTheMessages(proto: Protocol, ms: seq<Sent>, segments: seq<string>)
    requires forall i :: 0 <= i < |ms| ==> WellFormed(proto, ms[i])
    requires Concat(segments) == WireAll(ms)
    ensures ReceiveAll(proto, OPENED, segments) == Connection(FRESH, "", ReadAll(ms))
  {
    FeedMessages(proto, [], ms);
    assert [] + ReadAll(ms) == ReadAll(ms);
    EmptyWaits(FRESH);
    ReceiveAllFeeds(proto, OPENED, segments);
  }
}
