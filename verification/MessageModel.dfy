/** The incremental message parser (apt_text_message.c).  A connection appends
    what it received to the unread tail, runs the parser until the end of the
    stream and keeps the new tail. */
module MessageModel {
  import opened TextStream

  datatype Header = Header(name: string, value: string)

  /** The protocol behind the parser: whether it accepts a start line, and what
      it makes of a finished header section: reject it, or a body of some length. */
  datatype Protocol = Protocol(accepts: string -> bool, bodyLength: (string, seq<Header>) -> Option<nat>)

  datatype Stage = StartLine | HeaderSection | Body

  datatype Message = Message(start: string, headers: seq<Header>, body: string)

  datatype Parser = Parser(
    stage: Stage, skipLf: bool,
    start: string, headers: seq<Header>,    // message under construction
    contentLength: nat, body: string)

  const FRESH := Parser(StartLine, false, "", [], 0, "")

  datatype Status = Complete | Incomplete | Invalid

  datatype Outcome = Outcome(parser: Parser, stream: Stream, status: Status, message: Option<Message>)

  // ---------- header fields ----------

  /** Lines that continue a folded value. */
  function Continuation(s: Stream): (r: (Stream, string))
    requires ValidStream(s)
    ensures ValidStream(r.0) && r.0.text == s.text && s.pos <= r.0.pos && (s.eos ==> r.0.eos)
    decreases |s.text| - s.pos
  {
    if s.pos < |s.text| && IsWsp(s.text[s.pos]) then
      var (s1, line) := ReadLine(s.(pos := SkipWsp(s.text, s.pos + 1)));
      var (s2, more) := Continuation(s1);
      (s2, if line.Some? then line.value + more else more)
    else (s, "")
  }

  function ParseField(s: Stream): (r: (Stream, HeaderRead))
    requires ValidStream(s)
    ensures ValidStream(r.0) && r.0.text == s.text && s.pos <= r.0.pos && (s.eos ==> r.0.eos)
    ensures IsEos(r.0) || s.pos < r.0.pos
    ensures r.1.Blank? ==> s.pos < r.0.pos
  {
    var (s1, h) := ReadHeader(s);
    if h.Field? && h.name != "" then
      var (s2, more) := Continuation(s1);
      (s2, Field(h.name, h.value + more))
    else (s1, h)
  }

  function ParseSection(s: Stream, headers: seq<Header>): (r: (Stream, seq<Header>, bool))
    requires ValidStream(s)
    ensures ValidStream(r.0) && r.0.text == s.text && s.pos <= r.0.pos && (s.eos ==> r.0.eos)
    ensures if r.2 then s.pos < r.0.pos else IsEos(r.0)
    decreases |s.text| - s.pos
  {
    var (s1, h) := ParseField(s);
    if h.Blank? then (s1, headers, true)
    else
      var headers1 := if h.Field? then headers + [Header(h.name, h.value)] else headers;
      if IsEos(s1) then (s1, headers1, false) else ParseSection(s1, headers1)
  }

  // ---------- one run ----------

  /** apt_crlf_segmentation_test: the segment ends between CR and LF. */
  function MarkSplit(p: Parser, s: Stream): Parser
    requires ValidStream(s)
  {
    if s.pos == |s.text| && s.pos > 0 && s.text[s.pos - 1] == CR then p.(skipLf := true) else p
  }

  predicate ValidParser(p: Parser) {
    p.stage == Body ==> |p.body| < p.contentLength
  }

  function ReadBody(p: Parser, s: Stream): (o: Outcome)
    requires ValidStream(s) && p.stage == Body && ValidParser(p)
    ensures ValidStream(o.stream) && o.stream.text == s.text && ValidParser(o.parser)
    ensures o.status == Incomplete ==> s.pos <= o.stream.pos && IsEos(o.stream)
    ensures o.status != Incomplete ==> s.pos < o.stream.pos
    ensures o.status == Complete <==> o.message.Some?
  {
    var required := p.contentLength - |p.body|;
    var available := |s.text| - s.pos;
    if required > available then
      Outcome(p.(body := p.body + s.text[s.pos..]), s.(pos := |s.text|), Incomplete, None)
    else
      var body := p.body + s.text[s.pos..s.pos + required];
      Outcome(FRESH.(skipLf := p.skipLf), s.(pos := s.pos + required), Complete,
              Some(Message(p.start, p.headers, body)))
  }

  function RunHeader(proto: Protocol, p: Parser, s: Stream): (o: Outcome)
    requires ValidStream(s) && p.stage == HeaderSection
    ensures ValidStream(o.stream) && o.stream.text == s.text && ValidParser(o.parser)
    ensures o.status == Incomplete ==> s.pos <= o.stream.pos && IsEos(o.stream)
    ensures o.status != Incomplete ==> s.pos < o.stream.pos
    ensures o.status == Complete <==> o.message.Some?
  {
    var (s1, headers, done) := ParseSection(s, p.headers);
    var p1 := MarkSplit(p.(headers := headers), s1);
    if !done then Outcome(p1, s1, Incomplete, None)
    else match proto.bodyLength(p.start, headers)
      case None => Outcome(p1, s1, Invalid, None)
      case Some(n) =>
        if n > 0 then ReadBody(p1.(stage := Body, contentLength := n, body := ""), s1)
        else Outcome(FRESH.(skipLf := p1.skipLf), s1, Complete, Some(Message(p.start, headers, "")))
  }

  function RunStart(proto: Protocol, p: Parser, s: Stream): (o: Outcome)
    requires ValidStream(s) && p.stage == StartLine
    ensures ValidStream(o.stream) && o.stream.text == s.text && ValidParser(o.parser)
    ensures o.status == Incomplete ==> s.pos <= o.stream.pos && IsEos(o.stream)
    ensures o.status != Incomplete ==> s.pos < o.stream.pos
    ensures o.status == Complete <==> o.message.Some?
  {
    var (s1, line) := ReadLine(s);
    if line.None? || !proto.accepts(line.value) then
      Outcome(p, s1, if IsEos(s1) then Incomplete else Invalid, None)
    else RunHeader(proto, MarkSplit(p.(stage := HeaderSection, start := line.value, headers := []), s1), s1)
  }

  /** apt_message_parser_run */
  function Run(proto: Protocol, p: Parser, s: Stream): (o: Outcome)
    requires ValidStream(s) && ValidParser(p)
    ensures ValidStream(o.stream) && o.stream.text == s.text && ValidParser(o.parser)
    ensures o.status == Incomplete ==> s.pos <= o.stream.pos && IsEos(o.stream)
    ensures o.status != Incomplete ==> s.pos < o.stream.pos
    ensures o.status == Complete <==> o.message.Some?
  {
    var s0 := if p.skipLf && s.pos < |s.text| && s.text[s.pos] == LF then s.(pos := s.pos + 1) else s;
    var p0 := p.(skipLf := false);
    match p.stage
    case StartLine => RunStart(proto, p0, s0)
    case HeaderSection => RunHeader(proto, p0, s0)
    case Body => ReadBody(p0, s0)
  }

  // ---------- a connection ----------

  /** Parser, unread tail and messages so far. */
  datatype Connection = Connection(parser: Parser, tail: string, messages: seq<Message>)

  const OPENED := Connection(FRESH, "", [])

  /** The loop that runs the parser to the end of the stream.  It goes on after an
      invalid message, of which nothing is passed on. */
  function Drain(proto: Protocol, p: Parser, s: Stream, messages: seq<Message>): (c: Connection)
    requires ValidStream(s) && ValidParser(p)
    ensures ValidParser(c.parser)
    decreases |s.text| - s.pos
  {
    var o := Run(proto, p, s);
    var messages1 := if o.message.Some? then messages + [o.message.value] else messages;
    if IsEos(o.stream) then Connection(o.parser, o.stream.text[o.stream.pos..], messages1)
    else Drain(proto, o.parser, o.stream, messages1)
  }

  /** A segment arrives. */
  function Receive(proto: Protocol, c: Connection, segment: string): (r: Connection)
    requires ValidParser(c.parser)
    ensures ValidParser(r.parser)
  {
    if segment == "" then c
    else Drain(proto, c.parser, Stream(c.tail + segment, 0, false), c.messages)
  }

  function ReceiveAll(proto: Protocol, c: Connection, segments: seq<string>): (r: Connection)
    requires ValidParser(c.parser)
    ensures ValidParser(r.parser)
    decreases |segments|
  {
    if segments == [] then c else ReceiveAll(proto, Receive(proto, c, segments[0]), segments[1..])
  }

  function Concat(segments: seq<string>): string {
    if segments == [] then "" else segments[0] + Concat(segments[1..])
  }
}
