/** However the bytes of a connection are cut into segments, the parser reads
    the same messages: it behaves as a reader that takes one character at a
    time and never looks at a segment. */
module MessageSegments {
  import opened TextStream
  import opened MessageModel

  // ---------- reading one character at a time ----------

  /** The parser, the characters of the current line, the messages read, and
      whether the text left the grammar: a header line that starts with white space,
      or a rejected start line where the protocol takes an empty one. */
  datatype Reader = Reader(parser: Parser, line: string, messages: seq<Message>, bad: bool)

  function At(p: Parser, messages: seq<Message>): Reader {
    Reader(p, "", messages, false)
  }

  function Left(messages: seq<Message>): Reader {
    Reader(FRESH, "", messages, true)
  }

  function Finish(r: Reader, p: Parser): Reader {
    At(FRESH.(skipLf := p.skipLf), r.messages + [Message(p.start, p.headers, p.body)])
  }

  function EndOfHeaders(proto: Protocol, r: Reader, p: Parser): Reader {
    match proto.bodyLength(p.start, p.headers)
    case None => At(p, r.messages)
    case Some(n) =>
      if n > 0 then At(p.(stage := Body, contentLength := n, body := ""), r.messages)
      else Finish(r, p.(body := ""))
  }

  /** A rejected start line is dropped; a rejected header section goes on. */
  function EndOfLine(proto: Protocol, r: Reader, cr: bool): Reader {
    var p := r.parser.(skipLf := cr);
    if p.stage == StartLine then
      if proto.accepts(r.line) then At(p.(stage := HeaderSection, start := r.line, headers := []), r.messages)
      else if proto.accepts("") then Left(r.messages)
      else At(r.parser, r.messages)
    else match HeaderOf(r.line)
      case Blank => EndOfHeaders(proto, r, p)
      case Field(name, value) => At(p.(headers := p.headers + [Header(name, value)]), r.messages)
      case _ => At(p, r.messages)
  }

  function BodyChar(r: Reader, c: char): Reader {
    var p := r.parser.(body := r.parser.body + [c]);
    if |p.body| == p.contentLength then Finish(r, p) else r.(parser := p)
  }

  function FeedChar(proto: Protocol, r: Reader, c: char): Reader {
    if r.bad then r
    else
      var r0 := r.(parser := r.parser.(skipLf := false));
      if r.parser.skipLf && c == LF then r0
      else if r.parser.stage == Body then BodyChar(r0, c)
      else if IsEol(c) then EndOfLine(proto, r0, c == CR)
      else if r.parser.stage == HeaderSection && r.line == "" && IsWsp(c) then Left(r.messages)
      else r0.(line := r.line + [c])
  }

  function Feed(proto: Protocol, r: Reader, s: string): Reader
    decreases |s|
  {
    if s == "" then r else Feed(proto, FeedChar(proto, r, s[0]), s[1..])
  }

  lemma {:induction false} FeedConcat(proto: Protocol, r: Reader, a: string, b: string)
    ensures Feed(proto, r, a + b) == Feed(proto, Feed(proto, r, a), b)
    decreases |a|
  {
    hide FeedChar;
    if a == "" {
      assert a + b == b;
    } else {
      assert (a + b)[0] == a[0] && (a + b)[1..] == a[1..] + b;
      FeedConcat(proto, FeedChar(proto, r, a[0]), a[1..], b);
    }
  }

  lemma {:induction false} BadStays(proto: Protocol, r: Reader, s: string)
    requires r.bad
    ensures Feed(proto, r, s) == r
    decreases |s|
  {
    if s != "" {
      BadStays(proto, FeedChar(proto, r, s[0]), s[1..]);
    }
  }

  // ---------- lines ----------

  predicate LineStage(p: Parser) {
    p.stage != Body && !p.skipLf
  }

  /** Characters that may extend the current line. */
  predicate MayExtend(r: Reader, s: string) {
    NoEol(s) && (r.parser.stage == HeaderSection && r.line == "" && s != "" ==> !IsWsp(s[0]))
  }

  lemma {:induction false} FeedExtends(proto: Protocol, r: Reader, s: string)
    requires !r.bad && LineStage(r.parser) && MayExtend(r, s)
    ensures Feed(proto, r, s) == r.(line := r.line + s)
    decreases |s|
  {
    if s == "" {
      assert r.line + s == r.line;
    } else {
      var r1 := FeedChar(proto, r, s[0]);
      assert r1 == r.(line := r.line + [s[0]]);
      FeedExtends(proto, r1, s[1..]);
      assert r.line + [s[0]] + s[1..] == r.line + s;
    }
  }

  lemma WspIsBad(proto: Protocol, r: Reader, s: string)
    requires !r.bad && r.parser.stage == HeaderSection && r.line == "" && s != "" && IsWsp(s[0])
    ensures Feed(proto, r, s).bad
  {
    BadStays(proto, FeedChar(proto, r, s[0]), s[1..]);
  }

  /** The segment ends right after a CR. */
  predicate SplitAt(text: string, pos: nat) {
    pos == |text| && pos > 0 && text[pos - 1] == CR
  }

  lemma SkipUnused(proto: Protocol, r: Reader, s: string)
    requires !r.bad && s != "" && (r.parser.skipLf ==> s[0] != LF)
    ensures Feed(proto, r, s) == Feed(proto, r.(parser := r.parser.(skipLf := false)), s)
  {
  }

  lemma SkipUsed(proto: Protocol, r: Reader, s: string)
    requires !r.bad && r.parser.skipLf && s != "" && s[0] == LF
    ensures Feed(proto, r, s) == Feed(proto, r.(parser := r.parser.(skipLf := false)), s[1..])
  {
  }

  /** The line is a start line, and dropped. */
  predicate Drops(proto: Protocol, r: Reader) {
    r.parser.stage == StartLine && !proto.accepts(r.line) && !proto.accepts("")
  }

  lemma EndOfLineSkip(proto: Protocol, r: Reader, cr: bool)
    requires LineStage(r.parser)
    ensures var a, b := EndOfLine(proto, r, cr), EndOfLine(proto, r, false);
      && b == a.(parser := a.parser.(skipLf := false)) && (a.bad || Drops(proto, r) ==> a == b)
      && (!a.bad && !Drops(proto, r) ==> a.parser.skipLf == cr)
      && (Drops(proto, r) ==> a == At(r.parser, r.messages))
  {
  }

  /** After a dropped line a line feed makes no difference. */
  lemma EmptyLineDrops(proto: Protocol, p: Parser, messages: seq<Message>, s: string)
    requires LineStage(p) && p.stage == StartLine && !proto.accepts("") && s != "" && s[0] == LF
    ensures Feed(proto, At(p, messages), s) == Feed(proto, At(p, messages), s[1..])
  {
    assert FeedChar(proto, At(p, messages), s[0]) == At(p, messages);
  }

  /** The end of the line at e: what follows CR or CRLF is read from the next line on. */
  lemma FeedEol(proto: Protocol, r: Reader, text: string, e: nat)
    requires !r.bad && LineStage(r.parser) && e < |text| && IsEol(text[e])
    ensures var n := AfterEol(text, e);
      Feed(proto, r, text[e..]) == Feed(proto, EndOfLine(proto, r, SplitAt(text, n)), text[n..])
  {
    hide EndOfLine;
    var n := AfterEol(text, e);
    var r1 := EndOfLine(proto, r, text[e] == CR);
    EndOfLineSkip(proto, r, text[e] == CR);
    EndOfLineSkip(proto, r, SplitAt(text, n));
    assert r.(parser := r.parser.(skipLf := false)) == r;
    assert FeedChar(proto, r, text[e]) == r1;
    assert text[e..][1..] == text[e + 1..];
    assert Feed(proto, r, text[e..]) == Feed(proto, r1, text[e + 1..]);
    if r1.bad {
      BadStays(proto, r1, text[e + 1..]);
      BadStays(proto, r1, text[n..]);
    } else if e + 1 < |text| {
      if n == e + 2 && Drops(proto, r) {
        EmptyLineDrops(proto, r.parser, r.messages, text[e + 1..]);
        assert text[e + 1..][1..] == text[n..];
      } else if n == e + 2 {
        SkipUsed(proto, r1, text[e + 1..]);
        assert text[e + 1..][1..] == text[n..];
      } else {
        SkipUnused(proto, r1, text[e + 1..]);
      }
    }
  }

  /** Reading a line of the stream is feeding its characters. */
  lemma LineFeeds(proto: Protocol, p: Parser, messages: seq<Message>, s: Stream)
    requires ValidStream(s) && LineStage(p)
    requires p.stage == HeaderSection && s.pos < |s.text| ==> !IsWsp(s.text[s.pos])
    ensures var (s1, line) := ReadLine(s);
      Feed(proto, At(p, messages), s.text[s.pos..]) ==
        if line.None? then At(p, messages).(line := s.text[s.pos..])
        else Feed(proto, EndOfLine(proto, At(p, messages).(line := line.value), SplitAt(s1.text, s1.pos)), s1.text[s1.pos..])
  {
    hide EndOfLine, FeedChar;
    var r := At(p, messages);
    var e := EolAt(s.text, s.pos);
    var line := s.text[s.pos..e];
    FeedExtends(proto, r, line);
    assert r.line + line == line;
    assert s.text[s.pos..] == line + s.text[e..];
    FeedConcat(proto, r, line, s.text[e..]);
    if e < |s.text| {
      FeedEol(proto, r.(line := line), s.text, e);
    }
  }

  // ---------- bodies ----------

  lemma {:induction false} BodyFeeds(proto: Protocol, r: Reader, s: string)
    requires !r.bad && r.parser.stage == Body && !r.parser.skipLf && |r.parser.body| < r.parser.contentLength && r.line == ""
    ensures var required := r.parser.contentLength - |r.parser.body|;
      Feed(proto, r, s) ==
        if |s| < required then r.(parser := r.parser.(body := r.parser.body + s))
        else Feed(proto, Finish(r, r.parser.(body := r.parser.body + s[..required])), s[required..])
    decreases |s|
  {
    var p := r.parser;
    var required := p.contentLength - |p.body|;
    if s == "" {
      assert p.body + s == p.body;
    } else {
      var p1 := p.(body := p.body + [s[0]]);
      assert p1.skipLf == p.skipLf;
      assert FeedChar(proto, r, s[0]) == BodyChar(r, s[0]);
      if required == 1 {
        assert s[..1] == [s[0]];
      } else {
        var r1 := r.(parser := p1);
        BodyFeeds(proto, r1, s[1..]);
        assert p1.body + s[1..] == p.body + s;
        if |s| >= required {
          assert p1.body + s[1..][..required - 1] == p.body + s[..required];
          assert s[1..][required - 1..] == s[required..];
        }
      }
    }
  }

  // ---------- header sections ----------

  /** What is left when no complete message is there yet: possibly a piece of a line. */
  predicate Waiting(p: Parser, tail: string) {
    ValidParser(p) && (tail != "" ==> LineStage(p) && MayExtend(At(p, []), tail))
  }

  lemma NoContinuation(proto: Protocol, p: Parser, messages: seq<Message>, s: Stream)
    requires ValidStream(s) && p.stage == HeaderSection && !Feed(proto, At(p, messages), s.text[s.pos..]).bad
    ensures Continuation(s) == (s, "")
  {
    if s.pos < |s.text| && IsWsp(s.text[s.pos]) {
      WspIsBad(proto, At(p, messages), s.text[s.pos..]);
    }
  }

  /** One header line, as the section loop reads it. */
  lemma FieldFeeds(proto: Protocol, p: Parser, messages: seq<Message>, s: Stream)
    requires ValidStream(s) && LineStage(p) && p.stage == HeaderSection
    requires !Feed(proto, At(p, messages), s.text[s.pos..]).bad
    ensures var (s1, h) := ParseField(s);
      var p1 := p.(skipLf := SplitAt(s1.text, s1.pos));
      && (s.pos < |s.text| ==> !IsWsp(s.text[s.pos]))
      && (!h.NoLine? ==> s1.eos == s.eos)
      && Feed(proto, At(p, messages), s.text[s.pos..]) ==
           match h
           case NoLine => At(p, messages).(line := s.text[s.pos..])
           case Blank => Feed(proto, EndOfHeaders(proto, At(p, messages), p1), s1.text[s1.pos..])
           case Malformed => Feed(proto, At(p1, messages), s1.text[s1.pos..])
           case Field(name, value) => Feed(proto, At(p1.(headers := p.headers + [Header(name, value)]), messages), s1.text[s1.pos..])
  {
    hide Feed, FeedChar, EndOfHeaders, Continuation, HeaderOf;
    if s.pos < |s.text| && IsWsp(s.text[s.pos]) {
      WspIsBad(proto, At(p, messages), s.text[s.pos..]);
    }
    LineFeeds(proto, p, messages, s);
    var (s1, line) := ReadLine(s);
    if line.Some? {
      var r := At(p, messages).(line := line.value);
      EndOfHeadersIgnoresLine(proto, r, p.(skipLf := SplitAt(s1.text, s1.pos)));
      var h := HeaderOf(line.value);
      if h.Field? {
        var p1 := p.(skipLf := SplitAt(s1.text, s1.pos), headers := p.headers + [Header(h.name, h.value)]);
        NoContinuation(proto, p1, messages, s1);
        assert h.value + "" == h.value;
      }
    }
  }

  lemma EndOfHeadersIgnoresLine(proto: Protocol, r: Reader, p: Parser)
    ensures EndOfHeaders(proto, r, p) == EndOfHeaders(proto, At(r.parser, r.messages), p)
  {
  }

  lemma {:induction false} SectionFeeds(proto: Protocol, p: Parser, messages: seq<Message>, s: Stream)
    requires ValidStream(s) && !s.eos && LineStage(p) && p.stage == HeaderSection && !SplitAt(s.text, s.pos)
    requires !Feed(proto, At(p, messages), s.text[s.pos..]).bad
    ensures var (s1, headers, done) := ParseSection(s, p.headers);
      var p1 := MarkSplit(p.(headers := headers), s1);
      && Feed(proto, At(p, messages), s.text[s.pos..]) ==
           (if done then Feed(proto, EndOfHeaders(proto, At(p, messages), p1), s1.text[s1.pos..])
            else Reader(p1, s1.text[s1.pos..], messages, false))
      && (if done then !s1.eos else Waiting(p1, s1.text[s1.pos..]))
    decreases |s.text| - s.pos
  {
    hide Feed, FeedChar, EndOfHeaders, ParseField;
    FieldFeeds(proto, p, messages, s);
    var (s1, h) := ParseField(s);
    if h.NoLine? {
      NoLineLeft(s);
    } else if !h.Blank? {
      var p1 := p.(skipLf := SplitAt(s1.text, s1.pos),
                   headers := if h.Field? then p.headers + [Header(h.name, h.value)] else p.headers);
      if IsEos(s1) {
        FeedNothing(proto, At(p1, messages), s1);
      } else {
        SectionFeeds(proto, p1, messages, s1);
        EndOfHeadersIgnoresParser(proto, At(p1, messages), At(p, messages),
                                  MarkSplit(p1.(headers := ParseSection(s1, p1.headers).1), ParseSection(s1, p1.headers).0));
      }
    }
  }

  lemma EndOfHeadersIgnoresParser(proto: Protocol, r: Reader, q: Reader, p: Parser)
    requires r.messages == q.messages
    ensures EndOfHeaders(proto, r, p) == EndOfHeaders(proto, q, p)
  {
  }

  lemma NoLineLeft(s: Stream)
    requires ValidStream(s) && ParseField(s).1.NoLine?
    ensures ParseField(s).0 == s.(eos := true) && NoEol(s.text[s.pos..])
  {
    assert s.text[s.pos..|s.text|] == s.text[s.pos..];
  }

  lemma FeedNothing(proto: Protocol, r: Reader, s: Stream)
    requires s.pos == |s.text|
    ensures Feed(proto, r, s.text[s.pos..]) == r
  {
  }

  // ---------- runs ----------

  function Adding(messages: seq<Message>, message: Option<Message>): seq<Message> {
    if message.Some? then messages + [message.value] else messages
  }

  /** A run agrees with the reader: an incomplete one leaves the reader waiting, any
      other leaves the rest of the text to be read after the message, if it was valid. */
  ghost predicate Agrees(proto: Protocol, p: Parser, messages: seq<Message>, s: Stream, o: Outcome) {
    && ValidStream(s) && ValidStream(o.stream)
    && (o.status == Complete <==> o.message.Some?)
    && Feed(proto, At(p, messages), s.text[s.pos..]) ==
         (if o.status != Incomplete then
            Feed(proto, At(o.parser, Adding(messages, o.message)), o.stream.text[o.stream.pos..])
          else Reader(o.parser, o.stream.text[o.stream.pos..], messages, false))
    && (o.status != Incomplete ==> !o.stream.eos)
    && (o.status == Incomplete ==> Waiting(o.parser, o.stream.text[o.stream.pos..]))
  }

  lemma BodyAgrees(proto: Protocol, p: Parser, messages: seq<Message>, s: Stream)
    requires ValidStream(s) && !s.eos && p.stage == Body && ValidParser(p)
    requires p.skipLf ==> s.pos == |s.text|
    ensures Agrees(proto, p, messages, s, ReadBody(p, s))
  {
    hide FeedChar;
    var rest := s.text[s.pos..];
    var required := p.contentLength - |p.body|;
    if p.skipLf {
      assert rest == "" && p.body + rest == p.body;
    } else {
      BodyFeeds(proto, At(p, messages), rest);
      if required <= |rest| {
        assert rest[..required] == s.text[s.pos..s.pos + required];
        assert rest[required..] == s.text[s.pos + required..];
      }
    }
  }

  lemma SplitBeforeSection(proto: Protocol, p: Parser, messages: seq<Message>, s: Stream)
    requires ValidStream(s) && p.stage == HeaderSection && p.skipLf && s.pos == |s.text|
    ensures Agrees(proto, p, messages, s, RunHeader(proto, p, s))
  {
    assert ReadLine(s) == (s.(eos := true), None);
    assert s.text[s.pos..] == "";
  }

  lemma HeaderAgrees(proto: Protocol, p: Parser, messages: seq<Message>, s: Stream)
    requires ValidStream(s) && !s.eos && LineStage(p) && p.stage == HeaderSection && !SplitAt(s.text, s.pos)
    requires !Feed(proto, At(p, messages), s.text[s.pos..]).bad
    ensures Agrees(proto, p, messages, s, RunHeader(proto, p, s))
  {
    hide Feed, ParseSection, Waiting;
    SectionFeeds(proto, p, messages, s);
    var (s1, headers, done) := ParseSection(s, p.headers);
    if done {
      var p1 := MarkSplit(p.(headers := headers), s1);
      match proto.bodyLength(p.start, headers)
      case None =>
      case Some(n) =>
        if n > 0 {
          BodyAgrees(proto, p1.(stage := Body, contentLength := n, body := ""), messages, s1);
        }
    }
  }

  lemma StartAgrees(proto: Protocol, p: Parser, messages: seq<Message>, s: Stream)
    requires ValidStream(s) && !s.eos && LineStage(p) && p.stage == StartLine
    requires !Feed(proto, At(p, messages), s.text[s.pos..]).bad
    ensures Agrees(proto, p, messages, s, RunStart(proto, p, s))
  {
    hide Feed, RunHeader;
    LineFeeds(proto, p, messages, s);
    var (s1, line) := ReadLine(s);
    if line.None? {
      assert s.text[s.pos..|s.text|] == s.text[s.pos..];
    } else if !proto.accepts(line.value) {
      if proto.accepts("") {
        BadStays(proto, Left(messages), s1.text[s1.pos..]);
      }
      if IsEos(s1) {
        FeedNothing(proto, At(p, messages), s1);
      }
    } else {
      var p1 := MarkSplit(p.(stage := HeaderSection, start := line.value, headers := []), s1);
      if p1.skipLf {
        SplitBeforeSection(proto, p1, messages, s1);
      } else {
        HeaderAgrees(proto, p1, messages, s1);
      }
    }
  }

  lemma RunAgrees(proto: Protocol, p: Parser, messages: seq<Message>, s: Stream)
    requires ValidStream(s) && ValidParser(p) && !IsEos(s)
    requires !Feed(proto, At(p, messages), s.text[s.pos..]).bad
    ensures Agrees(proto, p, messages, s, Run(proto, p, s))
  {
    hide Feed, RunHeader, RunStart, ReadBody, Waiting;
    var rest := s.text[s.pos..];
    var p0 := p.(skipLf := false);
    var skip := p.skipLf && s.text[s.pos] == LF;
    var s0 := if skip then s.(pos := s.pos + 1) else s;
    if skip {
      SkipUsed(proto, At(p, messages), rest);
      assert rest[1..] == s0.text[s0.pos..];
    } else {
      SkipUnused(proto, At(p, messages), rest);
    }
    match p.stage
    case StartLine => StartAgrees(proto, p0, messages, s0);
    case HeaderSection => HeaderAgrees(proto, p0, messages, s0);
    case Body => BodyAgrees(proto, p0, messages, s0);
  }

  lemma {:induction false} DrainFeeds(proto: Protocol, p: Parser, messages: seq<Message>, s: Stream)
    requires ValidStream(s) && ValidParser(p) && !IsEos(s)
    requires !Feed(proto, At(p, messages), s.text[s.pos..]).bad
    ensures var c := Drain(proto, p, s, messages);
      && Feed(proto, At(p, messages), s.text[s.pos..]) == Reader(c.parser, c.tail, c.messages, false)
      && Waiting(c.parser, c.tail)
    decreases |s.text| - s.pos
  {
    hide Feed, Run, Waiting;
    RunAgrees(proto, p, messages, s);
    var o := Run(proto, p, s);
    if o.status != Incomplete {
      var messages1 := Adding(messages, o.message);
      if IsEos(o.stream) {
        FeedNothing(proto, At(o.parser, messages1), o.stream);
        EmptyWaits(o.parser);
        assert o.stream.text[o.stream.pos..] == "";
      } else {
        DrainFeeds(proto, o.parser, messages1, o.stream);
      }
    }
  }

  lemma EmptyWaits(p: Parser)
    requires ValidParser(p)
    ensures Waiting(p, "")
  {
  }

  /** What the reader is when the connection is between two segments. */
  function ReaderOf(c: Connection): Reader {
    Reader(c.parser, c.tail, c.messages, false)
  }

  lemma TailFeeds(proto: Protocol, c: Connection)
    requires Waiting(c.parser, c.tail)
    ensures Feed(proto, At(c.parser, c.messages), c.tail) == ReaderOf(c)
  {
    if c.tail != "" {
      FeedExtends(proto, At(c.parser, c.messages), c.tail);
    }
  }

  /** Receiving a segment is feeding its characters. */
  lemma ReceiveFeeds(proto: Protocol, c: Connection, segment: string)
    requires Waiting(c.parser, c.tail)
    requires !Feed(proto, ReaderOf(c), segment).bad
    ensures var r := Receive(proto, c, segment);
      ReaderOf(r) == Feed(proto, ReaderOf(c), segment) && Waiting(r.parser, r.tail)
  {
    hide FeedChar, Drain;
    TailFeeds(proto, c);
    FeedConcat(proto, At(c.parser, c.messages), c.tail, segment);
    if segment != "" {
      var s := Stream(c.tail + segment, 0, false);
      assert s.text[0..] == c.tail + segment;
      DrainFeeds(proto, c.parser, c.messages, s);
    }
  }

  lemma {:induction false} ReceiveAllFeeds(proto: Protocol, c: Connection, segments: seq<string>)
    requires Waiting(c.parser, c.tail)
    requires !Feed(proto, ReaderOf(c), Concat(segments)).bad
    ensures var r := ReceiveAll(proto, c, segments);
      ReaderOf(r) == Feed(proto, ReaderOf(c), Concat(segments)) && Waiting(r.parser, r.tail)
    decreases |segments|
  {
    hide FeedChar, Receive;
    if segments != [] {
      var r1 := Feed(proto, ReaderOf(c), segments[0]);
      FeedConcat(proto, ReaderOf(c), segments[0], Concat(segments[1..]));
      if r1.bad {
        BadStays(proto, r1, Concat(segments[1..]));
      }
      ReceiveFeeds(proto, c, segments[0]);
      ReceiveAllFeeds(proto, Receive(proto, c, segments[0]), segments[1..]);
    }
  }

  /** Two ways of cutting the same text give the same messages and the same state. */
  lemma SegmentationDoesNotMatter(proto: Protocol, segments: seq<string>, others: seq<string>)
    requires Concat(segments) == Concat(others)
    requires !Feed(proto, ReaderOf(OPENED), Concat(segments)).bad
    ensures ReceiveAll(proto, OPENED, segments) == ReceiveAll(proto, OPENED, others)
  {
    EmptyWaits(FRESH);
    ReceiveAllFeeds(proto, OPENED, segments);
    ReceiveAllFeeds(proto, OPENED, others);
  }
}
