/** What becomes of a connection after a message that its protocol rejects.  Rejected
    start lines are dropped, and the messages around them are read.  A rejected header
    section is not left: what follows is taken for more headers of the same message. */
module MessageRejects {
  import opened TextStream
  import opened MessageModel
  import opened MessageSegments
  import opened MessageWire

  // ---------- rejected start lines ----------

  datatype Item = Junk(line: string) | Good(m: Sent)

  function ItemText(item: Item): string {
    match item
    case Junk(line) => line + CRLF
    case Good(m) => WireText(m)
  }

  function ItemsText(items: seq<Item>): string {
    if items == [] then "" else ItemText(items[0]) + ItemsText(items[1..])
  }

  function GoodOf(item: Item): seq<Message> {
    if item.Good? then [ReadOf(item.m)] else []
  }

  function Goods(items: seq<Item>): seq<Message> {
    if items == [] then [] else GoodOf(items[0]) + Goods(items[1..])
  }

  predicate ItemOk(proto: Protocol, item: Item) {
    match item
    case Junk(line) => NoEol(line) && !proto.accepts(line)
    case Good(m) => WellFormed(proto, m)
  }

  lemma JunkIsDropped(proto: Protocol, messages: seq<Message>, line: string)
    requires NoEol(line) && !proto.accepts(line) && !proto.accepts("")
    ensures Feed(proto, At(FRESH, messages), line + CRLF) == At(FRESH, messages)
  {
    hide Feed;
    FeedCrlfLine(proto, FRESH, messages, line);
  }

  lemma FeedItem(proto: Protocol, messages: seq<Message>, item: Item)
    requires !proto.accepts("") && ItemOk(proto, item)
    ensures Feed(proto, At(FRESH, messages), ItemText(item)) == At(FRESH, messages + GoodOf(item))
  {
    hide Feed, WireText, ReadOf, WellFormed, NoEol;
    match item
    case Junk(line) =>
      JunkIsDropped(proto, messages, line);
      assert messages + [] == messages;
    case Good(m) => FeedMessage(proto, messages, m);
  }

  lemma {:induction false} FeedItems(proto: Protocol, messages: seq<Message>, items: seq<Item>)
    requires !proto.accepts("") && forall i :: 0 <= i < |items| ==> ItemOk(proto, items[i])
    ensures Feed(proto, At(FRESH, messages), ItemsText(items)) == At(FRESH, messages + Goods(items))
    decreases |items|
  {
    hide Feed, ItemText, GoodOf, ItemOk;
    if items == [] {
      assert messages + [] == messages;
      FeedEmpty(proto, At(FRESH, messages));
    } else {
      FeedItem(proto, messages, items[0]);
      FeedConcat(proto, At(FRESH, messages), ItemText(items[0]), ItemsText(items[1..]));
      FeedItems(proto, messages + GoodOf(items[0]), items[1..]);
      assert messages + GoodOf(items[0]) + Goods(items[1..]) == messages + Goods(items);
    }
  }

  /** However messages and lines that are no start lines are mixed, and however their
      text is cut: exactly the messages are read, and nothing is kept back. */
  lemma RejectedStartLinesAreDropped(proto: Protocol, items: seq<Item>, segments: seq<string>)
    requires !proto.accepts("") && forall i :: 0 <= i < |items| ==> ItemOk(proto, items[i])
    requires Concat(segments) == ItemsText(items)
    ensures ReceiveAll(proto, OPENED, segments) == Connection(FRESH, "", Goods(items))
  {
    hide Feed, ItemOk;
    FeedItems(proto, [], items);
    assert [] + Goods(items) == Goods(items);
    EmptyWaits(FRESH);
    ReceiveAllFeeds(proto, OPENED, segments);
  }

  /** A protocol that takes an empty start line is told apart from others by a cut
      between CR and LF behind a rejected one: the LF is then a start line. */
  lemma EmptyStartLineMatters(proto: Protocol, line: string)
    requires proto.accepts("") && NoEol(line) && !proto.accepts(line)
    ensures ReceiveAll(proto, OPENED, [line + CRLF]) != ReceiveAll(proto, OPENED, [line + [CR], [LF]])
  {
    hide Receive, ReadLine;
    RejectedAlone(proto, line, CRLF);
    RejectedAlone(proto, line, [CR]);
    var rest := [line + [CR], [LF]][1..];
    assert rest == [[LF]];
    assert ReceiveAll(proto, OPENED, [line + CRLF]) == Receive(proto, OPENED, line + CRLF);
    assert ReceiveAll(proto, OPENED, [[LF]]) == Receive(proto, OPENED, [LF]);
    LfIsALine(proto);
  }

  lemma RejectedAlone(proto: Protocol, line: string, eol: string)
    requires NoEol(line) && !proto.accepts(line) && (eol == CRLF || eol == [CR])
    ensures Receive(proto, OPENED, line + eol) == OPENED
  {
    var text := line + eol;
    assert "" + text == text && EolAt(text, 0) == |line| by { EolIs(text, 0, |line|); }
    assert text[0..|line|] == line;
    assert Run(proto, FRESH, Stream(text, 0, false)) == Outcome(FRESH, Stream(text, |text|, false), Incomplete, None);
  }

  lemma LfIsALine(proto: Protocol)
    requires proto.accepts("")
    ensures Receive(proto, OPENED, [LF]).parser.stage == HeaderSection
  {
    var text: string := [LF];
    assert "" + text == text && EolAt(text, 0) == 0 && text[0..0] == "";
    var s1 := Stream(text, 1, false);
    assert EolAt(text, 1) == 1;
    assert ParseSection(s1, []) == (Stream(text, 1, true), [], false);
  }

  // ---------- rejected header sections ----------

  /** Start line and header lines, up to the blank line. */
  function Head(m: Sent): string {
    m.start + CRLF + LinesText(m.lines) + CRLF
  }

  ghost predicate HeadOk(m: Sent) {
    NoEol(m.start) && forall i :: 0 <= i < |m.lines| ==> Unfolded(m.lines[i])
  }

  /** A message comes after one whose header section was rejected: its start line is
      read as a header line, its headers are added to those of the rejected message, and
      the two together are judged again as one. */
  lemma RejectedMessageTakesTheNext(proto: Protocol, messages: seq<Message>, m: Sent, next: Sent)
    requires HeadOk(m) && HeadOk(next) && Unfolded(next.start) && proto.accepts(m.start)
    requires proto.bodyLength(m.start, HeadersOf(m.lines)).None?
    ensures var both := HeadersOf(m.lines) + (FieldOf(next.start) + HeadersOf(next.lines));
      Feed(proto, At(FRESH, messages), Head(m) + Head(next)) ==
        EndOfHeaders(proto, At(FRESH, messages), Parser(HeaderSection, false, m.start, both, 0, ""))
  {
    hide Feed, HeadersOf, LinesText, EndOfHeaders, Unfolded, NoEol, FieldOf;
    var p := Parser(HeaderSection, false, m.start, [], 0, "");
    FeedCrlfLine(proto, FRESH, messages, m.start);
    SectionEnds(proto, p, messages, m.lines);
    FeedConcat(proto, At(FRESH, messages), m.start + CRLF, LinesText(m.lines) + CRLF);
    assert Head(m) == m.start + CRLF + (LinesText(m.lines) + CRLF);
    assert [] + HeadersOf(m.lines) == HeadersOf(m.lines);
    var p1 := p.(headers := HeadersOf(m.lines));
    RejectedStays(proto, p1, messages);
    FeedConcat(proto, At(FRESH, messages), Head(m), Head(next));
    var lines := [next.start] + next.lines;
    SectionEnds(proto, p1, messages, lines);
    HeadIsLines(next);
  }

  lemma HeadIsLines(m: Sent)
    ensures LinesText([m.start] + m.lines) + CRLF == Head(m)
    ensures HeadersOf([m.start] + m.lines) == FieldOf(m.start) + HeadersOf(m.lines)
  {
    assert ([m.start] + m.lines)[1..] == m.lines;
  }

  lemma RejectedStays(proto: Protocol, p: Parser, messages: seq<Message>)
    requires proto.bodyLength(p.start, p.headers).None?
    ensures EndOfHeaders(proto, At(FRESH, messages), p) == At(p, messages)
  {
  }

  /** Header lines and a blank line. */
  lemma SectionEnds(proto: Protocol, p: Parser, messages: seq<Message>, lines: seq<string>)
    requires LineStage(p) && p.stage == HeaderSection && forall i :: 0 <= i < |lines| ==> Unfolded(lines[i])
    ensures Feed(proto, At(p, messages), LinesText(lines) + CRLF) ==
      EndOfHeaders(proto, At(FRESH, messages), p.(headers := p.headers + HeadersOf(lines)))
  {
    hide Feed, HeadersOf, LinesText, EndOfHeaders, Unfolded;
    FeedHeaderLines(proto, p, messages, lines);
    FeedConcat(proto, At(p, messages), LinesText(lines), CRLF);
    var p1 := p.(headers := p.headers + HeadersOf(lines));
    FeedCrlfLine(proto, p1, messages, "");
    assert "" + CRLF == CRLF && p1.(skipLf := false) == p1;
    assert HeaderOf("") == Blank;
    EndOfHeadersIgnoresParser(proto, At(p1, messages), At(FRESH, messages), p1);
  }

  // ---------- whether anything is read again ----------

  ghost predicate AllUnfolded(lines: seq<string>) {
    forall i :: 0 <= i < |lines| ==> Unfolded(lines[i])
  }

  /** No further header lines make the protocol accept the section. */
  ghost predicate Deaf(proto: Protocol, p: Parser) {
    forall lines :: AllUnfolded(lines) ==> proto.bodyLength(p.start, p.headers + HeadersOf(lines)).None?
  }

  /** The reader is within such a section, for good or because the text was folded. */
  ghost predicate Lost(proto: Protocol, r: Reader, messages: seq<Message>) {
    && r.messages == messages
    && (r.bad || (r.parser.stage == HeaderSection && Deaf(proto, r.parser) && (r.line == "" || Unfolded(r.line))))
  }

  lemma DeafWithLine(proto: Protocol, p: Parser, line: string)
    requires Deaf(proto, p) && Unfolded(line)
    ensures Deaf(proto, p.(headers := p.headers + FieldOf(line)))
  {
    hide FieldOf, Unfolded;
    var p1 := p.(headers := p.headers + FieldOf(line));
    forall lines | AllUnfolded(lines)
      ensures proto.bodyLength(p1.start, p1.headers + HeadersOf(lines)).None?
    {
      var all := [line] + lines;
      assert all[0] == line && all[1..] == lines && AllUnfolded(all);
      assert p1.headers + HeadersOf(lines) == p.headers + HeadersOf(all);
    }
  }

  lemma DeafNow(proto: Protocol, p: Parser)
    requires Deaf(proto, p)
    ensures proto.bodyLength(p.start, p.headers).None?
  {
    assert AllUnfolded([]) && p.headers + HeadersOf([]) == p.headers;
  }

  lemma LostLine(proto: Protocol, r: Reader, cr: bool)
    requires !r.bad && r.parser.stage == HeaderSection && Deaf(proto, r.parser) && (r.line == "" || Unfolded(r.line))
    ensures Lost(proto, EndOfLine(proto, r, cr), r.messages)
  {
    hide HeaderOf, HeadersOf, Unfolded, Deaf;
    var p := r.parser.(skipLf := cr);
    DeafIgnoresSkip(proto, r.parser, p);
    DeafNow(proto, p);
    if HeaderOf(r.line).Field? {
      assert HeaderOf("") == Blank by { EmptyIsBlank(); }
      DeafWithLine(proto, p, r.line);
    }
  }

  lemma EmptyIsBlank()
    ensures HeaderOf("") == Blank
  {
  }

  lemma DeafIgnoresSkip(proto: Protocol, p: Parser, q: Parser)
    requires Deaf(proto, p) && q.start == p.start && q.headers == p.headers
    ensures Deaf(proto, q)
  {
  }

  lemma LostChar(proto: Protocol, r: Reader, messages: seq<Message>, c: char)
    requires Lost(proto, r, messages)
    ensures Lost(proto, FeedChar(proto, r, c), messages)
  {
    hide Deaf, EndOfLine;
    if !r.bad {
      var r0 := r.(parser := r.parser.(skipLf := false));
      DeafIgnoresSkip(proto, r.parser, r0.parser);
      if IsEol(c) {
        LostLine(proto, r0, c == CR);
      }
    }
  }

  lemma {:induction false} LostText(proto: Protocol, r: Reader, messages: seq<Message>, text: string)
    requires Lost(proto, r, messages)
    ensures Lost(proto, Feed(proto, r, text), messages)
    decreases |text|
  {
    hide Lost, FeedChar;
    if text != "" {
      LostChar(proto, r, messages, text[0]);
      LostText(proto, FeedChar(proto, r, text[0]), messages, text[1..]);
    }
  }

  /** The text reads a message. */
  ghost predicate Hears(proto: Protocol, p: Parser, messages: seq<Message>, text: string) {
    var r := Feed(proto, At(p, messages), text); !r.bad && r.messages != messages
  }

  /** A header section that makes the protocol accept, with a body of the length it asks for. */
  lemma AcceptedIsHeard(proto: Protocol, p: Parser, messages: seq<Message>, lines: seq<string>) returns (text: string)
    requires LineStage(p) && p.stage == HeaderSection && AllUnfolded(lines)
    requires proto.bodyLength(p.start, p.headers + HeadersOf(lines)).Some?
    ensures Hears(proto, p, messages, text)
  {
    hide Feed, HeadersOf, LinesText, Unfolded;
    var p1 := p.(headers := p.headers + HeadersOf(lines));
    var body := seq(proto.bodyLength(p1.start, p1.headers).value, i => 'x');
    FeedHeaderLines(proto, p, messages, lines);
    FeedBlankAndBody(proto, p1, messages, body);
    FeedConcat(proto, At(p, messages), LinesText(lines), CRLF + body);
    text := LinesText(lines) + (CRLF + body);
    assert |messages + [Message(p1.start, p1.headers, body)]| == |messages| + 1;
  }

  /** Within a header section, after a rejection or not, some unfolded text still reads a
      message if and only if some further header lines make the protocol accept. */
  lemma HearsIffNotDeaf(proto: Protocol, p: Parser, messages: seq<Message>)
    requires LineStage(p) && p.stage == HeaderSection
    ensures (exists text :: Hears(proto, p, messages, text)) <==> !Deaf(proto, p)
  {
    hide HeadersOf, Feed, AllUnfolded;
    if Deaf(proto, p) {
      forall text ensures !Hears(proto, p, messages, text) {
        LostText(proto, At(p, messages), messages, text);
      }
    } else {
      var lines :| AllUnfolded(lines) && proto.bodyLength(p.start, p.headers + HeadersOf(lines)).Some?;
      var text := AcceptedIsHeard(proto, p, messages, lines);
    }
  }

  /** A connection that is deaf reads no message any more, whatever segments arrive. */
  lemma DeafForEver(proto: Protocol, c: Connection, segments: seq<string>)
    requires Waiting(c.parser, c.tail) && c.parser.stage == HeaderSection && Deaf(proto, c.parser)
    requires !Feed(proto, ReaderOf(c), Concat(segments)).bad
    ensures ReceiveAll(proto, c, segments).messages == c.messages
  {
    hide Feed, Deaf;
    ReceiveAllFeeds(proto, c, segments);
    LostText(proto, ReaderOf(c), c.messages, Concat(segments));
  }
}
