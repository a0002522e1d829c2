/** Folded header lines: exactly when it matters where a connection cuts them. */
module MessageFolds {
  import opened TextStream
  import opened MessageModel
  import opened MessageSegments
  import opened MessageWire

  /** A start line and some header lines, each with its end of line. */
  function HeadText(start: string, lines: seq<string>): string {
    start + CRLF + LinesText(lines)
  }

  /** The parser after those lines. */
  function HeadParser(start: string, headers: seq<Header>): Parser {
    Parser(HeaderSection, false, start, headers, 0, "")
  }

  /** Header lines none of which starts with white space, the last one a field. */
  predicate EndsInField(lines: seq<string>) {
    && lines != [] && (forall i :: 0 <= i < |lines| ==> Unfolded(lines[i]))
    && HeaderOf(lines[|lines| - 1]).Field?
  }

  /** What a line adds to the field it continues. */
  function Folded(line: string): string {
    line[SkipWsp(line, 0)..]
  }

  // ---------- the lines in one piece ----------

  /** Skipping white space in a line is skipping it in the text around the line. */
  lemma {:induction false} SkipWspWithin(text: string, pos: nat, line: string, k: nat)
    requires pos + |line| < |text| && !IsWsp(text[pos + |line|]) && k <= |line|
    requires forall i :: 0 <= i < |line| ==> text[pos + i] == line[i]
    ensures SkipWsp(text, pos + k) == pos + SkipWsp(line, k)
    decreases |line| - k
  {
    if k < |line| && IsWsp(line[k]) {
      SkipWspWithin(text, pos, line, k + 1);
    }
  }

  lemma PastFirst(line: string)
    requires line != "" && IsWsp(line[0])
    ensures SkipWsp(line, 0) == SkipWsp(line, 1)
  {
  }

  /** Where the white space of a folded line ends, its text goes on. */
  lemma AfterFold(text: string, pos: nat, line: string)
    requires Follows(text, pos, line + CRLF, "") && NoEol(line) && line != "" && IsWsp(line[0])
    ensures NoEol(Folded(line)) && pos < |text| && text[pos] == line[0] && SkipWsp(text, pos + 1) == pos + SkipWsp(line, 0)
    ensures Follows(text, pos + SkipWsp(line, 0), Folded(line) + CRLF, "")
  {
    hide SkipWsp;
    var here, k := line + CRLF, SkipWsp(line, 0);
    FollowsOn(text, pos, here, "");
    assert forall i :: 0 <= i < |line| ==> text[pos + i] == here[i] == line[i];
    assert text[pos + |line|] == here[|line|] == CR;
    SkipWspWithin(text, pos, line, 1);
    PastFirst(line);
    assert text[pos + k..] == text[pos..][k..] == here[k..];
    assert here[k..] == line[k..] + CRLF + "";
  }

  /** A folded line that ends the text adds what follows its white space. */
  lemma FoldIsAdded(text: string, pos: nat, line: string)
    requires Follows(text, pos, line + CRLF, "") && NoEol(line) && line != "" && IsWsp(line[0])
    ensures Continuation(Stream(text, pos, false)) == (Stream(text, |text|, false), Folded(line))
  {
    hide ReadLine, SkipWsp, Follows, NoEol;
    AfterFold(text, pos, line);
    LineAt(text, pos + SkipWsp(line, 0), Folded(line), "");
    var s1 := Stream(text, |text|, false);
    assert Continuation(s1) == (s1, "");
    assert Folded(line) + "" == Folded(line);
  }

  lemma LinesSplit(lines: seq<string>)
    requires lines != []
    ensures LinesText(lines) == lines[0] + CRLF + LinesText(lines[1..])
  {
  }

  /** The first of several lines ends where the next one starts, not with white space. */
  lemma FirstOfLines(text: string, pos: nat, lines: seq<string>, rest: string)
    requires |lines| > 1 && EndsInField(lines) && Follows(text, pos, LinesText(lines), rest)
    ensures var next := pos + |lines[0]| + 2;
      && ReadLine(Stream(text, pos, false)) == (Stream(text, next, false), Some(lines[0]))
      && next < |text| && !IsWsp(text[next]) && Follows(text, next, LinesText(lines[1..]), rest)
    ensures EndsInField(lines[1..])
  {
    hide ReadLine, HeaderOf, NoEol;
    var tail := LinesText(lines[1..]) + rest;
    LinesSplit(lines);
    LinesSplit(lines[1..]);
    assert LinesText(lines) + rest == lines[0] + CRLF + tail;
    LineAt(text, pos, lines[0], tail);
    assert text[pos + |lines[0]| + 2] == tail[0] == lines[1][0];
  }

  /** Header lines are read one by one, and the folded line goes to the last of them. */
  lemma {:induction false} SectionReadsFold(text: string, pos: nat, lines: seq<string>, fold: string, headers: seq<Header>)
    requires EndsInField(lines) && NoEol(fold) && fold != "" && IsWsp(fold[0])
    requires Follows(text, pos, LinesText(lines), fold + CRLF)
    ensures var last := HeaderOf(lines[|lines| - 1]);
      ParseSection(Stream(text, pos, false), headers)
      == (Stream(text, |text|, false),
          headers + HeadersOf(lines[..|lines| - 1]) + [Header(last.name, last.value + Folded(fold))], false)
    decreases |lines|
  {
    hide ReadLine, HeaderOf, ParseSection, Folded, NoEol, FieldOf;
    if |lines| == 1 {
      LinesSplit(lines);
      assert lines[0] + CRLF + LinesText(lines[1..]) == lines[0] + CRLF;
      FoldLast(text, pos, lines, fold, headers);
    } else {
      var next := pos + |lines[0]| + 2;
      FirstOfLines(text, pos, lines, fold + CRLF);
      FoldLater(text, pos, lines[0], next, headers);
      SectionReadsFold(text, next, lines[1..], fold, headers + FieldOf(lines[0]));
      HeadersSplit(lines, headers);
    }
  }

  lemma HeadersSplit(lines: seq<string>, headers: seq<Header>)
    requires |lines| > 1
    ensures headers + FieldOf(lines[0]) + HeadersOf(lines[1..][..|lines| - 2]) == headers + HeadersOf(lines[..|lines| - 1])
  {
    hide FieldOf;
    assert lines[1..][..|lines| - 2] == lines[..|lines| - 1][1..];
    assert HeadersOf(lines[..|lines| - 1]) == FieldOf(lines[0]) + HeadersOf(lines[..|lines| - 1][1..]);
  }

  lemma FoldLast(text: string, pos: nat, lines: seq<string>, fold: string, headers: seq<Header>)
    requires EndsInField(lines) && |lines| == 1 && NoEol(fold) && fold != "" && IsWsp(fold[0])
    requires Follows(text, pos, lines[0] + CRLF, fold + CRLF)
    ensures var last := HeaderOf(lines[0]);
      ParseSection(Stream(text, pos, false), headers)
      == (Stream(text, |text|, false),
          headers + HeadersOf(lines[..0]) + [Header(last.name, last.value + Folded(fold))], false)
  {
    hide ReadLine, HeaderOf, Continuation, Folded;
    LineAt(text, pos, lines[0], fold + CRLF);
    var next := pos + |lines[0]| + 2;
    assert fold + CRLF == fold + CRLF + "";
    FoldIsAdded(text, next, fold);
    var last := HeaderOf(lines[0]);
    assert ParseField(Stream(text, pos, false)) == (Stream(text, |text|, false), Field(last.name, last.value + Folded(fold)));
    assert headers + HeadersOf(lines[..0]) == headers;
  }

  /** A line followed by one that does not start with white space. */
  lemma FoldLater(text: string, pos: nat, line: string, next: nat, headers: seq<Header>)
    requires pos <= |text| && next < |text| && !IsWsp(text[next]) && Unfolded(line)
    requires ReadLine(Stream(text, pos, false)) == (Stream(text, next, false), Some(line))
    ensures ParseSection(Stream(text, pos, false), headers) == ParseSection(Stream(text, next, false), headers + FieldOf(line))
  {
    hide ReadLine, HeaderOf;
    NotBlank(line);
    var s1 := Stream(text, next, false);
    assert Continuation(s1) == (s1, "");
    var h := HeaderOf(line);
    if h.Field? {
      assert h.value + "" == h.value;
    } else {
      assert headers + [] == headers;
    }
  }

  lemma StartThenHeaders(proto: Protocol, text: string, next: nat, start: string)
    requires ReadLine(Stream(text, 0, false)) == (Stream(text, next, false), Some(start)) && proto.accepts(start)
    requires 0 < next < |text|
    ensures Run(proto, FRESH, Stream(text, 0, false)) == RunHeader(proto, HeadParser(start, []), Stream(text, next, false))
  {
    hide ReadLine, RunHeader;
  }

  lemma HeadersGoOn(proto: Protocol, p: Parser, s: Stream, headers: seq<Header>)
    requires ValidStream(s) && p.stage == HeaderSection && s.text != "" && s.text[|s.text| - 1] == LF
    requires ParseSection(s, p.headers) == (Stream(s.text, |s.text|, false), headers, false)
    ensures RunHeader(proto, p, s) == Outcome(p.(headers := headers), Stream(s.text, |s.text|, false), Incomplete, None)
  {
    hide ParseSection;
  }

  /** A start line and the beginning of a header section, received in one segment. */
  lemma HeaderSectionGoesOn(proto: Protocol, text: string, start: string, rest: string, headers: seq<Header>)
    requires NoEol(start) && proto.accepts(start) && Follows(text, 0, start + CRLF, rest) && rest != ""
    requires |start| + 2 <= |text| && text[|text| - 1] == LF
    requires ParseSection(Stream(text, |start| + 2, false), []) == (Stream(text, |text|, false), headers, false)
    ensures Receive(proto, OPENED, text) == Connection(HeadParser(start, headers), "", [])
  {
    hide ReadLine, ParseSection, NoEol, Run, RunHeader, Receive;
    LineAt(text, 0, start, rest);
    assert |start| + 2 + |rest| == |text|;
    StartThenHeaders(proto, text, |start| + 2, start);
    HeadersGoOn(proto, HeadParser(start, []), Stream(text, |start| + 2, false), headers);
    AllTaken(proto, text, HeadParser(start, headers));
  }

  lemma AllTaken(proto: Protocol, text: string, p: Parser)
    requires text != "" && p.stage != Body
    requires Run(proto, FRESH, Stream(text, 0, false)) == Outcome(p, Stream(text, |text|, false), Incomplete, None)
    ensures Receive(proto, OPENED, text) == Connection(p, "", [])
  {
    hide Run;
    assert "" + text == text;
  }

  /** Received in one segment, the fold lengthens the last field. */
  lemma WholeReadsFold(proto: Protocol, start: string, lines: seq<string>, fold: string)
    requires NoEol(start) && proto.accepts(start) && EndsInField(lines)
    requires NoEol(fold) && fold != "" && IsWsp(fold[0])
    ensures var last := HeaderOf(lines[|lines| - 1]);
      Receive(proto, OPENED, HeadText(start, lines) + (fold + CRLF))
      == Connection(HeadParser(start, HeadersOf(lines[..|lines| - 1]) + [Header(last.name, last.value + Folded(fold))]),
                    "", [])
  {
    hide HeaderOf, ParseSection, Folded, LinesText, HeadersOf, Unfolded, NoEol, Receive;
    var text := HeadText(start, lines) + (fold + CRLF);
    var rest := LinesText(lines) + (fold + CRLF);
    assert text == start + CRLF + rest && text[0..] == text;
    FollowsOn(text, 0, start + CRLF, rest);
    SectionReadsFold(text, |start| + 2, lines, fold, []);
    var last := HeaderOf(lines[|lines| - 1]);
    var before := HeadersOf(lines[..|lines| - 1]);
    assert [] + before == before;
    HeaderSectionGoesOn(proto, text, start, rest, before + [Header(last.name, last.value + Folded(fold))]);
  }

  // ---------- the lines cut at the fold ----------

  lemma HeadIsRead(proto: Protocol, start: string, lines: seq<string>)
    requires NoEol(start) && proto.accepts(start) && (forall i :: 0 <= i < |lines| ==> Unfolded(lines[i]))
    ensures Feed(proto, ReaderOf(OPENED), HeadText(start, lines)) == At(HeadParser(start, HeadersOf(lines)), [])
    ensures ReceiveAll(proto, OPENED, [HeadText(start, lines)]) == Connection(HeadParser(start, HeadersOf(lines)), "", [])
  {
    hide Feed, HeadersOf, LinesText, Unfolded, Receive;
    FeedCrlfLine(proto, FRESH, [], start);
    FeedHeaderLines(proto, HeadParser(start, []), [], lines);
    FeedConcat(proto, At(FRESH, []), start + CRLF, LinesText(lines));
    assert [] + HeadersOf(lines) == HeadersOf(lines);
    EmptyWaits(FRESH);
    assert Concat([HeadText(start, lines)]) == HeadText(start, lines) + Concat([]);
    assert HeadText(start, lines) + "" == HeadText(start, lines);
    ReceiveAllFeeds(proto, OPENED, [HeadText(start, lines)]);
  }

  predicate Rejected(proto: Protocol, start: string, headers: seq<Header>) {
    proto.bodyLength(start, headers).None?
  }

  /** Received on its own, a line leaves the fields before it as they are, or ends the headers. */
  lemma CutLineIsItsOwn(proto: Protocol, start: string, headers: seq<Header>, line: string)
    requires NoEol(line)
    ensures var r := Receive(proto, Connection(HeadParser(start, headers), "", []), line + CRLF);
      && (HeaderOf(line).Blank? ==>
            if Rejected(proto, start, headers) then r == Connection(HeadParser(start, headers), "", [])
            else r.parser.stage != HeaderSection)
      && (!HeaderOf(line).Blank? ==> r.parser.headers == headers + FieldOf(line))
  {
    hide ReadLine, HeaderOf;
    var text := line + CRLF;
    assert "" + text == text && text[0..] == text + "";
    LineAt(text, 0, line, "");
    var s1 := Stream(text, |text|, false);
    assert Continuation(s1) == (s1, "");
    var h := HeaderOf(line);
    if h.Field? {
      assert h.value + "" == h.value;
    }
    assert text[|text| - 1] == LF;
    assert headers + [] == headers;
    var p := HeadParser(start, headers);
    var o := Run(proto, p, Stream(text, 0, false));
    assert o == RunHeader(proto, p, Stream(text, 0, false));
  }

  // ---------- exactly when the cut matters ----------

  /** The header lines of a message have been read, the last one a field, and
      another line comes.  Whether it comes in the same segment makes no
      difference if and only if it does not start with white space, or is all white
      space and ends a header section that is rejected. */
  lemma CutMattersIffFolded(proto: Protocol, start: string, lines: seq<string>, line: string)
    requires NoEol(start) && proto.accepts(start) && EndsInField(lines) && NoEol(line) && line != ""
    ensures var head := HeadText(start, lines);
      ReceiveAll(proto, OPENED, [head + (line + CRLF)]) == ReceiveAll(proto, OPENED, [head, line + CRLF])
      <==> !IsWsp(line[0]) || (HeaderOf(line).Blank? && Rejected(proto, start, HeadersOf(lines)))
  {
    hide Receive, Feed, HeaderOf, Unfolded, HeadText, HeadersOf;
    var head := HeadText(start, lines);
    HeadIsRead(proto, start, lines);
    if IsWsp(line[0]) {
      FoldedCutDiffersIff(proto, start, lines, line);
    } else {
      OneOrTwo(proto, head, line + CRLF);
      FeedConcat(proto, ReaderOf(OPENED), head, line + CRLF);
      NotFolded(line);
      FeedHeaderLine(proto, HeadParser(start, HeadersOf(lines)), [], line);
      SegmentationDoesNotMatter(proto, [head + (line + CRLF)], [head, line + CRLF]);
    }
  }

  lemma OneOrTwo(proto: Protocol, a: string, b: string)
    ensures Concat([a + b]) == Concat([a, b]) == a + b
    ensures ReceiveAll(proto, OPENED, [a]) == Receive(proto, OPENED, a)
    ensures ReceiveAll(proto, OPENED, [a + b]) == Receive(proto, OPENED, a + b)
    ensures ReceiveAll(proto, OPENED, [a, b]) == Receive(proto, Receive(proto, OPENED, a), b)
  {
    hide Receive;
    assert [a, b][1..] == [b];
    var c := Receive(proto, OPENED, a);
    assert ReceiveAll(proto, c, [b]) == ReceiveAll(proto, Receive(proto, c, b), []);
    assert Concat([b]) == b + Concat([]) == b;
    assert Concat([a + b]) == a + b + Concat([]) == a + b;
  }

  lemma NotFolded(line: string)
    requires line != "" && NoEol(line) && !IsWsp(line[0])
    ensures Unfolded(line)
  {
  }

  lemma FoldedCutDiffersIff(proto: Protocol, start: string, lines: seq<string>, line: string)
    requires NoEol(start) && proto.accepts(start) && EndsInField(lines) && NoEol(line) && line != "" && IsWsp(line[0])
    ensures var head := HeadText(start, lines);
      ReceiveAll(proto, OPENED, [head + (line + CRLF)]) != ReceiveAll(proto, OPENED, [head, line + CRLF])
      <==> !(HeaderOf(line).Blank? && Rejected(proto, start, HeadersOf(lines)))
  {
    hide Receive, HeaderOf, HeadText, HeadersOf, Unfolded;
    var head := HeadText(start, lines);
    WholeReadsFold(proto, start, lines, line);
    HeadIsRead(proto, start, lines);
    var c := Receive(proto, OPENED, head);
    CutLineIsItsOwn(proto, start, HeadersOf(lines), line);
    HeadersEndInField(lines);
    BlankAddsNothing(line);
    var last := HeaderOf(lines[|lines| - 1]);
    var k := |HeadersOf(lines)| - 1;
    assert |last.value + Folded(line)| == |last.value| + |Folded(line)|;
    OneOrTwo(proto, head, line + CRLF);
    var cut := ReceiveAll(proto, OPENED, [head, line + CRLF]);
    var whole := ReceiveAll(proto, OPENED, [head + (line + CRLF)]);
    if HeaderOf(line).Blank? {
      assert last.value + "" == last.value;
    } else {
      assert cut.parser.headers[k] == Header(last.name, last.value);
      assert whole.parser.headers[k] == Header(last.name, last.value + Folded(line));
    }
  }

  lemma BlankAddsNothing(line: string)
    ensures HeaderOf(line).Blank? <==> Folded(line) == ""
  {
  }

  lemma {:induction false} HeadersEndInField(lines: seq<string>)
    requires lines != [] && HeaderOf(lines[|lines| - 1]).Field?
    ensures var last := HeaderOf(lines[|lines| - 1]);
      HeadersOf(lines) == HeadersOf(lines[..|lines| - 1]) + [Header(last.name, last.value)]
    decreases |lines|
  {
    hide HeaderOf;
    if |lines| == 1 {
      assert lines[..0] == [] && HeadersOf(lines[1..]) == [];
    } else {
      HeadersEndInField(lines[1..]);
      assert lines[1..][..|lines| - 2] == lines[..|lines| - 1][1..];
      assert lines[..|lines| - 1][0] == lines[0];
    }
  }

  // ---------- an example ----------

  function AnyMessage(): Protocol {
    Protocol((line: string) => true, (start: string, headers: seq<Header>) => Some(0))
  }

  lemma FieldIsAB()
    ensures HeaderOf("a:b") == Field("a", "b") && Folded(" c") == "c" && HeaderOf(" c") == Malformed
  {
    assert SkipWsp("a:b", 0) == 0 && ColonAt("a:b", 1) == 1 && SkipWsp("a:b", 2) == 2;
    assert "a:b"[0..1] == "a" && "a:b"[2..] == "b";
    assert SkipWsp(" c", 0) == 1 && ColonAt(" c", 2) == 2 && " c"[1..] == "c";
  }

  /** One header folded over two lines: cut right at the fold, the second is lost. */
  lemma FoldedHeaderDependsOnSegments()
    ensures var head, fold := HeadText("", ["a:b"]), " c" + CRLF;
      && ReceiveAll(AnyMessage(), OPENED, [head + fold]).parser.headers == [Header("a", "bc")]
      && ReceiveAll(AnyMessage(), OPENED, [head, fold]).parser.headers == [Header("a", "b")]
  {
    hide Receive, HeaderOf, HeadText, Folded;
    var proto, lines := AnyMessage(), ["a:b"];
    FieldIsAB();
    assert EndsInField(lines) && HeadersOf(lines[..0]) == [];
    WholeReadsFold(proto, "", lines, " c");
    HeadIsRead(proto, "", lines);
    HeadersEndInField(lines);
    CutLineIsItsOwn(proto, "", HeadersOf(lines), " c");
    OneOrTwo(proto, HeadText("", lines), " c" + CRLF);
    assert "b" + "c" == "bc";
  }
}
