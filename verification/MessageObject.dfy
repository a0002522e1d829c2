/** The parser as the code writes it: a parser object and a stream whose
    position moves, with the loops over folded lines, header fields and messages. */
module MessageObject {
  import opened TextStream
  import opened MessageModel

  class MessageConnection {
    const proto: Protocol
    var parser: Parser
    var stream: Stream
    var messages: seq<Message>

    ghost predicate Valid()
      reads this
    {
      ValidParser(parser) && ValidStream(stream)
    }

    /** Between two segments the unread tail is what the stream still holds. */
    ghost function View(): Connection
      reads this
    {
      Connection(parser, stream.text, messages)
    }

    constructor (proto: Protocol)
      ensures this.proto == proto && View() == OPENED && Valid() && stream.pos == 0
    {
      this.proto := proto;
      parser, stream, messages := FRESH, Stream("", 0, false), [];
    }

    method SkipWhiteSpace()
      requires ValidStream(stream)
      modifies this`stream
      ensures stream == old(stream).(pos := SkipWsp(old(stream).text, old(stream).pos))
    {
      while stream.pos < |stream.text| && IsWsp(stream.text[stream.pos])
        invariant old(stream).pos <= stream.pos <= |stream.text| && stream == old(stream).(pos := stream.pos)
        invariant SkipWsp(stream.text, stream.pos) == SkipWsp(old(stream).text, old(stream).pos)
        decreases |stream.text| - stream.pos
      {
        stream := stream.(pos := stream.pos + 1);
      }
    }

    /** The folding loop of apt_header_field_parse. */
    method ReadContinuation() returns (value: string)
      requires ValidStream(stream)
      modifies this`stream
      ensures (stream, value) == Continuation(old(stream))
    {
      hide ReadLine, SkipWsp;
      value := "";
      ghost var rest := Continuation(stream);
      assert "" + rest.1 == rest.1;
      while stream.pos < |stream.text| && IsWsp(stream.text[stream.pos])
        invariant ValidStream(stream) && stream.text == old(stream).text
        invariant rest == Continuation(stream)
        invariant (rest.0, value + rest.1) == Continuation(old(stream))
        decreases |stream.text| - stream.pos
      {
        ghost var already, all := value, rest.1;
        stream := stream.(pos := stream.pos + 1);
        SkipWhiteSpace();
        var s, line := LineRead(stream);
        stream := s;
        rest := Continuation(stream);
        if line.Some? {
          value := value + line.value;
          assert all == line.value + rest.1;
          assert already + line.value + rest.1 == already + all;
        }
      }
      assert value + "" == value;
    }

    method ReadField() returns (h: HeaderRead)
      requires ValidStream(stream)
      modifies this`stream
      ensures (stream, h) == ParseField(old(stream))
    {
      hide Continuation;
      var s, header := HeaderScan(stream);
      stream := s;
      h := header;
      if h.Field? && h.name != "" {
        var more := ReadContinuation();
        h := Field(h.name, h.value + more);
      }
    }

    /** The do-while loop of apt_header_section_parse. */
    method ReadSection() returns (done: bool)
      requires Valid() && parser.stage == HeaderSection
      modifies this`stream, this`parser
      ensures ValidStream(stream)
      ensures (stream, parser.headers, done) == ParseSection(old(stream), old(parser).headers)
      ensures parser == old(parser).(headers := parser.headers)
    {
      hide ParseField;
      done := false;
      var more := true;
      while more
        invariant ValidStream(stream) && stream.text == old(stream).text
        invariant parser == old(parser).(headers := parser.headers) && (more ==> !done)
        invariant ParseSection(old(stream), old(parser).headers) ==
                  if more then ParseSection(stream, parser.headers) else (stream, parser.headers, done)
        decreases more, |stream.text| - stream.pos
      {
        ghost var rest := ParseSection(stream, parser.headers);
        var h := ReadField();
        assert h.Blank? ==> rest == (stream, parser.headers, true);
        if h.Blank? {
          done, more := true, false;
        } else {
          if h.Field? {
            parser := parser.(headers := parser.headers + [Header(h.name, h.value)]);
          }
          more := !IsEos(stream);
          assert rest == if more then ParseSection(stream, parser.headers) else (stream, parser.headers, false);
        }
      }
    }

    method NoteSplit()
      requires ValidStream(stream)
      modifies this`parser
      ensures parser == MarkSplit(old(parser), stream)
    {
      if stream.pos == |stream.text| && stream.pos > 0 && stream.text[stream.pos - 1] == CR {
        parser := parser.(skipLf := true);
      }
    }

    method BodyRead() returns (status: Status, message: Option<Message>)
      requires Valid() && parser.stage == Body
      modifies this`stream, this`parser
      ensures Outcome(parser, stream, status, message) == ReadBody(old(parser), old(stream))
    {
      var required := parser.contentLength - |parser.body|;
      var available := |stream.text| - stream.pos;
      status, message := Complete, None;
      if required > available {
        required := available;
        status := Incomplete;
      }
      assert required == available ==> stream.text[stream.pos..stream.pos + required] == stream.text[stream.pos..];
      parser := parser.(body := parser.body + stream.text[stream.pos..stream.pos + required]);
      stream := stream.(pos := stream.pos + required);
      if status == Complete {
        message := Some(Message(parser.start, parser.headers, parser.body));
        parser := FRESH.(skipLf := parser.skipLf);
      }
    }

    method HeaderRun() returns (status: Status, message: Option<Message>)
      requires Valid() && parser.stage == HeaderSection
      modifies this`stream, this`parser
      ensures Outcome(parser, stream, status, message) == RunHeader(proto, old(parser), old(stream))
    {
      hide ParseSection, ReadBody;
      status, message := Incomplete, None;
      var done := ReadSection();
      NoteSplit();
      if !done {
        return;
      }
      match proto.bodyLength(parser.start, parser.headers)
      case None => status := Invalid;
      case Some(n) =>
        if n > 0 {
          parser := parser.(stage := Body, contentLength := n, body := "");
          status, message := BodyRead();
        } else {
          status, message := Complete, Some(Message(parser.start, parser.headers, ""));
          parser := FRESH.(skipLf := parser.skipLf);
        }
    }

    /** apt_message_parser_run */
    method ParserRun() returns (status: Status, message: Option<Message>)
      requires Valid()
      modifies this`stream, this`parser
      ensures Outcome(parser, stream, status, message) == Run(proto, old(parser), old(stream))
    {
      hide RunHeader, ReadBody;
      if parser.skipLf {
        if stream.pos < |stream.text| && stream.text[stream.pos] == LF {
          stream := stream.(pos := stream.pos + 1);
        }
        parser := parser.(skipLf := false);
      }
      status, message := Incomplete, None;
      if parser.stage == Body {
        status, message := BodyRead();
        return;
      }
      if parser.stage == StartLine {
        var s, line := LineRead(stream);
        stream := s;
        if line.None? || !proto.accepts(line.value) {
          if !IsEos(stream) {
            status := Invalid;
          }
          return;
        }
        parser := parser.(stage := HeaderSection, start := line.value, headers := []);
        NoteSplit();
      }
      status, message := HeaderRun();
    }

    /** A segment arrives: append it to the tail, run to the end, keep the new tail. */
    method Receive(segment: string)
      requires Valid() && stream.pos == 0
      modifies this
      ensures View() == MessageModel.Receive(proto, old(View()), segment)
      ensures Valid() && stream.pos == 0
    {
      hide Run;
      if segment == "" {
        return;
      }
      stream := Stream(stream.text + segment, 0, false);
      ghost var p0, s0, m0 := parser, stream, messages;
      var more := true;
      while more
        invariant Valid()
        invariant Drain(proto, p0, s0, m0) ==
                  if more then Drain(proto, parser, stream, messages)
                  else Connection(parser, stream.text[stream.pos..], messages)
        decreases more, |stream.text| - stream.pos
      {
        var status, message := ParserRun();
        if status == Complete {
          messages := messages + [message.value];
        }
        more := !IsEos(stream);
      }
      stream := Stream(stream.text[stream.pos..], 0, false);
    }
  }
}
