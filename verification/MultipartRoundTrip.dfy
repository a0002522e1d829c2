/** Round trip of multipart content: the parts that were written are got back,
    whatever their bodies contain, exactly for the boundaries and the values
    that the format can carry. */
module MultipartRoundTrip {
  import opened TextStream
  import opened MessageModel
  import opened Multipart

  // ---------- lines and fields ----------

  lemma {:induction false} ColonIs(s: string, from: nat, k: nat)
    requires from <= k < |s| && s[k] == ':' && forall i :: from <= i < k ==> s[i] != ':'
    ensures ColonAt(s, from) == k
    decreases k - from
  {
    if from < k {
      ColonIs(s, from + 1, k);
    }
  }

  /** The header names the writer uses. */
  predicate HeaderName(name: string) {
    name != "" && NoEol(name) && !IsWsp(name[0]) && forall i :: 0 <= i < |name| ==> name[i] != ':'
  }

  lemma FieldReadBack(name: string, v: string)
    requires HeaderName(name) && (v != "" ==> !IsWsp(v[0]))
    ensures HeaderOf(name + ": " + v) == Field(name, v)
  {
    var line := name + ": " + v;
    assert line[0] == name[0];
    forall i | 1 <= i < |name|
      ensures line[i] != ':'
    {
      assert line[i] == name[i];
    }
    assert line[|name|] == ':' && line[|name| + 1] == ' ';
    ColonIs(line, 1, |name|);
    var at := |name| + 2;
    assert line[at..] == v && line[0..|name|] == name;
    if v != "" {
      assert line[at] == v[0];
    }
    assert SkipWsp(line, at) == at;
    assert SkipWsp(line, at - 1) == at;
  }

  lemma FieldAt(text: string, pos: nat, name: string, v: string, rest: string)
    requires Follows(text, pos, FieldText(name, Some(v)), rest) && HeaderName(name) && GoodValue(v)
    requires rest != "" ==> !IsWsp(rest[0])
    ensures var next := pos + |FieldText(name, Some(v))|;
      && next <= |text| && text[next..] == rest
      && ParseField(Stream(text, pos, false)) == (Stream(text, next, false), Field(name, v))
  {
    hide HeaderOf;
    var line := name + ": " + v;
    LineAt(text, pos, line, rest);
    FieldReadBack(name, v);
    var next := pos + |line| + 2;
    if next < |text| {
      assert text[next] == text[next..][0];
    }
    assert v + "" == v;
  }

  function HeaderList(name: string, value: Option<string>): seq<Header> {
    if value.None? then [] else [Header(name, value.value)]
  }

  lemma OptionalFieldAt(text: string, pos: nat, name: string, value: Option<string>, rest: string, headers: seq<Header>)
    requires Follows(text, pos, FieldText(name, value), rest) && HeaderName(name)
    requires value.Some? ==> GoodValue(value.value)
    requires rest != "" && !IsWsp(rest[0])
    ensures var next := pos + |FieldText(name, value)|;
      && next <= |text| && text[next..] == rest
      && ParseSection(Stream(text, pos, false), headers)
         == ParseSection(Stream(text, next, false), headers + HeaderList(name, value))
  {
    hide ParseField;
    if value.None? {
      assert headers + [] == headers;
      assert "" + rest == rest;
    } else {
      FieldAt(text, pos, name, value.value, rest);
    }
  }

  lemma BlankAt(text: string, pos: nat, rest: string, headers: seq<Header>)
    requires Follows(text, pos, CRLF, rest)
    ensures pos + 2 <= |text| && text[pos + 2..] == rest
    ensures ParseSection(Stream(text, pos, false), headers) == (Stream(text, pos + 2, false), headers, true)
  {
    assert "" + CRLF == CRLF;
    LineAt(text, pos, "", rest);
    assert HeaderOf("") == Blank;
  }

  lemma TextStarts(name: string, value: Option<string>, rest: string)
    requires HeaderName(name) && rest != "" && !IsWsp(rest[0])
    ensures var t := FieldText(name, value) + rest; t != "" && !IsWsp(t[0])
  {
    var t := FieldText(name, value) + rest;
    if value.Some? {
      assert t[0] == name[0];
    } else {
      assert t == rest;
    }
  }

  function PartHeaders(p: Part): seq<Header> {
    HeaderList(CONTENT_TYPE, p.contentType) + (HeaderList(CONTENT_ID, p.id) + HeaderList(CONTENT_LENGTH, BodyLength(p.body)))
  }

  lemma DecimalIsGood(n: nat)
    ensures GoodValue(Decimal(n))
  {
  }

  lemma NamesAreNames()
    ensures HeaderName(CONTENT_TYPE) && HeaderName(CONTENT_ID) && HeaderName(CONTENT_LENGTH)
  {
  }

  /** Optional fields, one after the other, up to the blank line. */
  datatype Fields = End | More(name: string, value: Option<string>, rest: Fields)

  function TextOf(fs: Fields): (t: string)
    ensures |t| >= 2
  {
    match fs
    case End => CRLF
    case More(name, value, rest) => FieldText(name, value) + TextOf(rest)
  }

  function HeadersIn(fs: Fields): seq<Header> {
    match fs
    case End => []
    case More(name, value, rest) => HeaderList(name, value) + HeadersIn(rest)
  }

  predicate GoodFields(fs: Fields) {
    fs.End? || (HeaderName(fs.name) && (fs.value.Some? ==> GoodValue(fs.value.value)) && GoodFields(fs.rest))
  }

  lemma {:induction false} FieldsStart(fs: Fields, rest: string)
    requires GoodFields(fs)
    ensures !IsWsp((TextOf(fs) + rest)[0])
  {
    if fs.More? {
      FieldsStart(fs.rest, rest);
      TextStarts(fs.name, fs.value, TextOf(fs.rest) + rest);
      assert TextOf(fs) + rest == FieldText(fs.name, fs.value) + (TextOf(fs.rest) + rest);
    }
  }

  lemma {:induction false} FieldListAt(text: string, pos: nat, fs: Fields, rest: string, headers: seq<Header>)
    requires Follows(text, pos, TextOf(fs), rest) && GoodFields(fs)
    ensures var next := pos + |TextOf(fs)|;
      && next <= |text| && text[next..] == rest
      && ParseSection(Stream(text, pos, false), headers) == (Stream(text, next, false), headers + HeadersIn(fs), true)
    decreases fs
  {
    hide ParseSection, FieldText, HeaderList, GoodValue, HeaderName;
    match fs
    case End =>
      BlankAt(text, pos, rest, headers);
      assert headers + [] == headers;
    case More(name, value, more) =>
      var tail := TextOf(more) + rest;
      assert TextOf(fs) + rest == FieldText(name, value) + tail;
      FieldsStart(more, rest);
      OptionalFieldAt(text, pos, name, value, tail, headers);
      FieldListAt(text, pos + |FieldText(name, value)|, more, rest, headers + HeaderList(name, value));
      assert headers + HeaderList(name, value) + HeadersIn(more) == headers + HeadersIn(fs);
  }

  function PartFields(p: Part): Fields {
    More(CONTENT_TYPE, p.contentType, More(CONTENT_ID, p.id, More(CONTENT_LENGTH, BodyLength(p.body), End)))
  }

  lemma PartFieldsText(p: Part)
    requires GoodPart(p)
    ensures TextOf(PartFields(p)) == FieldsText(p) + CRLF && HeadersIn(PartFields(p)) == PartHeaders(p)
    ensures GoodFields(PartFields(p))
  {
    hide FieldText, HeaderList, Decimal, GoodValue, HeaderName;
    NamesAreNames();
    if p.body.Some? { DecimalIsGood(|p.body.value|); }
    var lengths := More(CONTENT_LENGTH, BodyLength(p.body), End);
    var ids := More(CONTENT_ID, p.id, lengths);
    assert TextOf(lengths) == FieldText(CONTENT_LENGTH, BodyLength(p.body)) + CRLF;
    assert TextOf(ids) == FieldText(CONTENT_ID, p.id) + TextOf(lengths);
    assert HeadersIn(lengths) == HeaderList(CONTENT_LENGTH, BodyLength(p.body)) + [];
    assert HeadersIn(ids) == HeaderList(CONTENT_ID, p.id) + HeadersIn(lengths);
    assert GoodFields(lengths) && GoodFields(ids);
  }

  /** The header section of a part is read back. */
  lemma SectionAt(text: string, pos: nat, p: Part, rest: string)
    requires Follows(text, pos, FieldsText(p) + CRLF, rest) && GoodPart(p)
    ensures var next := pos + |FieldsText(p)| + 2;
      && next <= |text| && text[next..] == rest
      && ParseSection(Stream(text, pos, false), []) == (Stream(text, next, false), PartHeaders(p), true)
  {
    hide ParseSection, FieldsText, PartHeaders, GoodPart;
    PartFieldsText(p);
    FieldListAt(text, pos, PartFields(p), rest, []);
    assert [] + PartHeaders(p) == PartHeaders(p);
  }

  lemma AssignHead(g: Got, name: string, value: Option<string>, more: seq<Header>)
    ensures AssignAll(g, HeaderList(name, value) + more)
         == AssignAll(if value.None? then g else Assign(g, Header(name, value.value)), more)
  {
    if value.None? {
      assert [] + more == more;
    } else {
      var hs := [Header(name, value.value)] + more;
      assert hs[0] == Header(name, value.value) && hs[1..] == more;
    }
  }

  lemma PrefixesDiffer()
    ensures !(CONTENT_TYPE <= CONTENT_LENGTH) && !(CONTENT_ID <= CONTENT_LENGTH) && !(CONTENT_ID <= CONTENT_TYPE)
  {
    assert CONTENT_TYPE[8] == 'T' && CONTENT_LENGTH[8] == 'L' && CONTENT_ID[8] == 'I';
  }

  lemma HeadersAssigned(p: Part)
    ensures AssignAll(NOTHING, PartHeaders(p)) == Got(p.contentType, p.id, BodyLength(p.body), "")
  {
    hide HeaderList, AssignAll;
    PrefixesDiffer();
    var lengths := HeaderList(CONTENT_LENGTH, BodyLength(p.body));
    AssignHead(NOTHING, CONTENT_TYPE, p.contentType, HeaderList(CONTENT_ID, p.id) + lengths);
    var g1 := NOTHING.(contentType := p.contentType);
    AssignHead(g1, CONTENT_ID, p.id, lengths);
    var g2 := g1.(id := p.id);
    assert lengths + [] == lengths;
    AssignHead(g2, CONTENT_LENGTH, BodyLength(p.body), []);
    AssignNone(g2.(length := BodyLength(p.body)));
  }

  lemma AssignNone(g: Got)
    ensures AssignAll(g, []) == g
  {
  }

  lemma BodyAt(text: string, pos: nat, p: Part, boundary: string, rest: string)
    requires Follows(text, pos, OrEmpty(p.body), rest)
    ensures var next := pos + |OrEmpty(p.body)|;
      && next <= |text| && text[next..] == rest
      && GetBody(Got(p.contentType, p.id, BodyLength(p.body), ""), boundary, Stream(text, pos, false))
         == Next(GotOf(p), boundary, next)
  {
    hide LengthOf, Decimal;
    FollowsOn(text, pos, OrEmpty(p.body), rest);
    if p.body.Some? {
      LengthRoundTrip(|p.body.value|);
      assert text[pos..pos + |p.body.value|] == p.body.value;
    }
  }

  lemma FieldsAt(text: string, pos: nat, p: Part, boundary: string, rest: string)
    requires Follows(text, pos, FieldsText(p) + CRLF + OrEmpty(p.body), rest) && GoodPart(p)
    ensures var next := pos + |FieldsText(p)| + 2 + |OrEmpty(p.body)|;
      next <= |text| && text[next..] == rest && GetFields(boundary, Stream(text, pos, false)) == Next(GotOf(p), boundary, next)
  {
    hide ParseSection, FieldsText, GetBody, GoodPart, PartHeaders, AssignAll;
    var body := OrEmpty(p.body);
    assert FieldsText(p) + CRLF + body + rest == FieldsText(p) + CRLF + (body + rest);
    SectionAt(text, pos, p, body + rest);
    HeadersAssigned(p);
    BodyAt(text, pos + |FieldsText(p)| + 2, p, boundary, rest);
  }

  // ---------- boundaries ----------

  /** Get, from the boundary line on. */
  function GetAfterLine(boundary: string, read: string, s: Stream): GetResult
    requires ValidStream(s)
  {
    var line := TrimSpaces(read);
    var final := EndsWithHyphens(line);
    var found := if final then line[..|line| - 2] else line;
    if boundary != "" && !SameString(boundary, found) then Failed
    else
      var known := if boundary == "" then found else boundary;
      if final then Final(known) else GetFields(known, s)
  }

  lemma HyphensSkipped(text: string, pos: nat, c: char)
    requires pos + 5 <= |text| && c != '-' && text[pos] == CR && text[pos + 1] == LF
    requires text[pos + 2] == '-' && text[pos + 3] == '-' && text[pos + 4] == c
    ensures SkipAll(text, SkipTo(text, pos, '-'), '-') == pos + 4
  {
    assert SkipTo(text, pos + 2, '-') == pos + 2;
    assert SkipTo(text, pos + 1, '-') == pos + 2;
    assert SkipAll(text, pos + 4, '-') == pos + 4;
    assert SkipAll(text, pos + 3, '-') == pos + 4;
  }

  lemma BoundaryLineAt(text: string, pos: nat, line: string, boundary: string, rest: string)
    requires Follows(text, pos, CRLF + HYPHENS + line + CRLF, rest) && NoEol(line) && line != "" && line[0] != '-'
    ensures var next := pos + |line| + 6;
      && next <= |text| && text[next..] == rest
      && Get(text, pos, boundary) == GetAfterLine(boundary, line, Stream(text, next, false))
  {
    hide TrimSpaces, SameString, GetFields, ReadLine, EndsWithHyphens;
    var here := CRLF + HYPHENS + line + CRLF;
    FollowsOn(text, pos, here, rest);
    assert here[0] == CR && here[1] == LF && here[2] == '-' && here[3] == '-' && here[4] == line[0];
    assert text[pos + 0] == CR;
    HyphensSkipped(text, pos, line[0]);
    var at := pos + 4;
    assert text[at..] == text[pos..][4..];
    assert (here + rest)[4..] == line + CRLF + rest;
    LineAt(text, at, line, rest);
  }

  lemma NothingTrimmed(s: string)
    requires s != "" && s[|s| - 1] != ' '
    ensures TrimSpaces(s) == s
  {
  }

  function Known(boundary: string, b: string): string {
    if boundary == "" then b else boundary
  }

  lemma PartAt(text: string, pos: nat, b: string, boundary: string, p: Part, rest: string)
    requires Follows(text, pos, PartText(b, p), rest) && GoodBoundary(b) && GoodPart(p)
    requires boundary == "" || SameString(boundary, b)
    ensures var next := pos + |PartText(b, p)|;
      next <= |text| && text[next..] == rest && Get(text, pos, boundary) == Next(GotOf(p), Known(boundary, b), next)
  {
    hide Get, GetFields, FieldsText, SameString, GoodPart, TrimSpaces;
    var head, tail := CRLF + HYPHENS + b + CRLF, FieldsText(p) + CRLF + OrEmpty(p.body);
    assert PartText(b, p) == head + tail;
    assert PartText(b, p) + rest == head + (tail + rest);
    BoundaryLineAt(text, pos, b, boundary, tail + rest);
    NothingTrimmed(b);
    FieldsAt(text, pos + |b| + 6, p, Known(boundary, b), rest);
  }

  lemma FinalAt(text: string, pos: nat, b: string, boundary: string, rest: string)
    requires Follows(text, pos, FinalText(b), rest) && GoodBoundary(b)
    requires boundary == "" || SameString(boundary, b)
    ensures pos <= |text| && Get(text, pos, boundary) == Final(Known(boundary, b))
  {
    hide Get, GetFields, SameString, TrimSpaces;
    var line := b + HYPHENS;
    assert CRLF + HYPHENS + line + CRLF == FinalText(b);
    assert line[0] == b[0];
    BoundaryLineAt(text, pos, line, boundary, rest);
    NothingTrimmed(line);
    assert line[..|line| - 2] == b;
  }

  lemma {:induction false} ContentAt(text: string, pos: nat, b: string, boundary: string, parts: seq<Part>)
    requires Follows(text, pos, ContentText(b, parts), "") && GoodBoundary(b)
    requires boundary == "" || SameString(boundary, b)
    requires forall i :: 0 <= i < |parts| ==> GoodPart(parts[i])
    ensures pos <= |text| && GetAll(text, pos, boundary) == Some(GotAll(parts))
    decreases |parts|
  {
    hide Get, PartText, FinalText, SameString, GoodPart, GoodBoundary, GotOf;
    if parts == [] {
      FinalAt(text, pos, b, boundary, "");
    } else {
      var rest := ContentText(b, parts[1..]);
      assert ContentText(b, parts) + "" == PartText(b, parts[0]) + rest;
      PartAt(text, pos, b, boundary, parts[0], rest);
      var next := pos + |PartText(b, parts[0])|;
      assert rest + "" == rest;
      NeverEmpty(b);
      SameStringReflexive(b);
      ContentAt(text, next, b, Known(boundary, b), parts[1..]);
    }
  }

  lemma NeverEmpty(b: string)
    requires GoodBoundary(b)
    ensures b != ""
  {
  }

  lemma SameStringReflexive(b: string)
    ensures b != "" ==> SameString(b, b)
  {
  }

  /** Whatever the bodies contain, the parts written are the parts got back,
      with the boundary given (up to case) or learned from the text. */
  lemma RoundTrip(b: string, boundary: string, parts: seq<Part>)
    requires GoodBoundary(b) && (boundary == "" || SameString(boundary, b))
    requires forall i :: 0 <= i < |parts| ==> GoodPart(parts[i])
    ensures GetAll(ContentText(b, parts), 0, boundary) == Some(GotAll(parts))
  {
    var text := ContentText(b, parts);
    assert text[0..] == text + "";
    ContentAt(text, 0, b, boundary, parts);
  }

  // ---------- exactly these values ----------

  lemma {:induction false} ContinuationIsGood(s: Stream)
    requires ValidStream(s)
    ensures GoodValue(Continuation(s).1)
    decreases |s.text| - s.pos
  {
    hide ReadLine;
    if s.pos < |s.text| && IsWsp(s.text[s.pos]) {
      var at := SkipWsp(s.text, s.pos + 1);
      var (s1, line) := ReadLine(s.(pos := at));
      LineStarts(s.(pos := at));
      ContinuationIsGood(s1);
      if line.Some? {
        GoodConcat(line.value, Continuation(s1).1);
      }
    }
  }

  lemma LineStarts(s: Stream)
    requires ValidStream(s)
    ensures var line := ReadLine(s).1; line.Some? && line.value != "" ==> s.pos < |s.text| && line.value[0] == s.text[s.pos]
  {
  }

  lemma GoodConcat(a: string, b: string)
    requires GoodValue(a) && GoodValue(b)
    ensures GoodValue(a + b)
  {
    if a == "" {
      assert a + b == b;
    }
  }

  lemma FieldIsGood(s: Stream)
    requires ValidStream(s)
    ensures var h := ParseField(s).1; h.Field? ==> GoodValue(h.value)
  {
    hide Continuation, ReadLine, GoodValue;
    var (s1, h) := ReadHeader(s);
    if h.Field? {
      HeaderIsGood(ReadLine(s).1.value);
      ContinuationIsGood(s1);
      GoodConcat(h.value, Continuation(s1).1);
    }
  }

  lemma HeaderIsGood(line: string)
    requires NoEol(line)
    ensures HeaderOf(line).Field? ==> GoodValue(HeaderOf(line).value)
  {
  }

  predicate GoodHeaders(headers: seq<Header>) {
    forall i :: 0 <= i < |headers| ==> GoodValue(headers[i].value)
  }

  lemma {:induction false} SectionIsGood(s: Stream, headers: seq<Header>)
    requires ValidStream(s) && GoodHeaders(headers)
    ensures GoodHeaders(ParseSection(s, headers).1)
    decreases |s.text| - s.pos
  {
    hide ParseField, GoodValue;
    FieldIsGood(s);
    var (s1, h) := ParseField(s);
    if !h.Blank? && !IsEos(s1) {
      SectionIsGood(s1, if h.Field? then headers + [Header(h.name, h.value)] else headers);
    }
  }

  predicate GoodGot(g: Got) {
    (g.contentType.Some? ==> GoodValue(g.contentType.value)) && (g.id.Some? ==> GoodValue(g.id.value))
  }

  lemma {:induction false} AssignedIsGood(g: Got, headers: seq<Header>)
    requires GoodGot(g) && GoodHeaders(headers)
    ensures GoodGot(AssignAll(g, headers))
    decreases |headers|
  {
    hide GoodValue;
    if headers != [] {
      AssignedIsGood(Assign(g, headers[0]), headers[1..]);
    }
  }

  /** No part that is got has a value with an end of line or leading white space. */
  lemma GotIsGood(text: string, pos: nat, boundary: string)
    requires pos <= |text| && Get(text, pos, boundary).Next?
    ensures GoodGot(Get(text, pos, boundary).got)
  {
    hide TrimSpaces, SameString, ParseSection, AssignAll, GoodHeaders, SkipAll, SkipTo;
    var i := SkipAll(text, SkipTo(text, pos, '-'), '-');
    var s1 := ReadLine(Stream(text, i, false)).0;
    NoHeaders();
    SectionIsGood(s1, []);
    AssignedIsGood(NOTHING, ParseSection(s1, []).1);
  }

  lemma NoHeaders()
    ensures GoodHeaders([])
  {
  }

  lemma {:induction false} AllGotAreGood(text: string, pos: nat, boundary: string, parts: seq<Part>)
    requires pos <= |text| && GetAll(text, pos, boundary) == Some(GotAll(parts))
    ensures forall i :: 0 <= i < |parts| ==> GoodPart(parts[i])
    decreases |parts|
  {
    hide Get, GoodValue;
    if parts != [] {
      var r := Get(text, pos, boundary);
      assert GotAll(parts)[0] == GotOf(parts[0]) && GotAll(parts)[1..] == GotAll(parts[1..]);
      assert r.Next?;
      GotIsGood(text, pos, boundary);
      var rest := GetAll(text, r.pos, r.boundary);
      assert GotAll(parts) == [r.got] + rest.value;
      assert rest.value == GotAll(parts)[1..];
      AllGotAreGood(text, r.pos, r.boundary, parts[1..]);
      forall i | 0 <= i < |parts|
        ensures GoodPart(parts[i])
      {
        if i > 0 {
          assert parts[i] == parts[1..][i - 1];
        }
      }
    }
  }

  /** The parts come back exactly when no type and no id contains an end of line or
      starts with white space; bodies never matter. */
  lemma RoundTripIffGoodParts(b: string, parts: seq<Part>)
    requires GoodBoundary(b)
    ensures GetAll(ContentText(b, parts), 0, b) == Some(GotAll(parts))
       <==> forall i :: 0 <= i < |parts| ==> GoodPart(parts[i])
  {
    hide GetAll, ContentText, GotAll, GoodPart;
    if forall i :: 0 <= i < |parts| ==> GoodPart(parts[i]) {
      SameStringReflexive(b);
      RoundTrip(b, b, parts);
    } else if GetAll(ContentText(b, parts), 0, b) == Some(GotAll(parts)) {
      AllGotAreGood(ContentText(b, parts), 0, b, parts);
    }
  }

  // ---------- exactly these boundaries ----------

  lemma TrimmedLast(s: string)
    ensures s != "" && s[|s| - 1] == ' ' ==> |TrimSpaces(s)| < |s|
  {
  }

  lemma {:induction false} SkipAllStops(text: string, from: nat, at: nat)
    requires from <= at < |text| && text[at] != '-'
    ensures SkipAll(text, from, '-') <= at
    ensures from < at && text[from] == '-' ==> SkipAll(text, from, '-') > from
    decreases at - from
  {
    if from < at && text[from] == '-' {
      SkipAllStops(text, from + 1, at);
    }
  }

  lemma EolStops(text: string, from: nat, at: nat)
    requires from <= at < |text| && IsEol(text[at])
    ensures EolAt(text, from) <= at
    decreases at - from
  {
    if from < at && !IsEol(text[from]) {
      EolStops(text, from + 1, at);
    }
  }

  /** A boundary that is not good is read back shorter than it was written. */
  lemma BadBoundaryFails(b: string, rest: string)
    requires b != "" && !GoodBoundary(b)
    ensures Get(CRLF + HYPHENS + b + CRLF + rest, 0, b).Failed?
  {
    hide Get, SameString, TrimSpaces;
    var text := CRLF + HYPHENS + b + CRLF + rest;
    var end := 4 + |b|;
    assert text[0] == CR && text[1] == LF && text[2] == '-' && text[3] == '-' && text[4] == b[0] && text[end] == CR;
    SkipToSecond(text);
    SkipAllStops(text, 4, end);
    assert SkipAll(text, 3, '-') == SkipAll(text, 4, '-');
    var i := SkipAll(text, 2, '-');
    EolStops(text, i, end);
    var e := EolAt(text, i);
    var read := text[i..e];
    var line := TrimSpaces(read);
    if i == 4 && e == end {
      assert read == b;
      TrimmedLast(b);
      if line == b {
        assert EndsWithHyphens(b);
      }
    }
    SameLength(b, if EndsWithHyphens(line) then line[..|line| - 2] else line);
    OtherBoundary(text, b, i, e);
  }

  /** A line that is not the boundary, read from the first hyphens on. */
  lemma OtherBoundary(text: string, b: string, i: nat, e: nat)
    requires b != "" && i == SkipAll(text, SkipTo(text, 0, '-'), '-') && i <= e == EolAt(text, i) < |text|
    requires var line := TrimSpaces(text[i..e]);
      !SameString(b, if EndsWithHyphens(line) then line[..|line| - 2] else line)
    ensures Get(text, 0, b).Failed?
  {
    hide GetFields, SameString, TrimSpaces, SkipAll, SkipTo, EolAt;
  }

  lemma SkipToSecond(text: string)
    requires |text| > 2 && text[0] == CR && text[1] == LF && text[2] == '-'
    ensures SkipTo(text, 0, '-') == 2
  {
    assert SkipTo(text, 2, '-') == 2;
    assert SkipTo(text, 1, '-') == 2;
  }

  lemma SameLength(a: string, b: string)
    ensures SameString(a, b) ==> |a| == |b|
  {
  }

  lemma EmptyBoundaryFails()
    ensures GetAll(ContentText("", []), 0, "") == None
  {
    var text := ContentText("", []);
    assert text == [CR, LF, '-', '-', '-', '-', CR, LF];
    SkipToSecond(text);
    assert SkipAll(text, 6, '-') == 6;
    assert SkipAll(text, 5, '-') == 6;
    assert SkipAll(text, 4, '-') == 6;
    assert SkipAll(text, 3, '-') == 6;
    assert "" + CRLF == CRLF && text[6..] == CRLF + "";
    LineAt(text, 6, "", "");
    assert TrimSpaces("") == "";
    assert ReadLine(Stream(text, 8, false)).1.None?;
    assert Get(text, 0, "") == Failed;
  }

  const BARE := Part(None, None, None)

  /** The format carries every list of good parts exactly when the boundary is not
      empty, has no end of line in it, no leading hyphen, no trailing space and no
      trailing "--". */
  lemma RoundTripIffGoodBoundary(b: string)
    ensures (forall parts: seq<Part> | (forall i :: 0 <= i < |parts| ==> GoodPart(parts[i])) ::
               GetAll(ContentText(b, parts), 0, b) == Some(GotAll(parts)))
       <==> GoodBoundary(b)
  {
    if GoodBoundary(b) {
      forall parts: seq<Part> | (forall i :: 0 <= i < |parts| ==> GoodPart(parts[i]))
        ensures GetAll(ContentText(b, parts), 0, b) == Some(GotAll(parts))
      {
        RoundTripIffGoodParts(b, parts);
      }
    } else if b == "" {
      EmptyBoundaryFails();
      assert GotAll([]) == [];
      assert GetAll(ContentText(b, []), 0, b) != Some(GotAll([]));
    } else {
      BareFails(b);
      assert forall i :: 0 <= i < |[BARE]| ==> GoodPart([BARE][i]);
    }
  }

  lemma BareFails(b: string)
    requires b != "" && !GoodBoundary(b)
    ensures GetAll(ContentText(b, [BARE]), 0, b) != Some(GotAll([BARE]))
  {
    hide Get;
    var rest := "" + CRLF + "" + ContentText(b, []);
    assert [BARE][1..] == [];
    assert FieldsText(BARE) == "";
    assert ContentText(b, [BARE]) == PartText(b, BARE) + ContentText(b, []);
    assert ContentText(b, [BARE]) == CRLF + HYPHENS + b + CRLF + rest;
    BadBoundaryFails(b, rest);
  }
}
