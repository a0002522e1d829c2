/** Multipart content (apt_multipart_content.c): the text that add2 and finalize
    write, and the loop that gets the parts back out of it. */
module Multipart {
  import opened TextStream
  import opened MessageModel

  const HYPHENS := "--"
  const CONTENT_TYPE := "Content-Type"
  const CONTENT_ID := "Content-Id"
  const CONTENT_LENGTH := "Content-Length"

  /** A part as the writer gets it; each piece may be missing. */
  datatype Part = Part(contentType: Option<string>, id: Option<string>, body: Option<string>)

  // ---------- numbers ----------

  function Digit(d: nat): (c: char)
    requires d < 10
    ensures '0' <= c <= '9' && (c - '0') as nat == d
  {
    '0' + d as char
  }

  function Decimal(n: nat): (s: string)
    ensures s != "" && forall i :: 0 <= i < |s| ==> '0' <= s[i] <= '9'
  {
    if n < 10 then [Digit(n)] else Decimal(n / 10) + [Digit(n % 10)]
  }

  function DigitsFrom(s: string, i: nat, value: nat): nat
    requires i <= |s|
    decreases |s| - i
  {
    if i < |s| && '0' <= s[i] <= '9' then DigitsFrom(s, i + 1, 10 * value + (s[i] - '0') as nat) else value
  }

  /** atoi: the digits in front, after white space and a plus sign. */
  function LengthOf(value: string): nat {
    var i := SkipWsp(value, 0);
    DigitsFrom(value, if i < |value| && value[i] == '+' then i + 1 else i, 0)
  }

  lemma {:induction false} DigitsAppend(s: string, c: char, i: nat, value: nat)
    requires i <= |s| && '0' <= c <= '9' && forall k :: 0 <= k < |s| ==> '0' <= s[k] <= '9'
    ensures DigitsFrom(s + [c], i, value) == 10 * DigitsFrom(s, i, value) + (c - '0') as nat
    decreases |s| - i
  {
    if i < |s| {
      DigitsAppend(s, c, i + 1, 10 * value + (s[i] - '0') as nat);
    } else {
      assert DigitsFrom(s + [c], i + 1, 10 * value + (c - '0') as nat) == 10 * value + (c - '0') as nat;
    }
  }

  lemma {:induction false} DecimalDigits(n: nat)
    ensures DigitsFrom(Decimal(n), 0, 0) == n
  {
    if n < 10 {
      assert DigitsFrom([Digit(n)], 1, n) == n;
    } else {
      DecimalDigits(n / 10);
      DigitsAppend(Decimal(n / 10), Digit(n % 10), 0, 0);
    }
  }

  /** A length written in decimal is read back. */
  lemma LengthRoundTrip(n: nat)
    ensures LengthOf(Decimal(n)) == n
  {
    DecimalDigits(n);
  }

  // ---------- the text of a multipart content ----------

  function FieldText(name: string, value: Option<string>): string {
    if value.None? then "" else name + ": " + value.value + CRLF
  }

  function BodyLength(body: Option<string>): Option<string> {
    if body.None? then None else Some(Decimal(|body.value|))
  }

  function OrEmpty(body: Option<string>): string {
    if body.None? then "" else body.value
  }

  function FieldsText(p: Part): string {
    FieldText(CONTENT_TYPE, p.contentType) + (FieldText(CONTENT_ID, p.id) + FieldText(CONTENT_LENGTH, BodyLength(p.body)))
  }

  function PartText(boundary: string, p: Part): string {
    CRLF + HYPHENS + boundary + CRLF + FieldsText(p) + CRLF + OrEmpty(p.body)
  }

  function FinalText(boundary: string): string {
    CRLF + HYPHENS + boundary + HYPHENS + CRLF
  }

  function ContentText(boundary: string, parts: seq<Part>): string {
    if parts == [] then FinalText(boundary) else PartText(boundary, parts[0]) + ContentText(boundary, parts[1..])
  }

  // ---------- getting parts ----------

  /** A part as it is read. */
  datatype Got = Got(contentType: Option<string>, id: Option<string>, length: Option<string>, body: string)

  const NOTHING := Got(None, None, None, "")

  function SkipTo(text: string, from: nat, c: char): (i: nat)
    requires from <= |text|
    ensures from <= i <= |text|
    decreases |text| - from
  {
    if from < |text| && text[from] != c then SkipTo(text, from + 1, c) else from
  }

  function SkipAll(text: string, from: nat, c: char): (i: nat)
    requires from <= |text|
    ensures from <= i <= |text|
    decreases |text| - from
  {
    if from < |text| && text[from] == c then SkipAll(text, from + 1, c) else from
  }

  function TrimSpaces(s: string): (r: string)
    ensures r <= s
  {
    if s != "" && s[|s| - 1] == ' ' then TrimSpaces(s[..|s| - 1]) else s
  }

  predicate EndsWithHyphens(s: string) {
    |s| >= 2 && s[|s| - 1] == '-' && s[|s| - 2] == '-'
  }

  function Lower(c: char): char {
    if 'A' <= c <= 'Z' then c + 32 as char else c
  }

  /** apt_string_compare: equal up to case, and not empty. */
  predicate SameString(a: string, b: string) {
    |a| == |b| && a != "" && forall i :: 0 <= i < |a| ==> Lower(a[i]) == Lower(b[i])
  }

  /** strncmp over the length of the name: a name matches every header it is a prefix of. */
  function Assign(g: Got, h: Header): Got {
    if h.name <= CONTENT_LENGTH then g.(length := Some(h.value))
    else if h.name <= CONTENT_TYPE then g.(contentType := Some(h.value))
    else if h.name <= CONTENT_ID then g.(id := Some(h.value))
    else g
  }

  function AssignAll(g: Got, headers: seq<Header>): Got
    decreases |headers|
  {
    if headers == [] then g else AssignAll(Assign(g, headers[0]), headers[1..])
  }

  datatype GetResult = Failed | Final(boundary: string) | Next(got: Got, boundary: string, pos: nat)

  /** The body, when a length says how long it is. */
  function GetBody(g: Got, boundary: string, s: Stream): (r: GetResult)
    requires ValidStream(s)
    ensures r.Next? ==> s.pos <= r.pos <= |s.text|
  {
    if g.length.Some? && g.length.value != "" then
      var n := LengthOf(g.length.value);
      if n + s.pos > |s.text| then Failed
      else Next(g.(body := s.text[s.pos..s.pos + n]), boundary, s.pos + n)
    else Next(g, boundary, s.pos)
  }

  function GetFields(boundary: string, s: Stream): (r: GetResult)
    requires ValidStream(s)
    ensures r.Next? ==> s.pos <= r.pos <= |s.text|
  {
    var (s1, headers, done) := ParseSection(s, []);
    if !done then Failed else GetBody(AssignAll(NOTHING, headers), boundary, s1)
  }

  /** apt_multipart_content_get; an empty boundary is learned from the text. */
  function Get(text: string, pos: nat, boundary: string): (r: GetResult)
    requires pos <= |text|
    ensures r.Next? ==> pos < r.pos <= |text|
  {
    var i := SkipAll(text, SkipTo(text, pos, '-'), '-');
    if i == |text| then Failed
    else
      var (s1, read) := ReadLine(Stream(text, i, false));
      if read.None? then Failed
      else
        var line := TrimSpaces(read.value);
        var final := EndsWithHyphens(line);
        var found := if final then line[..|line| - 2] else line;
        if boundary != "" && !SameString(boundary, found) then Failed
        else
          var known := if boundary == "" then found else boundary;
          if final then Final(known) else GetFields(known, s1)
  }

  /** Get parts until the final boundary. */
  function GetAll(text: string, pos: nat, boundary: string): Option<seq<Got>>
    requires pos <= |text|
    decreases |text| - pos
  {
    match Get(text, pos, boundary)
    case Failed => None
    case Final(_) => Some([])
    case Next(got, known, next) =>
      var rest := GetAll(text, next, known);
      if rest.None? then None else Some([got] + rest.value)
  }

  function GotOf(p: Part): Got {
    Got(p.contentType, p.id, BodyLength(p.body), OrEmpty(p.body))
  }

  function GotAll(parts: seq<Part>): seq<Got> {
    if parts == [] then [] else [GotOf(parts[0])] + GotAll(parts[1..])
  }

  predicate GoodBoundary(b: string) {
    b != "" && NoEol(b) && b[0] != '-' && b[|b| - 1] != ' ' && !EndsWithHyphens(b)
  }

  predicate GoodValue(v: string) {
    NoEol(v) && (v != "" ==> !IsWsp(v[0]))
  }

  predicate GoodPart(p: Part) {
    (p.contentType.Some? ==> GoodValue(p.contentType.value)) && (p.id.Some? ==> GoodValue(p.id.value))
  }
}
