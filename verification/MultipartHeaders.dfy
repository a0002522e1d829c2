/** Any part of a multipart content, not only those the writer makes: text in front of
    the boundary, any number of hyphens, spaces behind it, and header lines of any name. */
module MultipartHeaders {
  import opened TextStream
  import opened MessageModel
  import opened MessageWire
  import opened MessageFolds
  import opened Multipart

  // ---------- headers ----------

  datatype Kind = LengthKind | TypeKind | IdKind | NoKind

  /** What a name stands for: the first of length, type and identifier it is the beginning of. */
  function KindOf(name: string): Kind {
    if name <= "Content-Length" then LengthKind
    else if name <= "Content-Type" then TypeKind
    else if name <= "Content-Id" then IdKind
    else NoKind
  }

  /** The value of the last header of a kind. */
  ghost predicate IsLast(headers: seq<Header>, kind: Kind, value: Option<string>) {
    if value.None? then forall k :: 0 <= k < |headers| ==> KindOf(headers[k].name) != kind
    else exists k :: 0 <= k < |headers| && KindOf(headers[k].name) == kind && headers[k].value == value.value
           && forall j :: k < j < |headers| ==> KindOf(headers[j].name) != kind
  }

  function Either(first: Option<string>, second: Option<string>): Option<string> {
    if first.Some? then first else second
  }

  /** The last value of a kind, by going through the list. */
  function LastOf(headers: seq<Header>, kind: Kind): Option<string> {
    if headers == [] then None
    else Either(LastOf(headers[1..], kind), if KindOf(headers[0].name) == kind then Some(headers[0].value) else None)
  }

  lemma {:induction false} LastIs(headers: seq<Header>, kind: Kind)
    ensures IsLast(headers, kind, LastOf(headers, kind))
  {
    if headers != [] {
      var rest := headers[1..];
      LastIs(rest, kind);
      assert forall j :: 0 <= j < |rest| ==> rest[j] == headers[j + 1];
      assert forall j :: 1 <= j < |headers| ==> headers[j] == rest[j - 1];
      if LastOf(rest, kind).Some? {
        var k :| 0 <= k < |rest| && KindOf(rest[k].name) == kind && rest[k].value == LastOf(rest, kind).value
                 && forall j :: k < j < |rest| ==> KindOf(rest[j].name) != kind;
        assert headers[k + 1] == rest[k];
      }
    }
  }

  lemma {:induction false} AssignsLast(g: Got, headers: seq<Header>)
    ensures AssignAll(g, headers) ==
      Got(Either(LastOf(headers, TypeKind), g.contentType), Either(LastOf(headers, IdKind), g.id),
          Either(LastOf(headers, LengthKind), g.length), g.body)
    decreases |headers|
  {
    if headers != [] {
      AssignsLast(Assign(g, headers[0]), headers[1..]);
    }
  }

  // ---------- a header section ----------

  /** Unfolded lines and a blank one are read as the headers of the lines. */
  lemma {:induction false} SectionIs(text: string, pos: nat, lines: seq<string>, rest: string, headers: seq<Header>)
    requires Follows(text, pos, LinesText(lines) + CRLF, rest) && forall i :: 0 <= i < |lines| ==> Unfolded(lines[i])
    ensures var end := pos + |LinesText(lines)| + 2;
      && end <= |text| && text[end..] == rest
      && ParseSection(Stream(text, pos, false), headers) == (Stream(text, end, false), headers + HeadersOf(lines), true)
    decreases |lines|
  {
    hide ReadLine, ParseSection, FieldOf, NoEol;
    if lines == [] {
      assert LinesText(lines) + CRLF == "" + CRLF;
      NothingHasNoEol();
      LineAt(text, pos, "", rest);
      assert headers + [] == headers;
      BlankEnds(text, pos, headers);
    } else {
      FirstLine(text, pos, lines, rest, headers);
      hide Unfolded;
      SectionIs(text, pos + |lines[0]| + 2, lines[1..], rest, headers + FieldOf(lines[0]));
      assert headers + FieldOf(lines[0]) + HeadersOf(lines[1..]) == headers + HeadersOf(lines);
    }
  }

  lemma NothingHasNoEol()
    ensures NoEol("")
  {
  }

  lemma FirstLine(text: string, pos: nat, lines: seq<string>, rest: string, headers: seq<Header>)
    requires Follows(text, pos, LinesText(lines) + CRLF, rest) && lines != []
    requires forall i :: 0 <= i < |lines| ==> Unfolded(lines[i])
    ensures var next := pos + |lines[0]| + 2;
      && Follows(text, next, LinesText(lines[1..]) + CRLF, rest)
      && |LinesText(lines)| == |lines[0]| + 2 + |LinesText(lines[1..])|
      && ParseSection(Stream(text, pos, false), headers) == ParseSection(Stream(text, next, false), headers + FieldOf(lines[0]))
  {
    hide ReadLine, ParseSection, FieldOf, NoEol;
    var more := LinesText(lines[1..]) + CRLF + rest;
    assert LinesText(lines) + CRLF + rest == lines[0] + CRLF + more;
    LineAt(text, pos, lines[0], more);
    var next := pos + |lines[0]| + 2;
    StartsNextLine(lines[1..], rest);
    assert text[next] == text[next..][0];
    FoldLater(text, pos, lines[0], next, headers);
  }

  lemma StartsNextLine(lines: seq<string>, rest: string)
    requires forall i :: 0 <= i < |lines| ==> Unfolded(lines[i])
    ensures var more := LinesText(lines) + CRLF + rest; more != "" && !IsWsp(more[0])
  {
  }

  lemma BlankEnds(text: string, pos: nat, headers: seq<Header>)
    requires pos + 2 <= |text| && ReadLine(Stream(text, pos, false)) == (Stream(text, pos + 2, false), Some(""))
    ensures ParseSection(Stream(text, pos, false), headers) == (Stream(text, pos + 2, false), headers, true)
  {
    hide ReadLine;
    assert HeaderOf("") == Blank;
  }

  // ---------- the boundary line ----------

  function Repeat(c: char, n: nat): string {
    seq(n, i => c)
  }

  ghost predicate Preamble(s: string) {
    forall k :: 0 <= k < |s| ==> s[k] != '-'
  }

  /** A boundary as a line can hold it. */
  ghost predicate IsBoundary(b: string) {
    b != "" && NoEol(b) && b[0] != '-' && b[|b| - 1] != ' ' && !EndsWithHyphens(b)
  }

  lemma {:induction false} SkipToIs(text: string, from: nat, i: nat)
    requires from <= i < |text| && text[i] == '-' && forall k :: from <= k < i ==> text[k] != '-'
    ensures SkipTo(text, from, '-') == i
    decreases i - from
  {
    if from < i {
      SkipToIs(text, from + 1, i);
    }
  }

  lemma {:induction false} SkipAllIs(text: string, from: nat, i: nat)
    requires from <= i < |text| && text[i] != '-' && forall k :: from <= k < i ==> text[k] == '-'
    ensures SkipAll(text, from, '-') == i
    decreases i - from
  {
    if from < i {
      SkipAllIs(text, from + 1, i);
    }
  }

  lemma {:induction false} TrimIs(b: string, n: nat)
    requires b == "" || b[|b| - 1] != ' '
    ensures TrimSpaces(b + Repeat(' ', n)) == b
  {
    var s := b + Repeat(' ', n);
    if n > 0 {
      assert s[|s| - 1] == ' ' && s[..|s| - 1] == b + Repeat(' ', n - 1);
      TrimIs(b, n - 1);
    } else {
      assert s == b;
    }
  }

  /** The line behind a preamble and hyphens starts here. */
  lemma LineStarts(pre: string, hyphens: nat, rest: string)
    requires Preamble(pre) && hyphens > 0 && rest != "" && rest[0] != '-'
    ensures var text := pre + Repeat('-', hyphens) + rest; var i := |pre| + hyphens;
      SkipAll(text, SkipTo(text, 0, '-'), '-') == i < |text| && text[i..] == rest
  {
    hide SkipTo, SkipAll;
    var text := pre + Repeat('-', hyphens) + rest;
    var i := |pre| + hyphens;
    assert forall k :: 0 <= k < |pre| ==> text[k] == pre[k];
    SkipToIs(text, 0, |pre|);
    assert forall k :: |pre| <= k < i ==> text[k] == '-';
    assert text[i] == rest[0];
    SkipAllIs(text, |pre|, i);
  }

  lemma NoEolWithSpaces(line: string, spaces: nat)
    requires NoEol(line)
    ensures NoEol(line + Repeat(' ', spaces))
  {
  }

  /** A preamble, hyphens, a line and what follows it: the line is found and trimmed. */
  lemma LineFound(text: string, pre: string, hyphens: nat, line: string, spaces: nat, rest: string)
    requires Preamble(pre) && hyphens > 0 && line != "" && line[0] != '-' && line[|line| - 1] != ' ' && NoEol(line)
    requires text == pre + Repeat('-', hyphens) + (line + Repeat(' ', spaces) + CRLF + rest)
    ensures var i, next := |pre| + hyphens, |pre| + hyphens + |line| + spaces + 2;
      && SkipAll(text, SkipTo(text, 0, '-'), '-') == i < |text| && next <= |text| && text[next..] == rest
      && ReadLine(Stream(text, i, false)) == (Stream(text, next, false), Some(line + Repeat(' ', spaces)))
      && TrimSpaces(line + Repeat(' ', spaces)) == line
  {
    hide ReadLine, SkipTo, SkipAll, TrimSpaces, NoEol, Preamble, Repeat;
    var full := line + Repeat(' ', spaces);
    Repeated(' ', spaces);
    assert full[0] == line[0];
    LineStarts(pre, hyphens, full + CRLF + rest);
    NoEolWithSpaces(line, spaces);
    LineAt(text, |pre| + hyphens, full, rest);
    TrimIs(line, spaces);
  }

  lemma Repeated(c: char, n: nat)
    ensures |Repeat(c, n)| == n
  {
  }

  /** What a part with these headers is, in front of this text. */
  function PartOf(headers: seq<Header>, boundary: string, rest: string, pos: nat): GetResult {
    var length := LastOf(headers, LengthKind);
    var got := Got(LastOf(headers, TypeKind), LastOf(headers, IdKind), length, "");
    if length.Some? && length.value != "" then
      var n := LengthOf(length.value);
      if n > |rest| then Failed else Next(got.(body := rest[..n]), boundary, pos + n)
    else Next(got, boundary, pos)
  }

  /** Whatever stands in front of the boundary without a hyphen, however many hyphens and
      spaces it is set in, and whatever headers follow: the part has the last type, the
      last identifier and the last length given, and a body of just that length. */
  lemma AnyPart(
    pre: string, hyphens: nat, b: string, spaces: nat, lines: seq<string>, rest: string, boundary: string)
    requires Preamble(pre) && hyphens > 0 && IsBoundary(b) && (forall i :: 0 <= i < |lines| ==> Unfolded(lines[i]))
    requires boundary == "" || SameString(boundary, b)
    ensures var section := LinesText(lines) + CRLF;
      var text := pre + Repeat('-', hyphens) + (b + Repeat(' ', spaces) + CRLF) + (section + rest);
      Get(text, 0, boundary) ==
        PartOf(HeadersOf(lines), if boundary == "" then b else boundary, rest, |text| - |rest|)
  {
    hide ReadLine, SkipTo, SkipAll, TrimSpaces, SameString, GetFields, PartOf, Preamble, Unfolded;
    var section := LinesText(lines) + CRLF;
    var text := pre + Repeat('-', hyphens) + (b + Repeat(' ', spaces) + CRLF) + (section + rest);
    assert text == pre + Repeat('-', hyphens) + (b + Repeat(' ', spaces) + CRLF + (section + rest));
    LineFound(text, pre, hyphens, b, spaces, section + rest);
    var next := |pre| + hyphens + |b| + spaces + 2;
    FieldsAre(text, next, lines, rest, if boundary == "" then b else boundary);
    assert next + |section| == |text| - |rest|;
  }

  /** The headers and the body. */
  lemma FieldsAre(text: string, pos: nat, lines: seq<string>, rest: string, boundary: string)
    requires Follows(text, pos, LinesText(lines) + CRLF, rest) && forall i :: 0 <= i < |lines| ==> Unfolded(lines[i])
    ensures GetFields(boundary, Stream(text, pos, false)) ==
      PartOf(HeadersOf(lines), boundary, rest, pos + |LinesText(lines)| + 2)
  {
    hide ParseSection, AssignAll, LastOf, LengthOf, Unfolded;
    SectionIs(text, pos, lines, rest, []);
    assert [] + HeadersOf(lines) == HeadersOf(lines);
    AssignsLast(NOTHING, HeadersOf(lines));
    var end := pos + |LinesText(lines)| + 2;
    assert forall n :: 0 <= n <= |rest| ==> text[end..end + n] == text[end..][..n];
  }

  /** The same for the line that ends the content. */
  lemma AnyEnd(pre: string, hyphens: nat, b: string, spaces: nat, rest: string, boundary: string)
    requires Preamble(pre) && hyphens > 0 && b != "" && NoEol(b) && b[0] != '-' && (boundary == "" || SameString(boundary, b))
    ensures var text := pre + Repeat('-', hyphens) + (b + "--" + Repeat(' ', spaces) + CRLF) + rest;
      Get(text, 0, boundary) == Final(if boundary == "" then b else boundary)
  {
    hide ReadLine, SkipTo, SkipAll, TrimSpaces, SameString, GetFields;
    var text := pre + Repeat('-', hyphens) + (b + "--" + Repeat(' ', spaces) + CRLF) + rest;
    assert text == pre + Repeat('-', hyphens) + (b + "--" + Repeat(' ', spaces) + CRLF + rest);
    LineFound(text, pre, hyphens, b + "--", spaces, rest);
    assert (b + "--")[..|b|] == b;
  }

  /** Another boundary than the one that is known gets nothing. */
  lemma OtherFails(pre: string, hyphens: nat, b: string, spaces: nat, rest: string, boundary: string)
    requires Preamble(pre) && hyphens > 0 && IsBoundary(b) && boundary != "" && !SameString(boundary, b)
    ensures Get(pre + Repeat('-', hyphens) + (b + Repeat(' ', spaces) + CRLF) + rest, 0, boundary).Failed?
  {
    hide ReadLine, SkipTo, SkipAll, TrimSpaces, SameString, GetFields;
    var text := pre + Repeat('-', hyphens) + (b + Repeat(' ', spaces) + CRLF) + rest;
    assert text == pre + Repeat('-', hyphens) + (b + Repeat(' ', spaces) + CRLF + rest);
    LineFound(text, pre, hyphens, b, spaces, rest);
  }

  // ---------- letter case ----------

  /** The capital and the small form of one letter. */
  predicate Cases(capital: char, small: char) {
    'A' <= capital <= 'Z' && 'a' <= small <= 'z' && small as int - 'a' as int == capital as int - 'A' as int
  }

  /** Boundaries are the same exactly when they are of one length, not empty, and differ in
      the case of letters at most. */
  lemma SameIff(a: string, b: string)
    ensures SameString(a, b) <==>
      a != "" && |a| == |b| && forall i :: 0 <= i < |a| ==> a[i] == b[i] || Cases(a[i], b[i]) || Cases(b[i], a[i])
  {
    if |a| == |b| {
      forall i | 0 <= i < |a|
        ensures Lower(a[i]) == Lower(b[i]) <==> a[i] == b[i] || Cases(a[i], b[i]) || Cases(b[i], a[i])
      {
        LowerIff(a[i], b[i]);
      }
    }
  }

  lemma LowerIff(c: char, d: char)
    ensures Lower(c) == Lower(d) <==> c == d || Cases(c, d) || Cases(d, c)
  {
  }

  // ---------- lengths ----------

  lemma {:induction false} DigitsStop(s: string, rest: string, i: nat, value: nat)
    requires i <= |s| && (forall k :: 0 <= k < |s| ==> '0' <= s[k] <= '9') && (rest == "" || !('0' <= rest[0] <= '9'))
    ensures DigitsFrom(s + rest, i, value) == DigitsFrom(s, i, value)
    decreases |s| - i
  {
    if i < |s| {
      DigitsStop(s, rest, i + 1, 10 * value + (s[i] - '0') as nat);
    }
  }

  lemma {:induction false} DigitsShift(pre: string, s: string, i: nat, value: nat)
    requires i <= |s|
    ensures DigitsFrom(pre + s, |pre| + i, value) == DigitsFrom(s, i, value)
    decreases |s| - i
  {
    if i < |s| && '0' <= s[i] <= '9' {
      DigitsShift(pre, s, i + 1, 10 * value + (s[i] - '0') as nat);
    }
  }

  /** A length is read from its digits: a plus sign may stand before them, and what
      follows does not matter. */
  lemma LengthIs(n: nat, plus: bool, rest: string)
    requires rest == "" || !('0' <= rest[0] <= '9')
    ensures LengthOf((if plus then "+" else "") + (Decimal(n) + rest)) == n
  {
    hide DigitsFrom, Decimal;
    var digits := Decimal(n) + rest;
    var pre := if plus then "+" else "";
    DecimalDigits(n);
    DigitsStop(Decimal(n), rest, 0, 0);
    DigitsShift(pre, digits, 0, 0);
    assert digits[0] == Decimal(n)[0];
    assert (pre + digits)[0] == if plus then '+' else digits[0];
  }
}
