/** Reading lines and header fields from a text stream (apt_text_stream.c). */
module TextStream {

  datatype Option<T> = None | Some(value: T)

  const CR := '\r'
  const LF := '\n'
  const CRLF := [CR, LF]

  predicate IsEol(c: char) {
    c == CR || c == LF
  }

  predicate IsWsp(c: char) {
    c == ' ' || c == '\t'
  }

  predicate NoEol(s: string) {
    forall i :: 0 <= i < |s| ==> !IsEol(s[i])
  }

  /** The text, the read position in it, and whether a read ran into its end. */
  datatype Stream = Stream(text: string, pos: nat, eos: bool)

  predicate ValidStream(s: Stream) {
    s.pos <= |s.text|
  }

  predicate IsEos(s: Stream) {
    s.pos >= |s.text| || s.eos
  }

  // ---------- lines ----------

  function EolAt(text: string, from: nat): (e: nat)
    requires from <= |text|
    ensures from <= e <= |text| && NoEol(text[from..e])
    ensures e < |text| ==> IsEol(text[e])
    decreases |text| - from
  {
    if from == |text| || IsEol(text[from]) then from
    else
      var e := EolAt(text, from + 1);
      assert text[from..e] == [text[from]] + text[from + 1..e];
      e
  }

  lemma {:induction false} EolIs(text: string, from: nat, e: nat)
    requires from <= e < |text| && IsEol(text[e]) && forall k :: from <= k < e ==> !IsEol(text[k])
    ensures EolAt(text, from) == e
    decreases e - from
  {
    if from < e {
      EolIs(text, from + 1, e);
    }
  }

  function AfterEol(text: string, e: nat): (n: nat)
    requires e < |text|
    ensures e < n <= |text|
  {
    if text[e] == CR && e + 1 < |text| && text[e + 1] == LF then e + 2 else e + 1
  }

  /** A line up to CR, LF or CRLF; nothing is read when the end of line is missing. */
  function ReadLine(s: Stream): (r: (Stream, Option<string>))
    requires ValidStream(s)
    ensures ValidStream(r.0) && r.0.text == s.text && s.pos <= r.0.pos
    ensures r.1.Some? ==> s.pos < r.0.pos && r.0.eos == s.eos && NoEol(r.1.value)
    ensures r.1.None? ==> r.0.pos == s.pos && r.0.eos
  {
    var e := EolAt(s.text, s.pos);
    if e == |s.text| then (s.(eos := true), None)
    else (s.(pos := AfterEol(s.text, e)), Some(s.text[s.pos..e]))
  }

  // ---------- text laid end to end ----------

  /** At pos the text goes on with `here` and then `rest`. */
  ghost predicate Follows(text: string, pos: nat, here: string, rest: string) {
    pos <= |text| && text[pos..] == here + rest
  }

  lemma FollowsOn(text: string, pos: nat, here: string, rest: string)
    requires Follows(text, pos, here, rest)
    ensures pos + |here| <= |text| && text[pos + |here|..] == rest
    ensures forall i :: 0 <= i < |here| ==> text[pos + i] == here[i]
    ensures text[pos..pos + |here|] == here
  {
    assert |text[pos..]| == |here| + |rest|;
    forall i | 0 <= i < |here|
      ensures text[pos + i] == here[i]
    {
      assert text[pos + i] == text[pos..][i];
    }
    assert text[pos + |here|..] == text[pos..][|here|..];
  }

  lemma LineAt(text: string, pos: nat, line: string, rest: string)
    requires Follows(text, pos, line + CRLF, rest) && NoEol(line)
    ensures pos + |line| + 2 <= |text| && text[pos + |line| + 2..] == rest
    ensures ReadLine(Stream(text, pos, false)) == (Stream(text, pos + |line| + 2, false), Some(line))
  {
    var here := line + CRLF;
    FollowsOn(text, pos, here, rest);
    var e := pos + |line|;
    assert text[e] == here[|line|] && text[e + 1] == here[|line| + 1];
    forall k | pos <= k < e
      ensures !IsEol(text[k])
    {
      assert text[k] == here[k - pos];
    }
    EolIs(text, pos, e);
    assert text[pos..e] == text[pos..pos + |here|][..|line|];
  }

  // ---------- header fields ----------

  datatype HeaderRead = NoLine | Blank | Malformed | Field(name: string, value: string)

  function SkipWsp(s: string, from: nat): (i: nat)
    requires from <= |s|
    ensures from <= i <= |s|
    ensures forall k :: from <= k < i ==> IsWsp(s[k])
    ensures i < |s| ==> !IsWsp(s[i])
    decreases |s| - from
  {
    if from < |s| && IsWsp(s[from]) then SkipWsp(s, from + 1) else from
  }

  function ColonAt(s: string, from: nat): (i: nat)
    requires from <= |s|
    ensures from <= i <= |s|
    ensures forall k :: from <= k < i ==> s[k] != ':'
    ensures i < |s| ==> s[i] == ':'
    decreases |s| - from
  {
    if from < |s| && s[from] != ':' then ColonAt(s, from + 1) else from
  }

  /** What a whole line says: the name runs from the first character that is not
      white space up to a colon after it, the value from the next such character on. */
  function HeaderOf(line: string): (h: HeaderRead)
    ensures !h.NoLine? && (h.Field? ==> h.name != "")
  {
    var i := SkipWsp(line, 0);
    if i == |line| then Blank
    else
      var k := ColonAt(line, i + 1);
      if k == |line| then Malformed
      else Field(line[i..k], line[SkipWsp(line, k + 1)..])
  }

  function ReadHeader(s: Stream): (r: (Stream, HeaderRead))
    requires ValidStream(s)
    ensures ValidStream(r.0) && r.0.text == s.text && s.pos <= r.0.pos
    ensures !r.1.NoLine? ==> s.pos < r.0.pos && r.0.eos == s.eos
    ensures r.1.NoLine? ==> r.0 == s.(eos := true)
  {
    var (s1, line) := ReadLine(s);
    (s1, if line.None? then NoLine else HeaderOf(line.value))
  }

  // ---------- the loops as written ----------

  /** apt_text_line_read */
  method LineRead(s: Stream) returns (r: Stream, line: Option<string>)
    requires ValidStream(s)
    ensures (r, line) == ReadLine(s)
  {
    var pos := s.pos;
    while pos < |s.text|
      invariant s.pos <= pos <= |s.text|
      invariant EolAt(s.text, s.pos) == EolAt(s.text, pos)
    {
      if s.text[pos] == CR {
        line := Some(s.text[s.pos..pos]);
        pos := pos + 1;
        if pos < |s.text| && s.text[pos] == LF {
          pos := pos + 1;
        }
        return s.(pos := pos), line;
      } else if s.text[pos] == LF {
        line := Some(s.text[s.pos..pos]);
        return s.(pos := pos + 1), line;
      }
      pos := pos + 1;
    }
    return s.(eos := true), None;
  }

  /** Where the scan of a header line stands: the start of the name and its length,
      and the start of the value. */
  datatype Scan = Scan(name: Option<nat>, nameLen: nat, value: Option<nat>)

  ghost predicate Scanned(line: string, k: nat, sc: Scan)
    requires k <= |line|
  {
    && (sc.name.None? ==> sc.nameLen == 0 && sc.value.None? && SkipWsp(line, 0) == SkipWsp(line, k))
    && (sc.name.Some? ==> sc.name.value < k && SkipWsp(line, 0) == sc.name.value)
    && (sc.name.Some? && sc.nameLen == 0 ==> sc.value.None? && ColonAt(line, sc.name.value + 1) == ColonAt(line, k))
    && (sc.nameLen > 0 ==> sc.name.Some? && sc.name.value + sc.nameLen < k)
    && (sc.nameLen > 0 ==> ColonAt(line, sc.name.value + 1) == sc.name.value + sc.nameLen)
    && (sc.nameLen > 0 && sc.value.None? ==> SkipWsp(line, sc.name.value + sc.nameLen + 1) == SkipWsp(line, k))
    && (sc.value.Some? ==> sc.nameLen > 0 && sc.value.value < k)
    && (sc.value.Some? ==> SkipWsp(line, sc.name.value + sc.nameLen + 1) == sc.value.value)
  }

  function Assemble(line: string, sc: Scan): HeaderRead {
    if sc.name.None? then Blank
    else if sc.nameLen == 0 || sc.name.value + sc.nameLen > |line| then Malformed
    else Field(line[sc.name.value..sc.name.value + sc.nameLen],
               if sc.value.None? || sc.value.value > |line| then "" else line[sc.value.value..])
  }

  lemma ScannedAll(line: string, sc: Scan)
    requires Scanned(line, |line|, sc)
    ensures Assemble(line, sc) == HeaderOf(line)
  {
  }

  function NextScan(sc: Scan, k: nat, c: char): Scan {
    if sc.nameLen == 0 then
      var name := if sc.name.None? && !IsWsp(c) then Some(k) else sc.name;
      sc.(name := name, nameLen := if c == ':' && name.Some? && name.value <= k then k - name.value else 0)
    else if sc.value.None? && !IsWsp(c) then sc.(value := Some(k))
    else sc
  }

  lemma ScannedNext(line: string, k: nat, sc: Scan)
    requires k < |line| && Scanned(line, k, sc)
    ensures Scanned(line, k + 1, NextScan(sc, k, line[k]))
  {
  }

  /** apt_text_header_read: one pass over the line, tracking name and value. */
  method HeaderScan(s: Stream) returns (r: Stream, header: HeaderRead)
    requires ValidStream(s)
    ensures (r, header) == ReadHeader(s)
  {
    hide Scanned, Assemble, HeaderOf, NextScan;
    var pos := s.pos;
    var sc := Scan(None, 0, None);
    ghost var e := EolAt(s.text, s.pos);
    ghost var line := s.text[s.pos..e];
    NothingScanned(line);
    while pos < |s.text|
      invariant s.pos <= pos <= e == EolAt(s.text, pos)
      invariant Scanned(line, pos - s.pos, sc)
    {
      var c := s.text[pos];
      if IsEol(c) {
        ScannedAll(line, sc);
        header := Assemble(s.text[s.pos..pos], sc);
        if c == CR && pos + 1 < |s.text| && s.text[pos + 1] == LF {
          pos := pos + 1;
        }
        return s.(pos := pos + 1), header;
      }
      ScannedNext(line, pos - s.pos, sc);
      sc := NextScan(sc, pos - s.pos, c);
      pos := pos + 1;
    }
    return s.(eos := true), NoLine;
  }

  lemma NothingScanned(line: string)
    ensures Scanned(line, 0, Scan(None, 0, None))
  {
  }
}
