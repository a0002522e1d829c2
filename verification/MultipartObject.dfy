/** Writing multipart content into a bounded buffer and reading it back, as the
    code does it: by moving a position in a text stream. */
module MultipartObject {
  import opened TextStream
  import opened MessageModel
  import opened Multipart

  const DEFAULT_CONTENT_SIZE := 4096
  const DEFAULT_BOUNDARY := "break"

  lemma PrefixGrows(a: string, b: string, c: string)
    requires a <= b
    ensures a <= b + c
  {
  }

  class MultipartWriter {
    const capacity: nat
    const boundary: string
    var text: string

    ghost predicate Valid()
      reads this
    {
      |text| < capacity
    }

    constructor (maxSize: nat, boundary: Option<string>)
      ensures Valid() && text == "" && capacity == if maxSize == 0 then DEFAULT_CONTENT_SIZE else maxSize
      ensures this.boundary == if boundary.None? then DEFAULT_BOUNDARY else boundary.value
    {
      capacity := if maxSize == 0 then DEFAULT_CONTENT_SIZE else maxSize;
      this.boundary := if boundary.None? then DEFAULT_BOUNDARY else boundary.value;
      text := "";
    }

    /** A piece is inserted whole when it fits, and what is written is never more than it. */
    twostate predicate Inserted(piece: string, ok: bool)
      reads this
    {
      && |text| < capacity
      && (ok <==> |old(text)| + |piece| < capacity)
      && (ok ==> text == old(text) + piece)
      && old(text) <= text <= old(text) + piece
    }

    method InsertEol() returns (ok: bool)
      requires Valid()
      modifies this
      ensures Inserted(CRLF, ok)
    {
      ok := |text| + 2 < capacity;
      if ok {
        text := text + CRLF;
      }
    }

    method InsertString(s: string) returns (ok: bool)
      requires Valid()
      modifies this
      ensures Inserted(s, ok)
    {
      ok := |text| + |s| < capacity;
      if ok {
        text := text + s;
      }
    }

    /** The digits are cut off at the end of the buffer; nothing fits after them then. */
    method InsertSize(n: nat) returns (ok: bool)
      requires Valid()
      modifies this
      ensures |text| < capacity && old(text) <= text <= old(text) + Decimal(n)
      ensures |old(text)| + |Decimal(n)| < capacity ==> ok && text == old(text) + Decimal(n)
      ensures |old(text)| + |Decimal(n)| >= capacity ==> !ok || |text| + 1 == capacity
    {
      var digits := Decimal(n);
      var room := capacity - |text| - 1;
      if |digits| > room {
        digits := digits[..room];
      }
      text := text + digits;
      ok := |digits| > 0;
    }

    method InsertField(name: string, value: Option<string>) returns (ok: bool)
      requires Valid()
      modifies this
      ensures Inserted(FieldText(name, value), ok)
    {
      if value.None? {
        assert text + "" == text;
        return true;
      }
      var line := name + ": " + value.value;
      ok := |text| + |line| < capacity;
      if ok {
        text := text + line;
        ghost var before := text;
        ok := InsertEol();
        assert old(text) + line + CRLF == old(text) + FieldText(name, value);
        if !ok {
          assert text <= before + CRLF;
        }
      }
    }

    method InsertLength(body: Option<string>) returns (ok: bool)
      requires Valid()
      modifies this
      ensures Inserted(FieldText(CONTENT_LENGTH, BodyLength(body)), ok)
    {
      ghost var piece := FieldText(CONTENT_LENGTH, BodyLength(body));
      if body.None? {
        assert text + "" == text;
        return true;
      }
      var head := CONTENT_LENGTH + ": ";
      ghost var digits := Decimal(|body.value|);
      assert old(text) + piece == old(text) + head + digits + CRLF;
      ok := |text| + |head| < capacity;
      if !ok {
        return;
      }
      text := text + head;
      ok := InsertSize(|body.value|);
      PrefixGrows(text, old(text) + head + digits, CRLF);
      if !ok {
        return;
      }
      ghost var full := text;
      ok := InsertEol();
      if |old(text) + head| + |digits| >= capacity {
        CutShort(full, text, old(text) + piece, capacity);
      }
    }

    lemma CutShort(full: string, now: string, target: string, limit: nat)
      requires full <= now && |full| + 1 == limit && |now| < limit && full <= target
      ensures now <= target
    {
      assert now == full;
    }

    /** End of line, hyphens, boundary, end of line. */
    method Initialize() returns (ok: bool)
      requires Valid()
      modifies this
      ensures Inserted(CRLF + HYPHENS + boundary + CRLF, ok)
    {
      ghost var all := old(text) + (CRLF + HYPHENS + boundary + CRLF);
      ok := InsertEol();
      assert old(text) + CRLF + (HYPHENS + boundary + CRLF) == all;
      PrefixGrows(text, old(text) + CRLF, HYPHENS + boundary + CRLF);
      if !ok { return; }
      ok := InsertString(HYPHENS);
      assert old(text) + CRLF + HYPHENS + (boundary + CRLF) == all;
      PrefixGrows(text, old(text) + CRLF + HYPHENS, boundary + CRLF);
      if !ok { return; }
      ok := InsertString(boundary);
      assert old(text) + CRLF + HYPHENS + boundary + CRLF == all;
      PrefixGrows(text, old(text) + CRLF + HYPHENS + boundary, CRLF);
      if !ok { return; }
      ok := InsertEol();
    }

    method InsertFields(p: Part) returns (ok: bool)
      requires Valid()
      modifies this
      ensures Inserted(FieldsText(p), ok)
    {
      hide FieldText;
      var a, b, c := FieldText(CONTENT_TYPE, p.contentType), FieldText(CONTENT_ID, p.id),
        FieldText(CONTENT_LENGTH, BodyLength(p.body));
      ok := InsertField(CONTENT_TYPE, p.contentType);
      assert old(text) + a + (b + c) == old(text) + FieldsText(p);
      PrefixGrows(text, old(text) + a, b + c);
      if !ok { return; }
      ok := InsertField(CONTENT_ID, p.id);
      assert old(text) + a + b + c == old(text) + FieldsText(p);
      PrefixGrows(text, old(text) + a + b, c);
      if !ok { return; }
      ok := InsertLength(p.body);
    }

    /** apt_multipart_content_add2 */
    method Add(p: Part) returns (ok: bool)
      requires Valid()
      modifies this
      ensures Inserted(PartText(boundary, p), ok)
    {
      hide FieldsText;
      var head, fields, body := CRLF + HYPHENS + boundary + CRLF, FieldsText(p), OrEmpty(p.body);
      ghost var all := old(text) + PartText(boundary, p);
      assert all == old(text) + head + fields + CRLF + body;
      ok := Initialize();
      assert old(text) + head + (fields + CRLF + body) == all;
      PrefixGrows(text, old(text) + head, fields + CRLF + body);
      if !ok { return; }
      ok := InsertFields(p);
      assert old(text) + head + fields + (CRLF + body) == all;
      PrefixGrows(text, old(text) + head + fields, CRLF + body);
      if !ok { return; }
      ok := InsertEol();
      PrefixGrows(text, old(text) + head + fields + CRLF, body);
      if !ok { return; }
      ok := InsertString(body);
    }

    /** apt_multipart_content_finalize */
    method Finalize() returns (ok: bool)
      requires Valid()
      modifies this
      ensures Inserted(FinalText(boundary), ok)
    {
      ghost var all := old(text) + FinalText(boundary);
      ok := InsertEol();
      assert old(text) + CRLF + (HYPHENS + boundary + HYPHENS + CRLF) == all;
      PrefixGrows(text, old(text) + CRLF, HYPHENS + boundary + HYPHENS + CRLF);
      if !ok { return; }
      ok := InsertString(HYPHENS);
      assert old(text) + CRLF + HYPHENS + (boundary + HYPHENS + CRLF) == all;
      PrefixGrows(text, old(text) + CRLF + HYPHENS, boundary + HYPHENS + CRLF);
      if !ok { return; }
      ok := InsertString(boundary);
      assert old(text) + CRLF + HYPHENS + boundary + (HYPHENS + CRLF) == all;
      PrefixGrows(text, old(text) + CRLF + HYPHENS + boundary, HYPHENS + CRLF);
      if !ok { return; }
      ok := InsertString(HYPHENS);
      assert old(text) + CRLF + HYPHENS + boundary + HYPHENS + CRLF == all;
      PrefixGrows(text, old(text) + CRLF + HYPHENS + boundary + HYPHENS, CRLF);
      if !ok { return; }
      ok := InsertEol();
    }
  }

  /** Writing a whole content succeeds exactly when its text is shorter than the buffer. */
  method WriteContent(maxSize: nat, boundary: Option<string>, parts: seq<Part>) returns (r: Option<string>)
    ensures var b := if boundary.None? then DEFAULT_BOUNDARY else boundary.value;
      var capacity := if maxSize == 0 then DEFAULT_CONTENT_SIZE else maxSize;
      r == if |ContentText(b, parts)| < capacity then Some(ContentText(b, parts)) else None
  {
    hide PartText, FinalText;
    var w := new MultipartWriter(maxSize, boundary);
    var i := 0;
    while i < |parts|
      invariant i <= |parts| && w.Valid() && fresh(w)
      invariant ContentText(w.boundary, parts) == w.text + ContentText(w.boundary, parts[i..])
    {
      assert parts[i..][1..] == parts[i + 1..];
      var before := w.text;
      var ok := w.Add(parts[i]);
      assert before + PartText(w.boundary, parts[i]) + ContentText(w.boundary, parts[i + 1..])
          == before + ContentText(w.boundary, parts[i..]);
      if !ok {
        return None;
      }
      i := i + 1;
    }
    assert parts[i..] == [];
    var ok := w.Finalize();
    r := if ok then Some(w.text) else None;
  }

  class MultipartReader {
    const text: string
    var boundary: string
    var pos: nat

    ghost predicate Valid()
      reads this
    {
      pos <= |text|
    }

    constructor (text: string, boundary: string)
      ensures Valid() && this.text == text && this.boundary == boundary && pos == 0
    {
      this.text, this.boundary, pos := text, boundary, 0;
    }

    /** Skip the preamble and the hyphens. */
    method SkipToBoundary()
      requires Valid()
      modifies this`pos
      ensures pos == SkipAll(text, SkipTo(text, old(pos), '-'), '-')
    {
      while pos < |text| && text[pos] != '-'
        invariant old(pos) <= pos <= |text| && SkipTo(text, pos, '-') == SkipTo(text, old(pos), '-')
      {
        pos := pos + 1;
      }
      while pos < |text| && text[pos] == '-'
        invariant pos <= |text| && SkipAll(text, pos, '-') == SkipAll(text, SkipTo(text, old(pos), '-'), '-')
      {
        pos := pos + 1;
      }
    }

    method Trim(s: string) returns (r: string)
      ensures r == TrimSpaces(s)
    {
      r := s;
      while r != "" && r[|r| - 1] == ' '
        invariant TrimSpaces(r) == TrimSpaces(s)
        decreases |r|
      {
        r := r[..|r| - 1];
      }
    }

    method Collect(headers: seq<Header>) returns (g: Got)
      ensures g == AssignAll(NOTHING, headers)
    {
      g := NOTHING;
      var i := 0;
      while i < |headers|
        invariant i <= |headers| && AssignAll(g, headers[i..]) == AssignAll(NOTHING, headers)
      {
        assert headers[i..][0] == headers[i] && headers[i..][1..] == headers[i + 1..];
        g := Assign(g, headers[i]);
        i := i + 1;
      }
      assert headers[i..] == [];
    }

    /** apt_multipart_content_get */
    method GetNext() returns (r: GetResult)
      requires Valid()
      modifies this`pos, this`boundary
      ensures r == Get(text, old(pos), old(boundary))
      ensures Valid() && (r.Next? ==> pos == r.pos && boundary == r.boundary)
    {
      hide AssignAll, TrimSpaces, SkipAll, SkipTo, SameString, ParseSection, LengthOf;
      SkipToBoundary();
      if pos == |text| {
        return Failed;
      }
      var s, read := LineRead(Stream(text, pos, false));
      if read.None? {
        return Failed;
      }
      pos := s.pos;
      var line := Trim(read.value);
      var final := EndsWithHyphens(line);
      if final {
        line := line[..|line| - 2];
      }
      if boundary == "" {
        boundary := line;
      } else if !SameString(boundary, line) {
        return Failed;
      }
      if final {
        return Final(boundary);
      }
      var (s1, headers, done) := ParseSection(s, []);
      if !done {
        return Failed;
      }
      pos := s1.pos;
      var g := Collect(headers);
      if g.length.Some? && g.length.value != "" {
        var n := LengthOf(g.length.value);
        if n + pos > |text| {
          return Failed;
        }
        g := g.(body := text[pos..pos + n]);
        pos := pos + n;
      }
      r := Next(g, boundary, pos);
    }
  }
}
