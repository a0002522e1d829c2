/** What a header line says, character by character. */
module MessageHeaders {
  import opened TextStream

  ghost predicate AllWsp(s: string) {
    forall k :: 0 <= k < |s| ==> IsWsp(s[k])
  }

  /** A name begins with something else than white space, and holds no colon but maybe
      as its first character. */
  ghost predicate IsName(name: string) {
    name != "" && !IsWsp(name[0]) && forall k :: 1 <= k < |name| ==> name[k] != ':'
  }

  ghost predicate IsValue(value: string) {
    value == "" || !IsWsp(value[0])
  }

  lemma {:induction false} SkipWspIs(s: string, from: nat, i: nat)
    requires from <= i <= |s| && (forall k :: from <= k < i ==> IsWsp(s[k])) && (i < |s| ==> !IsWsp(s[i]))
    ensures SkipWsp(s, from) == i
    decreases i - from
  {
    if from < i {
      SkipWspIs(s, from + 1, i);
    }
  }

  lemma {:induction false} ColonIs(s: string, from: nat, i: nat)
    requires from <= i < |s| && s[i] == ':' && forall k :: from <= k < i ==> s[k] != ':'
    ensures ColonAt(s, from) == i
    decreases i - from
  {
    if from < i {
      ColonIs(s, from + 1, i);
    }
  }

  lemma FieldAt(line: string, i: nat, k: nat, v: nat)
    requires i < k < v <= |line| && line[k] == ':' && !IsWsp(line[i]) && (v < |line| ==> !IsWsp(line[v]))
    requires forall j :: 0 <= j < i ==> IsWsp(line[j])
    requires forall j :: i + 1 <= j < k ==> line[j] != ':'
    requires forall j :: k + 1 <= j < v ==> IsWsp(line[j])
    ensures HeaderOf(line) == Field(line[i..k], line[v..])
  {
    hide SkipWsp, ColonAt;
    SkipWspIs(line, 0, i);
    ColonIs(line, i + 1, k);
    SkipWspIs(line, k + 1, v);
  }

  /** White space, a name, a colon, white space and a value: the field of that name and
      value. */
  lemma FieldIs(before: string, name: string, gap: string, value: string)
    requires AllWsp(before) && IsName(name) && AllWsp(gap) && IsValue(value)
    ensures HeaderOf(before + name + ":" + gap + value) == Field(name, value)
  {
    hide HeaderOf;
    var line := before + name + ":" + gap + value;
    var i, k := |before|, |before| + |name|;
    var v := k + 1 + |gap|;
    assert line[..i] == before && line[i..k] == name && line[k + 1..v] == gap && line[v..] == value;
    assert forall j :: 0 <= j < i ==> line[j] == line[..i][j];
    assert forall j :: i <= j < k ==> line[j] == line[i..k][j - i];
    assert forall j :: k + 1 <= j < v ==> line[j] == line[k + 1..v][j - k - 1];
    assert v < |line| ==> line[v] == line[v..][0];
    FieldAt(line, i, k, v);
  }

  /** A line is blank exactly when it holds nothing but white space. */
  lemma BlankIff(line: string)
    ensures HeaderOf(line).Blank? <==> AllWsp(line)
  {
    var i := SkipWsp(line, 0);
    assert i < |line| ==> !IsWsp(line[i]);
  }

  /** A line is malformed exactly when it begins, behind white space, with something that
      no colon follows. */
  lemma MalformedIff(line: string)
    ensures HeaderOf(line).Malformed? <==>
      exists i :: 0 <= i < |line| && AllWsp(line[..i]) && !IsWsp(line[i]) && ':' !in line[i + 1..]
  {
    var i := SkipWsp(line, 0);
    if i < |line| {
      assert AllWsp(line[..i]);
      var k := ColonAt(line, i + 1);
      if k < |line| {
        assert line[i + 1..][k - i - 1] == ':';
        forall j | 0 <= j < |line| && AllWsp(line[..j]) && !IsWsp(line[j]) ensures j == i {
          assert forall k :: 0 <= k < j ==> line[..j][k] == line[k] && k != i;
        }
      } else {
        assert forall j :: i + 1 <= j < |line| ==> line[j] != ':';
        assert ':' !in line[i + 1..];
      }
    }
  }

  lemma WspPart(s: string, i: nat, j: nat)
    requires i <= j <= |s| && forall k :: i <= k < j ==> IsWsp(s[k])
    ensures AllWsp(s[i..j])
  {
  }

  lemma NamePart(s: string, i: nat, j: nat)
    requires i < j <= |s| && !IsWsp(s[i]) && forall k :: i + 1 <= k < j ==> s[k] != ':'
    ensures IsName(s[i..j])
  {
  }

  /** Every other line is a field, and this is how it is laid out. */
  lemma FieldLayout(line: string) returns (before: string, gap: string)
    requires HeaderOf(line).Field?
    ensures var h := HeaderOf(line);
      AllWsp(before) && IsName(h.name) && AllWsp(gap) && IsValue(h.value) && line == before + h.name + ":" + gap + h.value
  {
    hide AllWsp, IsName;
    var i := SkipWsp(line, 0);
    var k := ColonAt(line, i + 1);
    var v := SkipWsp(line, k + 1);
    hide SkipWsp, ColonAt;
    before, gap := line[0..i], line[k + 1..v];
    WspPart(line, 0, i);
    NamePart(line, i, k);
    WspPart(line, k + 1, v);
    InParts(line, i, k, v);
  }

  lemma InParts(s: string, i: nat, k: nat, v: nat)
    requires i <= k < v <= |s| && s[k] == ':'
    ensures s == s[0..i] + s[i..k] + ":" + s[k + 1..v] + s[v..]
  {
    assert s[0..i] + s[i..k] == s[..k];
    assert s[..k] + ":" == s[..k + 1];
    assert s[..k + 1] + s[k + 1..v] == s[..v];
    assert s[..v] + s[v..] == s;
  }
}
