/** One AMI message: header lines, each a name, a colon and a value. */
module AmiMessage {
  import opened Prelude
  import opened Trimming

  type Fields = map<string, string>

  /** `s.indexOf(c)` */
  function IndexOf(s: string, c: char): (k: int)
    ensures -1 <= k < |s|
    ensures k >= 0 ==> s[k] == c && forall j :: 0 <= j < k ==> s[j] != c
    ensures k == -1 ==> forall j :: 0 <= j < |s| ==> s[j] != c
  {
    if s == "" then -1
    else if s[0] == c then 0
    else
      var k := IndexOf(s[1..], c);
      if k == -1 then -1 else k + 1
  }

  function WithoutReturn(line: string): string {
    if line != "" && line[|line| - 1] == '\r' then line[..|line| - 1] else line
  }

  /** `s.split(/\r?\n/)` */
  function SplitLines(s: string): seq<string>
    decreases |s|
  {
    var k := IndexOf(s, '\n');
    if k == -1 then [s] else [WithoutReturn(s[..k])] + SplitLines(s[k + 1..])
  }

  /** A line without a colon is no field. */
  function FieldOf(line: string): Option<(string, string)> {
    var k := IndexOf(line, ':');
    if k == -1 then None else Some((Trim(line[..k]), Trim(line[k + 1..])))
  }

  function WithField(fields: Fields, line: string): Fields {
    var f := FieldOf(line);
    if f == None then fields else fields[f.value.0 := f.value.1]
  }

  /** Later lines overwrite earlier ones. */
  function FieldsOf(lines: seq<string>): Fields {
    if lines == [] then map[] else WithField(FieldsOf(lines[..|lines| - 1]), lines[|lines| - 1])
  }

  lemma FieldsNext(lines: seq<string>, i: nat)
    requires i < |lines|
    ensures FieldsOf(lines[..i + 1]) == WithField(FieldsOf(lines[..i]), lines[i])
  {
    assert lines[..i + 1][..i] == lines[..i];
  }

  method ParseMessage(rawMessage: string) returns (event: Fields)
    ensures event == FieldsOf(SplitLines(rawMessage))
  {
    event := map[];
    var lines, i := SplitLines(rawMessage), 0;
    while i < |lines|
      invariant 0 <= i <= |lines| && event == FieldsOf(lines[..i])
    {
      var line := lines[i];
      FieldsNext(lines, i);
      i := i + 1;
      var index := IndexOf(line, ':');
      if index == -1 {
        continue;
      }
      event := event[Trim(line[..index]) := Trim(line[index + 1..])];
    }
    assert lines[..i] == lines;
  }

  // ---------- Round trip ----------

  datatype Header = Header(name: string, value: string)

  predicate NoneOf(s: string, c: char) {
    forall i :: 0 <= i < |s| ==> s[i] != c
  }

  /** What a name and a value may be: one line each, no surrounding space, no colon in the name. */
  predicate Sendable(h: Header) {
    && Trim(h.name) == h.name && NoneOf(h.name, ':') && NoneOf(h.name, '\n')
    && Trim(h.value) == h.value && NoneOf(h.value, '\n')
  }

  function LineOf(h: Header): string {
    h.name + ": " + h.value
  }

  function Lines(headers: seq<Header>): seq<string> {
    if headers == [] then [] else [LineOf(headers[0])] + Lines(headers[1..])
  }

  /** Header lines, separated by line breaks. */
  function Render(headers: seq<Header>): string
    requires headers != []
  {
    if |headers| == 1 then LineOf(headers[0]) else LineOf(headers[0]) + "\r\n" + Render(headers[1..])
  }

  function FieldMap(headers: seq<Header>): Fields {
    if headers == [] then map[]
    else
      var last := headers[|headers| - 1];
      FieldMap(headers[..|headers| - 1])[last.name := last.value]
  }

  lemma FirstIndex(s: string, c: char, k: nat)
    requires k < |s| && s[k] == c && forall j :: 0 <= j < k ==> s[j] != c
    ensures IndexOf(s, c) == k
  {
  }

  lemma TrimAfterSpace(v: string)
    requires Trim(v) == v
    ensures Trim(" " + v) == v
  {
    TrimResult(v);
    assert (" " + v)[1..] == v;
    assert TrimStart(" " + v) == TrimStart(v);
  }

  lemma FieldOfLine(h: Header)
    requires Sendable(h)
    ensures FieldOf(LineOf(h)) == Some((h.name, h.value))
  {
    var line, n := LineOf(h), |h.name|;
    FirstIndex(line, ':', n);
    assert line[..n] == h.name && line[n + 1..] == " " + h.value;
    TrimAfterSpace(h.value);
  }

  /** A sent line has no line break in it and no carriage return at its end. */
  lemma LineIsOneLine(h: Header)
    requires Sendable(h)
    ensures NoneOf(LineOf(h), '\n') && LineOf(h) != "" && LineOf(h)[|LineOf(h)| - 1] != '\r'
  {
    TrimResult(h.value);
  }

  lemma SplitFirstLine(line: string, rest: string)
    requires NoneOf(line, '\n') && line != "" && line[|line| - 1] != '\r'
    ensures SplitLines(line) == [line]
    ensures SplitLines(line + "\r\n" + rest) == [line] + SplitLines(rest)
  {
    var s, k := line + "\r\n" + rest, |line| + 1;
    FirstIndex(s, '\n', k);
    assert s[..k] == line + "\r" && s[k + 1..] == rest;
    assert WithoutReturn(line + "\r") == line;
  }

  lemma {:induction false} SplitRendered(headers: seq<Header>)
    requires headers != [] && forall i :: 0 <= i < |headers| ==> Sendable(headers[i])
    ensures SplitLines(Render(headers)) == Lines(headers)
  {
    LineIsOneLine(headers[0]);
    if |headers| == 1 {
      SplitFirstLine(LineOf(headers[0]), "");
      assert Lines(headers[1..]) == [];
    } else {
      SplitRendered(headers[1..]);
      SplitFirstLine(LineOf(headers[0]), Render(headers[1..]));
    }
  }

  lemma {:induction false} LinesAt(headers: seq<Header>, i: nat)
    requires i < |headers|
    ensures |Lines(headers)| == |headers| && Lines(headers)[i] == LineOf(headers[i])
  {
    if i > 0 {
      LinesAt(headers[1..], i - 1);
    } else if |headers| > 1 {
      LinesAt(headers[1..], 0);
    }
  }

  lemma {:induction false} FieldsOfPrefix(headers: seq<Header>, lines: seq<string>)
    requires |lines| == |headers|
    requires forall i :: 0 <= i < |headers| ==> Sendable(headers[i]) && lines[i] == LineOf(headers[i])
    ensures FieldsOf(lines) == FieldMap(headers)
  {
    if headers != [] {
      var n := |headers| - 1;
      FieldsOfPrefix(headers[..n], lines[..n]);
      FieldOfLine(headers[n]);
    }
  }

  /** Main result: parsing a rendered message gives back its headers, the last one of a name winning. */
  lemma ParsesRendered(headers: seq<Header>)
    requires headers != [] && forall i :: 0 <= i < |headers| ==> Sendable(headers[i])
    ensures FieldsOf(SplitLines(Render(headers))) == FieldMap(headers)
  {
    SplitRendered(headers);
    LinesAt(headers, 0);
    forall i | 0 <= i < |headers| ensures Lines(headers)[i] == LineOf(headers[i]) { LinesAt(headers, i); }
    FieldsOfPrefix(headers, Lines(headers));
  }
}
