/** Text as lines: split with their ends kept, joined again, and read as key and value. */
module TextLines {
  import opened Outcomes

  const MARK: char := '\U{FEFF}'

  predicate IsSpace(c: char) {
    || '\t' <= c <= '\r' || c == ' ' || c == '\U{85}' || c == '\U{A0}' || c == '\U{1680}'
    || '\U{2000}' <= c <= '\U{200A}' || c == '\U{2028}' || c == '\U{2029}' || c == '\U{202F}'
    || c == '\U{205F}' || c == '\U{3000}'
  }

  function DropMarks(s: string): string {
    if s != [] && s[0] == MARK then DropMarks(s[1..]) else s
  }

  function TrimStart(s: string): string {
    if s != [] && IsSpace(s[0]) then TrimStart(s[1..]) else s
  }

  function TrimEnd(s: string): string {
    if s != [] && IsSpace(s[|s| - 1]) then TrimEnd(s[..|s| - 1]) else s
  }

  function Trim(s: string): string {
    TrimEnd(TrimStart(s))
  }

  function IndexOf(s: string, c: char): (at: Option<nat>)
    ensures at.Some? ==> at.value < |s| && s[at.value] == c && c !in s[..at.value]
    ensures at.None? ==> c !in s
  {
    if s == [] then None
    else if s[0] == c then Some(0)
    else
      var later := IndexOf(s[1..], c);
      assert s == [s[0]] + s[1..];
      if later.None? then None
      else
        assert s[..later.value + 1] == [s[0]] + s[1..][..later.value];
        Some(later.value + 1)
  }

  // One line.

  datatype Parsed = Blank | Entry(key: string, value: string) | Malformed

  predicate QuotedBy(value: string, quote: char) {
    |value| >= 2 && value[0] == quote && value[|value| - 1] == quote
  }

  function Unquote(value: string): string {
    if QuotedBy(value, '"') || QuotedBy(value, '\'') then value[1..|value| - 1] else value
  }

  function ParseLine(line: string): Parsed {
    var trimmed := Trim(DropMarks(line));
    if trimmed == [] || trimmed[0] == '#' then Blank
    else
      match IndexOf(trimmed, '=')
      case None => Malformed
      case Some(at) => Entry(Trim(trimmed[..at]), Unquote(Trim(trimmed[at + 1..])))
  }

  predicate EndsWith(s: string, end: string) {
    |end| <= |s| && s[|s| - |end|..] == end
  }

  function Ending(line: string): string {
    if EndsWith(line, "\r\n") then "\r\n" else if EndsWith(line, "\n") then "\n" else ""
  }

  function Body(line: string): (body: string)
    ensures body + Ending(line) == line
  {
    line[..|line| - |Ending(line)|]
  }

  lemma {:induction false} DropMarksMore(s: string, c: char)
    requires c != MARK
    ensures DropMarks(s + [c]) == DropMarks(s) + [c]
  {
    if s != [] && s[0] == MARK {
      assert (s + [c])[1..] == s[1..] + [c];
      DropMarksMore(s[1..], c);
    } else if s == [] {
      assert [c][1..] == [];
    }
  }

  lemma {:induction false} TrimStartMore(s: string, c: char)
    requires IsSpace(c)
    ensures TrimStart(s + [c]) == if TrimStart(s) == [] then [] else TrimStart(s) + [c]
  {
    if s == [] {
      assert [c][1..] == [];
    } else if IsSpace(s[0]) {
      assert (s + [c])[1..] == s[1..] + [c];
      TrimStartMore(s[1..], c);
    }
  }

  /** White space at the end of a line does not change how it reads. */
  lemma ParseMore(line: string, c: char)
    requires IsSpace(c)
    ensures ParseLine(line + [c]) == ParseLine(line)
  {
    DropMarksMore(line, c);
    TrimStartMore(DropMarks(line), c);
    var start := TrimStart(DropMarks(line));
    assert (start + [c])[..|start|] == start;
  }

  lemma ParseBody(line: string)
    ensures ParseLine(Body(line)) == ParseLine(line)
  {
    ParseEnded(Body(line), Ending(line));
  }

  lemma ParseEnded(body: string, end: string)
    requires end in {"", "\n", "\r\n"}
    ensures ParseLine(body + end) == ParseLine(body)
  {
    if end == "" {
      assert body + end == body;
    } else if end == "\n" {
      ParseMore(body, '\n');
    } else {
      ParseMore(body, '\r');
      ParseMore(body + ['\r'], '\n');
      assert body + end == body + ['\r'] + ['\n'];
    }
  }

  /** A key as this program writes one. */
  predicate Plain(key: string) {
    && key != [] && '=' !in key && key[0] != MARK && key[0] != '#' && !IsSpace(key[0]) && !IsSpace(key[|key| - 1])
  }

  function EntryLine(key: string, value: string): string {
    key + " = " + value
  }

  function Quoted(value: string): string {
    "\"" + value + "\""
  }

  predicate Bare(s: string) {
    s != [] && !IsSpace(s[0]) && !IsSpace(s[|s| - 1])
  }

  lemma TrimsToItself(s: string)
    requires Bare(s)
    ensures Trim(s) == s && Trim(s + [' ']) == s && Trim([' '] + s) == s
  {
    assert TrimEnd(s) == s && TrimStart(s) == s;
    assert (s + [' '])[..|s|] == s && ([' '] + s)[1..] == s;
    assert TrimStart(s + [' ']) == s + [' '];
  }

  lemma {:induction false} IndexIs(s: string, c: char, at: nat)
    requires at < |s| && s[at] == c && c !in s[..at]
    ensures IndexOf(s, c) == Some(at)
  {
    if at > 0 {
      assert s[..at][0] == s[0] && s[1..][..at - 1] == s[..at][1..];
      IndexIs(s[1..], c, at - 1);
    }
  }

  lemma EntryCut(key: string, quoted: string)
    ensures var line, at := EntryLine(key, quoted), |key| + 1;
            && |line| == at + 2 + |quoted| && line[at] == '='
            && line[..at] == key + [' '] && line[at + 1..] == [' '] + quoted
  {
    assert EntryLine(key, quoted) == (key + [' ']) + ['='] + ([' '] + quoted);
  }

  /** A written entry reads back as its key and value. */
  lemma EntryReadsBack(key: string, value: string)
    requires Plain(key)
    ensures ParseLine(EntryLine(key, Quoted(value))) == Entry(key, value)
  {
    var quoted, line := Quoted(value), EntryLine(key, Quoted(value));
    var at := |key| + 1;
    assert line[0] == key[0] && line[|line| - 1] == quoted[|quoted| - 1] == '"';
    TrimsToItself(line);
    EntryCut(key, quoted);
    IndexIs(line, '=', at);
    TrimsToItself(key);
    TrimsToItself(quoted);
    assert quoted[1..|quoted| - 1] == value;
  }

  // The lines of a text.

  /** How much of a text its first line is, its end with it. */
  function LineLength(text: string): (n: nat)
    requires text != []
    ensures 1 <= n <= |text|
    ensures '\n' !in text[..n - 1] && (n < |text| ==> text[n - 1] == '\n')
  {
    if text[0] == '\n' || |text| == 1 then 1
    else
      assert forall n | 1 <= n <= |text| - 1 :: text[..n] == [text[0]] + text[1..][..n - 1];
      1 + LineLength(text[1..])
  }

  function SplitInclusive(text: string): seq<string>
    decreases |text|
  {
    if text == [] then [] else [text[..LineLength(text)]] + SplitInclusive(text[LineLength(text)..])
  }

  function Joined(lines: seq<string>): string {
    if lines == [] then [] else lines[0] + Joined(lines[1..])
  }

  predicate IsLine(line: string) {
    line != [] && '\n' !in line[..|line| - 1]
  }

  predicate Whole(line: string) {
    IsLine(line) && line[|line| - 1] == '\n'
  }

  /** Lines as a text splits into: each ends with a newline but the last, which may not. */
  ghost predicate Lined(lines: seq<string>) {
    && (forall i | 0 <= i < |lines| :: IsLine(lines[i]))
    && forall i | 0 <= i < |lines| - 1 :: Whole(lines[i])
  }

  lemma {:induction false} JoinedSplit(text: string)
    ensures Joined(SplitInclusive(text)) == text
    decreases |text|
  {
    if text != [] {
      var n := LineLength(text);
      JoinedSplit(text[n..]);
      assert text == text[..n] + text[n..];
      assert SplitInclusive(text)[1..] == SplitInclusive(text[n..]);
    }
  }

  /** A text ends with a newline exactly when its last line does. */
  lemma {:induction false} SplitIsLined(text: string)
    ensures Lined(SplitInclusive(text))
    ensures text != [] ==> SplitInclusive(text) != []
    ensures text != [] ==> (Whole(SplitInclusive(text)[|SplitInclusive(text)| - 1]) <==> text[|text| - 1] == '\n')
    decreases |text|
  {
    if text != [] {
      var n := LineLength(text);
      var first, rest := text[..n], text[n..];
      SplitIsLined(rest);
      assert first[..|first| - 1] == text[..n - 1];
      LinedMore(first, SplitInclusive(rest));
    }
  }

  lemma LinedMore(first: string, lines: seq<string>)
    requires IsLine(first) && (lines != [] ==> Whole(first)) && Lined(lines)
    ensures Lined([first] + lines)
  {
    var more := [first] + lines;
    forall i | 0 <= i < |more| - 1
      ensures Whole(more[i])
    {
      assert i > 0 ==> more[i] == lines[i - 1];
    }
  }

  lemma {:induction false} FirstLineLength(first: string, rest: string)
    requires IsLine(first) && (Whole(first) || rest == [])
    ensures LineLength(first + rest) == |first|
  {
    if |first| > 1 {
      assert first[0] == first[..|first| - 1][0];
      assert (first + rest)[1..] == first[1..] + rest;
      assert first[1..][..|first| - 2] == first[..|first| - 1][1..];
      FirstLineLength(first[1..], rest);
    }
  }

  /** Splitting what was joined gives the lines back. */
  lemma {:induction false} SplitOfJoined(lines: seq<string>)
    requires Lined(lines)
    ensures SplitInclusive(Joined(lines)) == lines
  {
    if lines != [] {
      var first, rest := lines[0], lines[1..];
      SplitOfJoined(rest);
      if rest != [] {
        assert Whole(first);
      }
      FirstLineLength(first, Joined(rest));
      assert (first + Joined(rest))[..|first|] == first && (first + Joined(rest))[|first|..] == Joined(rest);
      assert lines == [first] + rest;
    }
  }

  lemma {:induction false} JoinedJoin(a: seq<string>, b: seq<string>)
    ensures Joined(a + b) == Joined(a) + Joined(b)
  {
    if a == [] {
      assert a + b == b;
    } else {
      JoinedJoin(a[1..], b);
      assert (a + b)[1..] == a[1..] + b;
    }
  }
}
