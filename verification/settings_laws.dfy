/** Loading and saving are a lens: a save puts one setting, and a load gets it back with everything else
    the file said. */
module SettingsLaws {
  import opened Outcomes
  import opened TextLines
  import opened SettingsFiles

  /** A setting this program saves. */
  datatype Choice = LanguageChoice(language: Language) | SizeChoice(size: TextSize) | ThemeChoice(theme: Theme)

  function KeyOf(choice: Choice): string {
    match choice
    case LanguageChoice(_) => "lang"
    case SizeChoice(_) => "text_size"
    case ThemeChoice(_) => "theme"
  }

  function Wire(choice: Choice): string {
    match choice
    case LanguageChoice(Zh) => "zh"
    case LanguageChoice(En) => "en"
    case SizeChoice(Standard) => "standard"
    case SizeChoice(Large) => "large"
    case SizeChoice(ExtraLarge) => "extra-large"
    case ThemeChoice(Flat) => "flat"
    case ThemeChoice(Aero) => "aero"
  }

  function Put(settings: Settings, choice: Choice): Settings {
    match choice
    case LanguageChoice(language) => settings.(language := language)
    case SizeChoice(size) => settings.(textSize := size)
    case ThemeChoice(theme) => settings.(theme := theme)
  }

  /** The issues not about this line. */
  function WithoutLine(issues: seq<Issue>, line: nat): seq<Issue> {
    if issues == [] then []
    else
      var last := issues[|issues| - 1];
      WithoutLine(issues[..|issues| - 1], line) + if last.line == line then [] else [last]
  }

  function Save(text: string, choice: Choice): string {
    Joined(SavedLines(text, KeyOf(choice), Quoted(Wire(choice))))
  }

  // One line's effect.

  /** Whether a line gives this setting. */
  predicate Gives(saying: Saying, choice: Choice) {
    match choice
    case LanguageChoice(_) => saying.change.SetLanguage?
    case SizeChoice(_) => saying.change.SetSize?
    case ThemeChoice(_) => saying.change.SetTheme?
  }

  function Chosen(choice: Choice): Saying {
    match choice
    case LanguageChoice(language) => Saying(SetLanguage(language), None)
    case SizeChoice(size) => Saying(SetSize(size), None)
    case ThemeChoice(theme) => Saying(SetTheme(theme), None)
  }

  lemma OwnKey(line: Parsed, choice: Choice)
    requires HasKey(line, KeyOf(choice))
    ensures Gives(Says(line), choice) || Says(line).change.NoChange?
  {
  }

  lemma OtherKey(line: Parsed, choice: Choice)
    requires !HasKey(line, KeyOf(choice))
    ensures !Gives(Says(line), choice)
  {
  }

  lemma ChoiceSays(choice: Choice)
    ensures EntrySays(KeyOf(choice), Wire(choice)) == Chosen(choice)
  {
  }

  /** The issues of the first `n` lines but one. */
  function ToldBut(sayings: seq<Saying>, n: nat, line: nat): seq<Issue>
    requires n <= |sayings|
  {
    if n == 0 then []
    else ToldBut(sayings, n - 1, line) + if n == line then [] else IssuesOf(sayings[n - 1].trouble, n)
  }

  lemma WithoutMore(issues: seq<Issue>, trouble: Option<Trouble>, at: nat, line: nat)
    ensures WithoutLine(issues + IssuesOf(trouble, at), line)
         == WithoutLine(issues, line) + if at == line then [] else IssuesOf(trouble, at)
  {
    if trouble.None? {
      assert issues + [] == issues;
    } else {
      assert (issues + IssuesOf(trouble, at))[..|issues|] == issues;
    }
  }

  lemma {:induction false} ToldButIs(sayings: seq<Saying>, n: nat, line: nat, told: seq<Issue>)
    requires n <= |sayings| && told == Told(sayings, n)
    ensures ToldBut(sayings, n, line) == WithoutLine(told, line)
  {
    if n > 0 {
      var before := Told(sayings, n - 1);
      ToldButIs(sayings, n - 1, line, before);
      WithoutMore(before, sayings[n - 1].trouble, n, line);
    }
  }

  lemma {:induction false} ToldOfReplaced(sayings: seq<Saying>, saved: seq<Saying>, line: nat, n: nat)
    requires n <= |sayings| && n <= |saved|
    requires forall i | 0 <= i < n :: if i + 1 == line then saved[i].trouble == None else saved[i] == sayings[i]
    ensures Told(saved, n) == ToldBut(sayings, n, line)
  {
    if n > 0 {
      ToldOfReplaced(sayings, saved, line, n - 1);
    }
  }

  lemma {:induction false} SameSoFar(a: seq<Saying>, b: seq<Saying>, n: nat)
    requires n <= |a| && n <= |b| && forall i | 0 <= i < n :: a[i] == b[i]
    ensures Given(a, n) == Given(b, n)
  {
    if n > 0 {
      SameSoFar(a, b, n - 1);
    }
  }

  // Whole files, as what their lines say.

  ghost predicate PutBut(a: Loaded, b: Loaded, choice: Choice, line: nat) {
    b.settings == Put(a.settings, choice) && b.issues == WithoutLine(a.issues, line)
  }

  lemma {:induction false} ReplacedGiven(
    sayings: seq<Saying>, saved: seq<Saying>, at: nat, choice: Choice, n: nat)
    requires at < n <= |sayings| && (Gives(sayings[at], choice) || sayings[at].change.NoChange?)
    requires forall i | at < i < |sayings| :: !Gives(sayings[i], choice)
    requires saved == sayings[at := Chosen(choice)]
    ensures Given(saved, n) == Put(Given(sayings, n), choice)
    decreases n
  {
    if n == at + 1 {
      SameSoFar(sayings, saved, at);
    } else {
      ReplacedGiven(sayings, saved, at, choice, n - 1);
      assert saved[n - 1] == sayings[n - 1] && !Gives(sayings[n - 1], choice);
    }
  }

  /** With its last line of a key replaced, a file says the choice, and everything else as before. */
  lemma ReplacedLoads(sayings: seq<Saying>, saved: seq<Saying>, at: nat, choice: Choice)
    requires at < |sayings| && (Gives(sayings[at], choice) || sayings[at].change.NoChange?)
    requires forall i | at < i < |sayings| :: !Gives(sayings[i], choice)
    requires saved == sayings[at := Chosen(choice)]
    ensures PutBut(LoadSayings(sayings), LoadSayings(saved), choice, at + 1)
  {
    ReplacedGiven(sayings, saved, at, choice, |sayings|);
    ToldOfReplaced(sayings, saved, at + 1, |sayings|);
    ToldButIs(sayings, |sayings|, at + 1, Told(sayings, |sayings|));
  }

  lemma AppendedLoads(sayings: seq<Saying>, choice: Choice)
    ensures PutBut(LoadSayings(sayings), LoadSayings(sayings + [Chosen(choice)]), choice, 0)
  {
    var saved := sayings + [Chosen(choice)];
    SameSoFar(sayings, saved, |sayings|);
    ToldOfReplaced(sayings, saved, 0, |sayings|);
    ToldButIs(sayings, |sayings|, 0, Told(sayings, |sayings|));
    assert Told(saved, |saved|) == Told(saved, |sayings|) + [];
  }

  // Whole files, as text.

  /** A line with no newline in it. */
  predicate OneLine(text: string) {
    text != [] && '\n' !in text
  }

  lemma WrittenIsOneLine(choice: Choice)
    ensures Plain(KeyOf(choice)) && OneLine(EntryLine(KeyOf(choice), Quoted(Wire(choice))))
    ensures EntryLine(KeyOf(choice), Quoted(Wire(choice)))[|EntryLine(KeyOf(choice), Quoted(Wire(choice)))| - 1] == '"'
  {
  }

  lemma EndedLine(body: string, end: string)
    requires OneLine(body) && end in {"", "\n", "\r\n"}
    ensures IsLine(body + end) && (Whole(body + end) <==> end != "")
  {
    var line := body + end;
    assert line[..|line| - 1] == if end == "" then body[..|body| - 1] else if end == "\n" then body else body + ['\r'];
  }

  lemma LinedWith(lines: seq<string>, at: nat, line: string)
    requires Lined(lines) && at < |lines| && IsLine(line) && (Whole(lines[at]) ==> Whole(line))
    ensures Lined(lines[at := line])
  {
  }

  lemma LinedReplaced(lines: seq<string>, at: nat, entry: string)
    requires Lined(lines) && at < |lines| && OneLine(entry)
    ensures Lined(Replaced(lines, at, entry))
  {
    EndedLine(entry, Ending(lines[at]));
    LinedWith(lines, at, entry + Ending(lines[at]));
  }

  lemma LinedEnded(lines: seq<string>, newline: string)
    requires Lined(lines) && newline in {"\n", "\r\n"}
    ensures Lined(Ended(lines, newline)) && Ended(lines, newline) != []
    ensures forall i | 0 <= i < |Ended(lines, newline)| :: Whole(Ended(lines, newline)[i])
  {
    if lines == [] {
      HeaderIsOneLine();
      EndedLine(HEADER, newline);
    } else if !Whole(lines[|lines| - 1]) {
      var last := lines[|lines| - 1];
      assert last == last[..|last| - 1] + [last[|last| - 1]];
      EndedLine(last, newline);
    }
  }

  lemma HeaderIsOneLine()
    ensures OneLine(HEADER) && HEADER[0] == '#' && Bare(HEADER)
  {
  }

  lemma LinedAppended(lines: seq<string>, entry: string, newline: string)
    requires Lined(lines) && OneLine(entry) && newline in {"\n", "\r\n"}
    ensures Lined(Appended(lines, entry, newline))
  {
    LinedEnded(lines, newline);
    EndedLine(entry, newline);
  }

  /** The saved file's lines are the lines the save made. */
  lemma SavedSplits(text: string, choice: Choice)
    ensures SplitInclusive(Save(text, choice)) == SavedLines(text, KeyOf(choice), Quoted(Wire(choice)))
  {
    var lines, entry := SplitInclusive(text), EntryLine(KeyOf(choice), Quoted(Wire(choice)));
    WrittenIsOneLine(choice);
    SplitIsLined(text);
    var at := LastOf(ParseAll(lines), KeyOf(choice));
    if at.Some? {
      LinedReplaced(lines, at.value, entry);
    } else {
      LinedAppended(lines, entry, Newline(text));
    }
    SplitOfJoined(SavedLines(text, KeyOf(choice), Quoted(Wire(choice))));
  }

  lemma ParsedReplaced(lines: seq<string>, at: nat, key: string, value: string)
    requires at < |lines| && Plain(key)
    ensures ParseAll(Replaced(lines, at, EntryLine(key, Quoted(value)))) == ParseAll(lines)[at := Entry(key, value)]
  {
    EntryReadsBack(key, value);
    ParseEnded(EntryLine(key, Quoted(value)), Ending(lines[at]));
  }

  lemma ParsedEnded(lines: seq<string>, newline: string)
    requires newline in {"\n", "\r\n"}
    ensures ParseAll(Ended(lines, newline)) == if lines == [] then [Blank] else ParseAll(lines)
  {
    if lines == [] {
      HeaderIsBlank(newline);
    } else if !Whole(lines[|lines| - 1]) {
      ParsedLonger(lines[..|lines| - 1], lines[|lines| - 1], newline);
      assert lines == lines[..|lines| - 1] + [lines[|lines| - 1]];
    }
  }

  lemma ParsedLonger(front: seq<string>, last: string, newline: string)
    requires newline in {"\n", "\r\n"}
    ensures ParseAll(front + [last + newline]) == ParseAll(front + [last])
  {
    ParseEnded(last, newline);
  }

  lemma HeaderIsBlank(newline: string)
    requires newline in {"\n", "\r\n"}
    ensures ParseLine(HEADER + newline) == Blank
  {
    ParseEnded(HEADER, newline);
    HeaderIsOneLine();
    TrimsToItself(HEADER);
  }

  lemma ParsedAppended(lines: seq<string>, key: string, value: string, newline: string)
    requires Plain(key) && newline in {"\n", "\r\n"}
    ensures ParseAll(Appended(lines, EntryLine(key, Quoted(value)), newline))
         == (if lines == [] then [Blank] else ParseAll(lines)) + [Entry(key, value)]
  {
    ParsedEnded(lines, newline);
    EntryReadsBack(key, value);
    ParseEnded(EntryLine(key, Quoted(value)), newline);
    ParseAllMore(Ended(lines, newline), EntryLine(key, Quoted(value)) + newline);
  }

  lemma ParseAllMore(lines: seq<string>, line: string)
    ensures ParseAll(lines + [line]) == ParseAll(lines) + [ParseLine(line)]
  {
  }

  /** The line a save replaces, counted from 1; 0 when it appends one. */
  function ReplacedLine(text: string, choice: Choice): nat {
    LineOf(LastOf(ParseAll(SplitInclusive(text)), KeyOf(choice)))
  }

  function LineOf(at: Option<nat>): nat {
    if at.Some? then at.value + 1 else 0
  }

  lemma LoadsReplaced(parsed: seq<Parsed>, saved: seq<Parsed>, at: nat, choice: Choice)
    requires at < |parsed| && HasKey(parsed[at], KeyOf(choice))
    requires forall i | at < i < |parsed| :: !HasKey(parsed[i], KeyOf(choice))
    requires saved == parsed[at := Entry(KeyOf(choice), Wire(choice))]
    ensures PutBut(LoadSayings(SayAll(parsed)), LoadSayings(SayAll(saved)), choice, at + 1)
  {
    var sayings := SayAll(parsed);
    OwnKey(parsed[at], choice);
    forall i | at < i < |sayings|
      ensures !Gives(sayings[i], choice)
    {
      OtherKey(parsed[i], choice);
    }
    ChoiceSays(choice);
    assert SayAll(saved) == sayings[at := Chosen(choice)];
    ReplacedLoads(sayings, SayAll(saved), at, choice);
  }

  lemma LoadsAppended(parsed: seq<Parsed>, saved: seq<Parsed>, choice: Choice)
    requires saved == (if parsed == [] then [Blank] else parsed) + [Entry(KeyOf(choice), Wire(choice))]
    ensures PutBut(LoadSayings(SayAll(parsed)), LoadSayings(SayAll(saved)), choice, 0)
  {
    var sayings := SayAll(if parsed == [] then [Blank] else parsed);
    ChoiceSays(choice);
    assert SayAll(saved) == sayings + [Chosen(choice)];
    AppendedLoads(sayings, choice);
    if parsed == [] {
      assert sayings == [Says(Blank)];
      AHeaderSaysNothing(sayings, SayAll(parsed));
    }
  }

  lemma AHeaderSaysNothing(header: seq<Saying>, nothing: seq<Saying>)
    requires header == [Saying(NoChange, None)] && nothing == []
    ensures LoadSayings(header) == LoadSayings(nothing)
  {
    assert Told(header, 1) == Told(header, 0) + IssuesOf(None, 1);
    assert Given(header, 1) == Changed(Given(header, 0), NoChange);
  }

  lemma PlainKey(choice: Choice)
    ensures Plain(KeyOf(choice))
  {
  }

  lemma {:induction false} WithoutLineHolds(issues: seq<Issue>, line: nat, issue: Issue)
    requires issue in issues && issue.line != line
    ensures issue in WithoutLine(issues, line)
  {
    var front, last := issues[..|issues| - 1], issues[|issues| - 1];
    assert issues == front + [last];
    if issue != last {
      WithoutLineHolds(front, line, issue);
    }
  }

  /** A load after a save still warns about every other bad line, of the key saved too. */
  lemma OtherWarningsStay(text: string, choice: Choice, issue: Issue)
    requires issue in LoadText(text).issues && issue.line != ReplacedLine(text, choice)
    ensures issue in LoadText(Save(text, choice)).issues
  {
    SaveThenLoad(text, choice);
    WithoutLineHolds(LoadText(text).issues, ReplacedLine(text, choice), issue);
  }

  /** The saved file's lines, as parsed. */
  lemma SavedParsed(text: string, choice: Choice)
    ensures var parsed, saved := ParseAll(SplitInclusive(text)), ParseAll(SplitInclusive(Save(text, choice)));
            match LastOf(parsed, KeyOf(choice))
            case Some(at) => saved == parsed[at := Entry(KeyOf(choice), Wire(choice))]
            case None => saved == (if parsed == [] then [Blank] else parsed) + [Entry(KeyOf(choice), Wire(choice))]
  {
    var lines := SplitInclusive(text);
    SavedSplits(text, choice);
    PlainKey(choice);
    match LastOf(ParseAll(lines), KeyOf(choice))
    case Some(at) => ParsedReplaced(lines, at, KeyOf(choice), Wire(choice));
    case None => ParsedAppended(lines, KeyOf(choice), Wire(choice), Newline(text));
  }

  /** After a save, a load gives the choice, every other setting as it was, and the issues about every
      other line under their own numbers. */
  lemma SaveThenLoad(text: string, choice: Choice)
    ensures PutBut(LoadText(text), LoadText(Save(text, choice)), choice, ReplacedLine(text, choice))
  {
    SavedParsed(text, choice);
    ParsedThenLoad(ParseAll(SplitInclusive(text)), ParseAll(SplitInclusive(Save(text, choice))), choice);
  }

  lemma ParsedThenLoad(parsed: seq<Parsed>, saved: seq<Parsed>, choice: Choice)
    requires match LastOf(parsed, KeyOf(choice))
             case Some(at) => saved == parsed[at := Entry(KeyOf(choice), Wire(choice))]
             case None => saved == (if parsed == [] then [Blank] else parsed) + [Entry(KeyOf(choice), Wire(choice))]
    ensures PutBut(
              LoadSayings(SayAll(parsed)), LoadSayings(SayAll(saved)), choice, LineOf(LastOf(parsed, KeyOf(choice))))
  {
    match LastOf(parsed, KeyOf(choice))
    case Some(at) => LoadsReplaced(parsed, saved, at, choice);
    case None => LoadsAppended(parsed, saved, choice);
  }

  lemma SavedKeepsLines(text: string, key: string, value: string)
    requires OneLine(EntryLine(key, value)) && EntryLine(key, value)[|EntryLine(key, value)| - 1] == '"'
    ensures var lines := SplitInclusive(text);
            match LastOf(ParseAll(lines), key)
            case Some(at) => OnlyLine(lines, SavedLines(text, key, value), at)
            case None => text <= Joined(SavedLines(text, key, value))
  {
    var lines := SplitInclusive(text);
    match LastOf(ParseAll(lines), key)
    case Some(at) => ReplacesOne(lines, at, EntryLine(key, value));
    case None => AppendKeepsText(text, EntryLine(key, value), Newline(text));
  }

  /** A save keeps every other line byte for byte, in its place; one that appends keeps the whole text. */
  lemma OtherLinesKept(text: string, choice: Choice)
    ensures ReplacedLine(text, choice) > 0 ==>
              OnlyLine(SplitInclusive(text), SplitInclusive(Save(text, choice)), ReplacedLine(text, choice) - 1)
    ensures ReplacedLine(text, choice) == 0 ==> text <= Save(text, choice)
  {
    SavedSplits(text, choice);
    WrittenIsOneLine(choice);
    SavedKeepsLines(text, KeyOf(choice), Quoted(Wire(choice)));
  }

  /** Only this line differs, and its end does not. */
  ghost predicate OnlyLine(lines: seq<string>, saved: seq<string>, at: nat) {
    && |saved| == |lines| && at < |lines|
    && (forall i | 0 <= i < |lines| && i != at :: saved[i] == lines[i])
    && Ending(saved[at]) == Ending(lines[at])
  }

  lemma ReplacesOne(lines: seq<string>, at: nat, entry: string)
    requires at < |lines| && OneLine(entry) && entry[|entry| - 1] == '"'
    ensures OnlyLine(lines, Replaced(lines, at, entry), at)
  {
    EndingKept(entry, Ending(lines[at]));
  }

  lemma EndingKept(entry: string, end: string)
    requires OneLine(entry) && entry[|entry| - 1] == '"' && end in {"", "\n", "\r\n"}
    ensures Ending(entry + end) == end
  {
    var line := entry + end;
    assert line[|line| - |end|..] == end;
    assert end == "\n" ==> line[|line| - 2] == '"';
    assert end == "" ==> line == entry;
  }

  lemma AppendKeepsText(text: string, entry: string, newline: string)
    ensures text <= Joined(Appended(SplitInclusive(text), entry, newline))
  {
    var lines := SplitInclusive(text);
    JoinedTwo(Ended(lines, newline), entry + newline);
    if text != "" {
      EndedJoinsText(text, lines, newline);
    }
  }

  /** Saving twice is saving the last choice. */
  lemma SavingTwice(text: string, first: Choice, second: Choice)
    requires KeyOf(first) == KeyOf(second)
    ensures Save(Save(text, first), second) == Save(text, second)
  {
    var key, lines, parsed := KeyOf(first), SplitInclusive(text), ParseAll(SplitInclusive(text));
    var entry, newEntry := EntryLine(key, Quoted(Wire(first))), EntryLine(key, Quoted(Wire(second)));
    SavedSplits(text, first);
    WrittenIsOneLine(first);
    var at := LastOf(parsed, key);
    if at.Some? {
      ParsedReplaced(lines, at.value, key, Wire(first));
      LastIs(parsed[at.value := Entry(key, Wire(first))], key, at.value);
      ReplacedTwice(lines, at.value, entry, newEntry);
    } else {
      var ended := Ended(lines, Newline(text));
      ParsedAppended(lines, key, Wire(first), Newline(text));
      LastIs((if lines == [] then [Blank] else parsed) + [Entry(key, Wire(first))], key, |ended|);
      AppendedTwice(ended, entry, newEntry, Newline(text));
    }
  }

  /** Saves of two settings both load, and give the same settings in either order. */
  lemma TwoSavesLoad(text: string, first: Choice, second: Choice)
    requires KeyOf(first) != KeyOf(second)
    ensures LoadText(Save(Save(text, first), second)).settings == Put(Put(LoadText(text).settings, first), second)
    ensures LoadText(Save(Save(text, first), second)).settings == LoadText(Save(Save(text, second), first)).settings
  {
    SaveThenLoad(text, first);
    SaveThenLoad(Save(text, first), second);
    SaveThenLoad(text, second);
    SaveThenLoad(Save(text, second), first);
  }

  /** The text to write back: it loads as the file did with the choice put, and every other line of the
      file is in it as it was. */
  method SaveChoice(text: string, choice: Choice) returns (body: string)
    ensures body == Save(text, choice)
    ensures LoadText(body).settings == Put(LoadText(text).settings, choice)
    ensures if ReplacedLine(text, choice) > 0
            then OnlyLine(SplitInclusive(text), SplitInclusive(body), ReplacedLine(text, choice) - 1)
            else text <= body
  {
    body := WithKey(text, KeyOf(choice), Quoted(Wire(choice)));
    SaveThenLoad(text, choice);
    OtherLinesKept(text, choice);
  }

  lemma {:induction false} LastIs(lines: seq<Parsed>, key: string, at: nat)
    requires at < |lines| && HasKey(lines[at], key)
    requires forall i | at < i < |lines| :: !HasKey(lines[i], key)
    ensures LastOf(lines, key) == Some(at)
  {
    if at < |lines| - 1 {
      LastIs(lines[..|lines| - 1], key, at);
    }
  }

  lemma ReplacedTwice(lines: seq<string>, at: nat, entry: string, newEntry: string)
    requires at < |lines| && OneLine(entry) && entry[|entry| - 1] == '"'
    ensures Replaced(Replaced(lines, at, entry), at, newEntry) == Replaced(lines, at, newEntry)
  {
    EndingKept(entry, Ending(lines[at]));
  }

  lemma AppendedTwice(ended: seq<string>, entry: string, newEntry: string, newline: string)
    requires OneLine(entry) && entry[|entry| - 1] == '"' && newline in {"\n", "\r\n"}
    ensures Replaced(ended + [entry + newline], |ended|, newEntry) == ended + [newEntry + newline]
  {
    EndingKept(entry, newline);
  }
}
