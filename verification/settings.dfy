/** The settings file: what its lines say, and a save that changes one line and keeps every other. */
module SettingsFiles {
  import opened Outcomes
  import opened TextLines

  datatype Language = Zh | En

  datatype TextSize = Standard | Large | ExtraLarge

  datatype Theme = Flat | Aero

  const MIN_FRAME_GAP: nat := 5
  const FRAME_GAP_LEAST: nat := 2
  const FRAME_GAP_MOST: nat := 60
  const WORD: nat := 0x1_0000_0000_0000_0000

  const HEADER: string := "# ActingCommand \U{76D1}\U{63A7}\U{53F0} / ActingCommand Console"

  datatype Settings = Settings(
    language: Language, textSize: TextSize, theme: Theme, stateRoot: Option<string>, config: Option<string>,
    exe: Option<string>, gap: nat)

  const DEFAULTS := Settings(Zh, Standard, Flat, None, None, None, MIN_FRAME_GAP)

  /** What a line holds that could not be taken; lines are counted from 1. */
  datatype Issue = UnknownValue(line: nat, key: string, value: string) | MalformedLine(line: nat)

  datatype Loaded = Loaded(settings: Settings, issues: seq<Issue>)

  function LanguageFrom(text: string): Option<Language> {
    if text == "zh" then Some(Zh) else if text == "en" then Some(En) else None
  }

  function TextSizeFrom(text: string): Option<TextSize> {
    if text == "standard" then Some(Standard)
    else if text == "large" then Some(Large)
    else if text == "extra-large" then Some(ExtraLarge) else None
  }

  function ThemeFrom(text: string): Option<Theme> {
    if text == "flat" then Some(Flat) else if text == "aero" then Some(Aero) else None
  }

  function PathValue(text: string): Option<string> {
    if text == "" then None else Some(text)
  }

  predicate IsDigit(c: char) {
    '0' <= c <= '9'
  }

  function Number(digits: string): nat
    requires forall c | c in digits :: IsDigit(c)
  {
    if digits == [] then 0
    else
      assert IsDigit(digits[|digits| - 1]);
      10 * Number(digits[..|digits| - 1]) + (digits[|digits| - 1] as int - '0' as int)
  }

  /** A whole number of seconds in range, as a 64-bit unsigned integer is written. */
  function FrameGap(text: string): (gap: Option<nat>)
    ensures gap.Some? ==> FRAME_GAP_LEAST <= gap.value <= FRAME_GAP_MOST
  {
    var digits := if text != [] && text[0] == '+' then text[1..] else text;
    if digits == [] || exists c :: c in digits && !IsDigit(c) then None
    else
      var seconds := Number(digits);
      if seconds < WORD && FRAME_GAP_LEAST <= seconds <= FRAME_GAP_MOST then Some(seconds) else None
  }

  /** What a line says: the setting it gives, if any, and what is wrong with it. */
  datatype Change =
    | NoChange | SetLanguage(language: Language) | SetSize(size: TextSize) | SetTheme(theme: Theme)
    | SetRoot(root: Option<string>) | SetConfig(config: Option<string>) | SetExe(exe: Option<string>)
    | SetGap(gap: nat)

  datatype Trouble = BadValue(key: string, value: string) | NoEquals

  datatype Saying = Saying(change: Change, trouble: Option<Trouble>)

  function EntrySays(key: string, value: string): Saying {
    var bad := Saying(NoChange, Some(BadValue(key, value)));
    if key == "lang" then
      var found := LanguageFrom(value);
      if found.Some? then Saying(SetLanguage(found.value), None) else bad
    else if key == "text_size" then
      var found := TextSizeFrom(value);
      if found.Some? then Saying(SetSize(found.value), None) else bad
    else if key == "theme" then
      var found := ThemeFrom(value);
      if found.Some? then Saying(SetTheme(found.value), None) else bad
    else if key == "state_root" then Saying(SetRoot(PathValue(value)), None)
    else if key == "actingd_config" then Saying(SetConfig(PathValue(value)), None)
    else if key == "actingd_exe" then Saying(SetExe(PathValue(value)), None)
    else if key == "preview_frame_gap_seconds" then
      var found := FrameGap(value);
      if found.Some? then Saying(SetGap(found.value), None) else bad.(change := SetGap(MIN_FRAME_GAP))
    else Saying(NoChange, None)
  }

  function Says(line: Parsed): Saying {
    match line
    case Blank => Saying(NoChange, None)
    case Malformed => Saying(NoChange, Some(NoEquals))
    case Entry(key, value) => EntrySays(key, value)
  }

  function Changed(settings: Settings, change: Change): Settings {
    match change
    case NoChange => settings
    case SetLanguage(language) => settings.(language := language)
    case SetSize(size) => settings.(textSize := size)
    case SetTheme(theme) => settings.(theme := theme)
    case SetRoot(root) => settings.(stateRoot := root)
    case SetConfig(config) => settings.(config := config)
    case SetExe(exe) => settings.(exe := exe)
    case SetGap(gap) => settings.(gap := gap)
  }

  function IssuesOf(trouble: Option<Trouble>, line: nat): seq<Issue> {
    match trouble
    case None => []
    case Some(BadValue(key, value)) => [UnknownValue(line, key, value)]
    case Some(NoEquals) => [MalformedLine(line)]
  }

  function Followed(loaded: Loaded, line: nat, saying: Saying): Loaded {
    Loaded(Changed(loaded.settings, saying.change), loaded.issues + IssuesOf(saying.trouble, line))
  }

  /** The settings the first `n` lines give. */
  function Given(sayings: seq<Saying>, n: nat): Settings
    requires n <= |sayings|
  {
    if n == 0 then DEFAULTS else Changed(Given(sayings, n - 1), sayings[n - 1].change)
  }

  /** The issues of the first `n` lines. */
  function Told(sayings: seq<Saying>, n: nat): seq<Issue>
    requires n <= |sayings|
  {
    if n == 0 then [] else Told(sayings, n - 1) + IssuesOf(sayings[n - 1].trouble, n)
  }

  function LoadSayings(sayings: seq<Saying>): Loaded {
    Loaded(Given(sayings, |sayings|), Told(sayings, |sayings|))
  }

  function ParseAll(lines: seq<string>): (parsed: seq<Parsed>)
    ensures |parsed| == |lines|
  {
    seq(|lines|, i requires 0 <= i < |lines| => ParseLine(lines[i]))
  }

  function SayAll(parsed: seq<Parsed>): (sayings: seq<Saying>)
    ensures |sayings| == |parsed|
  {
    seq(|parsed|, i requires 0 <= i < |parsed| => Says(parsed[i]))
  }

  function LoadText(text: string): Loaded {
    LoadSayings(SayAll(ParseAll(SplitInclusive(text))))
  }

  /** One entry, as it is taken. */
  method TakeEntry(loaded: Loaded, line: nat, key: string, value: string) returns (after: Loaded)
    ensures after == Followed(loaded, line, EntrySays(key, value))
  {
    var settings, issues := loaded.settings, loaded.issues;
    var unknown := UnknownValue(line, key, value);
    match key {
      case "lang" =>
        match LanguageFrom(value) {
          case Some(language) => settings := settings.(language := language);
          case None => issues := issues + [unknown];
        }
      case "text_size" =>
        match TextSizeFrom(value) {
          case Some(size) => settings := settings.(textSize := size);
          case None => issues := issues + [unknown];
        }
      case "theme" =>
        match ThemeFrom(value) {
          case Some(theme) => settings := settings.(theme := theme);
          case None => issues := issues + [unknown];
        }
      case "state_root" => settings := settings.(stateRoot := PathValue(value));
      case "actingd_config" => settings := settings.(config := PathValue(value));
      case "actingd_exe" => settings := settings.(exe := PathValue(value));
      case "preview_frame_gap_seconds" =>
        match FrameGap(value) {
          case Some(gap) => settings := settings.(gap := gap);
          case None =>
            settings := settings.(gap := MIN_FRAME_GAP);
            issues := issues + [unknown];
        }
      case _ =>
    }
    after := Loaded(settings, issues);
  }

  /** One line, without its end. */
  method TakeLine(loaded: Loaded, number: nat, line: string) returns (after: Loaded)
    ensures after == Followed(loaded, number, Says(ParseLine(line)))
  {
    ParseBody(line);
    match ParseLine(Body(line)) {
      case Blank => after := loaded;
      case Malformed => after := loaded.(issues := loaded.issues + [MalformedLine(number)]);
      case Entry(key, value) => after := TakeEntry(loaded, number, key, value);
    }
  }

  method Load(text: string) returns (loaded: Loaded)
    ensures loaded == LoadText(text)
  {
    loaded := Loaded(DEFAULTS, []);
    var lines := SplitInclusive(text);
    for index := 0 to |lines|
      invariant loaded.settings == Given(SayAll(ParseAll(lines)), index)
      invariant loaded.issues == Told(SayAll(ParseAll(lines)), index)
    {
      loaded := TakeLine(loaded, index + 1, lines[index]);
    }
  }

  // A save.

  predicate HasKey(line: Parsed, key: string) {
    line.Entry? && line.key == key
  }

  /** The last line of a key. */
  function LastOf(lines: seq<Parsed>, key: string): (at: Option<nat>)
    ensures at.Some? ==> at.value < |lines| && HasKey(lines[at.value], key)
    ensures at.Some? ==> forall i | at.value < i < |lines| :: !HasKey(lines[i], key)
    ensures at.None? ==> forall i | 0 <= i < |lines| :: !HasKey(lines[i], key)
  {
    if lines == [] then None
    else if HasKey(lines[|lines| - 1], key) then Some(|lines| - 1)
    else LastOf(lines[..|lines| - 1], key)
  }

  predicate ContainsCrLf(text: string) {
    exists i :: 0 <= i < |text| - 1 && text[i] == '\r' && text[i + 1] == '\n'
  }

  function Newline(text: string): string {
    if ContainsCrLf(text) then "\r\n" else "\n"
  }

  function Replaced(lines: seq<string>, at: nat, entry: string): seq<string>
    requires at < |lines|
  {
    lines[at := entry + Ending(lines[at])]
  }

  /** The lines, the last ended if it was not, and one more. */
  function Appended(lines: seq<string>, entry: string, newline: string): seq<string> {
    Ended(lines, newline) + [entry + newline]
  }

  /** The lines of the file once a key is saved. */
  function SavedLines(text: string, key: string, value: string): seq<string> {
    var lines := SplitInclusive(text);
    match LastOf(ParseAll(lines), key)
    case Some(at) => Replaced(lines, at, EntryLine(key, value))
    case None => Appended(lines, EntryLine(key, value), Newline(text))
  }

  method WithKey(text: string, key: string, value: string) returns (body: string)
    ensures body == Joined(SavedLines(text, key, value))
  {
    var newline, entry, lines := Newline(text), EntryLine(key, value), SplitInclusive(text);
    match LastOf(ParseAll(lines), key) {
      case Some(at) => body := ReplaceLine(lines, at, entry);
      case None => body := AppendLine(text, entry, newline);
    }
  }

  method ReplaceLine(lines: seq<string>, at: nat, entry: string) returns (body: string)
    requires at < |lines|
    ensures body == Joined(Replaced(lines, at, entry))
  {
    ghost var saved := Replaced(lines, at, entry);
    body := "";
    for index := 0 to |lines|
      invariant body == Joined(saved[..index])
    {
      JoinedMore(saved, index);
      if index == at {
        body := body + entry;
        body := body + Ending(lines[index]);
      } else {
        body := body + lines[index];
      }
    }
    assert saved[..|lines|] == saved;
  }

  method AppendLine(text: string, entry: string, newline: string) returns (body: string)
    ensures body == Joined(Appended(SplitInclusive(text), entry, newline))
  {
    ghost var ended := Ended(SplitInclusive(text), newline);
    body := EndText(text, newline);
    Associates(body, entry, newline);
    JoinedTwo(ended, entry + newline);
    body := body + entry;
    body := body + newline;
  }

  /** The text so far, its last line ended; the header for a new file. */
  method EndText(text: string, newline: string) returns (body: string)
    ensures body == Joined(Ended(SplitInclusive(text), newline))
  {
    if text == "" {
      EndedJoinsNothing(newline);
      return HEADER + newline;
    }
    EndedJoinsText(text, SplitInclusive(text), newline);
    body := text;
    if text[|text| - 1] != '\n' {
      body := body + newline;
    }
  }

  function Ended(lines: seq<string>, newline: string): seq<string> {
    if lines == [] then [HEADER + newline]
    else if Whole(lines[|lines| - 1]) then lines
    else lines[..|lines| - 1] + [lines[|lines| - 1] + newline]
  }

  lemma JoinedTwo(lines: seq<string>, line: string)
    ensures Joined(lines + [line]) == Joined(lines) + line
  {
    JoinedJoin(lines, [line]);
    assert Joined([line]) == line + Joined([]);
  }

  lemma JoinedMore(lines: seq<string>, n: nat)
    requires n < |lines|
    ensures Joined(lines[..n + 1]) == Joined(lines[..n]) + lines[n]
  {
    assert lines[..n + 1] == lines[..n] + [lines[n]];
    JoinedTwo(lines[..n], lines[n]);
  }

  lemma Associates(a: string, b: string, c: string)
    ensures a + (b + c) == a + b + c
  {
  }

  lemma LongerLastLine(front: seq<string>, last: string, newline: string)
    ensures Joined(front + [last + newline]) == Joined(front + [last]) + newline
  {
    JoinedTwo(front, last);
    JoinedTwo(front, last + newline);
    Associates(Joined(front), last, newline);
  }

  lemma EndedJoinsLines(lines: seq<string>, newline: string)
    requires lines != []
    ensures Joined(Ended(lines, newline))
         == if Whole(lines[|lines| - 1]) then Joined(lines) else Joined(lines) + newline
  {
    if !Whole(lines[|lines| - 1]) {
      var front, last := lines[..|lines| - 1], lines[|lines| - 1];
      LongerLastLine(front, last, newline);
      assert lines == front + [last];
    }
  }

  lemma EndsAlike(text: string)
    requires text != ""
    ensures SplitInclusive(text) != [] && Joined(SplitInclusive(text)) == text
    ensures Whole(SplitInclusive(text)[|SplitInclusive(text)| - 1]) <==> text[|text| - 1] == '\n'
  {
    SplitIsLined(text);
    JoinedSplit(text);
  }

  lemma EndedJoinsText(text: string, lines: seq<string>, newline: string)
    requires text != "" && lines == SplitInclusive(text)
    ensures Joined(Ended(lines, newline)) == if text[|text| - 1] == '\n' then text else text + newline
  {
    EndsAlike(text);
    EndedJoinsLines(lines, newline);
  }

  lemma EndedJoinsNothing(newline: string)
    ensures Joined(Ended([], newline)) == HEADER + newline
  {
    JoinedTwo([], HEADER + newline);
    assert [] + [HEADER + newline] == [HEADER + newline];
  }
}
