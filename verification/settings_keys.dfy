/** What a load gives, key by key, told from the file's lines alone. */
module SettingsKeys {
  import opened Outcomes
  import opened Picking
  import opened TextLines
  import opened SettingsFiles
  import opened SettingsLaws

  /** Line `i` is the last that gives `key` one of these values. */
  ghost predicate LastGiving(lines: seq<Parsed>, key: string, values: set<string>, i: nat) {
    && i < |lines| && GivesOne(lines[i], key, values)
    && forall j | i < j < |lines| :: !GivesOne(lines[j], key, values)
  }

  predicate GivesOne(line: Parsed, key: string, values: set<string>) {
    line.Entry? && line.key == key && line.value in values
  }

  const LANGUAGES: set<string> := {"zh", "en"}
  const SIZES: set<string> := {"standard", "large", "extra-large"}
  const THEMES: set<string> := {"flat", "aero"}

  /** The path the last line of a key gives: none for an empty one, or with no such line. */
  function LastPath(lines: seq<Parsed>, key: string): Option<string> {
    match LastOf(lines, key)
    case None => None
    case Some(at) => if lines[at].value == "" then None else Some(lines[at].value)
  }

  function LastGap(lines: seq<Parsed>): nat {
    match LastOf(lines, "preview_frame_gap_seconds")
    case None => 5
    case Some(at) => if FrameGap(lines[at].value).Some? then FrameGap(lines[at].value).value else 5
  }

  /** Each path is what its key's last line gives, and so is the frame gap, or the default where that line
      holds none. */
  ghost predicate LastLinesGive(lines: seq<Parsed>, settings: Settings) {
    && settings.stateRoot == LastPath(lines, "state_root")
    && settings.config == LastPath(lines, "actingd_config")
    && settings.exe == LastPath(lines, "actingd_exe")
    && settings.gap == LastGap(lines)
  }

  function NamedLanguage(value: string): Language {
    if value == "zh" then Zh else En
  }

  function NamedSize(value: string): TextSize {
    if value == "standard" then Standard else if value == "large" then Large else ExtraLarge
  }

  function NamedTheme(value: string): Theme {
    if value == "flat" then Flat else Aero
  }

  ghost predicate LanguageIs(lines: seq<Parsed>, language: Language) {
    && (forall i: nat | LastGiving(lines, "lang", LANGUAGES, i) :: language == NamedLanguage(lines[i].value))
    && ((forall line | line in lines :: !GivesOne(line, "lang", LANGUAGES)) ==> language == Zh)
  }

  ghost predicate SizeIs(lines: seq<Parsed>, size: TextSize) {
    && (forall i: nat | LastGiving(lines, "text_size", SIZES, i) :: size == NamedSize(lines[i].value))
    && ((forall line | line in lines :: !GivesOne(line, "text_size", SIZES)) ==> size == Standard)
  }

  ghost predicate ThemeIs(lines: seq<Parsed>, theme: Theme) {
    && (forall i: nat | LastGiving(lines, "theme", THEMES, i) :: theme == NamedTheme(lines[i].value))
    && ((forall line | line in lines :: !GivesOne(line, "theme", THEMES)) ==> theme == Flat)
  }

  /** Language, text size and theme are those of their key's last line that names one, else the first
      run's. */
  ghost predicate LastNamesGive(lines: seq<Parsed>, settings: Settings) {
    LanguageIs(lines, settings.language) && SizeIs(lines, settings.textSize) && ThemeIs(lines, settings.theme)
  }

  lemma OneLineMore(front: seq<Parsed>, last: Parsed)
    ensures var lines := front + [last];
            Given(SayAll(lines), |lines|) == Changed(Given(SayAll(front), |front|), Says(last).change)
  {
    var lines := front + [last];
    SayMore(front, last);
    SameSoFar(SayAll(front), SayAll(lines), |front|);
  }

  lemma LastOfMore(front: seq<Parsed>, last: Parsed, key: string)
    ensures LastOf(front + [last], key) == if HasKey(last, key) then Some(|front|) else LastOf(front, key)
    ensures forall at | LastOf(front, key) == Some(at) :: (front + [last])[at] == front[at]
  {
    assert (front + [last])[..|front|] == front;
  }

  lemma LastPathMore(front: seq<Parsed>, last: Parsed, key: string)
    ensures LastPath(front + [last], key)
         == PathGiven(last, key, LastPath(front, key))
  {
    LastOfMore(front, last, key);
  }

  function PathGiven(line: Parsed, key: string, before: Option<string>): Option<string> {
    if !HasKey(line, key) then before else if line.value == "" then None else Some(line.value)
  }

  lemma LineChanges(line: Parsed, settings: Settings)
    ensures var after := Changed(settings, Says(line).change);
            && after.stateRoot == PathGiven(line, "state_root", settings.stateRoot)
            && after.config == PathGiven(line, "actingd_config", settings.config)
            && after.exe == PathGiven(line, "actingd_exe", settings.exe)
            && after.gap == if !HasKey(line, "preview_frame_gap_seconds") then settings.gap
                            else if FrameGap(line.value).Some? then FrameGap(line.value).value else 5
  {
  }

  lemma LastGapMore(front: seq<Parsed>, last: Parsed)
    ensures LastGap(front + [last]) == if !HasKey(last, "preview_frame_gap_seconds") then LastGap(front)
                                       else if FrameGap(last.value).Some? then FrameGap(last.value).value else 5
  {
    LastOfMore(front, last, "preview_frame_gap_seconds");
  }

  lemma LineGives(front: seq<Parsed>, last: Parsed, settings: Settings, lines: seq<Parsed>, after: Settings)
    requires LastLinesGive(front, settings) && lines == front + [last]
    requires after == Changed(settings, Says(last).change)
    ensures LastLinesGive(lines, after)
  {
    LineChanges(last, settings);
    LastPathMore(front, last, "state_root");
    LastPathMore(front, last, "actingd_config");
    LastPathMore(front, last, "actingd_exe");
    LastGapMore(front, last);
  }

  lemma {:induction false} LinesGive(lines: seq<Parsed>)
    ensures LastLinesGive(lines, Given(SayAll(lines), |lines|))
  {
    if lines != [] {
      var front, last := lines[..|lines| - 1], lines[|lines| - 1];
      assert lines == front + [last];
      LinesGive(front);
      OneLineMore(front, last);
      LineGives(front, last, Given(SayAll(front), |front|), lines, Given(SayAll(lines), |lines|));
    }
  }

  lemma LastGivingMore(front: seq<Parsed>, last: Parsed, key: string, values: set<string>, i: nat)
    ensures LastGiving(front + [last], key, values, i) <==>
              if GivesOne(last, key, values) then i == |front| else LastGiving(front, key, values, i)
  {
    var lines := front + [last];
    assert lines[|front|] == last;
    if !GivesOne(last, key, values) && i < |front| {
      assert lines[i] == front[i];
      if LastGiving(front, key, values, i) {
        forall j | i < j < |lines|
          ensures !GivesOne(lines[j], key, values)
        {
          assert j < |front| ==> lines[j] == front[j];
        }
      }
      if LastGiving(lines, key, values, i) {
        forall j | i < j < |front|
          ensures !GivesOne(front[j], key, values)
        {
          assert lines[j] == front[j];
        }
      }
    }
  }

  lemma NoneGivingMore(front: seq<Parsed>, last: Parsed, key: string, values: set<string>)
    ensures (forall line | line in front + [last] :: !GivesOne(line, key, values)) ==>
              !GivesOne(last, key, values) && forall line | line in front :: !GivesOne(line, key, values)
  {
    if forall line | line in front + [last] :: !GivesOne(line, key, values) {
      assert last in front + [last];
      forall line | line in front
        ensures !GivesOne(line, key, values)
      {
        assert line in front + [last];
      }
    }
  }

  lemma LanguageGiven(front: seq<Parsed>, last: Parsed, settings: Settings)
    requires LanguageIs(front, settings.language)
    ensures LanguageIs(front + [last], Changed(settings, Says(last).change).language)
  {
    var lines, after := front + [last], Changed(settings, Says(last).change).language;
    forall i: nat | LastGiving(lines, "lang", LANGUAGES, i)
      ensures after == NamedLanguage(lines[i].value)
    {
      LastGivingMore(front, last, "lang", LANGUAGES, i);
    }
    NoneGivingMore(front, last, "lang", LANGUAGES);
  }

  lemma SizeGiven(front: seq<Parsed>, last: Parsed, settings: Settings)
    requires SizeIs(front, settings.textSize)
    ensures SizeIs(front + [last], Changed(settings, Says(last).change).textSize)
  {
    var lines, after := front + [last], Changed(settings, Says(last).change).textSize;
    forall i: nat | LastGiving(lines, "text_size", SIZES, i)
      ensures after == NamedSize(lines[i].value)
    {
      LastGivingMore(front, last, "text_size", SIZES, i);
    }
    NoneGivingMore(front, last, "text_size", SIZES);
  }

  lemma ThemeGiven(front: seq<Parsed>, last: Parsed, settings: Settings)
    requires ThemeIs(front, settings.theme)
    ensures ThemeIs(front + [last], Changed(settings, Says(last).change).theme)
  {
    var lines, after := front + [last], Changed(settings, Says(last).change).theme;
    forall i: nat | LastGiving(lines, "theme", THEMES, i)
      ensures after == NamedTheme(lines[i].value)
    {
      LastGivingMore(front, last, "theme", THEMES, i);
    }
    NoneGivingMore(front, last, "theme", THEMES);
  }

  lemma NameGives(front: seq<Parsed>, last: Parsed, settings: Settings)
    requires LastNamesGive(front, settings)
    ensures LastNamesGive(front + [last], Changed(settings, Says(last).change))
  {
    LanguageGiven(front, last, settings);
    SizeGiven(front, last, settings);
    ThemeGiven(front, last, settings);
  }

  lemma {:induction false} NamesGive(lines: seq<Parsed>)
    ensures LastNamesGive(lines, Given(SayAll(lines), |lines|))
  {
    if lines != [] {
      var front, last := lines[..|lines| - 1], lines[|lines| - 1];
      assert lines == front + [last];
      NamesGive(front);
      OneLineMore(front, last);
      NameGives(front, last, Given(SayAll(front), |front|));
    }
  }

  /** What a load gives of every key. */
  lemma LoadGives(text: string)
    ensures LastLinesGive(ParseAll(SplitInclusive(text)), LoadText(text).settings)
    ensures LastNamesGive(ParseAll(SplitInclusive(text)), LoadText(text).settings)
  {
    LinesGive(ParseAll(SplitInclusive(text)));
    NamesGive(ParseAll(SplitInclusive(text)));
  }

  /** What is wrong with a line, if anything: it has no equals sign, or names no value its key can have. */
  predicate IsBad(line: Parsed) {
    || line.Malformed?
    || (line.Entry? && line.key == "lang" && line.value !in LANGUAGES)
    || (line.Entry? && line.key == "text_size" && line.value !in SIZES)
    || (line.Entry? && line.key == "theme" && line.value !in THEMES)
    || (line.Entry? && line.key == "preview_frame_gap_seconds" && FrameGap(line.value).None?)
  }

  function IssueAt(line: Parsed, number: nat): Issue
    requires IsBad(line)
  {
    if line.Entry? then UnknownValue(number, line.key, line.value) else MalformedLine(number)
  }

  ghost function BadAt(lines: seq<Parsed>): set<nat> {
    set i: nat | i < |lines| && IsBad(lines[i])
  }

  /** The issues are those of the bad lines, each under its own number, in their order. */
  ghost predicate IssuesAre(lines: seq<Parsed>, issues: seq<Issue>, at: seq<nat>) {
    && |issues| == |at| && Ascending(at, |lines|) && Covers(at, BadAt(lines))
    && forall k | 0 <= k < |at| :: IsBad(lines[at[k]]) && issues[k] == IssueAt(lines[at[k]], at[k] + 1)
  }

  lemma BadSays(line: Parsed, number: nat)
    ensures IssuesOf(Says(line).trouble, number) == if IsBad(line) then [IssueAt(line, number)] else []
  {
  }

  lemma BadAtMore(front: seq<Parsed>, last: Parsed)
    ensures BadAt(front + [last]) == if IsBad(last) then BadAt(front) + {|front|} else BadAt(front)
  {
  }

  lemma IssuesMore(front: seq<Parsed>, last: Parsed, issues: seq<Issue>, at: seq<nat>)
    requires IssuesAre(front, issues, at)
    ensures IsBad(last) ==>
              IssuesAre(front + [last], issues + [IssueAt(last, |front| + 1)], at + [|front|])
    ensures !IsBad(last) ==> IssuesAre(front + [last], issues, at)
  {
    BadAtMore(front, last);
    PickMore(at, BadAt(front), |front|, BadAt(front + [last]));
  }

  lemma {:induction false} SameTold(a: seq<Saying>, b: seq<Saying>, n: nat)
    requires n <= |a| && n <= |b| && forall i | 0 <= i < n :: a[i] == b[i]
    ensures Told(a, n) == Told(b, n)
  {
    if n > 0 {
      SameTold(a, b, n - 1);
    }
  }

  lemma ToldMore(sayings: seq<Saying>, saying: Saying)
    ensures Told(sayings + [saying], |sayings| + 1)
         == Told(sayings, |sayings|) + IssuesOf(saying.trouble, |sayings| + 1)
  {
    SameTold(sayings, sayings + [saying], |sayings|);
  }

  lemma SayMore(front: seq<Parsed>, last: Parsed)
    ensures SayAll(front + [last]) == SayAll(front) + [Says(last)]
  {
  }

  lemma {:induction false} ToldAre(lines: seq<Parsed>) returns (at: seq<nat>)
    ensures IssuesAre(lines, Told(SayAll(lines), |lines|), at)
  {
    at := [];
    if lines != [] {
      var front, last := lines[..|lines| - 1], lines[|lines| - 1];
      assert lines == front + [last];
      at := ToldAre(front);
      var told := Told(SayAll(front), |front|);
      SayMore(front, last);
      ToldMore(SayAll(front), Says(last));
      BadSays(last, |lines|);
      IssuesMore(front, last, told, at);
      assert !IsBad(last) ==> told + [] == told;
      at := if IsBad(last) then at + [|front|] else at;
    }
  }

  /** A load warns about every bad line and no other, by its number, in their order. */
  lemma LoadWarns(text: string) returns (at: seq<nat>)
    ensures IssuesAre(ParseAll(SplitInclusive(text)), LoadText(text).issues, at)
  {
    at := ToldAre(ParseAll(SplitInclusive(text)));
  }

  function Digit(n: nat): char
    requires n < 10
  {
    ['0', '1', '2', '3', '4', '5', '6', '7', '8', '9'][n]
  }

  function Decimal(n: nat): string {
    if n < 10 then [Digit(n)] else Decimal(n / 10) + [Digit(n % 10)]
  }

  lemma DigitReads(n: nat)
    requires n < 10
    ensures IsDigit(Digit(n)) && Digit(n) as int - '0' as int == n
  {
  }

  lemma {:induction false} DecimalReads(n: nat)
    ensures Decimal(n) != [] && forall c | c in Decimal(n) :: IsDigit(c)
    ensures Number(Decimal(n)) == n
  {
    DigitReads(n % 10);
    if n >= 10 {
      DecimalReads(n / 10);
      assert Decimal(n)[..|Decimal(n)| - 1] == Decimal(n / 10);
    } else {
      assert Decimal(n)[..0] == [];
    }
  }

  /** A number written out is taken exactly when it is from 2 to 60, with or without a plus sign. */
  lemma FrameGapReads(n: nat)
    ensures FrameGap(Decimal(n)) == FrameGap("+" + Decimal(n)) == if 2 <= n <= 60 then Some(n) else None
  {
    DecimalReads(n);
    assert Decimal(n)[0] in Decimal(n);
    assert ("+" + Decimal(n))[1..] == Decimal(n);
  }
}
