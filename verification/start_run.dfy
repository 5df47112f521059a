/** A whole start on its own thread: probe, check the paths, launch, and poll until the Runtime is up,
    the daemon exits, or the attempts run out. */
module StartRuns {
  import opened Outcomes
  import opened Launchers

  const READY_ATTEMPTS: nat := 60

  const OUTCOME_PREFIX := "OUTCOME actingd: "
  const OUTCOME_SCHEMA := "actingcommand.outcome.v1"
  const OWNER_RESOURCE_UNCONFIRMED := "owner_resource_unconfirmed"

  /** An outcome line's JSON, as far as it is read: the two fields that are strings. */
  datatype Envelope = Envelope(schema: Option<string>, code: Option<string>)

  type Parser = string -> Option<Envelope>

  datatype Path = Path(text: string, absolute: bool)

  datatype Waited = StillRunning | Exited(exit: Option<int>) | WaitFailed

  /** Everything the start asks of the world, and what it answers. */
  datatype World = World(
    first: Result<Facts>, recordsFirst: bool,
    exe: Option<Path>, config: Option<Path>, log: Result<string>, launches: bool,
    waits: nat -> Waited, probes: nat -> Result<Facts>, recordsReady: bool,
    written: Result<seq<string>>, parse: Parser)

  /** What the start does, in order. */
  datatype Effect =
    | Probe(up: bool) | Post(job: Job) | Record(launched: bool, kept: bool) | MakeLog | Launch(started: bool) | CheckChild | Sleep

  // The daemon's terminal outcome, in the log it wrote.

  predicate StartsWith(line: string, prefix: string) {
    prefix <= line
  }

  predicate Developer(line: string) {
    || StartsWith(line, "INFO actingd:") || StartsWith(line, "WARN actingd:")
    || StartsWith(line, "ERROR actingd:") || StartsWith(line, "FATAL actingd:")
  }

  /** The code an outcome line states, if it is one. */
  function CodeOf(line: string, parse: Parser): Option<string> {
    if !StartsWith(line, OUTCOME_PREFIX) then None
    else
      var envelope := parse(line[|OUTCOME_PREFIX|..]);
      if envelope.Some? && envelope.value.schema == Some(OUTCOME_SCHEMA) then envelope.value.code else None
  }

  /** The line to show for an outcome line: the developer line just before it, else itself. */
  function Shown(lines: seq<string>, at: nat): string
    requires at < |lines|
  {
    if at > 0 && Developer(lines[at - 1]) then lines[at - 1] else lines[at]
  }

  /** The place of the last line that states an outcome. */
  function LastStated(lines: seq<string>, parse: Parser): (at: Option<nat>)
    ensures at.Some? ==> at.value < |lines| && CodeOf(lines[at.value], parse).Some?
    ensures at.Some? ==> forall i | at.value < i < |lines| :: CodeOf(lines[i], parse).None?
    ensures at.None? ==> forall i | 0 <= i < |lines| :: CodeOf(lines[i], parse).None?
  {
    if lines == [] then None
    else if CodeOf(lines[|lines| - 1], parse).Some? then Some(|lines| - 1)
    else LastStated(lines[..|lines| - 1], parse)
  }

  /** The line holds an outcome of the schema, with this code. */
  predicate States(line: string, parse: Parser, code: string) {
    OUTCOME_PREFIX <= line
    && parse(line[|OUTCOME_PREFIX|..]) == Some(Envelope(Some(OUTCOME_SCHEMA), Some(code)))
  }

  lemma CodeIsStated(line: string, parse: Parser, code: string)
    ensures States(line, parse, code) <==> CodeOf(line, parse) == Some(code)
  {
    if CodeOf(line, parse) == Some(code) {
      var envelope := parse(line[|OUTCOME_PREFIX|..]).value;
      assert envelope == Envelope(Some(OUTCOME_SCHEMA), Some(code));
    }
  }

  /** Line `at` is the last to state an outcome, shown as the developer line just before it, if there is
      one. */
  ghost predicate OutcomeAt(lines: seq<string>, parse: Parser, at: nat, shown: string, code: string) {
    && at < |lines| && States(lines[at], parse, code)
    && (forall i, other | at < i < |lines| :: !States(lines[i], parse, other))
    && shown == if at > 0 && Developer(lines[at - 1]) then lines[at - 1] else lines[at]
  }

  ghost predicate OutcomeIs(lines: seq<string>, parse: Parser, outcome: Option<(string, string)>) {
    match outcome
    case None => forall i, code | 0 <= i < |lines| :: !States(lines[i], parse, code)
    case Some((shown, code)) => exists at: nat :: OutcomeAt(lines, parse, at, shown, code)
  }

  lemma LastIsStated(lines: seq<string>, parse: Parser)
    ensures var at := LastStated(lines, parse);
            OutcomeIs(lines, parse, if at.None? then None
                                    else Some((Shown(lines, at.value), CodeOf(lines[at.value], parse).value)))
  {
    forall i, code | 0 <= i < |lines|
      ensures States(lines[i], parse, code) <==> CodeOf(lines[i], parse) == Some(code)
    {
      CodeIsStated(lines[i], parse, code);
    }
    var last := LastStated(lines, parse);
    if last.Some? {
      var at := last.value;
      assert OutcomeAt(lines, parse, at, Shown(lines, at), CodeOf(lines[at], parse).value);
    }
  }

  method LastOutcome(lines: seq<string>, parse: Parser) returns (outcome: Option<(string, string)>)
    ensures var at := LastStated(lines, parse);
            outcome == if at.None? then None
                       else Some((Shown(lines, at.value), CodeOf(lines[at.value], parse).value))
    ensures OutcomeIs(lines, parse, outcome)
  {
    LastIsStated(lines, parse);
    var n: nat := |lines|;
    assert lines[..n] == lines;
    while n > 0
      invariant n <= |lines|
      invariant LastStated(lines, parse) == LastStated(lines[..n], parse)
    {
      n := n - 1;
      assert lines[..n + 1][..n] == lines[..n];
      var line := lines[n];
      if !StartsWith(line, OUTCOME_PREFIX) {
        continue;
      }
      var envelope := parse(line[|OUTCOME_PREFIX|..]);
      if envelope.None? || envelope.value.schema != Some(OUTCOME_SCHEMA) {
        continue;
      }
      match envelope.value.code {
        case None =>
        case Some(code) =>
          var developer := n > 0 && Developer(lines[n - 1]);
          return Some((if developer then lines[n - 1] else line, code));
      }
    }
    outcome := None;
  }

  // The last word of a start, told from the world alone.

  predicate Configured(path: Option<Path>) {
    path.Some? && path.value.absolute
  }

  predicate Launchable(world: World) {
    world.first.Err? && Configured(world.exe) && Configured(world.config) && world.log.Ok? && world.launches
  }

  /** An attempt that ends the wait: the daemon exited or cannot be asked, or a Runtime answers. */
  predicate Decides(world: World, attempt: nat) {
    !world.waits(attempt).StillRunning? || world.probes(attempt).Ok?
  }

  /** A last word before it is posted: the line, what was found, and whether the unlock is offered. */
  type Word = (Line, Option<Facts>, bool)

  /** The first attempt from this one on that ends the wait. */
  function FirstDeciding(world: World, attempt: nat): (first: Option<nat>)
    ensures first.Some? ==> attempt <= first.value <= READY_ATTEMPTS && Decides(world, first.value)
    ensures first.Some? ==> forall k | attempt <= k < first.value :: !Decides(world, k)
    ensures first.None? ==> forall k | attempt <= k <= READY_ATTEMPTS :: !Decides(world, k)
    decreases READY_ATTEMPTS + 1 - attempt
  {
    if attempt > READY_ATTEMPTS then None
    else if Decides(world, attempt) then Some(attempt)
    else FirstDeciding(world, attempt + 1)
  }

  function ExitCode(world: World): Option<string> {
    if world.written.Err? then None
    else
      var at := LastStated(world.written.value, world.parse);
      if at.None? then None else CodeOf(world.written.value[at.value], world.parse)
  }

  /** It is the code of the log's last line that states an outcome. */
  lemma ExitCodeIs(world: World)
    requires world.written.Ok?
    ensures var lines := world.written.value;
            && (forall at: nat, code | at < |lines| && States(lines[at], world.parse, code) ::
                  (forall i, other | at < i < |lines| :: !States(lines[i], world.parse, other)) ==>
                    ExitCode(world) == Some(code))
            && ((forall i, code | 0 <= i < |lines| :: !States(lines[i], world.parse, code)) ==> ExitCode(world) == None)
  {
    var lines := world.written.value;
    forall i, code | 0 <= i < |lines|
      ensures States(lines[i], world.parse, code) <==> CodeOf(lines[i], world.parse) == Some(code)
    {
      CodeIsStated(lines[i], world.parse, code);
    }
    var last := LastStated(lines, world.parse);
    if last.Some? {
      var code := CodeOf(lines[last.value], world.parse).value;
      assert States(lines[last.value], world.parse, code);
    }
  }

  function FailedStart(log: Option<string>): Line {
    Line(StartFailed(None), true, log)
  }

  /** What a launched start comes to, and whether the unlock is offered. */
  function Decided(world: World): Word
    requires world.log.Ok?
  {
    var log := Some(world.log.value);
    match FirstDeciding(world, 1)
    case None => (FailedStart(log), None, false)
    case Some(attempt) =>
      match world.waits(attempt)
      case Exited(_) =>
        var code := ExitCode(world);
        if code == Some(OWNER_RESOURCE_UNCONFIRMED) then (Line(NeedsUnlock, true, log), None, true)
        else (Line(StartFailed(code), true, log), None, false)
      case WaitFailed => (FailedStart(log), None, false)
      case StillRunning =>
        (Line(Running, !world.recordsReady, None), Some(world.probes(attempt).value), false)
  }

  function LastWord(world: World, sequence: nat): Job {
    if world.first.Ok? then StartEnds(sequence, None, Line(Running, !world.recordsFirst, None), false)
    else if !Configured(world.exe) || !Configured(world.config) then
      StartEnds(sequence, None, Line(NotConfigured, true, None), false)
    else if !Launchable(world) then StartEnds(sequence, None, FailedStart(None), false)
    else
      var (line, facts, offer) := Decided(world);
      StartEnds(sequence, facts, line, offer)
  }

  // What a start may do at all.

  /** What a start has found and done so far, as far as it decides what it may do next. */
  datatype Seen = Seen(up: bool, down: bool, logged: bool, launched: bool)

  function Noted(seen: Seen, effect: Effect): Seen {
    match effect
    case Probe(up) => if up then seen.(up := true) else seen.(down := true)
    case MakeLog => seen.(logged := true)
    case Launch(started) => if started then seen.(launched := true) else seen
    case _ => seen
  }

  ghost function SeenIn(trace: seq<Effect>): Seen {
    if trace == [] then Seen(false, false, false, false)
    else Noted(SeenIn(trace[..|trace| - 1]), trace[|trace| - 1])
  }

  /** What must have come before an effect, and what it says of the world: a press is recorded only
      after a probe found a Runtime; a daemon is launched only after one did not, with its log made; and
      only a launched one is asked about and waited for. */
  predicate May(world: World, seen: Seen, effect: Effect) {
    match effect
    case Record(launched, kept) =>
      && seen.up && launched == world.first.Err?
      && kept == if launched then world.recordsReady else world.recordsFirst
    case MakeLog => seen.down && !seen.up && Configured(world.exe) && Configured(world.config)
    case Launch(started) => seen.logged && !seen.up && world.log.Ok? && started == world.launches
    case CheckChild => seen.launched && !seen.up
    case Sleep => seen.launched && !seen.up
    case Probe(_) => true
    case Post(job) => MayPost(world, seen, job)
  }

  /** What may be posted, and when: what the first probe found; that a launched start is under way; that
      a Runtime is up already. */
  predicate MayPost(world: World, seen: Seen, job: Job) {
    match job
    case ProbeNews(_, found) => found == world.first && if found.Ok? then seen.up else seen.down
    case LineNews(line) =>
      if seen.launched then !seen.up && line == Line(Starting, false, None)
      else seen.up && line == Line(Running, false, None)
    case _ => true
  }

  ghost predicate Proper(world: World, trace: seq<Effect>) {
    forall i | 0 <= i < |trace| :: May(world, SeenIn(trace[..i]), trace[i])
  }

  /** How often each kind of effect took place. */
  datatype Tally =
    Tally(finals: nat, lines: nat, logs: nat, launches: nat, records: nat, probes: nat, checks: nat, sleeps: nat)

  function One(tally: Tally, effect: Effect): Tally {
    match effect
    case Post(job) =>
      if job.StartEnds? then tally.(finals := tally.finals + 1)
      else if job.LineNews? then tally.(lines := tally.lines + 1)
      else tally
    case MakeLog => tally.(logs := tally.logs + 1)
    case Launch(_) => tally.(launches := tally.launches + 1)
    case Record(_, _) => tally.(records := tally.records + 1)
    case Probe(_) => tally.(probes := tally.probes + 1)
    case CheckChild => tally.(checks := tally.checks + 1)
    case Sleep => tally.(sleeps := tally.sleeps + 1)
  }

  ghost function Counts(trace: seq<Effect>): Tally {
    if trace == [] then Tally(0, 0, 0, 0, 0, 0, 0, 0)
    else One(Counts(trace[..|trace| - 1]), trace[|trace| - 1])
  }

  lemma ProperMore(world: World, trace: seq<Effect>, effect: Effect)
    requires Proper(world, trace) && May(world, SeenIn(trace), effect)
    ensures Proper(world, trace + [effect]) && SeenIn(trace + [effect]) == Noted(SeenIn(trace), effect)
    ensures Counts(trace + [effect]) == One(Counts(trace), effect)
  {
    assert (trace + [effect])[..|trace|] == trace;
    forall i | 0 <= i < |trace| + 1
      ensures (trace + [effect])[..i] == if i < |trace| then trace[..i] else trace
    {
    }
  }

  /** One more effect. */
  method Do(world: World, trace: seq<Effect>, effect: Effect) returns (longer: seq<Effect>)
    requires Proper(world, trace) && May(world, SeenIn(trace), effect)
    ensures trace <= longer && |longer| == |trace| + 1 && longer[|trace|] == effect
    ensures Proper(world, longer) && SeenIn(longer) == Noted(SeenIn(trace), effect)
    ensures Counts(longer) == One(Counts(trace), effect)
  {
    longer := trace + [effect];
    ProperMore(world, trace, effect);
  }

  /** Says how the wait goes on. */
  method SayWaiting(world: World, trace: seq<Effect>) returns (longer: seq<Effect>)
    requires Proper(world, trace) && SeenIn(trace).launched && !SeenIn(trace).up
    ensures Proper(world, longer) && trace <= longer && SeenIn(longer) == SeenIn(trace)
    ensures Counts(longer) == Counts(trace).(lines := Counts(trace).lines + 1)
  {
    longer := Do(world, trace, Post(LineNews(Line(Starting, false, None))));
  }

  /** The exited daemon's last outcome, if its log holds one. */
  method ReadExit(world: World) returns (code: Option<string>)
    ensures code == ExitCode(world)
  {
    match world.written {
      case Err => code := None;
      case Ok(lines) =>
        var outcome := LastOutcome(lines, world.parse);
        code := if outcome.Some? then Some(outcome.value.1) else None;
    }
  }

  /** How many attempts a launched daemon gets, and whether one of them decides. */
  function Attempts(world: World): (nat, bool) {
    match FirstDeciding(world, 1)
    case None => (READY_ATTEMPTS, false)
    case Some(attempt) => (attempt, true)
  }

  /** What the wait does, told from the world: it asks after the daemon once an attempt, probes unless it
      has exited, says that it waits and sleeps after each that decides nothing, and records exactly the
      Runtime it found. */
  function AfterWait(world: World, before: Tally): Tally {
    var (attempts, decided) := Attempts(world);
    var found := decided && world.waits(attempts).StillRunning?;
    before.(checks := before.checks + attempts,
            probes := before.probes + attempts - (if decided && !found then 1 else 0),
            sleeps := before.sleeps + attempts - (if decided then 1 else 0),
            lines := before.lines + 1 + attempts - (if decided then 1 else 0),
            records := before.records + if found then 1 else 0)
  }

  /** The wait so far: `attempt - 1` attempts decided nothing. */
  ghost predicate Waiting(world: World, before: Tally, trace: seq<Effect>, attempt: nat) {
    && 1 <= attempt <= READY_ATTEMPTS + 1 && FirstDeciding(world, 1) == FirstDeciding(world, attempt)
    && Proper(world, trace) && SeenIn(trace).launched && !SeenIn(trace).up
    && Counts(trace) == before.(checks := before.checks + attempt - 1, probes := before.probes + attempt - 1,
                                sleeps := before.sleeps + attempt - 1, lines := before.lines + attempt)
  }

  /** The daemon asked after, in one attempt: its exit, or that it cannot be asked, is the last word. */
  method AskChild(world: World, before: seq<Effect>, attempt: nat)
    returns (trace: seq<Effect>, last: Option<Word>)
    requires world.log.Ok? && Proper(world, before) && SeenIn(before).launched && !SeenIn(before).up
    ensures Proper(world, trace) && before <= trace && SeenIn(trace) == SeenIn(before)
    ensures Counts(trace) == Counts(before).(checks := Counts(before).checks + 1)
    ensures last.None? <==> world.waits(attempt).StillRunning?
    ensures last.Some? && FirstDeciding(world, 1) == Some(attempt) ==> last.value == Decided(world)
  {
    trace := Do(world, before, CheckChild);
    var log := Some(world.log.value);
    match world.waits(attempt) {
      case StillRunning => last := None;
      case Exited(_) =>
        var code := ReadExit(world);
        var offer := code == Some(OWNER_RESOURCE_UNCONFIRMED);
        last := Some((Line(if offer then NeedsUnlock else StartFailed(code), true, log), None, offer));
      case WaitFailed => last := Some((FailedStart(log), None, false));
    }
  }

  /** An attempt that decided nothing: the wait is said to go on, and slept. */
  method GoOn(world: World, before: seq<Effect>) returns (trace: seq<Effect>)
    requires Proper(world, before) && SeenIn(before).launched && !SeenIn(before).up
    ensures Proper(world, trace) && before <= trace && SeenIn(trace) == SeenIn(before)
    ensures var tally := Counts(before);
            Counts(trace) == tally.(sleeps := tally.sleeps + 1, lines := tally.lines + 1)
  {
    trace := SayWaiting(world, before);
    trace := Do(world, trace, Sleep);
  }

  /** A Runtime looked for, in one attempt: one that answers is recorded and is the last word; otherwise
      the wait is said to go on, and slept. */
  method ProbeOnce(world: World, before: seq<Effect>, attempt: nat)
    returns (trace: seq<Effect>, last: Option<Word>)
    requires world.first.Err? && world.log.Ok? && world.waits(attempt).StillRunning?
    requires Proper(world, before) && SeenIn(before).launched && !SeenIn(before).up
    ensures Proper(world, trace) && before <= trace
    ensures last.None? ==> SeenIn(trace).launched && !SeenIn(trace).up
    ensures last.None? <==> world.probes(attempt).Err?
    ensures last.Some? && FirstDeciding(world, 1) == Some(attempt) ==> last.value == Decided(world)
    ensures var tally := Counts(before);
            Counts(trace) == if last.Some? then tally.(probes := tally.probes + 1, records := tally.records + 1)
                             else tally.(probes := tally.probes + 1, sleeps := tally.sleeps + 1,
                                         lines := tally.lines + 1)
  {
    trace := Do(world, before, Probe(world.probes(attempt).Ok?));
    match world.probes(attempt) {
      case Ok(found) =>
        trace := Do(world, trace, Record(true, world.recordsReady));
        last := Some((Line(Running, !world.recordsReady, None), Some(found), false));
      case Err =>
        trace := GoOn(world, trace);
        last := None;
    }
  }

  lemma DecidesHere(world: World, before: Tally, trace: seq<Effect>, attempt: nat)
    requires Waiting(world, before, trace, attempt) && attempt <= READY_ATTEMPTS
    ensures Decides(world, attempt) ==> FirstDeciding(world, 1) == Some(attempt)
    ensures !Decides(world, attempt) ==> FirstDeciding(world, 1) == FirstDeciding(world, attempt + 1)
    ensures Decides(world, attempt) ==>
              var tally := Counts(trace);
              AfterWait(world, before) ==
                if world.waits(attempt).StillRunning?
                then tally.(checks := tally.checks + 1, probes := tally.probes + 1, records := tally.records + 1)
                else tally.(checks := tally.checks + 1)
  {
  }

  /** The wait since `start`: it goes on with this attempt, or has come to its last word. */
  ghost predicate Going(
    world: World, tally: Tally, start: seq<Effect>, trace: seq<Effect>, attempt: nat, last: Option<Word>)
    requires world.log.Ok?
  {
    && start <= trace && 1 <= attempt <= READY_ATTEMPTS + 1
    && if last.None? then Waiting(world, tally, trace, attempt)
       else last.value == Decided(world) && Proper(world, trace) && Counts(trace) == AfterWait(world, tally)
  }

  /** One attempt: it decides, or the wait goes on. */
  method Attempt(world: World, ghost tally: Tally, ghost start: seq<Effect>, before: seq<Effect>, attempt: nat)
    returns (trace: seq<Effect>, last: Option<Word>)
    requires world.first.Err? && world.log.Ok? && attempt <= READY_ATTEMPTS
    requires Going(world, tally, start, before, attempt, None)
    ensures Going(world, tally, start, trace, if last.None? then attempt + 1 else attempt, last)
  {
    DecidesHere(world, tally, before, attempt);
    trace, last := AskChild(world, before, attempt);
    if last.Some? {
      return;
    }
    trace, last := ProbeOnce(world, trace, attempt);
  }

  lemma WaitBegins(world: World, before: Tally, trace: seq<Effect>)
    requires Proper(world, trace) && SeenIn(trace).launched && !SeenIn(trace).up
    requires Counts(trace) == before.(lines := before.lines + 1)
    ensures Waiting(world, before, trace, 1)
  {
  }

  /** Every attempt is over and none decided. */
  lemma WaitEnds(world: World, before: Tally, trace: seq<Effect>)
    requires world.log.Ok? && Waiting(world, before, trace, READY_ATTEMPTS + 1)
    ensures Counts(trace) == AfterWait(world, before) && Proper(world, trace)
    ensures Decided(world) == (FailedStart(Some(world.log.value)), None, false)
  {
    assert FirstDeciding(world, READY_ATTEMPTS + 1) == None;
  }

  /** Polls a launched daemon until an attempt ends the wait. */
  method Await(world: World, before: seq<Effect>)
    returns (trace: seq<Effect>, line: Line, facts: Option<Facts>, offer: bool)
    requires world.first.Err? && world.log.Ok? && Proper(world, before)
    requires !SeenIn(before).up && SeenIn(before).launched
    ensures (line, facts, offer) == Decided(world) && Proper(world, trace)
    ensures Counts(trace) == AfterWait(world, Counts(before))
    ensures before <= trace
  {
    ghost var tally := Counts(before);
    trace := SayWaiting(world, before);
    WaitBegins(world, tally, trace);
    var attempt: nat := 1;
    var last: Option<Word> := None;
    while attempt <= READY_ATTEMPTS && last.None?
      invariant Going(world, tally, before, trace, attempt, last)
      decreases READY_ATTEMPTS + 1 - attempt, last.None?
    {
      trace, last := Attempt(world, tally, before, trace, attempt);
      attempt := if last.None? then attempt + 1 else attempt;
    }
    if last.None? {
      WaitEnds(world, tally, trace);
      last := Some((FailedStart(Some(world.log.value)), None, false));
    }
    line, facts, offer := last.value.0, last.value.1, last.value.2;
  }

  /** What a start without a Runtime does, told from the world: it makes the log exactly when both paths
      are absolute, launches exactly when that worked, and waits exactly for a daemon that started. */
  function AfterLaunch(world: World, before: Tally): Tally {
    if !Configured(world.exe) || !Configured(world.config) then before
    else if world.log.Err? then before.(logs := before.logs + 1)
    else
      var launched := before.(logs := before.logs + 1, launches := before.launches + 1);
      if world.launches then AfterWait(world, launched) else launched
  }

  /** The log made, and the daemon launched into it. */
  method LaunchDaemon(world: World, before: seq<Effect>) returns (trace: seq<Effect>, launched: bool)
    requires Proper(world, before) && SeenIn(before).down && !SeenIn(before).up
    requires Configured(world.exe) && Configured(world.config)
    ensures Proper(world, trace) && before <= trace && !SeenIn(trace).up
    ensures launched <==> world.log.Ok? && world.launches
    ensures launched ==> SeenIn(trace).launched
    ensures var tally := Counts(before).(logs := Counts(before).logs + 1);
            Counts(trace) == if world.log.Ok? then tally.(launches := tally.launches + 1) else tally
  {
    trace := Do(world, before, MakeLog);
    if world.log.Err? {
      return trace, false;
    }
    trace := Do(world, trace, Launch(world.launches));
    launched := world.launches;
  }

  /** No Runtime up: what a start goes on with, to its last word. */
  method LaunchAndAwait(world: World, sequence: nat, before: seq<Effect>)
    returns (trace: seq<Effect>, line: Line, facts: Option<Facts>, offer: bool)
    requires world.first.Err? && Proper(world, before) && SeenIn(before).down && !SeenIn(before).up
    ensures StartEnds(sequence, facts, line, offer) == LastWord(world, sequence)
    ensures Proper(world, trace) && before <= trace
    ensures Counts(trace) == AfterLaunch(world, Counts(before))
  {
    trace, facts, offer := before, None, false;
    if !Configured(world.exe) || !Configured(world.config) {
      line := Line(NotConfigured, true, None);
      return;
    }
    var launched;
    trace, launched := LaunchDaemon(world, before);
    if !launched {
      line := FailedStart(None);
      return;
    }
    trace, line, facts, offer := Await(world, trace);
  }

  /** The first probe, and what it found posted. */
  method ProbeFirst(world: World, sequence: nat) returns (trace: seq<Effect>)
    ensures Proper(world, trace) && |trace| == 2
    ensures trace[0] == Probe(world.first.Ok?) && trace[1] == Post(ProbeNews(sequence, world.first))
    ensures SeenIn(trace) == Seen(world.first.Ok?, world.first.Err?, false, false)
    ensures Counts(trace) == Tally(0, 0, 0, 0, 0, 1, 0, 0)
  {
    trace := Do(world, [], Probe(world.first.Ok?));
    trace := Do(world, trace, Post(ProbeNews(sequence, world.first)));
  }

  /** A Runtime up already: the press is recorded, and nothing is launched. */
  method AlreadyRunning(world: World, sequence: nat, before: seq<Effect>) returns (trace: seq<Effect>)
    requires world.first.Ok? && Proper(world, before) && SeenIn(before).up && !SeenIn(before).launched
    ensures Proper(world, trace) && before <= trace && |trace| > |before|
    ensures trace[|trace| - 1] == Post(LastWord(world, sequence))
    ensures var tally := Counts(before);
            Counts(trace)
            == tally.(records := tally.records + 1, finals := tally.finals + 1, lines := tally.lines + 1)
  {
    trace := Do(world, before, Post(LineNews(Line(Running, false, None))));
    trace := Do(world, trace, Record(false, world.recordsFirst));
    trace := Do(world, trace, Post(StartEnds(sequence, None, Line(Running, !world.recordsFirst, None), false)));
  }

  /** The start's thread, from its first probe to its last word. */
  method RunStart(world: World, sequence: nat) returns (trace: seq<Effect>)
    ensures Proper(world, trace) && |trace| >= 3
    ensures trace[0] == Probe(world.first.Ok?) && trace[1] == Post(ProbeNews(sequence, world.first))
    ensures trace[|trace| - 1] == Post(LastWord(world, sequence)) && Counts(trace).finals == 1
    ensures Counts(trace).logs == if world.first.Err? && Configured(world.exe) && Configured(world.config) then 1 else 0
    ensures Counts(trace).launches == if Counts(trace).logs == 1 && world.log.Ok? then 1 else 0
    ensures Counts(trace).records == if LastWord(world, sequence).line.kind.Running? then 1 else 0
    ensures Counts(trace).checks == if Launchable(world) then Attempts(world).0 else 0
    ensures Counts(trace).sleeps == if Launchable(world) && !Attempts(world).1 then READY_ATTEMPTS
                                     else if Launchable(world) then Attempts(world).0 - 1 else 0
    ensures Counts(trace).probes == 1 + if !Launchable(world) then 0
                                        else Attempts(world).0 - if Decided(world).0.kind.Running? || !Attempts(world).1 then 0 else 1
    ensures Counts(trace).probes <= READY_ATTEMPTS + 1
    ensures Counts(trace).lines == if world.first.Ok? then 1 else if Launchable(world) then 1 + Counts(trace).sleeps else 0
  {
    trace := ProbeFirst(world, sequence);
    ghost var begun := trace;
    if world.first.Ok? {
      trace := AlreadyRunning(world, sequence, trace);
      return;
    }
    var line: Line, facts: Option<Facts>, offer: bool;
    trace, line, facts, offer := LaunchAndAwait(world, sequence, trace);
    trace := Do(world, trace, Post(StartEnds(sequence, facts, line, offer)));
    assert begun <= trace;
  }

  /** The unlock is offered exactly when the launched daemon exited before any Runtime answered, and its
      log's last outcome says its owner is unconfirmed. */
  lemma OffersOnlyUnconfirmed(world: World, sequence: nat)
    ensures LastWord(world, sequence).offer <==>
            && Launchable(world) && ExitCode(world) == Some(OWNER_RESOURCE_UNCONFIRMED)
            && exists k :: && 1 <= k <= READY_ATTEMPTS && world.waits(k).Exited?
                           && forall j | 1 <= j < k :: !Decides(world, j)
    ensures LastWord(world, sequence).offer <==> LastWord(world, sequence).line.kind.NeedsUnlock?
  {
    if Launchable(world) {
      var first := FirstDeciding(world, 1);
      if k: nat :| 1 <= k <= READY_ATTEMPTS && world.waits(k).Exited? && forall j | 1 <= j < k :: !Decides(world, j) {
        assert Decides(world, k);
        assert first == Some(k);
      }
    }
  }

  /** What a launched start says last, by the first attempt that decides. */
  lemma DecidedBy(world: World, sequence: nat, attempt: nat)
    requires Launchable(world) && 1 <= attempt <= READY_ATTEMPTS && Decides(world, attempt)
    requires forall k | 1 <= k < attempt :: !Decides(world, k)
    ensures var last := LastWord(world, sequence);
            && last.sequence == sequence
            && (world.waits(attempt).StillRunning? ==>
                  last.facts == Some(world.probes(attempt).value)
                  && last.line == Line(Running, !world.recordsReady, None) && !last.offer)
            && (world.waits(attempt).WaitFailed? ==>
                  last.facts == None && last.line == Line(StartFailed(None), true, Some(world.log.value)) && !last.offer)
            && (world.waits(attempt).Exited? ==>
                  && last.facts == None && last.line.failed && last.line.log == Some(world.log.value)
                  && (!last.offer ==> last.line.kind == StartFailed(ExitCode(world))))
  {
    assert FirstDeciding(world, 1) == Some(attempt);
  }

  /** Without a daemon, or with none that decides in time, a start says it failed, and never offers. */
  lemma NotDecided(world: World, sequence: nat)
    requires world.first.Err?
    requires !Launchable(world) || forall k | 1 <= k <= READY_ATTEMPTS :: !Decides(world, k)
    ensures var last := LastWord(world, sequence);
            && last.facts == None && last.line.failed && !last.offer
            && (last.line.kind.NotConfigured? <==> !Configured(world.exe) || !Configured(world.config))
            && (!last.line.kind.NotConfigured? ==> last.line.kind == StartFailed(None))
  {
    if Launchable(world) {
      assert FirstDeciding(world, 1) == None;
    }
  }

  /** A start says it is running exactly when a probe found a Runtime: the first, or one that no exit and
      no earlier answer precedes. */
  lemma RunningOnlyWhenFound(world: World, sequence: nat)
    ensures LastWord(world, sequence).line.kind.Running? <==>
            || world.first.Ok?
            || (Launchable(world) && exists k :: && 1 <= k <= READY_ATTEMPTS && world.waits(k).StillRunning?
                                                 && world.probes(k).Ok? && forall j | 1 <= j < k :: !Decides(world, j))
    ensures LastWord(world, sequence).facts.Some? ==> LastWord(world, sequence).line.kind.Running?
    ensures LastWord(world, sequence).line.log.Some? <==>
            Launchable(world) && !LastWord(world, sequence).line.kind.Running?
  {
    if Launchable(world) {
      var first := FirstDeciding(world, 1);
      if k: nat :| 1 <= k <= READY_ATTEMPTS && world.waits(k).StillRunning? && world.probes(k).Ok? && forall j | 1 <= j < k :: !Decides(world, j) {
        assert Decides(world, k);
        assert first == Some(k);
      }
    }
  }
}
