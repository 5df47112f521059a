/** The unlock on its own thread: one child process, its pipes drained while it runs and its exit waited
    for up to a deadline, then killed; and what its report comes to. */
module UnlockRuns {
  import opened Outcomes
  import opened Launchers

  const UNLOCK_SCHEMA := "actingcommand.actingd.unlock-owner.v2"
  const UNLOCK_COMPLETED := "unlock_owner_completed"

  /** 180 seconds in sleeps of a tenth of a second: none ends early. */
  const POLLS: nat := 1800

  datatype Polled = StillRunning | Exited(code: Option<int>) | PollFailed

  /** The fields of a report that are there, each of the kind the contract states. */
  datatype Report = Report(
    schema: Option<string>, code: Option<string>, epoch: Option<string>, disposition: Option<string>,
    revision: Option<nat>)

  /** What the unlock asks of the world, and what it answers. */
  datatype World = World(
    spawns: bool, drains: bool, polls: nat -> Polled, late: nat -> bool, kills: bool, reaps: bool,
    stdout: Result<string>, stderr: Result<string>, parse: string -> Option<Report>)

  datatype Effect =
    | Spawn(done: bool) | Drain(done: bool) | Poll(polled: Polled) | Sleep | Kill(done: bool) | Reap(done: bool)
    | Join(done: bool)

  /** What has become of the process: `Born` before its pipes are drained, `Watched` while a poll is due,
      `Asked` once that poll found it not ended. Not reaped for good is `Left`, and said to be. */
  datatype Fate =
    | Unborn | Stillborn | Born | Undrained | Watched(poll: nat) | Asked(poll: nat) | Gone(code: Option<int>, joined: nat) | Dying | Dead | Left

  /** The deadline has passed once that many sleeps have. */
  predicate Timely(world: World) {
    world.late(POLLS)
  }

  predicate Stops(world: World, poll: nat) {
    !world.polls(poll).StillRunning? || world.late(poll)
  }

  /** The first poll from this one on that ends the wait. */
  function FirstStop(world: World, poll: nat): (first: nat)
    requires Timely(world) && poll <= POLLS
    ensures poll <= first <= POLLS && Stops(world, first)
    ensures forall k | poll <= k < first :: !Stops(world, k)
    decreases POLLS - poll
  {
    if Stops(world, poll) then poll else FirstStop(world, poll + 1)
  }

  /** The process ended by itself, and both pipes were read whole. */
  predicate Finished(world: World)
    requires Timely(world)
  {
    && world.spawns && world.drains && world.polls(FirstStop(world, 0)).Exited?
    && world.stdout.Ok? && world.stderr.Ok?
  }

  predicate Completed(report: Report) {
    && report.schema == Some(UNLOCK_SCHEMA) && report.code == Some(UNLOCK_COMPLETED)
    && report.epoch.Some? && report.disposition.Some? && report.revision.Some?
  }

  /** A process is started once and polled only while its pipes are drained, with a sleep before the next
      poll unless this one ends the wait; it is killed at most once, and only when its pipes could not
      be drained or the wait ended without it; reaped only after a kill that worked; and asked nothing
      once it is gone but what its two pipes gave, in turn. Every answer is the world's. */
  predicate Allowed(world: World, fate: Fate, effect: Effect) {
    match effect
    case Spawn(done) => fate.Unborn? && done == world.spawns
    case Drain(done) => fate.Born? && done == world.drains
    case Poll(polled) => fate.Watched? && polled == world.polls(fate.poll)
    case Sleep => fate.Asked? && !Stops(world, fate.poll)
    case Kill(done) => (fate.Undrained? || (fate.Asked? && Stops(world, fate.poll))) && done == world.kills
    case Reap(done) => fate.Dying? && done == world.reaps
    case Join(done) =>
      && fate.Gone? && fate.joined < 2
      && done == if fate.joined == 0 then world.stdout.Ok? else world.stderr.Ok?
  }

  function Became(fate: Fate, effect: Effect): Fate {
    match effect
    case Spawn(done) => if done then Born else Stillborn
    case Drain(done) => if done then Watched(0) else Undrained
    case Poll(polled) =>
      if polled.Exited? then Gone(polled.code, 0) else if fate.Watched? then Asked(fate.poll) else fate
    case Sleep => if fate.Asked? then Watched(fate.poll + 1) else fate
    case Kill(done) => if done then Dying else Left
    case Reap(done) => if done then Dead else Left
    case Join(_) => if fate.Gone? then fate.(joined := fate.joined + 1) else fate
  }

  ghost function FateOf(trace: seq<Effect>): Fate {
    if trace == [] then Unborn else Became(FateOf(trace[..|trace| - 1]), trace[|trace| - 1])
  }

  ghost predicate Proper(world: World, trace: seq<Effect>) {
    trace == []
    || (Proper(world, trace[..|trace| - 1]) && Allowed(world, FateOf(trace[..|trace| - 1]), trace[|trace| - 1]))
  }

  /** One more effect. */
  method Do(world: World, trace: seq<Effect>, effect: Effect) returns (longer: seq<Effect>)
    requires Proper(world, trace) && Allowed(world, FateOf(trace), effect)
    ensures Proper(world, longer) && FateOf(longer) == Became(FateOf(trace), effect)
  {
    longer := trace + [effect];
    assert longer[..|longer| - 1] == trace;
  }

  /** Kills and reaps the process; a kill that fails leaves it unwaited. */
  method Reaped(world: World, before: seq<Effect>) returns (trace: seq<Effect>)
    requires Proper(world, before)
    requires FateOf(before).Undrained? || (FateOf(before).Asked? && Stops(world, FateOf(before).poll))
    ensures Proper(world, trace) && FateOf(trace) == if world.kills && world.reaps then Dead else Left
  {
    trace := Do(world, before, Kill(world.kills));
    if world.kills {
      trace := Do(world, trace, Reap(world.reaps));
    }
  }

  /** Polls the process until it has ended, cannot be asked, or is late. */
  method AwaitExit(world: World, before: seq<Effect>) returns (trace: seq<Effect>, exit: Option<Option<int>>)
    requires Timely(world) && Proper(world, before) && FateOf(before) == Watched(0)
    ensures Proper(world, trace)
    ensures FateOf(trace) == if exit.Some? then Gone(exit.value, 0) else Asked(FirstStop(world, 0))
    ensures var last := world.polls(FirstStop(world, 0));
            exit == if last.Exited? then Some(last.code) else None
  {
    trace := before;
    var poll: nat := 0;
    while true
      invariant poll <= POLLS && FirstStop(world, 0) == FirstStop(world, poll)
      invariant Proper(world, trace) && FateOf(trace) == Watched(poll)
      decreases POLLS - poll
    {
      trace := Do(world, trace, Poll(world.polls(poll)));
      match world.polls(poll) {
        case Exited(code) => return trace, Some(code);
        case PollFailed => return trace, None;
        case StillRunning =>
      }
      if world.late(poll) {
        return trace, None;
      }
      trace := Do(world, trace, Sleep);
      poll := poll + 1;
    }
  }

  /** The command run to its end. However it goes, no process is left running unless killing or reaping
      it failed. */
  method RunUnlock(world: World) returns (trace: seq<Effect>, ran: Result<(Option<int>, string, string)>)
    requires Timely(world)
    ensures Proper(world, trace)
    ensures ran.Ok? <==> Finished(world)
    ensures ran.Ok? ==>
              && FateOf(trace) == Gone(ran.value.0, 2) && ran.value.0 == world.polls(FirstStop(world, 0)).code
              && ran.value.1 == world.stdout.value && ran.value.2 == world.stderr.value
    ensures FateOf(trace).Stillborn? <==> !world.spawns
    ensures FateOf(trace).Gone? <==> world.spawns && world.drains && world.polls(FirstStop(world, 0)).Exited?
    ensures FateOf(trace).Gone? ==> FateOf(trace).joined == if world.stdout.Ok? then 2 else 1
    ensures world.spawns && !FateOf(trace).Gone? ==> FateOf(trace) == if world.kills && world.reaps then Dead else Left
  {
    trace := Do(world, [], Spawn(world.spawns));
    if !world.spawns {
      return trace, Err;
    }
    trace := Do(world, trace, Drain(world.drains));
    if !world.drains {
      trace := Reaped(world, trace);
      return trace, Err;
    }
    var exit;
    trace, exit := AwaitExit(world, trace);
    if exit.None? {
      trace := Reaped(world, trace);
      return trace, Err;
    }
    trace := Do(world, trace, Join(world.stdout.Ok?));
    if world.stdout.Err? {
      return trace, Err;
    }
    trace := Do(world, trace, Join(world.stderr.Ok?));
    if world.stderr.Err? {
      return trace, Err;
    }
    ran := Ok((exit.value, world.stdout.value, world.stderr.value));
  }

  /** The unlock's last word: done only when the process ended by itself with code 0 and a whole report
      that says so. */
  method Unlock(world: World) returns (trace: seq<Effect>, last: Job)
    requires Timely(world)
    ensures Proper(world, trace) && LastWordOf(UnlockWorker, last)
    ensures last == UnlockEnds(
              && Finished(world) && FateOf(trace) == Gone(Some(0), 2)
              && world.parse(world.stdout.value).Some? && Completed(world.parse(world.stdout.value).value))
  {
    var ran;
    trace, ran := RunUnlock(world);
    if ran.Err? {
      return trace, UnlockEnds(false);
    }
    var (exit, stdout, stderr) := ran.value;
    var report := world.parse(stdout);
    if report.None? || report.value.schema != Some(UNLOCK_SCHEMA) || report.value.code.None? {
      return trace, UnlockEnds(false);
    }
    if report.value.code != Some(UNLOCK_COMPLETED) {
      return trace, UnlockEnds(false);
    }
    if report.value.epoch.None? || report.value.disposition.None? || report.value.revision.None? {
      return trace, UnlockEnds(false);
    }
    last := UnlockEnds(exit == Some(0));
  }
}
