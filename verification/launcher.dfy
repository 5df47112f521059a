/** The launcher on the event loop: presses that start, unlock and stop a Runtime, the workers they send
    out, the jobs those post back, and the close that must not end while an unlock runs. */
module Launchers {
  import opened Outcomes

  datatype Facts = Facts(pid: nat, epoch: string)

  datatype Kind =
    | Checking | Starting | Running | StartFailed(code: Option<string>) | NeedsUnlock | Stopping | StopRequested
    | StopFailed(stopCode: Option<string>) | NotConfigured | Busy

  datatype Line = Line(kind: Kind, failed: bool, log: Option<string>)

  datatype Status = CheckingStatus | Probed(probe: Result<Facts>) | CouldNotRun

  /** What a worker hands the event loop: news on the way, and one last word. */
  datatype Job =
    | ProbeNews(sequence: nat, probe: Result<Facts>)
    | LineNews(line: Line)
    | StartEnds(sequence: nat, facts: Option<Facts>, line: Line, offer: bool)
    | UnlockEnds(unlocked: bool)
    | ShutdownEnds(sequence: nat, probe: Result<Facts>, line: Line)

  datatype Worker = StartWorker | UnlockWorker | ShutdownWorker

  datatype Phase = Open | Fading | Ended

  /** The launcher's flags and view, the workers running, the jobs posted and not run yet, and how far
      the workbench's close has come. `applied` is the sequence of every probe answer taken. */
  datatype Machine = Machine(
    starting: bool, unlocking: bool, shuttingDown: bool,
    status: Status, probeSequence: nat, line: Option<Line>, unlockOffered: bool, unlockFailed: Option<bool>,
    workers: seq<Worker>, jobs: seq<Job>, phase: Phase, closeRefused: bool, applied: seq<nat>)

  const AT_REST: Machine :=
    Machine(false, false, false, CheckingStatus, 0, None, false, None, [], [], Open, false, [])

  // What each press and each job does.

  /** Only the newest probe's answer counts. */
  function Answered(m: Machine, sequence: nat, status: Status): Machine {
    if sequence == m.probeSequence then m.(status := status, applied := m.applied + [sequence]) else m
  }

  function Said(m: Machine, kind: Kind, failed: bool): Machine {
    m.(line := Some(Line(kind, failed, None)))
  }

  function StartPressed(m: Machine, spawned: bool): Machine {
    if m.unlocking || m.starting then Said(m, Busy, false)
    else
      var sequence := m.probeSequence + 1;
      var begun := Said(m, Checking, false).(
        starting := true, unlockOffered := false, unlockFailed := None, probeSequence := sequence,
        status := CheckingStatus);
      if spawned then begun.(workers := begun.workers + [StartWorker])
      else Said(Answered(begun, sequence, CouldNotRun), StartFailed(None), true).(starting := false)
  }

  function UnlockPressed(m: Machine, configured: bool, spawned: bool): Machine {
    if !configured then m.(unlockFailed := Some(true))
    else
      var begun := m.(unlocking := true, unlockOffered := false, unlockFailed := Some(false));
      if spawned then begun.(workers := begun.workers + [UnlockWorker])
      else begun.(unlocking := false, unlockOffered := true, unlockFailed := Some(true))
  }

  function ShutdownPressed(m: Machine, spawned: bool): Machine {
    if m.shuttingDown then Said(m, Busy, false)
    else
      var begun := Said(m, Stopping, false).(shuttingDown := true, probeSequence := m.probeSequence + 1);
      if spawned then begun.(workers := begun.workers + [ShutdownWorker])
      else Said(begun, StopFailed(None), true).(shuttingDown := false)
  }

  /** A job run on the event loop; `spawned` is for the start that follows an unlock. */
  function JobRun(m: Machine, job: Job, spawned: bool): Machine {
    match job
    case ProbeNews(sequence, probe) => Answered(m, sequence, Probed(probe))
    case LineNews(line) => m.(line := Some(line))
    case StartEnds(sequence, facts, line, offer) =>
      var ended := m.(starting := false);
      var told := if facts.Some? then Answered(ended, sequence, Probed(Ok(facts.value))) else ended;
      told.(line := Some(line), unlockOffered := offer)
    case UnlockEnds(unlocked) =>
      var ended := m.(unlocking := false);
      var next := if unlocked then StartPressed(ended, spawned) else ended.(unlockOffered := true);
      next.(unlockFailed := Some(!unlocked), closeRefused := false)
    case ShutdownEnds(sequence, probe, line) =>
      Answered(m.(shuttingDown := false), sequence, Probed(probe)).(line := Some(line))
  }

  /** A status the workbench read itself stands for the newest probe. */
  function ReadLive(m: Machine, probe: Result<Facts>): Machine {
    m.(probeSequence := m.probeSequence + 1, status := Probed(probe))
  }

  function ReadFailed(m: Machine): Machine {
    m.(probeSequence := m.probeSequence + 1, status := CouldNotRun)
  }

  /** The workbench asked to close; `fades` is whether it has a frame of its own to fade. */
  function CloseAsked(m: Machine, fades: bool): Machine {
    if m.unlocking then m.(closeRefused := true)
    else if m.phase.Fading? then m
    else m.(phase := if fades then Fading else Ended)
  }

  function FadeOver(m: Machine): Machine {
    if m.unlocking then m.(phase := Open, closeRefused := true) else m.(phase := Ended)
  }

  // The turns of a run.

  datatype Turn =
    | PressStart(spawned: bool)
    | PressUnlock(configured: bool, spawned: bool)
    | PressShutdown(spawned: bool)
    | RunJob(at: nat, spawned: bool)
    | WorkerSays(at: nat, job: Job)
    | WorkerEnds(at: nat, job: Job)
    | Reads(probe: Result<Facts>)
    | ReadsFail
    | AskClose(fades: bool)
    | FadeEnds

  function Without<T>(list: seq<T>, at: nat): seq<T>
    requires at < |list|
  {
    list[..at] + list[at + 1..]
  }

  predicate LastWordOf(worker: Worker, job: Job) {
    match worker
    case StartWorker => job.StartEnds?
    case UnlockWorker => job.UnlockEnds?
    case ShutdownWorker => job.ShutdownEnds?
  }

  /** The unlock entry can be pressed only while it is offered; a worker ends with its own last word;
      once the loop has ended nothing runs on it. */
  predicate Can(m: Machine, turn: Turn) {
    match turn
    case PressUnlock(_, _) => !m.phase.Ended? && m.unlockOffered
    case RunJob(at, _) => !m.phase.Ended? && at < |m.jobs|
    case WorkerSays(at, job) => at < |m.workers| && (job.ProbeNews? || job.LineNews?)
    case WorkerEnds(at, job) => at < |m.workers| && LastWordOf(m.workers[at], job)
    case FadeEnds => m.phase.Fading?
    case _ => !m.phase.Ended?
  }

  function After(m: Machine, turn: Turn): Machine
    requires Can(m, turn)
  {
    match turn
    case PressStart(spawned) => StartPressed(m, spawned)
    case PressUnlock(configured, spawned) => UnlockPressed(m, configured, spawned)
    case PressShutdown(spawned) => ShutdownPressed(m, spawned)
    case RunJob(at, spawned) => JobRun(m.(jobs := Without(m.jobs, at)), m.jobs[at], spawned)
    case WorkerSays(_, job) => m.(jobs := m.jobs + [job])
    case WorkerEnds(at, job) => m.(workers := Without(m.workers, at), jobs := m.jobs + [job])
    case Reads(probe) => ReadLive(m, probe)
    case ReadsFail => ReadFailed(m)
    case AskClose(fades) => CloseAsked(m, fades)
    case FadeEnds => FadeOver(m)
  }

  // What every turn keeps.

  function WorkersOf(workers: seq<Worker>, worker: Worker): nat {
    if workers == [] then 0
    else WorkersOf(workers[..|workers| - 1], worker) + if workers[|workers| - 1] == worker then 1 else 0
  }

  function LastWords(jobs: seq<Job>, worker: Worker): nat {
    if jobs == [] then 0
    else LastWords(jobs[..|jobs| - 1], worker) + if LastWordOf(worker, jobs[|jobs| - 1]) then 1 else 0
  }

  function InFlight(m: Machine, worker: Worker): nat {
    WorkersOf(m.workers, worker) + LastWords(m.jobs, worker)
  }

  function Marked(m: Machine, worker: Worker): bool {
    match worker
    case StartWorker => m.starting
    case UnlockWorker => m.unlocking
    case ShutdownWorker => m.shuttingDown
  }

  ghost predicate NeverDecreasing(sequences: seq<nat>, bound: nat) {
    && (forall i, j | 0 <= i < j < |sequences| :: sequences[i] <= sequences[j])
    && forall i | 0 <= i < |sequences| :: sequences[i] <= bound
  }

  /** One request of each kind at most is in flight, and its flag says so; a start and an unlock are
      never in flight together, and an unlock is not offered while either is; the loop never ended on an
      unlock; the probe answers taken are in order. */
  ghost predicate Kept(m: Machine) {
    && (forall worker :: InFlight(m, worker) == if Marked(m, worker) then 1 else 0)
    && !(m.starting && m.unlocking)
    && (m.unlockOffered ==> !m.starting && !m.unlocking)
    && (m.phase.Ended? ==> !m.unlocking)
    && NeverDecreasing(m.applied, m.probeSequence)
  }

  lemma {:induction false} WorkersJoin(a: seq<Worker>, b: seq<Worker>, worker: Worker)
    ensures WorkersOf(a + b, worker) == WorkersOf(a, worker) + WorkersOf(b, worker)
  {
    if b == [] {
      assert a + b == a;
    } else {
      WorkersJoin(a, b[..|b| - 1], worker);
      assert (a + b)[..|a + b| - 1] == a + b[..|b| - 1];
    }
  }

  lemma {:induction false} LastWordsJoin(a: seq<Job>, b: seq<Job>, worker: Worker)
    ensures LastWords(a + b, worker) == LastWords(a, worker) + LastWords(b, worker)
  {
    if b == [] {
      assert a + b == a;
    } else {
      LastWordsJoin(a, b[..|b| - 1], worker);
      assert (a + b)[..|a + b| - 1] == a + b[..|b| - 1];
    }
  }

  lemma WorkerMore(workers: seq<Worker>, one: Worker, worker: Worker)
    ensures WorkersOf(workers + [one], worker) == WorkersOf(workers, worker) + if one == worker then 1 else 0
  {
    assert (workers + [one])[..|workers|] == workers;
  }

  lemma JobMore(jobs: seq<Job>, one: Job, worker: Worker)
    ensures LastWords(jobs + [one], worker) == LastWords(jobs, worker) + if LastWordOf(worker, one) then 1 else 0
  {
    assert (jobs + [one])[..|jobs|] == jobs;
  }

  lemma WorkerLess(workers: seq<Worker>, at: nat, worker: Worker)
    requires at < |workers|
    ensures WorkersOf(Without(workers, at), worker) + (if workers[at] == worker then 1 else 0)
         == WorkersOf(workers, worker)
  {
    assert workers == workers[..at] + [workers[at]] + workers[at + 1..];
    WorkersJoin(workers[..at] + [workers[at]], workers[at + 1..], worker);
    WorkerMore(workers[..at], workers[at], worker);
    WorkersJoin(workers[..at], workers[at + 1..], worker);
  }

  lemma JobLess(jobs: seq<Job>, at: nat, worker: Worker)
    requires at < |jobs|
    ensures LastWords(Without(jobs, at), worker) + (if LastWordOf(worker, jobs[at]) then 1 else 0)
         == LastWords(jobs, worker)
  {
    assert jobs == jobs[..at] + [jobs[at]] + jobs[at + 1..];
    LastWordsJoin(jobs[..at] + [jobs[at]], jobs[at + 1..], worker);
    JobMore(jobs[..at], jobs[at], worker);
    LastWordsJoin(jobs[..at], jobs[at + 1..], worker);
  }

  /** As `Kept`, with one last word of this kind taken out of the jobs and not acted on yet. */
  ghost predicate KeptBut(m: Machine, ended: Option<Worker>) {
    && (forall worker :: InFlight(m, worker) + (if ended == Some(worker) then 1 else 0)
                         == if Marked(m, worker) then 1 else 0)
    && !(m.starting && m.unlocking)
    && (m.unlockOffered ==> !m.starting && !m.unlocking)
    && !m.phase.Ended?
    && NeverDecreasing(m.applied, m.probeSequence)
  }

  lemma StartKeeps(m: Machine, spawned: bool)
    requires KeptBut(m, None)
    ensures KeptBut(StartPressed(m, spawned), None)
    ensures StartPressed(m, spawned).unlocking == m.unlocking
    ensures !m.unlocking ==> !StartPressed(m, spawned).unlockOffered || m.starting
  {
    if !m.unlocking && !m.starting {
      var after := StartPressed(m, spawned);
      forall worker
        ensures InFlight(after, worker) == if Marked(after, worker) then 1 else 0
      {
        assert InFlight(m, worker) == if Marked(m, worker) then 1 else 0;
        WorkerMore(m.workers, StartWorker, worker);
      }
    }
  }

  lemma UnlockKeeps(m: Machine, configured: bool, spawned: bool)
    requires KeptBut(m, None) && m.unlockOffered
    ensures KeptBut(UnlockPressed(m, configured, spawned), None)
    ensures UnlockPressed(m, configured, spawned).unlockOffered <==> !UnlockPressed(m, configured, spawned).unlocking
    ensures UnlockPressed(m, configured, spawned).unlocking <==> configured && spawned
  {
    var after := UnlockPressed(m, configured, spawned);
    forall worker
      ensures InFlight(after, worker) == if Marked(after, worker) then 1 else 0
    {
      assert InFlight(m, worker) == if Marked(m, worker) then 1 else 0;
      WorkerMore(m.workers, UnlockWorker, worker);
    }
  }

  lemma ShutdownKeeps(m: Machine, spawned: bool)
    requires KeptBut(m, None)
    ensures KeptBut(ShutdownPressed(m, spawned), None)
  {
    var after := ShutdownPressed(m, spawned);
    forall worker
      ensures InFlight(after, worker) == if Marked(after, worker) then 1 else 0
    {
      assert InFlight(m, worker) == if Marked(m, worker) then 1 else 0;
      WorkerMore(m.workers, ShutdownWorker, worker);
    }
  }

  function EndedBy(job: Job): Option<Worker> {
    match job
    case StartEnds(_, _, _, _) => Some(StartWorker)
    case UnlockEnds(_) => Some(UnlockWorker)
    case ShutdownEnds(_, _, _) => Some(ShutdownWorker)
    case _ => None
  }

  lemma UnlockEndKeeps(m: Machine, unlocked: bool, spawned: bool)
    requires KeptBut(m, Some(UnlockWorker))
    ensures KeptBut(JobRun(m, UnlockEnds(unlocked), spawned), None)
  {
    assert InFlight(m, UnlockWorker) + 1 == if Marked(m, UnlockWorker) then 1 else 0;
    var ended := m.(unlocking := false);
    FlagDown(m, ended, UnlockWorker);
    if unlocked {
      StartKeeps(ended, spawned);
      assert Counted(StartPressed(ended, spawned));
      SameFlight(StartPressed(ended, spawned), JobRun(m, UnlockEnds(unlocked), spawned));
    } else {
      SameFlight(ended, JobRun(m, UnlockEnds(unlocked), spawned));
    }
  }

  lemma StartEndKeeps(m: Machine, job: Job, spawned: bool)
    requires job.StartEnds? && KeptBut(m, Some(StartWorker))
    ensures KeptBut(JobRun(m, job, spawned), None)
  {
    assert InFlight(m, StartWorker) + 1 == if Marked(m, StartWorker) then 1 else 0;
    FlagDown(m, m.(starting := false), StartWorker);
    SameFlight(m.(starting := false), JobRun(m, job, spawned));
  }

  lemma ShutdownEndKeeps(m: Machine, job: Job, spawned: bool)
    requires job.ShutdownEnds? && KeptBut(m, Some(ShutdownWorker))
    ensures KeptBut(JobRun(m, job, spawned), None)
  {
    assert InFlight(m, ShutdownWorker) + 1 == if Marked(m, ShutdownWorker) then 1 else 0;
    FlagDown(m, m.(shuttingDown := false), ShutdownWorker);
    SameFlight(m.(shuttingDown := false), JobRun(m, job, spawned));
  }

  lemma JobKeeps(m: Machine, job: Job, spawned: bool)
    requires KeptBut(m, EndedBy(job))
    ensures KeptBut(JobRun(m, job, spawned), None)
  {
    match job
    case UnlockEnds(unlocked) => UnlockEndKeeps(m, unlocked, spawned);
    case StartEnds(_, _, _, _) => StartEndKeeps(m, job, spawned);
    case ShutdownEnds(_, _, _) => ShutdownEndKeeps(m, job, spawned);
    case _ =>
      assert Counted(m);
      SameFlight(m, JobRun(m, job, spawned));
  }

  ghost predicate Counted(m: Machine) {
    forall worker :: InFlight(m, worker) == if Marked(m, worker) then 1 else 0
  }

  lemma FlagDown(m: Machine, ended: Machine, one: Worker)
    requires forall worker :: InFlight(m, worker) + (if one == worker then 1 else 0) == if Marked(m, worker) then 1 else 0
    requires ended.workers == m.workers && ended.jobs == m.jobs && !Marked(ended, one)
    requires forall worker | worker != one :: Marked(ended, worker) == Marked(m, worker)
    ensures Counted(ended)
  {
    forall worker
      ensures InFlight(ended, worker) == if Marked(ended, worker) then 1 else 0
    {
      assert InFlight(m, worker) + (if one == worker then 1 else 0) == if Marked(m, worker) then 1 else 0;
    }
  }

  lemma SameFlight(a: Machine, b: Machine)
    requires Counted(a) && a.workers == b.workers && a.jobs == b.jobs
    requires a.starting == b.starting && a.unlocking == b.unlocking && a.shuttingDown == b.shuttingDown
    ensures Counted(b)
  {
    forall worker
      ensures InFlight(b, worker) == if Marked(b, worker) then 1 else 0
    {
      assert InFlight(a, worker) == if Marked(a, worker) then 1 else 0;
    }
  }

  lemma TakenOut(m: Machine, at: nat)
    requires Kept(m) && !m.phase.Ended? && at < |m.jobs|
    ensures KeptBut(m.(jobs := Without(m.jobs, at)), EndedBy(m.jobs[at]))
  {
    var taken := m.(jobs := Without(m.jobs, at));
    forall worker
      ensures InFlight(taken, worker) + (if EndedBy(m.jobs[at]) == Some(worker) then 1 else 0)
           == if Marked(taken, worker) then 1 else 0
    {
      assert InFlight(m, worker) == if Marked(m, worker) then 1 else 0;
      JobLess(m.jobs, at, worker);
    }
  }

  lemma WorkerTurnKeeps(m: Machine, turn: Turn)
    requires Kept(m) && Can(m, turn) && (turn.WorkerSays? || turn.WorkerEnds?)
    ensures Kept(After(m, turn))
  {
    var after := After(m, turn);
    forall worker
      ensures InFlight(after, worker) == if Marked(after, worker) then 1 else 0
    {
      assert InFlight(m, worker) == if Marked(m, worker) then 1 else 0;
      JobMore(m.jobs, turn.job, worker);
      if turn.WorkerEnds? {
        WorkerLess(m.workers, turn.at, worker);
      }
    }
  }

  lemma TurnKeeps(m: Machine, turn: Turn)
    requires Kept(m) && Can(m, turn)
    ensures Kept(After(m, turn))
  {
    if turn.WorkerSays? || turn.WorkerEnds? {
      WorkerTurnKeeps(m, turn);
    } else if turn.RunJob? {
      TakenOut(m, turn.at);
      JobKeeps(m.(jobs := Without(m.jobs, turn.at)), m.jobs[turn.at], turn.spawned);
    } else if turn.PressStart? {
      StartKeeps(m, turn.spawned);
    } else if turn.PressUnlock? {
      UnlockKeeps(m, turn.configured, turn.spawned);
    } else if turn.PressShutdown? {
      ShutdownKeeps(m, turn.spawned);
    } else {
      assert Counted(m);
      SameFlight(m, After(m, turn));
    }
  }

  lemma StartPhase(m: Machine, spawned: bool)
    ensures StartPressed(m, spawned).phase == m.phase
  {
  }

  lemma JobPhase(m: Machine, job: Job, spawned: bool)
    ensures JobRun(m, job, spawned).phase == m.phase
  {
    StartPhase(m.(unlocking := false), spawned);
  }

  /** Only the close's own turns move it on. */
  lemma PhaseStays(m: Machine, turn: Turn)
    requires Can(m, turn) && !turn.AskClose? && !turn.FadeEnds?
    ensures After(m, turn).phase == m.phase
  {
    if turn.PressStart? {
      StartPhase(m, turn.spawned);
    } else if turn.RunJob? {
      JobPhase(m.(jobs := Without(m.jobs, turn.at)), m.jobs[turn.at], turn.spawned);
    }
  }

  ghost predicate Run(machines: seq<Machine>, turns: seq<Turn>) {
    && |machines| == |turns| + 1 && machines[0] == AT_REST
    && forall i | 0 <= i < |turns| :: Can(machines[i], turns[i]) && machines[i + 1] == After(machines[i], turns[i])
  }

  lemma {:induction false} AlwaysKept(machines: seq<Machine>, turns: seq<Turn>, n: nat)
    requires Run(machines, turns) && n < |machines|
    ensures Kept(machines[n])
  {
    if n > 0 {
      AlwaysKept(machines, turns, n - 1);
      TurnKeeps(machines[n - 1], turns[n - 1]);
    }
  }

  /** The loop ends only in a turn in which no unlock runs, and stays ended. */
  lemma NeverEndsOnAnUnlock(machines: seq<Machine>, turns: seq<Turn>, n: nat)
    requires Run(machines, turns) && n < |turns|
    ensures machines[n + 1].phase.Ended? && !machines[n].phase.Ended? ==>
              !machines[n].unlocking && InFlight(machines[n], UnlockWorker) == 0
    ensures machines[n].phase.Ended? ==> machines[n + 1].phase.Ended?
  {
    AlwaysKept(machines, turns, n);
  }

  /** What the answers taken since say of their probes: none had been overtaken by then. */
  ghost predicate TakenSince(m: Machine, after: Machine) {
    && m.probeSequence <= after.probeSequence && m.applied <= after.applied
    && forall k | |m.applied| <= k < |after.applied| :: m.probeSequence <= after.applied[k]
  }

  lemma TakenTwice(a: Machine, b: Machine, c: Machine)
    requires TakenSince(a, b) && TakenSince(b, c)
    ensures TakenSince(a, c)
  {
    forall k | |a.applied| <= k < |c.applied|
      ensures a.probeSequence <= c.applied[k]
    {
      assert k < |b.applied| ==> c.applied[k] == b.applied[k];
    }
  }

  lemma AnswerTakes(m: Machine, sequence: nat, status: Status)
    ensures TakenSince(m, Answered(m, sequence, status))
  {
  }

  lemma StartTakes(m: Machine, spawned: bool)
    ensures TakenSince(m, StartPressed(m, spawned))
  {
    if !m.unlocking && !m.starting {
      var sequence := m.probeSequence + 1;
      var begun := Said(m, Checking, false).(
        starting := true, unlockOffered := false, unlockFailed := None, probeSequence := sequence,
        status := CheckingStatus);
      AnswerTakes(begun, sequence, CouldNotRun);
      TakenTwice(m, begun, Answered(begun, sequence, CouldNotRun));
    }
  }

  lemma JobTakes(m: Machine, job: Job, spawned: bool)
    ensures TakenSince(m, JobRun(m, job, spawned))
  {
    match job
    case ProbeNews(sequence, probe) => AnswerTakes(m, sequence, Probed(probe));
    case LineNews(line) =>
    case StartEnds(sequence, facts, line, offer) =>
      if facts.Some? {
        AnswerTakes(m.(starting := false), sequence, Probed(Ok(facts.value)));
      }
    case UnlockEnds(unlocked) => StartTakes(m.(unlocking := false), spawned);
    case ShutdownEnds(sequence, probe, line) => AnswerTakes(m.(shuttingDown := false), sequence, Probed(probe));
  }

  lemma TurnTakes(m: Machine, turn: Turn)
    requires Can(m, turn)
    ensures TakenSince(m, After(m, turn))
  {
    if turn.PressStart? {
      StartTakes(m, turn.spawned);
    } else if turn.RunJob? {
      JobTakes(m.(jobs := Without(m.jobs, turn.at)), m.jobs[turn.at], turn.spawned);
    }
  }

  lemma {:induction false} TakenAlong(machines: seq<Machine>, i: nat, n: nat)
    requires i <= n < |machines|
    requires forall k | i <= k < n :: TakenSince(machines[k], machines[k + 1])
    ensures TakenSince(machines[i], machines[n])
    decreases n
  {
    if i < n {
      TakenAlong(machines, i, n - 1);
      TakenTwice(machines[i], machines[n - 1], machines[n]);
    }
  }

  /** Once a later probe was begun, the answer to an earlier one is never taken: not then, and not
      however long it stays in the queue. */
  lemma OvertakenIsNeverTaken(machines: seq<Machine>, turns: seq<Turn>, i: nat, n: nat)
    requires Run(machines, turns) && i <= n < |machines|
    ensures TakenSince(machines[i], machines[n])
  {
    forall k | i <= k < n
      ensures TakenSince(machines[k], machines[k + 1])
    {
      TurnTakes(machines[k], turns[k]);
    }
    TakenAlong(machines, i, n);
  }

  /** While an unlock runs the loop goes on, whatever is asked of it; a close asked for or ending
      meanwhile is refused, and the refusal is said until the unlock is over. */
  lemma {:induction false} UnlockKeepsItOpen(machines: seq<Machine>, turns: seq<Turn>, i: nat, n: nat)
    requires Run(machines, turns) && i <= n < |machines|
    requires forall k | i <= k <= n :: machines[k].unlocking
    ensures !machines[n].phase.Ended?
    ensures (exists k | i <= k < n :: turns[k].AskClose? || turns[k].FadeEnds?) ==> machines[n].closeRefused
    ensures n < |turns| && turns[n].FadeEnds? ==> machines[n + 1].phase.Open?
    decreases n
  {
    AlwaysKept(machines, turns, n);
    if i < n {
      UnlockKeepsItOpen(machines, turns, i, n - 1);
      AlwaysKept(machines, turns, n - 1);
      RefusalStays(machines[n - 1], turns[n - 1]);
    }
  }

  lemma RefusalStays(m: Machine, turn: Turn)
    requires Kept(m) && Can(m, turn) && m.unlocking && After(m, turn).unlocking
    ensures m.closeRefused || turn.AskClose? || turn.FadeEnds? ==> After(m, turn).closeRefused
  {
  }
}
