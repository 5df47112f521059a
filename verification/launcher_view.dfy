/** The launcher's flags and view, changed in place on the event loop. */
module LauncherViews {
  import opened Outcomes
  import opened Launchers

  class Launcher {
    var starting: bool
    var unlocking: bool
    var shuttingDown: bool
    var status: Status
    var probeSequence: nat
    var line: Option<Line>
    var unlockOffered: bool
    var unlockFailed: Option<bool>
    var workers: seq<Worker>
    var jobs: seq<Job>
    var phase: Phase
    var closeRefused: bool
    var applied: seq<nat>

    ghost function State(): Machine
      reads this
    {
      Machine(starting, unlocking, shuttingDown, status, probeSequence, line, unlockOffered, unlockFailed,
              workers, jobs, phase, closeRefused, applied)
    }

    constructor ()
      ensures State() == AT_REST && Kept(State())
    {
      starting, unlocking, shuttingDown := false, false, false;
      status, probeSequence, line := CheckingStatus, 0, None;
      unlockOffered, unlockFailed := false, None;
      workers, jobs := [], [];
      phase, closeRefused, applied := Phase.Open, false, [];
    }

    /** A new probe: from now on its answer counts, and that of no earlier one. */
    method BeginProbe(checking: bool) returns (sequence: nat)
      modifies this`probeSequence, this`status
      ensures sequence == probeSequence == old(probeSequence) + 1
      ensures status == if checking then CheckingStatus else old(status)
      ensures forall earlier: nat, answer | earlier <= old(probeSequence) :: Answered(State(), earlier, answer) == State()
      ensures forall answer :: Answered(State(), sequence, answer).status == answer
    {
      probeSequence := probeSequence + 1;
      if checking {
        status := CheckingStatus;
      }
      sequence := probeSequence;
    }

    method TakeAnswer(sequence: nat, answer: Status)
      modifies this`status, this`applied
      ensures State() == Answered(old(State()), sequence, answer)
    {
      if sequence == probeSequence {
        status := answer;
        applied := applied + [sequence];
      }
    }

    /** A read of the workbench's own; whether it is news. */
    method Live(probe: Result<Facts>) returns (news: bool)
      modifies this`status, this`probeSequence
      ensures State() == ReadLive(old(State()), probe)
      ensures !news <==> old(status) == Probed(probe)
    {
      probeSequence := probeSequence + 1;
      if status == Probed(probe) {
        return false;
      }
      status := Probed(probe);
      news := true;
    }

    method ReadingFailed()
      modifies this`status, this`probeSequence
      ensures State() == ReadFailed(old(State()))
    {
      probeSequence := probeSequence + 1;
      status := CouldNotRun;
    }

    /** A start press, or the start after an unlock; `spawned` is whether its thread started. */
    method Start(spawned: bool)
      modifies this`starting, this`unlockOffered, this`unlockFailed, this`line, this`probeSequence, this`status,
               this`workers, this`applied
      ensures State() == StartPressed(old(State()), spawned)
    {
      if unlocking {
        line := Some(Line(Busy, false, None));
        return;
      }
      var other := starting;
      starting := true;
      if other {
        line := Some(Line(Busy, false, None));
        return;
      }
      var sequence := CheckFirst();
      if spawned {
        workers := workers + [StartWorker];
      } else {
        StartNotRun(sequence);
      }
    }

    /** The unlock entry goes, and the start says it is checking. */
    method CheckFirst() returns (sequence: nat)
      modifies this`unlockOffered, this`unlockFailed, this`line, this`probeSequence, this`status
      ensures sequence == probeSequence == old(probeSequence) + 1 && status == CheckingStatus
      ensures !unlockOffered && unlockFailed == None && line == Some(Line(Checking, false, None))
    {
      unlockOffered, unlockFailed := false, None;
      line := Some(Line(Checking, false, None));
      sequence := BeginProbe(true);
    }

    /** Nothing ran: nothing was probed, launched or recorded. */
    method StartNotRun(sequence: nat)
      modifies this`starting, this`status, this`applied, this`line
      ensures !starting && line == Some(Line(StartFailed(None), true, None))
      ensures status == if sequence == probeSequence then CouldNotRun else old(status)
      ensures applied == if sequence == probeSequence then old(applied) + [sequence] else old(applied)
    {
      starting := false;
      TakeAnswer(sequence, CouldNotRun);
      line := Some(Line(StartFailed(None), true, None));
    }

    method Unlock(configured: bool, spawned: bool)
      modifies this`unlocking, this`unlockOffered, this`unlockFailed, this`workers
      ensures State() == UnlockPressed(old(State()), configured, spawned)
    {
      if !configured {
        unlockFailed := Some(true);
        return;
      }
      unlocking := true;
      unlockOffered, unlockFailed := false, Some(false);
      if spawned {
        workers := workers + [UnlockWorker];
      } else {
        unlocking := false;
        unlockOffered, unlockFailed := true, Some(true);
      }
    }

    method Shutdown(spawned: bool)
      modifies this`shuttingDown, this`line, this`probeSequence, this`status, this`workers
      ensures State() == ShutdownPressed(old(State()), spawned)
    {
      var other := shuttingDown;
      shuttingDown := true;
      if other {
        line := Some(Line(Busy, false, None));
        return;
      }
      line := Some(Line(Stopping, false, None));
      var sequence := BeginProbe(false);
      if spawned {
        workers := workers + [ShutdownWorker];
      } else {
        shuttingDown := false;
        line := Some(Line(StopFailed(None), true, None));
      }
    }

    /** The last word of a start: its flag goes down in the turn its line and the unlock offer come up. */
    method StartOver(sequence: nat, facts: Option<Facts>, last: Line, offer: bool)
      modifies this`starting, this`status, this`applied, this`line, this`unlockOffered
      ensures State() == JobRun(old(State()), StartEnds(sequence, facts, last, offer), false)
    {
      starting := false;
      if facts.Some? {
        TakeAnswer(sequence, Probed(Ok(facts.value)));
      }
      line := Some(last);
      unlockOffered := offer;
    }

    method UnlockOver(unlocked: bool, spawned: bool)
      modifies this
      ensures State() == JobRun(old(State()), UnlockEnds(unlocked), spawned)
    {
      unlocking := false;
      if unlocked {
        Start(spawned);
      } else {
        unlockOffered := true;
      }
      unlockFailed := Some(!unlocked);
      closeRefused := false;
    }

    method ShutdownOver(sequence: nat, probe: Result<Facts>, last: Line)
      modifies this`shuttingDown, this`status, this`applied, this`line
      ensures State() == JobRun(old(State()), ShutdownEnds(sequence, probe, last), false)
    {
      shuttingDown := false;
      TakeAnswer(sequence, Probed(probe));
      line := Some(last);
    }

    /** A job of a worker's, run on the event loop. */
    method RunPosted(job: Job, spawned: bool)
      modifies this
      ensures State() == JobRun(old(State()), job, spawned)
    {
      match job {
        case ProbeNews(sequence, probe) => TakeAnswer(sequence, Probed(probe));
        case LineNews(news) => line := Some(news);
        case StartEnds(sequence, facts, last, offer) => StartOver(sequence, facts, last, offer);
        case UnlockEnds(unlocked) => UnlockOver(unlocked, spawned);
        case ShutdownEnds(sequence, probe, last) => ShutdownOver(sequence, probe, last);
      }
    }

    method CloseRequested(fades: bool)
      modifies this`closeRefused, this`phase
      ensures State() == CloseAsked(old(State()), fades)
    {
      if unlocking {
        closeRefused := true;
      } else if !phase.Fading? {
        phase := if fades then Fading else Ended;
      }
    }

    method FinishClose()
      modifies this`closeRefused, this`phase
      ensures State() == FadeOver(old(State()))
    {
      if unlocking {
        phase := Phase.Open;
        closeRefused := true;
      } else {
        phase := Ended;
      }
    }

    /** Any turn of the loop, taken in place: what `Kept` says stays so. */
    method Take(turn: Turn)
      requires Kept(State()) && Can(State(), turn)
      modifies this
      ensures State() == After(old(State()), turn) && Kept(State())
    {
      TurnKeeps(State(), turn);
      match turn {
        case PressStart(spawned) => Start(spawned);
        case PressUnlock(configured, spawned) => Unlock(configured, spawned);
        case PressShutdown(spawned) => Shutdown(spawned);
        case RunJob(at, spawned) =>
          var job := jobs[at];
          jobs := Without(jobs, at);
          RunPosted(job, spawned);
        case WorkerSays(_, job) => jobs := jobs + [job];
        case WorkerEnds(at, job) =>
          workers := Without(workers, at);
          jobs := jobs + [job];
        case Reads(probe) => var news := Live(probe);
        case ReadsFail => ReadingFailed();
        case AskClose(fades) => CloseRequested(fades);
        case FadeEnds => FinishClose();
      }
    }
  }
}
