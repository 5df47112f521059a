/** What each turn of the launcher comes to, told from the launcher before it alone. */
module LauncherOutcomes {
  import opened Outcomes
  import opened Launchers

  function Words(kind: Kind, failed: bool): Option<Line> {
    Some(Line(kind, failed, None))
  }

  /** A start has begun: the offer is gone, its probe is the newest, and either its thread runs, or it says
      that nothing did. Nothing else changes. */
  ghost predicate Began(m: Machine, spawned: bool, after: Machine) {
    && after.starting == spawned && after.probeSequence == m.probeSequence + 1
    && !after.unlockOffered && after.unlockFailed == None
    && after.status == (if spawned then CheckingStatus else CouldNotRun)
    && after.line == (if spawned then Words(Checking, false) else Words(StartFailed(None), true))
    && after.workers == m.workers + (if spawned then [StartWorker] else [])
    && after.applied == m.applied + (if spawned then [] else [m.probeSequence + 1])
    && after.unlocking == m.unlocking && after.shuttingDown == m.shuttingDown && after.jobs == m.jobs
    && after.phase == m.phase && after.closeRefused == m.closeRefused
  }

  /** A start pressed beside a start or an unlock says it is busy, and nothing else; otherwise it begins. */
  lemma StartComesTo(m: Machine, spawned: bool)
    requires Kept(m) && Can(m, PressStart(spawned))
    ensures var after := After(m, PressStart(spawned));
            if m.starting || m.unlocking then after == m.(line := Words(Busy, false))
            else Began(m, spawned, after)
  {
  }

  /** An unlock pressed: without its paths it says so and stays offered; otherwise its thread runs, or the
      offer is back, with what failed. */
  lemma UnlockComesTo(m: Machine, configured: bool, spawned: bool)
    requires Kept(m) && Can(m, PressUnlock(configured, spawned))
    ensures var after := After(m, PressUnlock(configured, spawned));
            after == if configured && spawned
                     then m.(unlocking := true, unlockOffered := false, unlockFailed := Some(false),
                             workers := m.workers + [UnlockWorker])
                     else m.(unlockFailed := Some(true))
  {
  }

  /** A shutdown pressed beside another says it is busy; otherwise it overtakes the probes that are out,
      and its thread runs, or it says that nothing did. */
  lemma ShutdownComesTo(m: Machine, spawned: bool)
    requires Kept(m) && Can(m, PressShutdown(spawned))
    ensures var after := After(m, PressShutdown(spawned));
            if m.shuttingDown then after == m.(line := Words(Busy, false))
            else
              after == m.(shuttingDown := spawned, probeSequence := m.probeSequence + 1,
                          line := if spawned then Words(Stopping, false) else Words(StopFailed(None), true),
                          workers := m.workers + if spawned then [ShutdownWorker] else [])
  {
  }

  /** What a probe found is shown exactly when no later probe was begun. */
  ghost predicate Shows(m: Machine, sequence: nat, status: Status, after: Machine) {
    if sequence == m.probeSequence then after.status == status && after.applied == m.applied + [sequence]
    else after.status == m.status && after.applied == m.applied
  }

  /** The last word of a start: its line comes up and its offer is taken up as it says, and a start may be
      pressed again. */
  lemma StartEndsComesTo(m: Machine, at: nat, spawned: bool)
    requires Kept(m) && Can(m, RunJob(at, spawned)) && m.jobs[at].StartEnds?
    ensures var job, after := m.jobs[at], After(m, RunJob(at, spawned));
            && m.starting && !after.starting && after.line == Some(job.line)
            && (after.unlockOffered <==> job.offer) && after.jobs == Without(m.jobs, at)
            && (if job.facts.Some? then Shows(m, job.sequence, Probed(Ok(job.facts.value)), after)
                else after.status == m.status && after.applied == m.applied)
            && after == m.(starting := false, line := after.line, unlockOffered := after.unlockOffered,
                           status := after.status, applied := after.applied, jobs := after.jobs)
  {
    TakenOut(m, at);
    assert InFlight(m.(jobs := Without(m.jobs, at)), StartWorker) + 1 == if m.starting then 1 else 0;
  }

  /** The last word of an unlock: done, the start begins in the same turn; not done, the unlock is offered
      again. Either way the workbench may close again. */
  lemma UnlockEndsComesTo(m: Machine, at: nat, spawned: bool)
    requires Kept(m) && Can(m, RunJob(at, spawned)) && m.jobs[at].UnlockEnds?
    ensures var unlocked, after := m.jobs[at].unlocked, After(m, RunJob(at, spawned));
            var before := m.(jobs := Without(m.jobs, at), unlocking := false, closeRefused := false);
            && m.unlocking && !m.starting
            && after.unlockFailed == Some(!unlocked)
            && (unlocked ==> Began(before, spawned, after.(unlockFailed := None)))
            && (!unlocked ==> after == before.(unlockOffered := true, unlockFailed := Some(true)))
  {
    TakenOut(m, at);
    assert InFlight(m.(jobs := Without(m.jobs, at)), UnlockWorker) + 1 == if m.unlocking then 1 else 0;
  }

  /** The last word of a shutdown, and the news on the way. */
  lemma OtherJobsComeTo(m: Machine, at: nat, spawned: bool)
    requires Kept(m) && Can(m, RunJob(at, spawned)) && !m.jobs[at].StartEnds? && !m.jobs[at].UnlockEnds?
    ensures var job, after := m.jobs[at], After(m, RunJob(at, spawned));
            && (job.ShutdownEnds? ==>
                  && m.shuttingDown && Shows(m, job.sequence, Probed(job.probe), after)
                  && after == m.(shuttingDown := false, line := Some(job.line), status := after.status,
                                 applied := after.applied, jobs := Without(m.jobs, at)))
            && (job.ProbeNews? ==>
                  && Shows(m, job.sequence, Probed(job.probe), after)
                  && after == m.(status := after.status, applied := after.applied, jobs := Without(m.jobs, at)))
            && (job.LineNews? ==> after == m.(line := Some(job.line), jobs := Without(m.jobs, at)))
  {
    TakenOut(m, at);
    assert InFlight(m.(jobs := Without(m.jobs, at)), ShutdownWorker) + (if m.jobs[at].ShutdownEnds? then 1 else 0)
        == if m.shuttingDown then 1 else 0;
  }

  /** A worker's job waits for its turn; its last one is the end of the worker. */
  lemma WorkersComeTo(m: Machine, at: nat, job: Job)
    ensures Can(m, WorkerSays(at, job)) ==>
              After(m, WorkerSays(at, job)) == m.(jobs := m.jobs + [job])
    ensures Can(m, WorkerEnds(at, job)) ==>
              After(m, WorkerEnds(at, job)) == m.(workers := Without(m.workers, at), jobs := m.jobs + [job])
  {
  }

  /** What the workbench reads itself is shown at once, and overtakes every probe that is out. */
  lemma ReadsComeTo(m: Machine, probe: Result<Facts>)
    requires !m.phase.Ended?
    ensures After(m, Reads(probe)) == m.(probeSequence := m.probeSequence + 1, status := Probed(probe))
    ensures After(m, ReadsFail) == m.(probeSequence := m.probeSequence + 1, status := CouldNotRun)
    ensures forall sequence: nat, answer | sequence <= m.probeSequence ::
              Answered(After(m, Reads(probe)), sequence, answer) == After(m, Reads(probe))
  {
  }

  /** A close asked for ends or fades the workbench, exactly unless an unlock runs or it fades already; a
      fade that ends does so too. */
  lemma CloseComesTo(m: Machine, fades: bool)
    ensures Can(m, AskClose(fades)) ==>
              After(m, AskClose(fades)) ==
                if m.unlocking then m.(closeRefused := true)
                else if m.phase.Fading? then m
                else m.(phase := if fades then Fading else Ended)
    ensures Can(m, FadeEnds) ==>
              After(m, FadeEnds) == if m.unlocking then m.(phase := Phase.Open, closeRefused := true) else m.(phase := Ended)
  {
  }

  /** So a start that ends asking for an unlock leads to a start again: the offer can be pressed, and once
      the unlock it began is done the start begins. */
  lemma AnOfferLeadsBackToAStart(
    m: Machine, at: nat, spawned: bool, offered: Machine, pressed: Machine, ended: Machine, posted: Machine)
    requires Kept(m) && Can(m, RunJob(at, spawned)) && m.jobs[at].StartEnds? && m.jobs[at].offer
    requires offered == After(m, RunJob(at, spawned))
    ensures Can(offered, PressUnlock(true, true))
    ensures pressed == After(offered, PressUnlock(true, true)) ==>
              pressed.unlocking && pressed.workers != [] && LastWordOf(pressed.workers[|pressed.workers| - 1], UnlockEnds(true))
    ensures (&& pressed == After(offered, PressUnlock(true, true))
             && posted == After(pressed, WorkerEnds(|pressed.workers| - 1, UnlockEnds(true)))
             && ended == After(posted, RunJob(|posted.jobs| - 1, true))) ==>
              ended.starting && !ended.unlocking && !ended.unlockOffered && ended.line == Words(Checking, false)
              && StartWorker in ended.workers
  {
    TurnKeeps(m, RunJob(at, spawned));
    StartEndsComesTo(m, at, spawned);
    TurnKeeps(offered, PressUnlock(true, true));
    UnlockComesTo(offered, true, true);
    if && pressed == After(offered, PressUnlock(true, true))
       && posted == After(pressed, WorkerEnds(|pressed.workers| - 1, UnlockEnds(true))) {
      TurnKeeps(pressed, WorkerEnds(|pressed.workers| - 1, UnlockEnds(true)));
      UnlockEndsComesTo(posted, |posted.jobs| - 1, true);
    }
  }
}
