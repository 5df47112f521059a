/** Each call of `Generations.Writer` taken as a step of a run: what a call leaves behind, on success,
    on failure, or in any state a crash inside it can expose, is a step of `GenerationRuns`. So what
    is proved of every run is proved of every history of calls. */
module GenerationSteps {
  import opened Outcomes
  import opened Disks
  import opened Generations
  import opened GenerationRuns

  /** A run so far: every world from the first to the present one, and the steps between. */
  datatype History = History(system: System, worlds: seq<World>, events: seq<Event>) {
    ghost predicate Valid() {
      Run(system, worlds, events)
    }

    function Now(): World
      requires |worlds| == |events| + 1
    {
      worlds[|events|]
    }

    function Then(event: Event, after: World): History {
      this.(worlds := worlds + [after], events := events + [event])
    }

    function Dealing(plan: nat, deal: Deal): History {
      this.(system := system.(deals := system.deals[plan := deal]))
    }
  }

  /** The history is this writer's installation's, and has come to the disk as it is. */
  ghost predicate Records(history: History, writer: Writer)
    reads writer.disk
  {
    history.Valid() && history.system.root == writer.root && history.Now().nodes == writer.disk.nodes
  }

  function StageOf(committed: bool, startAttempted: bool): Stage {
    if !committed then Open else if startAttempted then Started else Committed
  }

  /** The plan in hand is plan `id` of the history. */
  ghost predicate Holds(history: History, id: nat, plan: Plan)
    requires history.Valid()
    reads plan
  {
    && id in history.system.deals && history.system.deals[id] == Deal(plan.baseline, plan.snapshot)
    && plan.candidate == Candidate(plan.snapshot.selection.generation)
    && id in history.Now().stages
    && history.Now().stages[id] == StageOf(plan.committed, plan.startAttempted)
    && (plan.startAttempted ==> plan.committed)
  }

  /** A crash that left `nodes` ends a run too: nothing was selected, or `event` had taken place. */
  ghost predicate Crashed(history: History, event: Event, nodes: Nodes)
    requires history.Valid()
  {
    exists after: World ::
      after.nodes == nodes && (history.Then(Other, after).Valid() || history.Then(event, after).Valid())
  }

  lemma OneMore(history: History, event: Event, after: World)
    requires history.Valid() && Next(history.system, history.Now(), event, after)
    ensures history.Then(event, after).Valid() && history.Then(event, after).Now() == after
    ensures Crashed(history, event, after.nodes)
  {
    RunLonger(history.system, history.worlds, history.events, event, after);
    assert history.Then(event, after).Valid();
  }

  lemma OneMoreOther(history: History, nodes: Nodes)
    requires history.Valid() && Between(history.Now().nodes, nodes)
    ensures history.Then(Other, World(nodes, history.Now().stages)).Valid()
    ensures forall event :: Crashed(history, event, nodes)
  {
    var after := World(nodes, history.Now().stages);
    OneMore(history, Other, after);
    assert forall event :: after.nodes == nodes && (history.Then(Other, after).Valid() || history.Then(event, after).Valid());
  }

  lemma NextDealing(system: System, before: World, event: Event, after: World, plan: nat, deal: Deal)
    requires Next(system, before, event, after) && plan !in after.stages
    requires forall other | other in before.stages :: other in after.stages
    ensures Next(system.(deals := system.deals[plan := deal]), before, event, after)
  {
  }

  lemma {:induction false} StagesStay(history: History, i: nat)
    requires history.Valid() && i < |history.worlds|
    ensures history.worlds[i].stages.Keys <= history.Now().stages.Keys
    decreases |history.worlds| - i
  {
    if i < |history.events| {
      assert Next(history.system, history.worlds[i], history.events[i], history.worlds[i + 1]);
      StagesStay(history, i + 1);
    }
  }

  /** Dealing a plan nobody has is no step: the run so far stays one. */
  lemma DealingKeeps(history: History, plan: nat, deal: Deal)
    requires history.Valid() && plan !in history.Now().stages
    ensures history.Dealing(plan, deal).Valid()
  {
    var dealt := history.Dealing(plan, deal);
    forall i | 0 <= i < |history.events|
      ensures Next(dealt.system, history.worlds[i], history.events[i], history.worlds[i + 1])
    {
      assert Next(history.system, history.worlds[i], history.events[i], history.worlds[i + 1]);
      StagesStay(history, i);
      StagesStay(history, i + 1);
      NextDealing(history.system, history.worlds[i], history.events[i], history.worlds[i + 1], plan, deal);
    }
  }

  /** Whatever other transactions did since it was made, a plan finds its target and its baseline
      prepared. */
  lemma HeldIsSettled(history: History, id: nat, plan: Plan)
    requires history.Valid() && Holds(history, id, plan)
    ensures Sound(history.Now().nodes) && plan.Settled(history.Now().nodes)
    ensures plan.snapshot.root == history.system.root
  {
    AlwaysSound(history.system, history.worlds, history.events, |history.events|);
    AlwaysDealt(history.system, history.worlds, history.events, |history.events|, id);
  }

  /** `Writer.Prepare` is a preparing step, or nothing happened. */
  method Prepare(
    writer: Writer, baseline: Option<Snapshot>, slot: Slot, source: Document, predatesVision: bool, answers: Answers, now: nat,
    ghost history: History, ghost id: nat)
    returns (plan: Plan?, ghost later: History)
    requires Records(history, writer) && id !in history.Now().stages
    requires baseline.Some? ==> Decoded(baseline.value)
    modifies writer, writer.disk
    ensures old(writer.disk.past) <= writer.disk.past
    ensures forall k | |old(writer.disk.past)| <= k < |writer.disk.past| :: Crashed(history, Other, writer.disk.past[k])
    ensures Records(later, writer)
    ensures plan == null ==> later == history.Then(Other, later.Now())
    ensures plan != null ==>
              && later == history.Dealing(id, Deal(plan.baseline, plan.snapshot)).Then(Event.Prepare(id), later.Now())
              && Holds(later, id, plan) && plan.baseline == baseline && plan.snapshot.selection.slot == slot
  {
    ghost var before := history.Now();
    AlwaysSound(history.system, history.worlds, history.events, |history.events|);
    plan := writer.Prepare(baseline, slot, source, predatesVision, answers, now);
    forall k | |old(writer.disk.past)| <= k < |writer.disk.past|
      ensures Crashed(history, Other, writer.disk.past[k])
    {
      OneMoreOther(history, writer.disk.past[k]);
    }
    if plan == null {
      later := history.Then(Other, World(writer.disk.nodes, before.stages));
      OneMoreOther(history, writer.disk.nodes);
    } else {
      ghost var dealt := history.Dealing(id, Deal(plan.baseline, plan.snapshot));
      DealingKeeps(history, id, Deal(plan.baseline, plan.snapshot));
      later := dealt.Then(Event.Prepare(id), World(writer.disk.nodes, before.stages[id := Open]));
      OneMore(dealt, Event.Prepare(id), World(writer.disk.nodes, before.stages[id := Open]));
    }
  }

  /** `Writer.Reselect` is a reselecting step, or nothing happened; the disk stays as it is. */
  method Reselect(writer: Writer, baseline: Snapshot, slot: Slot, accepts: bool, ghost history: History, ghost id: nat)
    returns (outcome: Result<Option<Plan>>, ghost later: History)
    requires Records(history, writer) && id !in history.Now().stages
    requires Decoded(baseline)
    modifies writer
    ensures Records(later, writer)
    ensures outcome.Err? || outcome.value.None? ==> later == history
    ensures outcome.Ok? && outcome.value.Some? ==>
              var plan := outcome.value.value;
              && later == history.Dealing(id, Deal(plan.baseline, plan.snapshot)).Then(Event.Reselect(id), later.Now())
              && Holds(later, id, plan) && plan.baseline == Some(baseline) && plan.snapshot.selection.slot == slot
  {
    AlwaysSound(history.system, history.worlds, history.events, |history.events|);
    outcome := writer.Reselect(baseline, slot, accepts);
    later := history;
    if outcome.Ok? && outcome.value.Some? {
      var plan := outcome.value.value;
      ghost var dealt := history.Dealing(id, Deal(plan.baseline, plan.snapshot));
      DealingKeeps(history, id, Deal(plan.baseline, plan.snapshot));
      ghost var after := World(writer.disk.nodes, history.Now().stages[id := Open]);
      later := dealt.Then(Event.Reselect(id), after);
      OneMore(dealt, Event.Reselect(id), after);
    }
  }

  lemma CommittedStep(history: History, id: nat, nodes: Nodes)
    requires history.Valid() && id in history.system.deals
    requires id in history.Now().stages && history.Now().stages[id] == Open
    requires var deal := history.system.deals[id];
             Selects(history.system.root, history.Now().nodes, deal.baseline, deal.target, nodes)
    ensures history.Then(Event.Commit(id), World(nodes, history.Now().stages[id := Committed])).Valid()
    ensures Crashed(history, Event.Commit(id), nodes) && CanCommit(history.system, history.Now(), id)
  {
    var after := World(nodes, history.Now().stages[id := Committed]);
    assert Next(history.system, history.Now(), Event.Commit(id), after);
    OneMore(history, Event.Commit(id), after);
  }

  lemma CommittingNeeds(system: System, world: World, id: nat)
    ensures CanCommit(system, world, id) ==>
              && id in system.deals && id in world.stages && world.stages[id] == Open
              && ActiveIs(world.nodes, system.deals[id].baseline) && Clear(system, world.nodes, id)
  {
  }

  /** `Writer.Commit` is a committing step, or nothing was selected. */
  method Commit(writer: Writer, plan: Plan, ghost history: History, ghost id: nat)
    returns (ok: bool, ghost later: History)
    requires Records(history, writer) && Holds(history, id, plan)
    modifies writer, writer.disk, plan`committed
    ensures old(writer.disk.past) <= writer.disk.past
    ensures forall k | |old(writer.disk.past)| <= k < |writer.disk.past| :: Crashed(history, Event.Commit(id), writer.disk.past[k])
    ensures Records(later, writer) && Holds(later, id, plan)
    ensures plan.committed == old(plan.committed) ==> !ok && later == history.Then(Other, later.Now())
    ensures plan.committed != old(plan.committed) ==> later == history.Then(Event.Commit(id), later.Now())
    ensures plan.committed != old(plan.committed) ==> CanCommit(history.system, history.Now(), id)
    ensures writer.disk.reliable && CanCommit(history.system, history.Now(), id) ==>
              ok && plan.committed != old(plan.committed)
  {
    HeldIsSettled(history, id, plan);
    CommittingNeeds(history.system, history.Now(), id);
    ghost var before := history.Now();
    ok := writer.Commit(plan);
    forall k | |old(writer.disk.past)| <= k < |writer.disk.past|
      ensures Crashed(history, Event.Commit(id), writer.disk.past[k])
    {
      if Quiet(before.nodes, writer.disk.past[k]) {
        OneMoreOther(history, writer.disk.past[k]);
      } else {
        CommittedStep(history, id, writer.disk.past[k]);
      }
    }
    if plan.committed == old(plan.committed) {
      later := history.Then(Other, World(writer.disk.nodes, before.stages));
      OneMoreOther(history, writer.disk.nodes);
    } else {
      later := history.Then(Event.Commit(id), World(writer.disk.nodes, before.stages[id := Committed]));
      CommittedStep(history, id, writer.disk.nodes);
    }
  }

  /** `Writer.RestoreBeforeStart` is a restoring step, or nothing was put back. */
  method RestoreBeforeStart(writer: Writer, plan: Plan, ghost history: History, ghost id: nat)
    returns (ok: bool, ghost later: History)
    requires Records(history, writer) && Holds(history, id, plan)
    modifies writer, writer.disk, plan`committed
    ensures old(writer.disk.past) <= writer.disk.past
    ensures forall k | |old(writer.disk.past)| <= k < |writer.disk.past| :: Crashed(history, Event.Restore(id), writer.disk.past[k])
    ensures Records(later, writer) && Holds(later, id, plan)
    ensures plan.committed == old(plan.committed) ==> later == history.Then(Other, later.Now())
    ensures plan.committed != old(plan.committed) ==> later == history.Then(Event.Restore(id), later.Now())
    ensures plan.committed != old(plan.committed) ==> CanRestore(history.system, history.Now(), id)
    ensures writer.disk.reliable && CanRestore(history.system, history.Now(), id) ==>
              ok && plan.committed != old(plan.committed)
  {
    HeldIsSettled(history, id, plan);
    ghost var before := history.Now();
    ghost var restored := before.stages[id := Open];
    ok := writer.RestoreBeforeStart(plan);
    forall k | |old(writer.disk.past)| <= k < |writer.disk.past|
      ensures Crashed(history, Event.Restore(id), writer.disk.past[k])
    {
      if Quiet(before.nodes, writer.disk.past[k]) {
        OneMoreOther(history, writer.disk.past[k]);
      } else {
        OneMore(history, Event.Restore(id), World(writer.disk.past[k], restored));
      }
    }
    if plan.committed == old(plan.committed) {
      later := history.Then(Other, World(writer.disk.nodes, before.stages));
      OneMoreOther(history, writer.disk.nodes);
    } else {
      later := history.Then(Event.Restore(id), World(writer.disk.nodes, restored));
      OneMore(history, Event.Restore(id), World(writer.disk.nodes, restored));
      assert Next(history.system, before, Event.Restore(id), later.Now());
    }
  }

  /** What happened between the writer's calls, replaced programs among it, is a step; whoever did it. */
  lemma Meanwhile(history: History, writer: Writer) returns (later: History)
    requires history.Valid() && history.system.root == writer.root
    requires Between(history.Now().nodes, writer.disk.nodes)
    ensures Records(later, writer) && later == history.Then(Other, later.Now())
    ensures later.Now().stages == history.Now().stages
  {
    later := history.Then(Other, World(writer.disk.nodes, history.Now().stages));
    OneMoreOther(history, writer.disk.nodes);
  }

  /** New programs in a spare slot, as often as an upgrade brings them: a step that selects nothing. */
  method Materialize(
    writer: Writer, slot: Slot, programs: Content, unix: nat, later: nat, free: bool, verified: bool, ghost history: History)
    returns (ok: bool, ghost longer: History)
    requires Records(history, writer)
    modifies writer.disk
    ensures old(writer.disk.past) <= writer.disk.past
    ensures forall k | |old(writer.disk.past)| <= k < |writer.disk.past| :: Crashed(history, Other, writer.disk.past[k])
    ensures Records(longer, writer) && longer == history.Then(Other, longer.Now())
    ensures longer.Now().stages == history.Now().stages
    ensures ok ==> Members(slot) in writer.disk.nodes && writer.disk.nodes[Members(slot)] == programs
    ensures Active in old(writer.disk.nodes) && old(writer.disk.nodes)[Active].SelectionFile? ==>
              var selected := old(writer.disk.nodes)[Active].selection.slot;
              && (Members(selected) in old(writer.disk.nodes) <==> Members(selected) in writer.disk.nodes)
              && (Members(selected) in writer.disk.nodes ==>
                    writer.disk.nodes[Members(selected)] == old(writer.disk.nodes)[Members(selected)])
  {
    AlwaysSound(history.system, history.worlds, history.events, |history.events|);
    ghost var before := writer.disk.nodes;
    ok := writer.Materialize(slot, programs, unix, later, free, verified);
    forall k | |old(writer.disk.past)| <= k < |writer.disk.past|
      ensures Crashed(history, Other, writer.disk.past[k])
    {
      MaterializingIsBetween(before, writer.disk.past[k], slot, unix, later);
      OneMoreOther(history, writer.disk.past[k]);
    }
    MaterializingIsBetween(before, writer.disk.nodes, slot, unix, later);
    longer := Meanwhile(history, writer);
  }

  /** `Plan.MarkStartAttempt` is a marking step, or nothing happened. */
  method MarkStartAttempt(writer: Writer, plan: Plan, ghost history: History, ghost id: nat)
    returns (ok: bool, ghost later: History)
    requires Records(history, writer) && Holds(history, id, plan)
    modifies plan`startAttempted
    ensures Records(later, writer) && Holds(later, id, plan)
    ensures plan.startAttempted == old(plan.startAttempted) ==> later == history
    ensures plan.startAttempted != old(plan.startAttempted) ==>
              ok && later == history.Then(Mark(id), later.Now())
  {
    ghost var before := history.Now();
    ghost var marked := plan.committed && !plan.startAttempted;
    ok := plan.MarkStartAttempt();
    later := history;
    if marked {
      later := history.Then(Mark(id), before.(stages := before.stages[id := Started]));
      OneMore(history, Mark(id), before.(stages := before.stages[id := Started]));
    }
  }
}
