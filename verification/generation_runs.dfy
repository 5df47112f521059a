/** Whole runs of the installation: any interleaving of lock-serialised transactions, each plan
    resting on a baseline read at an earlier time of its own choosing, and between them whatever keeps
    the lasting files and the selection: a slot's programs replaced, other programs at work, a
    temporary cleared away. A step that failed, or crashed before its rename, is an `Other` step too;
    `GenerationSteps` shows that each method of
    `Generations.Writer` takes one of the steps below, in every state a crash can expose. */
module GenerationRuns {
  import opened Outcomes
  import opened Generations

  /** What a plan fixed when it was made. */
  datatype Deal = Deal(baseline: Option<Snapshot>, target: Snapshot)

  datatype Stage = Open | Committed | Started

  datatype World = World(nodes: Nodes, stages: map<nat, Stage>)

  datatype Event =
    | Other | Prepare(plan: nat) | Reselect(plan: nat) | Commit(plan: nat) | Restore(plan: nat) | Mark(plan: nat)

  datatype System = System(root: nat, deals: map<nat, Deal>)

  /** A plan's target is whole, and both its sides are selections of this installation. */
  ghost predicate Plain(system: System, nodes: Nodes, deal: Deal) {
    && deal.target.root == system.root && Decoded(deal.target) && Prepared(nodes, deal.target.selection)
    && Loads(system.root, nodes, deal.target)
    && (deal.baseline.Some? ==> Decoded(deal.baseline.value))
  }

  /** A generation of the plan's own, newer than its baseline's and not there before. */
  ghost predicate Prepares(system: System, before: Nodes, deal: Deal, after: Nodes) {
    var generation := deal.target.selection.generation;
    && Quiet(before, after) && BaselineHolds(system.root, after, deal.baseline)
    && Plain(system, after, deal) && MembersOf(after, deal.target.selection)
    && GenerationFolder(generation) !in before && Candidate(generation) !in before
    && (deal.baseline.Some? ==> deal.baseline.value.selection.generation < generation)
  }

  /** The newest generation there is for its slot's programs; nothing is written. */
  ghost predicate Reselects(system: System, nodes: Nodes, deal: Deal) {
    var selection := deal.target.selection;
    && deal.baseline.Some? && BaselineHolds(system.root, nodes, deal.baseline) && Plain(system, nodes, deal)
    && Reselectable(nodes, selection.slot, selection.generation)
    && forall other: nat | Reselectable(nodes, selection.slot, other) :: other <= selection.generation
  }

  ghost predicate Next(system: System, before: World, event: Event, after: World) {
    match event
    case Other => Between(before.nodes, after.nodes) && after.stages == before.stages
    case Prepare(plan) =>
      && plan in system.deals && plan !in before.stages
      && Prepares(system, before.nodes, system.deals[plan], after.nodes)
      && after.stages == before.stages[plan := Open]
    case Reselect(plan) =>
      && plan in system.deals && plan !in before.stages
      && Reselects(system, before.nodes, system.deals[plan])
      && after == World(before.nodes, before.stages[plan := Open])
    case Commit(plan) =>
      && plan in system.deals && plan in before.stages && before.stages[plan] == Open
      && var deal := system.deals[plan];
         && Selects(system.root, before.nodes, deal.baseline, deal.target, after.nodes)
         && after.stages == before.stages[plan := Committed]
    case Restore(plan) =>
      && plan in system.deals && plan in before.stages && before.stages[plan] == Committed
      && var deal := system.deals[plan];
         && Returns(before.nodes, deal.baseline, deal.target, after.nodes)
         && after.stages == before.stages[plan := Open]
    case Mark(plan) =>
      && plan in before.stages && before.stages[plan] == Committed
      && after == before.(stages := before.stages[plan := Started])
  }

  ghost predicate Run(system: System, worlds: seq<World>, events: seq<Event>) {
    && |worlds| == |events| + 1
    && Sound(worlds[0].nodes) && worlds[0].stages == map[]
    && forall i | 0 <= i < |events| :: Next(system, worlds[i], events[i], worlds[i + 1])
  }

  /** A slot's programs replaced or taken away, or any file of another program changed, is a step: plans
      and everything proved of them carry on across it. */
  lemma ProgramsReplacedIsAStep(system: System, world: World, changed: Nodes)
    requires Sound(world.nodes)
    requires forall path: Path | !path.Members? && !path.ProgramsCandidate? && !path.Outside? ::
               (path in changed <==> path in world.nodes) && (path in changed ==> changed[path] == world.nodes[path])
    ensures Next(system, world, Other, world.(nodes := changed))
  {
    SoundMeanwhile(world.nodes, changed);
  }

  lemma RunLonger(system: System, worlds: seq<World>, events: seq<Event>, event: Event, after: World)
    requires Run(system, worlds, events) && Next(system, worlds[|events|], event, after)
    ensures Run(system, worlds + [after], events + [event])
  {
    var w, e := worlds + [after], events + [event];
    forall i | 0 <= i < |e|
      ensures Next(system, w[i], e[i], w[i + 1])
    {
      if i < |events| {
        assert Next(system, worlds[i], events[i], worlds[i + 1]);
      }
    }
  }

  predicate Selecting(event: Event) {
    event.Commit? || event.Restore?
  }

  /** Whatever happens, at every moment: active.json is absent or one whole prepared selection. */
  lemma {:induction false} AlwaysSound(system: System, worlds: seq<World>, events: seq<Event>, i: nat)
    requires Run(system, worlds, events) && i < |worlds|
    ensures Sound(worlds[i].nodes)
  {
    if i > 0 {
      AlwaysSound(system, worlds, events, i - 1);
      assert Next(system, worlds[i - 1], events[i - 1], worlds[i]);
    }
  }

  /** No file of any generation, complete or not, no first selection set aside and no programs set aside
      are ever overwritten or removed. */
  lemma {:induction false} NothingLost(system: System, worlds: seq<World>, events: seq<Event>, i: nat, j: nat)
    requires Run(system, worlds, events) && i <= j < |worlds|
    ensures Lasts(worlds[i].nodes, worlds[j].nodes)
    decreases j
  {
    if i < j {
      NothingLost(system, worlds, events, i, j - 1);
      assert Next(system, worlds[j - 1], events[j - 1], worlds[j]);
    }
  }

  /** While nothing is committed or restored, active.json stays as it is. */
  lemma {:induction false} ActiveStays(system: System, worlds: seq<World>, events: seq<Event>, i: nat, j: nat)
    requires Run(system, worlds, events) && i <= j < |worlds|
    requires forall k | i <= k < j :: !Selecting(events[k])
    ensures SameActive(worlds[i].nodes, worlds[j].nodes)
    decreases j
  {
    if i < j {
      ActiveStays(system, worlds, events, i, j - 1);
      assert Next(system, worlds[j - 1], events[j - 1], worlds[j]);
    }
  }

  /** Both say the same of active.json: absent, or the same bytes. */
  predicate SameChoice(left: Option<Snapshot>, right: Option<Snapshot>) {
    match (left, right)
    case (None, None) => true
    case (Some(a), Some(b)) => a.selectionBytes == b.selectionBytes
    case _ => false
  }

  /** What a committing or restoring step selects. */
  function Chosen(system: System, event: Event): (chosen: Option<Snapshot>)
    requires Selecting(event) && event.plan in system.deals
  {
    var deal := system.deals[event.plan];
    if event.Commit? then Some(deal.target) else deal.baseline
  }

  lemma ChosenIsActive(system: System, before: World, event: Event, after: World)
    requires Selecting(event) && Next(system, before, event, after)
    ensures ActiveIs(after.nodes, Chosen(system, event))
  {
  }

  /** Committed selections form a chain: the baseline of each commit is what the last commit or
      restoration before it selected, whenever that baseline was read. */
  lemma CommitsFormAChain(system: System, worlds: seq<World>, events: seq<Event>, i: nat, j: nat)
    requires Run(system, worlds, events) && i < j < |events|
    requires events[j].Commit? && events[j].plan in system.deals
    requires Selecting(events[i]) && events[i].plan in system.deals
    requires forall k | i < k < j :: !Selecting(events[k])
    ensures SameChoice(system.deals[events[j].plan].baseline, Chosen(system, events[i]))
  {
    assert Next(system, worlds[i], events[i], worlds[i + 1]);
    assert Next(system, worlds[j], events[j], worlds[j + 1]);
    ChosenIsActive(system, worlds[i], events[i], worlds[i + 1]);
    ActiveStays(system, worlds, events, i + 1, j);
  }

  /** A commit undone by its own plan leaves active.json as the commit found it, present or absent,
      whatever other plans did in between. */
  lemma CommitThenRestore(system: System, worlds: seq<World>, events: seq<Event>, i: nat, j: nat)
    requires Run(system, worlds, events) && i < j < |events|
    requires events[i].Commit? && events[j] == Restore(events[i].plan)
    ensures SameActive(worlds[i].nodes, worlds[j + 1].nodes)
  {
    assert Next(system, worlds[i], events[i], worlds[i + 1]);
    assert Next(system, worlds[j], events[j], worlds[j + 1]);
  }

  /** Once a plan has tried to start its Runtime, it never selects or restores again. */
  lemma {:induction false} StartedIsFinal(system: System, worlds: seq<World>, events: seq<Event>, i: nat, j: nat)
    requires Run(system, worlds, events) && i < j <= |events|
    requires events[i].Mark?
    ensures events[i].plan in worlds[j].stages && worlds[j].stages[events[i].plan] == Started
    ensures j < |events| && Selecting(events[j]) ==> events[j].plan != events[i].plan
    decreases j
  {
    assert Next(system, worlds[j - 1], events[j - 1], worlds[j]);
    if j > i + 1 {
      StartedIsFinal(system, worlds, events, i, j - 1);
    }
    if j < |events| {
      assert Next(system, worlds[j], events[j], worlds[j + 1]);
    }
  }

  /** Where active.json comes to say `choice` again there is a step that chose it, and none selected
      anything after it. */
  lemma {:induction false} ChosenAgain(
    system: System, worlds: seq<World>, events: seq<Event>, choice: Option<Snapshot>, i: nat, j: nat)
    returns (k: nat)
    requires Run(system, worlds, events) && i <= j < |worlds|
    requires !ActiveIs(worlds[i].nodes, choice) && ActiveIs(worlds[j].nodes, choice)
    ensures i <= k < j && LastChose(system, events, k, j, choice)
    decreases j
  {
    k := j - 1;
    assert Next(system, worlds[k], events[k], worlds[j]);
    if Selecting(events[k]) {
      ChosenIsActive(system, worlds[k], events[k], worlds[j]);
    } else {
      k := ChosenAgain(system, worlds, events, choice, i, k);
    }
  }

  /** Step `k` is the last before `n` that selected anything, and selected `choice`. */
  ghost predicate LastChose(system: System, events: seq<Event>, k: nat, n: nat, choice: Option<Snapshot>) {
    && k < n <= |events| && Selecting(events[k]) && events[k].plan in system.deals
    && SameChoice(Chosen(system, events[k]), choice)
    && forall m | k < m < n :: !Selecting(events[m])
  }

  // When a plan can commit.

  /** What a plan of this deal needs of the disk, once its baseline's bytes are in active.json. */
  ghost predicate Dealt(system: System, nodes: Nodes, deal: Deal) {
    && Plain(system, nodes, deal)
    && (deal.baseline.Some? ==>
          var held := deal.baseline.value;
          held.root == system.root && Prepared(nodes, held.selection) && Loads(system.root, nodes, held))
  }

  lemma DealtStays(system: System, before: Nodes, after: Nodes, deal: Deal)
    requires Dealt(system, before, deal) && Lasts(before, after)
    ensures Dealt(system, after, deal)
  {
    PreparedStays(before, after, deal.target.selection);
    LoadsStay(system.root, before, after, deal.target);
    if deal.baseline.Some? {
      LoadsStay(system.root, before, after, deal.baseline.value);
    }
  }

  lemma DealtWhenMade(system: System, before: World, event: Event, after: World)
    requires Sound(before.nodes) && Next(system, before, event, after) && (event.Prepare? || event.Reselect?)
    ensures Dealt(system, after.nodes, system.deals[event.plan])
  {
  }

  /** Every plan made is one that can still be judged by active.json alone. */
  lemma {:induction false} AlwaysDealt(
    system: System, worlds: seq<World>, events: seq<Event>, n: nat, plan: nat)
    requires Run(system, worlds, events) && n < |worlds| && plan in worlds[n].stages
    ensures plan in system.deals && Dealt(system, worlds[n].nodes, system.deals[plan])
  {
    assert n > 0;
    var event := events[n - 1];
    assert Next(system, worlds[n - 1], event, worlds[n]);
    AlwaysSound(system, worlds, events, n - 1);
    if plan in worlds[n - 1].stages {
      AlwaysDealt(system, worlds, events, n - 1, plan);
      NothingLost(system, worlds, events, n - 1, n);
      DealtStays(system, worlds[n - 1].nodes, worlds[n].nodes, system.deals[plan]);
    } else {
      DealtWhenMade(system, worlds[n - 1], event, worlds[n]);
    }
  }

  ghost predicate CanCommit(system: System, world: World, plan: nat) {
    exists after :: Next(system, world, Commit(plan), after)
  }

  ghost predicate CanRestore(system: System, world: World, plan: nat) {
    exists after :: Next(system, world, Restore(plan), after)
  }

  /** No temporary stands in the way of this plan's commit. */
  predicate Clear(system: System, nodes: Nodes, plan: nat)
    requires plan in system.deals
  {
    ActiveTemporary(system.deals[plan].target.selection.generation) !in nodes
  }

  lemma CommitsWhenActive(system: System, world: World, plan: nat)
    requires Sound(world.nodes) && plan in world.stages && world.stages[plan] == Open
    requires plan in system.deals && Dealt(system, world.nodes, system.deals[plan])
    requires ActiveIs(world.nodes, system.deals[plan].baseline) && Clear(system, world.nodes, plan)
    ensures CanCommit(system, world, plan)
  {
    var target := system.deals[plan].target;
    var nodes := world.nodes[Active := target.selectionBytes];
    SoundMeanwhile(world.nodes, nodes);
    PreparedStays(world.nodes, nodes, target.selection);
    assert Next(system, world, Commit(plan), World(nodes, world.stages[plan := Committed]));
  }

  /** An uncommitted plan can commit exactly when active.json says what its baseline does and no
      temporary of its generation was left behind: all else the commit compares is still as the plan
      found it. */
  lemma CommitsExactlyWhenActive(system: System, worlds: seq<World>, events: seq<Event>, n: nat, plan: nat)
    requires Run(system, worlds, events) && n < |worlds|
    requires plan in worlds[n].stages && worlds[n].stages[plan] == Open
    ensures plan in system.deals
    ensures CanCommit(system, worlds[n], plan)
            <==> ActiveIs(worlds[n].nodes, system.deals[plan].baseline) && Clear(system, worlds[n].nodes, plan)
  {
    AlwaysSound(system, worlds, events, n);
    AlwaysDealt(system, worlds, events, n, plan);
    if ActiveIs(worlds[n].nodes, system.deals[plan].baseline) && Clear(system, worlds[n].nodes, plan) {
      CommitsWhenActive(system, worlds[n], plan);
    }
  }

  lemma RestoresWhenActive(system: System, world: World, plan: nat)
    requires Sound(world.nodes) && plan in world.stages && world.stages[plan] == Committed
    requires plan in system.deals && Dealt(system, world.nodes, system.deals[plan])
    requires ActiveIs(world.nodes, Some(system.deals[plan].target))
    requires Beside(system.deals[plan].baseline, system.deals[plan].target) !in world.nodes
    ensures CanRestore(system, world, plan)
  {
    var deal := system.deals[plan];
    var nodes := if deal.baseline.Some? then world.nodes[Active := deal.baseline.value.selectionBytes]
                 else world.nodes - {Active};
    SoundMeanwhile(world.nodes, nodes);
    if deal.baseline.Some? {
      PreparedStays(world.nodes, nodes, deal.baseline.value.selection);
    }
    assert Next(system, world, Restore(plan), World(nodes, world.stages[plan := Open]));
  }

  /** A committed plan that has not tried to start can be restored exactly when its own selection is in
      active.json and the name the restoration needs is free. */
  lemma RestoresExactlyWhenActive(system: System, worlds: seq<World>, events: seq<Event>, n: nat, plan: nat)
    requires Run(system, worlds, events) && n < |worlds|
    requires plan in worlds[n].stages && worlds[n].stages[plan] == Committed
    ensures plan in system.deals
    ensures CanRestore(system, worlds[n], plan)
            <==> && ActiveIs(worlds[n].nodes, Some(system.deals[plan].target))
                 && Beside(system.deals[plan].baseline, system.deals[plan].target) !in worlds[n].nodes
  {
    AlwaysSound(system, worlds, events, n);
    AlwaysDealt(system, worlds, events, n, plan);
    if && ActiveIs(worlds[n].nodes, Some(system.deals[plan].target))
       && Beside(system.deals[plan].baseline, system.deals[plan].target) !in worlds[n].nodes {
      RestoresWhenActive(system, worlds[n], plan);
    }
  }

  /** After any commit or restoration, a plan of whatever age can commit exactly when the last of them
      selected its baseline and no temporary of its generation was left behind: a second plan of a
      baseline already succeeded, exactly when that baseline was selected again. */
  lemma CommitsExactlyOnItsBaseline(
    system: System, worlds: seq<World>, events: seq<Event>, i: nat, n: nat, plan: nat)
    requires Run(system, worlds, events) && i < n < |worlds| && Selecting(events[i])
    requires plan in worlds[n].stages && worlds[n].stages[plan] == Open
    ensures plan in system.deals
    ensures CanCommit(system, worlds[n], plan)
            <==> && Clear(system, worlds[n].nodes, plan)
                 && exists k | i <= k < n :: LastChose(system, events, k, n, system.deals[plan].baseline)
  {
    CommitsExactlyWhenActive(system, worlds, events, n, plan);
    ActiveIsLastChosen(system, worlds, events, i, n, system.deals[plan].baseline);
  }

  /** active.json says what the last commit or restoration selected, and nothing else. */
  lemma ActiveIsLastChosen(
    system: System, worlds: seq<World>, events: seq<Event>, i: nat, n: nat, choice: Option<Snapshot>)
    requires Run(system, worlds, events) && i < n < |worlds| && Selecting(events[i])
    ensures ActiveIs(worlds[n].nodes, choice) <==> exists k | i <= k < n :: LastChose(system, events, k, n, choice)
  {
    if ActiveIs(worlds[n].nodes, choice) {
      var k := LastSelecting(system, worlds, events, i, n);
      assert Next(system, worlds[k], events[k], worlds[k + 1]);
      ChosenIsActive(system, worlds[k], events[k], worlds[k + 1]);
      ActiveStays(system, worlds, events, k + 1, n);
      assert LastChose(system, events, k, n, choice);
    }
    if k: nat :| i <= k < n && LastChose(system, events, k, n, choice) {
      assert Next(system, worlds[k], events[k], worlds[k + 1]);
      ChosenIsActive(system, worlds[k], events[k], worlds[k + 1]);
      ActiveStays(system, worlds, events, k + 1, n);
    }
  }

  /** A temporary left behind stops its generation from being selected, for as long as nothing but the
      writer is at it: no call of the writer takes it away again. */
  lemma {:induction false} ALeftoverStops(
    system: System, worlds: seq<World>, events: seq<Event>, generation: nat, i: nat, n: nat, plan: nat)
    requires Run(system, worlds, events) && i <= n < |worlds|
    requires ActiveTemporary(generation) in worlds[i].nodes
    requires forall k | i <= k < n && events[k].Other? :: ActiveTemporary(generation) in worlds[k + 1].nodes
    requires plan in system.deals && system.deals[plan].target.selection.generation == generation
    ensures ActiveTemporary(generation) in worlds[n].nodes && !CanCommit(system, worlds[n], plan)
    ensures n < |events| ==> events[n] != Commit(plan)
    decreases n
  {
    if i < n {
      ALeftoverStops(system, worlds, events, generation, i, n - 1, plan);
      assert Next(system, worlds[n - 1], events[n - 1], worlds[n]);
    }
    if n < |events| {
      assert Next(system, worlds[n], events[n], worlds[n + 1]);
    }
  }

  lemma {:induction false} LastSelecting(
    system: System, worlds: seq<World>, events: seq<Event>, i: nat, n: nat) returns (k: nat)
    requires Run(system, worlds, events) && i < n < |worlds| && Selecting(events[i])
    ensures i <= k < n && Selecting(events[k]) && events[k].plan in system.deals
    ensures forall m | k < m < n :: !Selecting(events[m])
    decreases n
  {
    k := n - 1;
    assert Next(system, worlds[k], events[k], worlds[n]);
    if !Selecting(events[k]) {
      k := LastSelecting(system, worlds, events, i, k);
    }
  }

  // Of the plans of one baseline, how many commit.

  /** Where a choice stands among the generations; no selection is below them all. */
  function Height(choice: Option<Snapshot>): nat {
    match choice
    case None => 0
    case Some(held) => held.selection.generation + 1
  }

  function ActiveHeight(nodes: Nodes): nat {
    if Active in nodes && nodes[Active].SelectionFile? then nodes[Active].selection.generation + 1 else 0
  }

  /** A commit of a selection no newer than the one it replaces. */
  predicate StepsDown(system: System, event: Event) {
    && event.Commit? && event.plan in system.deals
    && Height(Some(system.deals[event.plan].target)) <= Height(system.deals[event.plan].baseline)
  }

  predicate Done(stages: map<nat, Stage>, plan: nat) {
    plan in stages && stages[plan] != Open
  }

  predicate Apart(one: Deal, two: Deal) {
    || Height(Some(one.target)) <= Height(two.baseline)
    || Height(Some(two.target)) <= Height(one.baseline)
  }

  /** What stands while no commit steps down: committed plans go up, and are stacked on one another
      up to the selection in force, which is at `height`. */
  ghost predicate Stacked(system: System, stages: map<nat, Stage>, height: nat) {
    && (forall plan | Done(stages, plan) ::
          && plan in system.deals
          && Height(system.deals[plan].baseline) < Height(Some(system.deals[plan].target)) <= height)
    && (forall one, two | Done(stages, one) && Done(stages, two) && one != two ::
          Apart(system.deals[one], system.deals[two]))
  }

  lemma CommitStacks(system: System, stages: map<nat, Stage>, plan: nat, height: nat)
    requires Stacked(system, stages, height) && plan in system.deals && plan in stages && stages[plan] == Open
    requires height == Height(system.deals[plan].baseline) < Height(Some(system.deals[plan].target))
    ensures Stacked(system, stages[plan := Committed], Height(Some(system.deals[plan].target)))
  {
    var after := stages[plan := Committed];
    forall other | Done(after, other) && other != plan
      ensures Done(stages, other)
    {
    }
  }

  lemma RestoreStacks(system: System, stages: map<nat, Stage>, plan: nat, height: nat)
    requires Stacked(system, stages, height) && plan in system.deals && Done(stages, plan)
    requires height == Height(Some(system.deals[plan].target))
    ensures Stacked(system, stages[plan := Open], Height(system.deals[plan].baseline))
  {
    var after := stages[plan := Open];
    forall other | Done(after, other)
      ensures Done(stages, other) && Height(Some(system.deals[other].target)) <= Height(system.deals[plan].baseline)
    {
      assert other != plan && Done(stages, other);
      assert Apart(system.deals[other], system.deals[plan]);
    }
  }

  lemma HeightOfActive(nodes: Nodes, choice: Option<Snapshot>)
    ensures ActiveIs(nodes, choice) && (choice.Some? ==> Decoded(choice.value)) ==> ActiveHeight(nodes) == Height(choice)
  {
  }

  lemma SelectingStacks(system: System, before: World, event: Event, after: World)
    requires Next(system, before, event, after) && Selecting(event) && !StepsDown(system, event)
    requires Plain(system, before.nodes, system.deals[event.plan])
    requires Stacked(system, before.stages, ActiveHeight(before.nodes))
    ensures Stacked(system, after.stages, ActiveHeight(after.nodes))
  {
    var deal := system.deals[event.plan];
    if event.Commit? {
      HeightOfActive(before.nodes, deal.baseline);
      HeightOfActive(after.nodes, Some(deal.target));
      CommitStacks(system, before.stages, event.plan, ActiveHeight(before.nodes));
    } else {
      HeightOfActive(before.nodes, Some(deal.target));
      HeightOfActive(after.nodes, deal.baseline);
      RestoreStacks(system, before.stages, event.plan, ActiveHeight(before.nodes));
    }
  }

  lemma OthersStack(system: System, before: World, event: Event, after: World)
    requires Next(system, before, event, after) && !Selecting(event)
    requires Stacked(system, before.stages, ActiveHeight(before.nodes))
    ensures Stacked(system, after.stages, ActiveHeight(after.nodes))
  {
    assert ActiveHeight(before.nodes) == ActiveHeight(after.nodes);
    assert forall plan | Done(after.stages, plan) :: Done(before.stages, plan);
  }

  lemma {:induction false} AlwaysStacked(system: System, worlds: seq<World>, events: seq<Event>, n: nat)
    requires Run(system, worlds, events) && n < |worlds|
    requires forall k | 0 <= k < n :: !StepsDown(system, events[k])
    ensures Stacked(system, worlds[n].stages, ActiveHeight(worlds[n].nodes))
  {
    if n > 0 {
      AlwaysStacked(system, worlds, events, n - 1);
      var before, event, after := worlds[n - 1], events[n - 1], worlds[n];
      assert Next(system, before, event, after);
      if Selecting(event) {
        AlwaysDealt(system, worlds, events, n - 1, event.plan);
        SelectingStacks(system, before, event, after);
      } else {
        OthersStack(system, before, event, after);
      }
    }
  }

  lemma {:induction false} StaysDone(system: System, worlds: seq<World>, events: seq<Event>, i: nat, n: nat)
    requires Run(system, worlds, events) && i < n < |worlds| && events[i].Commit?
    requires forall k | i < k < n :: events[k] != Restore(events[i].plan)
    ensures Done(worlds[n].stages, events[i].plan)
    decreases n
  {
    assert Next(system, worlds[n - 1], events[n - 1], worlds[n]);
    if n > i + 1 {
      StaysDone(system, worlds, events, i, n - 1);
    }
  }

  /** While no commit steps down, a committed plan that was not restored keeps its baseline out of
      force, and so every other plan of that baseline from committing. */
  lemma AtMostOneCommits(system: System, worlds: seq<World>, events: seq<Event>, i: nat, n: nat, plan: nat)
    requires Run(system, worlds, events) && i < n < |worlds| && events[i].Commit?
    requires forall k | 0 <= k < n :: !StepsDown(system, events[k])
    requires forall k | i < k < n :: events[k] != Restore(events[i].plan)
    requires events[i].plan in system.deals && plan in worlds[n].stages && worlds[n].stages[plan] == Open
    requires plan in system.deals ==>
               SameChoice(system.deals[plan].baseline, system.deals[events[i].plan].baseline)
    ensures !CanCommit(system, worlds[n], plan)
  {
    CommitsExactlyWhenActive(system, worlds, events, n, plan);
    AlwaysStacked(system, worlds, events, n);
    StaysDone(system, worlds, events, i, n);
    AlwaysDealt(system, worlds, events, n, events[i].plan);
    HeightOfActive(worlds[n].nodes, system.deals[events[i].plan].baseline);
  }

  /** Two plans of one baseline both commit only if the first was restored in between, or a commit
      stepped down to an older generation: a reselected plan's, since a plan prepared goes up. */
  lemma TwoCommitsNeedARestoration(system: System, worlds: seq<World>, events: seq<Event>, i: nat, j: nat)
    returns (k: nat)
    requires Run(system, worlds, events) && i < j < |events|
    requires events[i].Commit? && events[j].Commit?
    requires events[i].plan in system.deals && events[j].plan in system.deals
    requires SameChoice(system.deals[events[j].plan].baseline, system.deals[events[i].plan].baseline)
    ensures k < j
    ensures || (i < k && events[k] == Restore(events[i].plan))
            || (StepsDown(system, events[k]) && exists m | 0 <= m < k :: events[m] == Reselect(events[k].plan))
  {
    if down: nat :| down < j && StepsDown(system, events[down]) {
      k := down;
      assert Next(system, worlds[k], events[k], worlds[k + 1]);
      var m := MadeBefore(system, worlds, events, k, events[k].plan);
    } else {
      assert Next(system, worlds[j], events[j], worlds[j + 1]);
      assert CanCommit(system, worlds[j], events[j].plan);
      if forall k | i < k < j :: events[k] != Restore(events[i].plan) {
        AtMostOneCommits(system, worlds, events, i, j, events[j].plan);
        assert false;
      }
      k :| i < k < j && events[k] == Restore(events[i].plan);
    }
  }

  lemma {:induction false} MadeBefore(system: System, worlds: seq<World>, events: seq<Event>, n: nat, plan: nat)
    returns (m: nat)
    requires Run(system, worlds, events) && n < |worlds| && plan in worlds[n].stages
    ensures m < n && plan in system.deals && (events[m] == Prepare(plan) || events[m] == Reselect(plan))
    ensures Height(Some(system.deals[plan].target)) <= Height(system.deals[plan].baseline) ==> events[m] == Reselect(plan)
  {
    assert n > 0;
    assert Next(system, worlds[n - 1], events[n - 1], worlds[n]);
    if plan in worlds[n - 1].stages {
      m := MadeBefore(system, worlds, events, n - 1, plan);
    } else {
      m := n - 1;
    }
  }

  // How acsetup's commands use the writer.

  predicate Makes(event: Event, plan: nat) {
    event == Prepare(plan) || event == Reselect(plan)
  }

  /** Step `m` made the plan that step `n` commits, and no other transaction came between. */
  predicate MadeJustBefore(events: seq<Event>, m: nat, n: nat) {
    && m < n < |events| && events[n].Commit? && Makes(events[m], events[n].plan)
    && forall k | m < k < n :: events[k].Other?
  }

  /** Each command plans and commits under one lock, and reselects only for the slot its baseline
      does not use; a baseline may have been read long before. */
  ghost predicate Serial(system: System, events: seq<Event>) {
    && (forall n: nat | n < |events| && events[n].Commit? :: exists m: nat :: MadeJustBefore(events, m, n))
    && (forall n: nat | n < |events| && events[n].Reselect? ::
          && events[n].plan in system.deals && system.deals[events[n].plan].baseline.Some?
          && system.deals[events[n].plan].baseline.value.selection.slot
             != system.deals[events[n].plan].target.selection.slot)
  }

  /** When commands run one at a time, and every plan that committed since was prepared afresh, a
      second plan of a baseline already succeeded can commit exactly when a restoration, and nothing
      after it, brought that baseline back, and no temporary of its generation was left behind. */
  lemma PreparedPlansNeedARestoration(
    system: System, worlds: seq<World>, events: seq<Event>, i: nat, n: nat, plan: nat)
    requires Run(system, worlds, events) && Serial(system, events) && i < n < |worlds|
    requires events[i].Commit? && events[i].plan in system.deals
    requires plan in worlds[n].stages && worlds[n].stages[plan] == Open
    requires plan in system.deals ==>
               SameChoice(system.deals[events[i].plan].baseline, system.deals[plan].baseline)
    requires forall k: nat, m: nat | i <= k < n && MadeJustBefore(events, m, k) :: events[m].Prepare?
    ensures plan in system.deals
    ensures CanCommit(system, worlds[n], plan)
            <==> && Clear(system, worlds[n].nodes, plan)
                 && exists k | i < k < n :: events[k].Restore? && LastChose(system, events, k, n, system.deals[plan].baseline)
  {
    CommitsExactlyOnItsBaseline(system, worlds, events, i, n, plan);
    var baseline := system.deals[plan].baseline;
    BaselineWasActive(system, worlds, events, i, baseline);
    if k: nat :| i <= k < n && LastChose(system, events, k, n, baseline) {
      if events[k].Commit? {
        FreshIsAnother(system, worlds, events, i, k, baseline);
      }
      assert i < k && events[k].Restore?;
    }
  }

  lemma BaselineWasActive(
    system: System, worlds: seq<World>, events: seq<Event>, i: nat, choice: Option<Snapshot>)
    requires Run(system, worlds, events) && i < |events| && events[i].Commit? && events[i].plan in system.deals
    requires SameChoice(system.deals[events[i].plan].baseline, choice)
    ensures ActiveIs(worlds[i].nodes, choice)
  {
    assert Next(system, worlds[i], events[i], worlds[i + 1]);
  }

  /** A commit of a plan prepared just before it selects no choice that was in force earlier. */
  lemma FreshIsAnother(
    system: System, worlds: seq<World>, events: seq<Event>, i: nat, k: nat, choice: Option<Snapshot>)
    requires Run(system, worlds, events) && Serial(system, events) && i <= k < |events|
    requires events[i].Commit? && events[k].Commit? && ActiveIs(worlds[i].nodes, choice)
    requires forall m: nat | MadeJustBefore(events, m, k) :: events[m].Prepare?
    ensures events[k].plan in system.deals
    ensures !SameChoice(choice, Some(system.deals[events[k].plan].target))
  {
    var m: nat :| MadeJustBefore(events, m, k);
    assert Next(system, worlds[m], events[m], worlds[m + 1]);
    AlwaysSound(system, worlds, events, i);
    if choice.Some? {
      var selection := worlds[i].nodes[Active].selection;
      assert Prepared(worlds[i].nodes, selection);
      if i <= m {
        NothingLost(system, worlds, events, i, m);
        PreparedStays(worlds[i].nodes, worlds[m].nodes, selection);
      } else {
        assert i == k;
        ActiveStays(system, worlds, events, m, i);
        AlwaysSound(system, worlds, events, m);
      }
    }
  }

  // The installation of the counterexample: generations one by one, slots in turn.

  const DOCUMENT: Content := ConfigFile(Document(None, false, true, "{}"))

  function SlotOf(generation: nat): Slot {
    if generation % 2 == 1 then A else B
  }

  function Programs(slot: Slot): Content {
    Material(if slot.A? then "programs of A" else "programs of B")
  }

  function Numbered(generation: nat): Selection {
    var slot := SlotOf(generation);
    Selection(slot, generation, Sha256(Programs(slot)), Reference(Config(generation), Sha256(DOCUMENT)), None)
  }

  function Held(generation: nat): Snapshot {
    Snapshot(0, Numbered(generation), SelectionFile(Numbered(generation)), DOCUMENT, None)
  }

  /** Generations 1 to `made` are there, and `active` is selected. */
  function Installation(active: nat, made: nat): Nodes {
    if made == 0 then
      map[Active := SelectionFile(Numbered(active)), Members(A) := Programs(A), Members(B) := Programs(B)]
    else WithGeneration(Installation(active, made - 1), made)
  }

  function WithGeneration(nodes: Nodes, generation: nat): Nodes {
    nodes[GenerationFolder(generation) := Folder]
         [Config(generation) := DOCUMENT]
         [Candidate(generation) := SelectionFile(Numbered(generation))]
  }

  predicate IsLaid(path: Path, made: nat) {
    match path
    case Active => true
    case Members(_) => true
    case GenerationFolder(generation) => 1 <= generation <= made
    case Config(generation) => 1 <= generation <= made
    case Candidate(generation) => 1 <= generation <= made
    case _ => false
  }

  function LaidContent(path: Path, active: nat): Content {
    match path
    case Active => SelectionFile(Numbered(active))
    case Members(slot) => Programs(slot)
    case Config(_) => DOCUMENT
    case Candidate(generation) => SelectionFile(Numbered(generation))
    case _ => Folder
  }

  ghost predicate Laid(nodes: Nodes, active: nat, made: nat) {
    && (forall path :: path in nodes <==> IsLaid(path, made))
    && forall path | path in nodes :: nodes[path] == LaidContent(path, active)
  }

  lemma LaidMore(nodes: Nodes, active: nat, made: nat)
    requires Laid(nodes, active, made)
    ensures Laid(WithGeneration(nodes, made + 1), active, made + 1)
  {
    var more := WithGeneration(nodes, made + 1);
    forall path
      ensures path in more <==> IsLaid(path, made + 1)
      ensures path in more ==> more[path] == LaidContent(path, active)
    {
      assert path in nodes <==> IsLaid(path, made);
      assert path in nodes ==> nodes[path] == LaidContent(path, active);
    }
  }

  lemma NothingMadeIsLaid(active: nat)
    ensures Laid(Installation(active, 0), active, 0)
  {
    var nodes := Installation(active, 0);
    forall path
      ensures path in nodes <==> IsLaid(path, 0)
    {
      assert path.Members? ==> path.slot == A || path.slot == B;
    }
  }

  lemma {:induction false} InstallationIsLaid(active: nat, made: nat)
    ensures Laid(Installation(active, made), active, made)
  {
    if made == 0 {
      NothingMadeIsLaid(active);
    } else {
      InstallationIsLaid(active, made - 1);
      LaidMore(Installation(active, made - 1), active, made - 1);
    }
  }

  lemma LaidIsSound(nodes: Nodes, active: nat, made: nat)
    requires Laid(nodes, active, made) && 1 <= active <= made
    ensures Sound(nodes) && BaselineHolds(0, nodes, Some(Held(active)))
    ensures forall other: nat | 1 <= other <= made ::
              Prepared(nodes, Numbered(other)) && MembersOf(nodes, Numbered(other)) && Loads(0, nodes, Held(other))
  {
    assert forall generation: nat :: Candidate(generation) in nodes ==> 1 <= generation <= made;
  }

  /** The next generation, prepared while `active` is selected. */
  lemma PrepareStep(system: System, before: World, plan: nat, active: nat, made: nat, after: World)
    requires system.root == 0 && 1 <= active <= made && plan in system.deals && plan !in before.stages
    requires system.deals[plan] == Deal(Some(Held(active)), Held(made + 1))
    requires Laid(before.nodes, active, made) && Laid(after.nodes, active, made + 1)
    requires after.stages == before.stages[plan := Open]
    ensures Next(system, before, Prepare(plan), after)
  {
    LaidIsSound(after.nodes, active, made + 1);
  }

  /** Generation 1 is the only one of slot A while there are two. */
  lemma ReselectStep(system: System, before: World, plan: nat, after: World)
    requires system.root == 0 && plan in system.deals && plan !in before.stages
    requires system.deals[plan] == Deal(Some(Held(2)), Held(1))
    requires Laid(before.nodes, 2, 2) && after == World(before.nodes, before.stages[plan := Open])
    ensures Next(system, before, Reselect(plan), after)
  {
    LaidIsSound(before.nodes, 2, 2);
    OnlyGenerationOne(before.nodes);
  }

  lemma OnlyGenerationOne(nodes: Nodes)
    requires Laid(nodes, 2, 2)
    ensures forall other: nat :: Reselectable(nodes, A, other) <==> other == 1
  {
    forall other: nat | Reselectable(nodes, A, other)
      ensures other == 1
    {
      assert IsLaid(Candidate(other), 2);
      assert nodes[Candidate(other)] == SelectionFile(Numbered(other));
    }
  }

  lemma CommitStep(system: System, before: World, plan: nat, active: nat, target: nat, made: nat, after: World)
    requires system.root == 0 && 1 <= active <= made && 1 <= target <= made
    requires plan in system.deals && plan in before.stages && before.stages[plan] == Open
    requires system.deals[plan] == Deal(Some(Held(active)), Held(target))
    requires Laid(before.nodes, active, made) && Laid(after.nodes, target, made)
    requires after.stages == before.stages[plan := Committed]
    ensures Next(system, before, Commit(plan), after)
  {
    LaidIsSound(before.nodes, active, made);
    LaidIsSound(after.nodes, target, made);
  }

  function Overtaken(): System {
    System(0, map[0 := Deal(Some(Held(1)), Held(2)), 1 := Deal(Some(Held(2)), Held(1)),
                  2 := Deal(Some(Held(1)), Held(3))])
  }

  lemma OvertakenDeals(system: System)
    requires system == Overtaken()
    ensures system.root == 0 && system.deals.Keys == {0, 1, 2}
    ensures system.deals[0] == Deal(Some(Held(1)), Held(2)) && system.deals[1] == Deal(Some(Held(2)), Held(1))
    ensures system.deals[2] == Deal(Some(Held(1)), Held(3))
  {
  }

  ghost predicate At(world: World, active: nat, made: nat, stages: map<nat, Stage>) {
    Laid(world.nodes, active, made) && world.stages == stages
  }

  lemma WorldAt(active: nat, made: nat, stages: map<nat, Stage>) returns (world: World)
    ensures At(world, active, made, stages)
  {
    InstallationIsLaid(active, made);
    world := World(Installation(active, made), stages);
  }

  lemma OnePrepared(system: System, worlds: seq<World>, events: seq<Event>, plan: nat, active: nat, made: nat)
    returns (more: seq<World>)
    requires Run(system, worlds, events) && system.root == 0 && 1 <= active <= made
    requires Laid(worlds[|events|].nodes, active, made) && plan !in worlds[|events|].stages
    requires plan in system.deals && system.deals[plan] == Deal(Some(Held(active)), Held(made + 1))
    ensures Run(system, more, events + [Prepare(plan)])
    ensures At(more[|events| + 1], active, made + 1, worlds[|events|].stages[plan := Open])
  {
    var before := worlds[|events|];
    var prepared := WorldAt(active, made + 1, before.stages[plan := Open]);
    PrepareStep(system, before, plan, active, made, prepared);
    RunLonger(system, worlds, events, Prepare(plan), prepared);
    more := worlds + [prepared];
  }

  lemma OneCommitted(
    system: System, worlds: seq<World>, events: seq<Event>, plan: nat, active: nat, target: nat, made: nat)
    returns (more: seq<World>)
    requires Run(system, worlds, events) && system.root == 0 && 1 <= active <= made && 1 <= target <= made
    requires Laid(worlds[|events|].nodes, active, made)
    requires plan in worlds[|events|].stages && worlds[|events|].stages[plan] == Open
    requires plan in system.deals && system.deals[plan] == Deal(Some(Held(active)), Held(target))
    ensures Run(system, more, events + [Commit(plan)])
    ensures At(more[|events| + 1], target, made, worlds[|events|].stages[plan := Committed])
  {
    var before := worlds[|events|];
    var committed := WorldAt(target, made, before.stages[plan := Committed]);
    CommitStep(system, before, plan, active, target, made, committed);
    RunLonger(system, worlds, events, Commit(plan), committed);
    more := worlds + [committed];
  }

  /** The next generation is prepared over `active` and committed. */
  lemma PreparedAndCommitted(
    system: System, worlds: seq<World>, events: seq<Event>, plan: nat, active: nat, made: nat)
    returns (more: seq<World>)
    requires Run(system, worlds, events) && system.root == 0 && 1 <= active <= made
    requires Laid(worlds[|events|].nodes, active, made) && plan !in worlds[|events|].stages
    requires plan in system.deals && system.deals[plan] == Deal(Some(Held(active)), Held(made + 1))
    ensures Run(system, more, events + [Prepare(plan)] + [Commit(plan)])
    ensures At(more[|events| + 2], made + 1, made + 1, worlds[|events|].stages[plan := Open][plan := Committed])
  {
    more := OnePrepared(system, worlds, events, plan, active, made);
    more := OneCommitted(system, more, events + [Prepare(plan)], plan, active, made + 1, made + 1);
  }

  /** Generation 1 is selected again over generation 2. */
  lemma ReselectedAndCommitted(system: System, worlds: seq<World>, events: seq<Event>, plan: nat)
    returns (more: seq<World>)
    requires Run(system, worlds, events) && system.root == 0
    requires Laid(worlds[|events|].nodes, 2, 2) && plan !in worlds[|events|].stages
    requires plan in system.deals && system.deals[plan] == Deal(Some(Held(2)), Held(1))
    ensures Run(system, more, events + [Reselect(plan)] + [Commit(plan)])
    ensures At(more[|events| + 2], 1, 2, worlds[|events|].stages[plan := Open][plan := Committed])
  {
    var before := worlds[|events|];
    var reselected := before.(stages := before.stages[plan := Open]);
    ReselectStep(system, before, plan, reselected);
    RunLonger(system, worlds, events, Reselect(plan), reselected);
    more := OneCommitted(system, worlds + [reselected], events + [Reselect(plan)], plan, 2, 1, 2);
  }

  lemma OvertakenRun(system: System) returns (worlds: seq<World>)
    requires system == Overtaken()
    ensures Run(system, worlds,
                [] + [Prepare(0)] + [Commit(0)] + [Reselect(1)] + [Commit(1)] + [Prepare(2)] + [Commit(2)])
  {
    OvertakenDeals(system);
    var first := WorldAt(1, 1, map[]);
    LaidIsSound(first.nodes, 1, 1);
    assert Run(system, [first], []);
    worlds := PreparedAndCommitted(system, [first], [], 0, 1, 1);
    worlds := ReselectedAndCommitted(system, worlds, [] + [Prepare(0)] + [Commit(0)], 1);
    worlds := PreparedAndCommitted(
      system, worlds, [] + [Prepare(0)] + [Commit(0)] + [Reselect(1)] + [Commit(1)], 2, 1, 2);
  }

  lemma OvertakenIsSerial(system: System, events: seq<Event>)
    requires system == Overtaken()
    requires events == [Prepare(0), Commit(0), Reselect(1), Commit(1), Prepare(2), Commit(2)]
    ensures Serial(system, events)
  {
    OvertakenDeals(system);
    assert MadeJustBefore(events, 0, 1) && MadeJustBefore(events, 2, 3) && MadeJustBefore(events, 4, 5);
    forall n: nat | n < |events| && events[n].Reselect?
      ensures events[n].plan == 1
    {
    }
  }

  // The installation with generation 1's temporary left behind by a commit that did not get to its rename.

  function Leftover(): System {
    System(0, map[0 := Deal(Some(Held(2)), Held(1)), 1 := Deal(Some(Held(2)), Held(1))])
  }

  lemma LeftoverDeals(system: System)
    requires system == Leftover()
    ensures system.root == 0 && 0 in system.deals && 1 in system.deals
    ensures system.deals[0] == system.deals[1] == Deal(Some(Held(2)), Held(1))
  {
  }

  lemma LaidWithLeftover(nodes: Nodes, left: Nodes)
    requires Laid(nodes, 2, 2) && left == nodes[ActiveTemporary(1) := Torn]
    ensures Between(nodes, left) && BaselineHolds(0, left, Some(Held(2)))
    ensures Prepared(left, Numbered(1)) && Loads(0, left, Held(1))
    ensures forall other: nat :: Reselectable(left, A, other) <==> Reselectable(nodes, A, other)
  {
    LaidIsSound(nodes, 2, 2);
    SoundMeanwhile(nodes, left);
  }

  /** Generation 1 is reselected, its commit crashes once it has written its temporary, and it is
      reselected again over the very same baseline: now it cannot commit. */
  lemma ALeftoverStopsReselecting() returns (system: System, worlds: seq<World>, events: seq<Event>)
    ensures Run(system, worlds, events) && events == [Reselect(0)] + [Other] + [Reselect(1)]
    ensures 1 in system.deals && 1 in worlds[3].stages && worlds[3].stages[1] == Open
    ensures ActiveIs(worlds[3].nodes, system.deals[1].baseline) && !CanCommit(system, worlds[3], 1)
    ensures ActiveTemporary(1) in worlds[3].nodes && worlds[3].nodes[ActiveTemporary(1)] == Torn
  {
    system := Leftover();
    LeftoverDeals(system);
    var first := WorldAt(2, 2, map[]);
    LaidIsSound(first.nodes, 2, 2);
    assert Run(system, [first], []);
    var second := first.(stages := first.stages[0 := Open]);
    ReselectStep(system, first, 0, second);
    RunLonger(system, [first], [], Reselect(0), second);
    assert [] + [Reselect(0)] == [Reselect(0)];
    var third := second.(nodes := second.nodes[ActiveTemporary(1) := Torn]);
    LaidWithLeftover(second.nodes, third.nodes);
    RunLonger(system, [first] + [second], [Reselect(0)], Other, third);
    var fourth := third.(stages := third.stages[1 := Open]);
    OnlyGenerationOne(second.nodes);
    RunLonger(system, [first] + [second] + [third], [Reselect(0)] + [Other], Reselect(1), fourth);
    worlds, events := [first] + [second] + [third] + [fourth], [Reselect(0)] + [Other] + [Reselect(1)];
    CommitsExactlyWhenActive(system, worlds, events, 3, 1);
  }

  /** The promise fails where a generation is reselected. An upgrade takes slot A's generation 1 to
      slot B's generation 2, a switch back reselects generation 1, and an edit whose baseline was read
      before the upgrade prepares and commits generation 3: both the upgrade and the edit succeeded
      generation 1, and nothing was restored. */
  lemma ReselectingLetsBothCommit() returns (system: System, worlds: seq<World>, events: seq<Event>)
    ensures Run(system, worlds, events) && Serial(system, events)
    ensures events == [Prepare(0), Commit(0), Reselect(1), Commit(1), Prepare(2), Commit(2)]
    ensures system.deals.Keys == {0, 1, 2}
    ensures system.deals[0].baseline == system.deals[2].baseline == Some(system.deals[1].target)
    ensures system.deals[0].target != system.deals[2].target
    ensures StepsDown(system, events[3])
  {
    system := Overtaken();
    OvertakenDeals(system);
    events := [Prepare(0), Commit(0), Reselect(1), Commit(1), Prepare(2), Commit(2)];
    OvertakenIsSerial(system, events);
    worlds := OvertakenRun(system);
    assert [] + [Prepare(0)] + [Commit(0)] + [Reselect(1)] + [Commit(1)] + [Prepare(2)] + [Commit(2)] == events;
  }
}
