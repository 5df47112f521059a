/** acsetup's sole configuration writer: immutable generations under `install/generations`, one
    atomic selection at `install/active.json`, and a restore that is open until a start is tried.

    Bytes are the value they encode: the JSON writer and reader are inverse, a write that did not
    finish is `Torn` and decodes as nothing, and sha256 is the content itself (no collisions). */
module Generations {
  import opened Outcomes
  import opened Disks

  const MAX_GENERATION: nat := 0xFFFF_FFFF_FFFF_FFFF

  datatype Slot = A | B

  datatype Path =
    | Active
    | ActiveTemporary(generation: nat)
    | RestoreTemporary(generation: nat)
    | GenerationFolder(generation: nat)
    | Config(generation: nat)
    | Provider(generation: nat)
    | Candidate(generation: nat)
    | RetainedActive(generation: nat)
    | Members(slot: Slot)
    | ProgramsCandidate(slot: Slot, unix: nat)
    | RetainedPrograms(slot: Slot, unix: nat)
    | Outside(name: string)
  {
    /** The files nothing ever takes away or replaces: those of the generations, and programs set
        aside. A slot's programs come and go, other programs own what is outside, and a temporary left
        behind is nobody's. */
    predicate Lasting() {
      GenerationFolder? || Config? || Provider? || Candidate? || RetainedActive? || RetainedPrograms?
    }
  }

  datatype Digest = Sha256(content: Content)

  datatype Reference = Reference(path: Path, sha256: Digest)

  datatype Selection = Selection(
    slot: Slot, generation: nat, members: Digest, config: Reference, provider: Option<Reference>)

  /** A configuration: the provider manifest it names, whether it has a `vision` section, whether its
      state root is absolute, there and outside both slots, the rest. */
  datatype Document = Document(manifest: Option<Path>, vision: bool, shared: bool, rest: string)

  datatype Content =
    | SelectionFile(selection: Selection)
    | ConfigFile(document: Document)
    | Material(text: string)
    | Rebased(source: Content)
    | Folder
    | Torn

  type Nodes = map<Path, Content>

  /** The inputs one process holds: the selection and the bytes it leads to. */
  datatype Snapshot = Snapshot(
    root: nat, selection: Selection, selectionBytes: Content, configBytes: Content,
    providerBytes: Option<Content>)

  /** What reading a selection finds, when every read succeeds. */
  function Load(root: nat, nodes: Nodes, bytes: Content): (loaded: Option<Snapshot>) {
    if !bytes.SelectionFile? then None
    else
      var selection := bytes.selection;
      var config := selection.config;
      if config.path !in nodes || !nodes[config.path].ConfigFile? || Sha256(nodes[config.path]) != config.sha256 then
        None
      else
        match (selection.provider, nodes[config.path].document.manifest)
        case (None, None) => Some(Snapshot(root, selection, bytes, nodes[config.path], None))
        case (Some(reference), Some(path)) =>
          if path == reference.path && path in nodes then
            Some(Snapshot(root, selection, bytes, nodes[config.path], Some(nodes[path])))
          else None
        case _ => None
  }

  /** What a prepared selection's bytes lead to they lead to for good: neither a transaction nor what
      happens between them can change it. */
  lemma LoadStays(root: nat, before: Nodes, after: Nodes, selection: Selection)
    requires Prepared(before, selection) && Lasts(before, after)
    requires Load(root, before, SelectionFile(selection)).Some?
    ensures Load(root, after, SelectionFile(selection)) == Load(root, before, SelectionFile(selection))
  {
  }

  predicate SameBytes(left: Snapshot, right: Snapshot) {
    && left.selectionBytes == right.selectionBytes
    && left.configBytes == right.configBytes
    && left.providerBytes == right.providerBytes
  }

  /** The selection, configuration and provider bytes in force are the snapshot's. */
  ghost predicate InForce(root: nat, nodes: Nodes, snapshot: Snapshot) {
    && Active in nodes
    && var current := Load(root, nodes, nodes[Active]);
       current.Some? && SameBytes(current.value, snapshot)
  }

  /** One configuration is in force at a time: of whatever snapshots, exactly those of its bytes. */
  lemma OneInForce(root: nat, nodes: Nodes, held: Snapshot, other: Snapshot)
    requires InForce(root, nodes, held)
    ensures InForce(root, nodes, other) <==> SameBytes(held, other)
  {
  }

  /** What a commit rests on: the baseline is in force, or with no baseline nothing is selected. */
  ghost predicate BaselineHolds(root: nat, nodes: Nodes, baseline: Option<Snapshot>) {
    match baseline
    case None => Active !in nodes
    case Some(held) => held.root == root && InForce(root, nodes, held)
  }

  /** A selection whose whole generation is on disk: its own record, its configuration under the
      recorded sha256, and its provider manifest if it has one. */
  ghost predicate Prepared(nodes: Nodes, selection: Selection) {
    var generation := selection.generation;
    && Candidate(generation) in nodes && nodes[Candidate(generation)] == SelectionFile(selection)
    && selection.config.path == Config(generation)
    && Config(generation) in nodes && nodes[Config(generation)].ConfigFile?
    && selection.config.sha256 == Sha256(nodes[Config(generation)])
    && (selection.provider.Some? ==>
          && selection.provider.value.path == Provider(generation)
          && Provider(generation) in nodes
          && selection.provider.value.sha256 == Sha256(nodes[Provider(generation)]))
  }

  /** active.json is absent or holds, whole, one prepared selection. */
  ghost predicate ActiveSound(nodes: Nodes) {
    Active in nodes ==> nodes[Active].SelectionFile? && Prepared(nodes, nodes[Active].selection)
  }

  /** Every complete candidate belongs to its own generation and is prepared. */
  ghost predicate CandidatesSound(nodes: Nodes) {
    forall generation: nat | Candidate(generation) in nodes && nodes[Candidate(generation)] != Torn ::
      && nodes[Candidate(generation)].SelectionFile?
      && nodes[Candidate(generation)].selection.generation == generation
      && Prepared(nodes, nodes[Candidate(generation)].selection)
  }

  ghost predicate Sound(nodes: Nodes) {
    ActiveSound(nodes) && CandidatesSound(nodes)
  }

  /** No file but active.json is removed or changed: what every call of the writer keeps. */
  ghost predicate Intact(before: Nodes, after: Nodes) {
    forall path | path in before && !path.Active? :: path in after && after[path] == before[path]
  }

  /** No lasting file is removed or changed: what holds whoever else was at work. */
  ghost predicate Lasts(before: Nodes, after: Nodes) {
    forall path: Path | path in before && path.Lasting() :: path in after && after[path] == before[path]
  }

  ghost predicate SameActive(before: Nodes, after: Nodes) {
    (Active in before <==> Active in after) && (Active in before ==> after[Active] == before[Active])
  }

  /** A state a run may leave without having selected anything. */
  ghost predicate Quiet(before: Nodes, after: Nodes) {
    Sound(after) && Intact(before, after) && SameActive(before, after)
  }

  /** What may happen between the writer's calls: a slot's programs replaced, anything outside changed,
      temporaries gone, and no more. */
  ghost predicate Between(before: Nodes, after: Nodes) {
    Sound(after) && Lasts(before, after) && SameActive(before, after)
  }

  /** active.json holds what the baseline says. */
  ghost predicate ActiveIs(nodes: Nodes, baseline: Option<Snapshot>) {
    match baseline
    case None => Active !in nodes
    case Some(held) => Active in nodes && nodes[Active] == held.selectionBytes
  }

  lemma PreparedStays(before: Nodes, after: Nodes, selection: Selection)
    requires Prepared(before, selection) && Lasts(before, after)
    ensures Prepared(after, selection)
  {
  }

  lemma QuietTwice(first: Nodes, second: Nodes, third: Nodes)
    requires Quiet(first, second) && Quiet(second, third)
    ensures Quiet(first, third)
  {
  }

  lemma AddIsQuiet(before: Nodes, path: Path, after: Nodes)
    requires Sound(before)
    requires path !in before && !path.Active? && path in after && after == before[path := after[path]]
    requires path.Candidate? ==>
               || after[path] == Torn
               || (after[path].SelectionFile? && after[path].selection.generation == path.generation
                   && Prepared(after, after[path].selection))
    ensures Quiet(before, after)
  {
    forall selection | Prepared(before, selection)
      ensures Prepared(after, selection)
    {
      PreparedStays(before, after, selection);
    }
  }

  /** Every state recorded from `mark` on selects what `start` does and has lost nothing of it. */
  ghost predicate QuietSince(start: Nodes, past: seq<Nodes>, mark: nat) {
    mark <= |past| && forall k | mark <= k < |past| :: Quiet(start, past[k])
  }

  lemma QuietLonger(start: Nodes, middle: Nodes, seen: seq<Nodes>, past: seq<Nodes>, mark: nat)
    requires Quiet(start, middle)
    requires QuietSince(start, seen, mark)
    requires seen <= past && QuietSince(middle, past, |seen|)
    ensures QuietSince(start, past, mark)
  {
    forall k | mark <= k < |past|
      ensures Quiet(start, past[k])
    {
      if k < |seen| {
        assert past[k] == seen[k];
      } else {
        QuietTwice(start, middle, past[k]);
      }
    }
  }

  ghost predicate QuietRun(start: Nodes, nodes: Nodes, past: seq<Nodes>, mark: nat) {
    Quiet(start, nodes) && QuietSince(start, past, mark)
  }

  /** A generation's configuration is its source, but that a provider manifest is its own copy. */
  function Carried(source: Document, generation: nat): Document {
    source.(manifest := if source.manifest.None? then None else Some(Provider(generation)))
  }

  /** What a document's provider manifest holds, its paths made absolute; nothing when it names none,
      or one that is no file written whole. */
  function Manifest(nodes: Nodes, source: Document): Option<Content> {
    if && source.manifest.Some? && source.manifest.value in nodes
       && nodes[source.manifest.value] != Folder && nodes[source.manifest.value] != Torn
    then Some(Rebased(nodes[source.manifest.value]))
    else None
  }

  /** A fresh folder is no manifest. */
  lemma ManifestBeside(nodes: Nodes, source: Document, generation: nat)
    requires GenerationFolder(generation) !in nodes
    ensures Manifest(nodes[GenerationFolder(generation) := Folder], source) == Manifest(nodes, source)
  {
  }

  /** The provider copy is whole and says what the source's manifest said, or there is none of either. */
  ghost predicate CarriesProvider(before: Nodes, source: Document, snapshot: Snapshot) {
    && snapshot.providerBytes == Manifest(before, source)
    && (source.manifest.Some? <==> snapshot.providerBytes.Some?)
  }

  function Later(next: nat, now: nat): nat {
    if next < now then now else next
  }

  /** A selection names its slot's programs as they are. */
  predicate MembersOf(nodes: Nodes, selection: Selection) {
    Members(selection.slot) in nodes && selection.members == Sha256(nodes[Members(selection.slot)])
  }

  lemma SoundMeanwhile(before: Nodes, after: Nodes)
    requires Sound(before) && Lasts(before, after)
    requires forall generation: nat :: Candidate(generation) in after ==> Candidate(generation) in before
    ensures CandidatesSound(after)
    ensures SameActive(before, after) ==> Between(before, after)
  {
    forall selection | Prepared(before, selection)
      ensures Prepared(after, selection)
    {
      PreparedStays(before, after, selection);
    }
  }

  /** The rename of a temporary written whole selects what it holds and loses nothing of what was there
      before it was written. */
  lemma RenameSelects(start: Nodes, before: Nodes, temporary: Path, selection: Selection)
    requires Sound(start) && Prepared(start, selection)
    requires (temporary.ActiveTemporary? || temporary.RestoreTemporary?) && temporary !in start
    requires before == start[temporary := SelectionFile(selection)]
    ensures var after := Moved(before, temporary, Active);
            Sound(after) && Intact(start, after) && after[Active] == SelectionFile(selection)
  {
    var after := Moved(before, temporary, Active);
    SoundMeanwhile(start, after);
    PreparedStays(start, after, selection);
  }

  /** A first selection set aside under a free name leaves no selection and loses nothing. */
  lemma RetainUnselects(before: Nodes, retained: Path)
    requires Sound(before) && Active in before && retained.RetainedActive? && retained !in before
    ensures var after := Moved(before, Active, retained);
            Sound(after) && Intact(before, after) && Active !in after
  {
    SoundMeanwhile(before, Moved(before, Active, retained));
  }

  /** A committed step: the baseline was in force just before, no temporary stood in the way, and the
      target is selected. */
  ghost predicate Selects(root: nat, before: Nodes, baseline: Option<Snapshot>, target: Snapshot, after: Nodes) {
    && Sound(after) && Intact(before, after)
    && BaselineHolds(root, before, baseline) && ActiveTemporary(target.selection.generation) !in before
    && ActiveIs(after, Some(target))
  }

  /** What a restoration of this target first creates beside active.json. */
  function Beside(baseline: Option<Snapshot>, target: Snapshot): Path {
    var generation := target.selection.generation;
    if baseline.None? then RetainedActive(generation) else RestoreTemporary(generation)
  }

  /** A restoring step: the target was selected just before, the name it needs was free, and the
      baseline's bytes are back. */
  ghost predicate Returns(before: Nodes, baseline: Option<Snapshot>, target: Snapshot, after: Nodes) {
    && Sound(after) && Intact(before, after)
    && ActiveIs(before, Some(target)) && Beside(baseline, target) !in before
    && ActiveIs(after, baseline)
  }

  /** A numbered generation that holds a candidate. */
  ghost predicate Listed(nodes: Nodes, generation: nat) {
    GenerationFolder(generation) in nodes && Candidate(generation) in nodes
  }

  /** A listed generation prepared for the programs `slot` holds now. */
  ghost predicate Reselectable(nodes: Nodes, slot: Slot, generation: nat) {
    && Listed(nodes, generation) && Members(slot) in nodes
    && nodes[Candidate(generation)].SelectionFile?
    && nodes[Candidate(generation)].selection.slot == slot
    && nodes[Candidate(generation)].selection.members == Sha256(nodes[Members(slot)])
  }

  /** A snapshot's selection leads to the bytes the snapshot holds. */
  ghost predicate Loads(root: nat, nodes: Nodes, snapshot: Snapshot) {
    var loaded := Load(root, nodes, snapshot.selectionBytes);
    loaded.Some? && SameBytes(loaded.value, snapshot)
  }

  /** A prepared snapshot loads the same as long as the lasting files do. */
  lemma LoadsStay(root: nat, before: Nodes, after: Nodes, snapshot: Snapshot)
    requires Decoded(snapshot) && Prepared(before, snapshot.selection) && Lasts(before, after)
    requires Loads(root, before, snapshot)
    ensures Loads(root, after, snapshot)
  {
    LoadStays(root, before, after, snapshot.selection);
  }

  /** A baseline in force is in force, or one with nothing selected still has nothing, while active.json
      and the lasting files stay. */
  lemma BaselineStays(root: nat, before: Nodes, after: Nodes, baseline: Option<Snapshot>)
    requires Sound(before) && BaselineHolds(root, before, baseline)
    requires Lasts(before, after) && SameActive(before, after)
    ensures BaselineHolds(root, after, baseline)
  {
    if baseline.Some? {
      LoadStays(root, before, after, before[Active].selection);
    }
  }

  /** Where a slot's previous programs are: in their place, or kept under a name that was free. */
  ghost predicate ProgramsKept(before: Nodes, after: Nodes, slot: Slot, unix: nat) {
    Members(slot) in before ==>
      || (Members(slot) in after && after[Members(slot)] == before[Members(slot)])
      || (&& RetainedPrograms(slot, unix) !in before && RetainedPrograms(slot, unix) in after
          && after[RetainedPrograms(slot, unix)] == before[Members(slot)])
  }

  /** Of these states only the names of `slot`'s programs differ, and its previous ones are kept. */
  ghost predicate Materializing(before: Nodes, after: Nodes, slot: Slot, unix: nat, later: nat) {
    var own := {Members(slot), ProgramsCandidate(slot, unix), RetainedPrograms(slot, later)};
    && after - own == before - own && ProgramsKept(before, after, slot, later)
    && (RetainedPrograms(slot, later) in before ==>
          RetainedPrograms(slot, later) in after
          && after[RetainedPrograms(slot, later)] == before[RetainedPrograms(slot, later)])
  }

  /** No selection, or one of another slot. */
  ghost predicate Spare(nodes: Nodes, slot: Slot) {
    Active in nodes ==> nodes[Active].SelectionFile? && nodes[Active].selection.slot != slot
  }

  /** Replacing a slot's programs keeps what lasts, and the selection. */
  lemma MaterializingIsBetween(before: Nodes, after: Nodes, slot: Slot, unix: nat, later: nat)
    requires Sound(before) && Materializing(before, after, slot, unix, later)
    ensures Between(before, after)
    ensures forall other: Slot | other != slot ::
              (Members(other) in before <==> Members(other) in after)
              && (Members(other) in before ==> after[Members(other)] == before[Members(other)])
  {
    var own := {Members(slot), ProgramsCandidate(slot, unix), RetainedPrograms(slot, later)};
    forall path | path !in own
      ensures (path in before <==> path in after) && (path in before ==> after[path] == before[path])
    {
      assert path in before <==> path in before - own;
      assert path in after <==> path in after - own;
    }
    SoundMeanwhile(before, after);
  }

  /** A snapshot's selection is what its bytes say. */
  predicate Decoded(snapshot: Snapshot) {
    snapshot.selectionBytes == SelectionFile(snapshot.selection)
  }

  /** What is asked of others while a generation is prepared: whether the slot's lock is to be had, whether
      the provider's libraries lie in the slot's tools, whether the document qualifies, and whether the
      slot's own program accepts it. */
  datatype Answers = Answers(locks: bool, carries: bool, qualifies: bool, accepts: bool)

  /** The names a new generation fills are free, its slot has programs, and its source's manifest, if it
      names one, can be carried. */
  ghost predicate CanWrite(nodes: Nodes, generation: nat, slot: Slot, source: Document, answers: Answers) {
    && GenerationFolder(generation) !in nodes && Config(generation) !in nodes && Candidate(generation) !in nodes
    && Members(slot) in nodes && answers.qualifies && answers.accepts
    && (source.manifest.Some? ==>
          Provider(generation) !in nodes && Manifest(nodes, source).Some? && answers.carries)
  }

  function NextGeneration(baseline: Option<Snapshot>, now: nat): nat {
    Later(if baseline.Some? then baseline.value.selection.generation + 1 else 1, now)
  }

  /** It is the least number past the baseline's that the clock has not passed. */
  lemma NextGenerationIsLeast(baseline: Option<Snapshot>, now: nat, other: nat)
    ensures var past := if baseline.Some? then baseline.value.selection.generation else 0;
            && NextGeneration(baseline, now) > past && NextGeneration(baseline, now) >= now
            && (other > past && other >= now ==> NextGeneration(baseline, now) <= other)
  {
  }

  /** The slot's Runtime reads the document's shape, its state is shared by both slots, and there is a
      number left for a successor. */
  predicate MayPrepare(baseline: Option<Snapshot>, source: Document, predatesVision: bool) {
    && (if predatesVision then !source.vision else source.manifest.None?) && source.shared
    && (baseline.Some? ==> baseline.value.selection.generation < MAX_GENERATION)
  }

  class Plan {
    const snapshot: Snapshot
    const baseline: Option<Snapshot>
    const candidate: Path
    var committed: bool
    var startAttempted: bool

    constructor (snapshot: Snapshot, baseline: Option<Snapshot>, candidate: Path)
      ensures this.snapshot == snapshot && this.baseline == baseline && this.candidate == candidate
      ensures !committed && !startAttempted
    {
      this.snapshot, this.baseline, this.candidate := snapshot, baseline, candidate;
      committed, startAttempted := false, false;
    }

    /** What preparing and reselecting settle once: both sides of the plan are prepared selections. */
    ghost predicate Settled(nodes: Nodes) {
      && Decoded(snapshot)
      && candidate == Candidate(snapshot.selection.generation)
      && Prepared(nodes, snapshot.selection) && Loads(snapshot.root, nodes, snapshot)
      && (baseline.Some? ==>
            && baseline.value.root == snapshot.root && Decoded(baseline.value)
            && Prepared(nodes, baseline.value.selection) && Loads(snapshot.root, nodes, baseline.value))
    }

    /** Inside the transaction: the plan's selection once committed, the baseline's otherwise. */
    ghost predicate Live(nodes: Nodes)
      reads this
    {
      if committed then Active in nodes && nodes[Active] == snapshot.selectionBytes
      else ActiveIs(nodes, baseline)
    }

    method MarkStartAttempt() returns (ok: bool)
      modifies this`startAttempted
      ensures ok == committed
      ensures startAttempted == (old(startAttempted) || committed)
    {
      if !committed {
        return false;
      }
      startAttempted := true;
      return true;
    }
  }

  lemma SettledStays(plan: Plan, before: Nodes, after: Nodes)
    requires plan.Settled(before) && Lasts(before, after)
    ensures plan.Settled(after)
  {
    PreparedStays(before, after, plan.snapshot.selection);
    LoadsStay(plan.snapshot.root, before, after, plan.snapshot);
    if plan.baseline.Some? {
      PreparedStays(before, after, plan.baseline.value.selection);
      LoadsStay(plan.snapshot.root, before, after, plan.baseline.value);
    }
  }

  /** A restoring step of this plan: its baseline's bytes are back and nothing else changed; of a plan
      of this installation, that is a whole selection again. */
  ghost predicate Back(root: nat, plan: Plan, before: Nodes, after: Nodes) {
    && Intact(before, after) && ActiveIs(after, plan.baseline)
    && (plan.snapshot.root == root ==> Returns(before, plan.baseline, plan.snapshot, after))
  }

  /** A snapshot found in force, or with none no selection at all, when `at` states had been recorded. */
  datatype Comparison = Comparison(at: nat, snapshot: Option<Snapshot>)

  /** The writer, holding the one installation lock: nothing else changes `disk` meanwhile. */
  class Writer {
    const root: nat
    const disk: Disk<Path, Content>

    /** The comparisons that came out even; kept for the proof only. */
    ghost var compared: seq<Comparison>

    constructor (root: nat, disk: Disk<Path, Content>)
      ensures this.root == root && this.disk == disk
    {
      this.root, this.disk := root, disk;
    }

    /** Compared in the state the disk is in. */
    ghost predicate ComparedNow(snapshot: Option<Snapshot>)
      reads this, disk
    {
      Comparison(|disk.past|, snapshot) in compared
    }

    /** Compared in the very state that the last step changed. */
    ghost predicate ComparedBefore(snapshot: Option<Snapshot>)
      reads this, disk
    {
      |disk.past| > 0 && Comparison(|disk.past| - 1, snapshot) in compared
    }

    /** A snapshot from given selection bytes; any of its reads may fail. */
    method FromBytes(bytes: Content) returns (loaded: Option<Snapshot>)
      ensures loaded.Some? ==> loaded == Load(root, disk.nodes, bytes)
      ensures disk.reliable ==> loaded == Load(root, disk.nodes, bytes)
    {
      var refused: bool := *;
      loaded := if refused && !disk.reliable then None else Load(root, disk.nodes, bytes);
    }

    /** The selection, configuration and provider bytes of the snapshot's own installation are still
        the snapshot's; of another installation nothing is known here. */
    method Unchanged(snapshot: Snapshot) returns (ok: bool)
      modifies this
      ensures ok && snapshot.root == root ==> InForce(root, disk.nodes, snapshot)
      ensures disk.reliable && snapshot.root == root && InForce(root, disk.nodes, snapshot) ==> ok
      ensures compared == old(compared) + if ok then [Comparison(|disk.past|, Some(snapshot))] else []
    {
      if snapshot.root != root {
        ok := *;
      } else {
        ok := HoldsHere(snapshot);
      }
      if ok {
        compared := compared + [Comparison(|disk.past|, Some(snapshot))];
      }
    }

    method HoldsHere(snapshot: Snapshot) returns (ok: bool)
      requires snapshot.root == root
      ensures ok ==> InForce(root, disk.nodes, snapshot)
      ensures disk.reliable && InForce(root, disk.nodes, snapshot) ==> ok
    {
      var active := disk.Read(Active);
      if active.None? {
        return false;
      }
      var current := FromBytes(active.value);
      if current.None? {
        return false;
      }
      ok := SameBytes(current.value, snapshot);
    }

    method CheckBaseline(baseline: Option<Snapshot>) returns (ok: bool)
      modifies this
      ensures ok ==> BaselineHolds(root, disk.nodes, baseline)
      ensures disk.reliable && BaselineHolds(root, disk.nodes, baseline) ==> ok
      ensures compared == old(compared) + if ok then [Comparison(|disk.past|, baseline)] else []
    {
      match baseline
      case Some(held) =>
        if held.root != root {
          return false;
        }
        ok := Unchanged(held);
      case None =>
        var presence := disk.Inspect(Active);
        ok := presence == Missing;
        if ok {
          compared := compared + [Comparison(|disk.past|, baseline)];
        }
    }

    /** A new file of a generation: it selects nothing and takes nothing away, finished or not.
        `start` is what the run found, and `mark` where it began to be recorded. */
    method Add(path: Path, content: Content, torn: Content, ghost start: Nodes, ghost mark: nat)
      returns (done: bool)
      requires QuietRun(start, disk.nodes, disk.past, mark)
      requires !path.Active?
      requires path.Candidate? ==>
                 && torn == Torn && content.SelectionFile? && content.selection.generation == path.generation
                 && Prepared(disk.nodes[path := content], content.selection)
      modifies disk
      ensures QuietRun(start, disk.nodes, disk.past, mark) && old(disk.past) <= disk.past
      ensures done ==> path !in old(disk.nodes) && disk.nodes == old(disk.nodes)[path := content]
      ensures disk.reliable && path !in old(disk.nodes) ==> done
    {
      ghost var middle, seen := disk.nodes, disk.past;
      done := disk.WriteNew(path, content, torn);
      forall state | state == disk.nodes || Unfinished(middle, path, torn, state)
        ensures Quiet(middle, state)
      {
        if state != middle {
          AddIsQuiet(middle, path, state);
        }
      }
      QuietLonger(start, middle, seen, disk.past, mark);
      QuietTwice(start, middle, disk.nodes);
    }

    /** A v0.11.1 slot's provider manifest, copied into the generation; the configuration names the
        copy. */
    method CarryProvider(generation: nat, document: Document, carries: bool, ghost start: Nodes, ghost mark: nat)
      returns (carried: Result<(Document, Option<Reference>)>)
      requires QuietRun(start, disk.nodes, disk.past, mark)
      modifies disk
      ensures QuietRun(start, disk.nodes, disk.past, mark) && old(disk.past) <= disk.past
      ensures carried.Ok? ==> carried.value.0 == Carried(document, generation)
      ensures carried.Ok? && document.manifest.None? ==> carried.value.1 == None && disk.nodes == old(disk.nodes)
      ensures carried.Ok? && document.manifest.Some? ==>
                && Provider(generation) !in old(disk.nodes) && Provider(generation) in disk.nodes
                && Some(disk.nodes[Provider(generation)]) == Manifest(old(disk.nodes), document)
                && carried.value.1 == Some(Reference(Provider(generation), Sha256(disk.nodes[Provider(generation)])))
                && disk.nodes == old(disk.nodes)[Provider(generation) := disk.nodes[Provider(generation)]]
                && carries
      ensures (disk.reliable && (document.manifest.Some? ==>
                 carries && Manifest(old(disk.nodes), document).Some? && Provider(generation) !in old(disk.nodes))) ==>
                carried.Ok?
    {
      if document.manifest.None? {
        return Ok((document, None));
      }
      var source := disk.Read(document.manifest.value);
      if !carries || source.None? || source.value == Folder || source.value == Torn {
        return Err;
      }
      var bytes := Rebased(source.value);
      var written := Add(Provider(generation), bytes, Torn, start, mark);
      if !written {
        return Err;
      }
      return Ok((document.(manifest := Some(Provider(generation))),
                 Some(Reference(Provider(generation), Sha256(bytes)))));
    }

    /** What a generation leads to: the provider copy, and the configuration that names it. */
    method WriteInputs(generation: nat, source: Document, answers: Answers, ghost start: Nodes, ghost mark: nat)
      returns (inputs: Result<(Content, Option<Reference>)>)
      requires QuietRun(start, disk.nodes, disk.past, mark)
      modifies disk
      ensures QuietRun(start, disk.nodes, disk.past, mark) && old(disk.past) <= disk.past
      ensures inputs.Ok? ==>
                var (configBytes, provider) := inputs.value;
                && configBytes == ConfigFile(Carried(source, generation)) && answers.qualifies
                && Config(generation) !in old(disk.nodes)
                && Config(generation) in disk.nodes && disk.nodes[Config(generation)] == configBytes
                && (provider.Some? <==> source.manifest.Some?)
                && (provider.Some? ==>
                      && answers.carries && Provider(generation) !in old(disk.nodes)
                      && Provider(generation) in disk.nodes
                      && Some(disk.nodes[Provider(generation)]) == Manifest(old(disk.nodes), source)
                      && provider.value == Reference(Provider(generation), Sha256(disk.nodes[Provider(generation)])))
                && forall path | path in old(disk.nodes) || path in disk.nodes ::
                     path.Config? || path.Provider? || (path in old(disk.nodes) && path in disk.nodes)
      ensures (disk.reliable && answers.qualifies && Config(generation) !in old(disk.nodes)
               && (source.manifest.Some? ==>
                     answers.carries && Manifest(old(disk.nodes), source).Some? && Provider(generation) !in old(disk.nodes)))
              ==> inputs.Ok?
    {
      var carried := CarryProvider(generation, source, answers.carries, start, mark);
      if carried.Err? || !answers.qualifies {
        return Err;
      }
      var (document, provider) := carried.value;
      var configBytes := ConfigFile(document);
      var done := Add(Config(generation), configBytes, Torn, start, mark);
      if !done {
        return Err;
      }
      return Ok((configBytes, provider));
    }

    /** The candidate, written last: a selection of the configuration and provider just written and of
        the slot's programs as they are, once it loads and the slot's own program accepts it. */
    method RecordSelection(
      generation: nat, slot: Slot, configBytes: Content, provider: Option<Reference>, accepts: bool,
      ghost start: Nodes, ghost mark: nat)
      returns (written: Option<Snapshot>)
      requires QuietRun(start, disk.nodes, disk.past, mark)
      requires Config(generation) in disk.nodes && disk.nodes[Config(generation)] == configBytes && configBytes.ConfigFile?
      requires provider.Some? ==>
                 && Provider(generation) in disk.nodes
                 && provider.value == Reference(Provider(generation), Sha256(disk.nodes[Provider(generation)]))
      modifies disk
      ensures QuietRun(start, disk.nodes, disk.past, mark) && old(disk.past) <= disk.past
      ensures written.Some? ==>
                var snapshot := written.value;
                && Candidate(generation) !in old(disk.nodes) && snapshot.root == root && Decoded(snapshot)
                && snapshot.selection.slot == slot && snapshot.selection.generation == generation
                && snapshot.configBytes == configBytes && Loads(root, disk.nodes, snapshot)
                && snapshot.providerBytes == (if provider.None? then None else Some(old(disk.nodes)[Provider(generation)]))
                && Prepared(disk.nodes, snapshot.selection) && MembersOf(disk.nodes, snapshot.selection)
      ensures written.Some? ==> accepts && Members(slot) in old(disk.nodes)
      ensures (&& disk.reliable && accepts
               && configBytes.document.manifest == (if provider.None? then None else Some(Provider(generation)))
               && Members(slot) in old(disk.nodes) && Candidate(generation) !in old(disk.nodes)) ==> written.Some?
    {
      var members := disk.Read(Members(slot));
      if members.None? {
        return None;
      }
      var selection := Selection(slot, generation, Sha256(members.value),
                                 Reference(Config(generation), Sha256(configBytes)), provider);
      var bytes := SelectionFile(selection);
      var loaded := FromBytes(bytes);
      if loaded.None? || !accepts {
        return None;
      }
      var done := Add(Candidate(generation), bytes, Torn, start, mark);
      return if done then loaded else None;
    }

    /** One fresh generation written whole: folder, provider copy, configuration, and last the
        candidate. */
    method WriteGeneration(generation: nat, slot: Slot, source: Document, answers: Answers)
      returns (written: Option<Snapshot>)
      requires Sound(disk.nodes)
      modifies disk
      ensures QuietRun(old(disk.nodes), disk.nodes, disk.past, |old(disk.past)|) && old(disk.past) <= disk.past
      ensures written.Some? ==>
                var snapshot := written.value;
                && GenerationFolder(generation) !in old(disk.nodes) && Candidate(generation) !in old(disk.nodes)
                && snapshot.root == root && snapshot.selection.slot == slot
                && snapshot.selection.generation == generation
                && Decoded(snapshot) && Loads(root, disk.nodes, snapshot)
                && Prepared(disk.nodes, snapshot.selection) && MembersOf(disk.nodes, snapshot.selection)
                && snapshot.configBytes == ConfigFile(Carried(source, generation))
                && CarriesProvider(old(disk.nodes), source, snapshot)
      ensures written.Some? ==> CanWrite(old(disk.nodes), generation, slot, source, answers)
      ensures disk.reliable && CanWrite(old(disk.nodes), generation, slot, source, answers) ==> written.Some?
    {
      ghost var start, mark := disk.nodes, |disk.past|;
      var done := Add(GenerationFolder(generation), Folder, Folder, start, mark);
      if !done {
        return None;
      }
      ManifestBeside(start, source, generation);
      var inputs := WriteInputs(generation, source, answers, start, mark);
      if inputs.Err? {
        return None;
      }
      var (configBytes, provider) := inputs.value;
      written := RecordSelection(generation, slot, configBytes, provider, answers.accepts, start, mark);
    }

    /** Whether a successor of `baseline` may be planned now, and its number. */
    method Admit(baseline: Option<Snapshot>, source: Document, predatesVision: bool, locks: bool, now: nat)
      returns (generation: Option<nat>)
      modifies this
      ensures generation.Some? ==>
                && BaselineHolds(root, disk.nodes, baseline) && MayPrepare(baseline, source, predatesVision) && locks
                && generation.value == NextGeneration(baseline, now)
      ensures (disk.reliable && BaselineHolds(root, disk.nodes, baseline)
               && MayPrepare(baseline, source, predatesVision) && locks) ==> generation.Some?
    {
      var holds := CheckBaseline(baseline);
      if !holds || !locks {
        return None;
      }
      if (source.manifest.Some? && !predatesVision) || (predatesVision && source.vision) || !source.shared {
        return None;
      }
      if baseline.Some? && baseline.value.selection.generation + 1 > MAX_GENERATION {
        return None;
      }
      var next := if baseline.Some? then baseline.value.selection.generation + 1 else 1;
      return Some(Later(next, now));
    }

    /** Plans a successor of `baseline`: a generation of its own, complete before it can be
        selected. `source` is the rebased document; `now` the clock. `null` is an error. */
    method Prepare(
      baseline: Option<Snapshot>, slot: Slot, source: Document, predatesVision: bool, answers: Answers, now: nat)
      returns (plan: Plan?)
      requires Sound(disk.nodes)
      requires baseline.Some? ==> Decoded(baseline.value)
      modifies this, disk
      ensures QuietRun(old(disk.nodes), disk.nodes, disk.past, |old(disk.past)|) && old(disk.past) <= disk.past
      ensures plan != null ==>
                && fresh(plan) && !plan.committed && !plan.startAttempted
                && plan.snapshot.root == root && plan.snapshot.selection.slot == slot && plan.baseline == baseline
                && plan.Settled(disk.nodes) && plan.Live(disk.nodes) && BaselineHolds(root, disk.nodes, baseline)
      ensures plan != null ==>
                var generation := plan.snapshot.selection.generation;
                && GenerationFolder(generation) !in old(disk.nodes)
                && Candidate(generation) !in old(disk.nodes)
                && generation == NextGeneration(baseline, now)
                && MembersOf(disk.nodes, plan.snapshot.selection)
      ensures plan != null ==>
                && MayPrepare(baseline, source, predatesVision) && answers.locks
                && plan.snapshot.configBytes == ConfigFile(Carried(source, plan.snapshot.selection.generation))
                && CarriesProvider(old(disk.nodes), source, plan.snapshot)
      ensures plan != null ==>
                CanWrite(old(disk.nodes), NextGeneration(baseline, now), slot, source, answers)
      ensures (&& disk.reliable && BaselineHolds(root, old(disk.nodes), baseline)
               && MayPrepare(baseline, source, predatesVision) && answers.locks
               && CanWrite(old(disk.nodes), NextGeneration(baseline, now), slot, source, answers)) ==> plan != null
      ensures plan != null ==> ComparedNow(baseline)
    {
      var generation := Admit(baseline, source, predatesVision, answers.locks, now);
      if generation.None? {
        return null;
      }
      ghost var start := disk.nodes;
      var written := WriteGeneration(generation.value, slot, source, answers);
      BaselineStays(root, start, disk.nodes, baseline);
      if written.None? {
        return null;
      }
      var holds := CheckBaseline(baseline);
      if !holds {
        return null;
      }
      var reported: bool := *;
      if !reported && !disk.reliable {
        return null;
      }
      plan := new Plan(written.value, baseline, Candidate(generation.value));
    }

    /** The newest generation prepared for a slot's exact programs. An unfinished candidate anywhere
        stops the search. */
    method FindNewest(slot: Slot, members: Content) returns (found: Result<Option<nat>>)
      requires Members(slot) in disk.nodes && disk.nodes[Members(slot)] == members
      ensures found.Ok? ==>
                forall generation: nat | Listed(disk.nodes, generation) :: disk.nodes[Candidate(generation)].SelectionFile?
      ensures found.Ok? && found.value.None? ==>
                forall generation: nat :: !Reselectable(disk.nodes, slot, generation)
      ensures found.Ok? && found.value.Some? ==>
                && Reselectable(disk.nodes, slot, found.value.value)
                && forall other: nat | Reselectable(disk.nodes, slot, other) :: other <= found.value.value
      ensures disk.reliable && found.Err? ==>
                exists generation: nat :: Listed(disk.nodes, generation) && !disk.nodes[Candidate(generation)].SelectionFile?
    {
      var pending := set path | path in disk.nodes && path.GenerationFolder? :: path.generation;
      ghost var listed := pending;
      var newest: Option<nat> := None;
      while pending != {}
        invariant pending <= listed
        invariant forall generation | generation in listed - pending ::
                    Candidate(generation) in disk.nodes ==> disk.nodes[Candidate(generation)].SelectionFile?
        invariant newest.None? ==>
                    forall generation | generation in listed - pending :: !Reselectable(disk.nodes, slot, generation)
        invariant newest.Some? ==>
                    && Reselectable(disk.nodes, slot, newest.value)
                    && forall generation | generation in listed - pending && Reselectable(disk.nodes, slot, generation) ::
                         generation <= newest.value
        decreases pending
      {
        var generation :| generation in pending;
        pending := pending - {generation};
        var presence := disk.Inspect(Candidate(generation));
        if presence == Unknown {
          return Err;
        }
        if presence == There {
          var bytes := disk.Read(Candidate(generation));
          if bytes.None? || !bytes.value.SelectionFile? {
            assert disk.reliable ==> Listed(disk.nodes, generation);
            return Err;
          }
          var selection := bytes.value.selection;
          if && selection.slot == slot && selection.members == Sha256(members)
             && (newest.None? || generation > newest.value) {
            newest := Some(generation);
          }
        }
      }
      return Ok(newest);
    }

    /** Selects again, byte for byte, the newest generation prepared for `slot`'s exact programs.
        Nothing is written. */
    method Reselect(baseline: Snapshot, slot: Slot, accepts: bool) returns (outcome: Result<Option<Plan>>)
      requires Sound(disk.nodes)
      requires Decoded(baseline)
      modifies this
      ensures outcome.Ok? ==>
                forall generation: nat | Listed(disk.nodes, generation) :: disk.nodes[Candidate(generation)].SelectionFile?
      ensures outcome.Ok? && outcome.value.None? ==>
                forall generation: nat :: !Reselectable(disk.nodes, slot, generation)
      ensures outcome.Ok? && outcome.value.Some? ==>
                var plan := outcome.value.value;
                var generation := plan.snapshot.selection.generation;
                && fresh(plan) && !plan.committed && !plan.startAttempted && plan.baseline == Some(baseline)
                && plan.snapshot.root == root && plan.Settled(disk.nodes) && plan.Live(disk.nodes)
                && BaselineHolds(root, disk.nodes, Some(baseline))
                && plan.snapshot.selection.slot == slot && Reselectable(disk.nodes, slot, generation)
                && forall other: nat | Reselectable(disk.nodes, slot, other) :: other <= generation
      ensures (&& disk.reliable && BaselineHolds(root, disk.nodes, Some(baseline)) && Members(slot) in disk.nodes
               && (forall generation: nat | Listed(disk.nodes, generation) :: disk.nodes[Candidate(generation)].SelectionFile?)
               && (forall generation: nat | Reselectable(disk.nodes, slot, generation) ::
                     accepts && Load(root, disk.nodes, disk.nodes[Candidate(generation)]).Some?)) ==> outcome.Ok?
      ensures outcome.Ok? && outcome.value.Some? ==> ComparedNow(Some(baseline))
    {
      var holds := CheckBaseline(Some(baseline));
      if !holds {
        return Err;
      }
      var members := disk.Read(Members(slot));
      if members.None? {
        return Err;
      }
      var found := FindNewest(slot, members.value);
      if found.Err? {
        return Err;
      }
      if found.value.None? {
        return Ok(None);
      }
      var bytes := disk.Read(Candidate(found.value.value));
      if bytes.None? {
        return Err;
      }
      var loaded := FromBytes(bytes.value);
      if loaded.None? || !accepts {
        return Err;
      }
      holds := CheckBaseline(Some(baseline));
      if !holds {
        return Err;
      }
      var plan := new Plan(loaded.value, Some(baseline), Candidate(found.value.value));
      return Ok(Some(plan));
    }

    /** Whether active.json, if there is one, can be read and selects another slot. */
    method SlotIsSpare(slot: Slot) returns (spare: bool)
      ensures spare ==> Spare(disk.nodes, slot)
      ensures disk.reliable ==> (spare <==> Spare(disk.nodes, slot))
    {
      var presence := disk.Inspect(Active);
      if presence == Missing {
        return true;
      }
      var active := disk.Read(Active);
      return presence == There && active.Some? && active.value.SelectionFile? && active.value.selection.slot != slot;
    }

    /** A slot's programs set aside under a free name and the prepared ones renamed in; when that fails,
        the previous ones are renamed back, or stay kept. */
    method SwapIn(slot: Slot, programs: Content, unix: nat, later: nat, ghost start: Nodes) returns (placed: bool)
      requires ProgramsCandidate(slot, unix) !in start && disk.nodes == start[ProgramsCandidate(slot, unix) := programs]
      modifies disk
      ensures old(disk.past) <= disk.past
      ensures Materializing(start, disk.nodes, slot, unix, later)
      ensures forall k | |old(disk.past)| <= k < |disk.past| :: Materializing(start, disk.past[k], slot, unix, later)
      ensures placed ==> Members(slot) in disk.nodes && disk.nodes[Members(slot)] == programs
      ensures !placed && Members(slot) in start && Members(slot) !in disk.nodes ==>
                Tried(old(disk.denied), disk.denied, Renaming(RetainedPrograms(slot, later), Members(slot)))
      ensures disk.movable ==> (placed <==> Members(slot) in start ==> RetainedPrograms(slot, later) !in start)
    {
      var presence := disk.Inspect(Members(slot));
      if presence == Unknown {
        return false;
      }
      var retained := RetainedPrograms(slot, later);
      if presence == There {
        var taken := disk.Inspect(retained);
        if taken != Missing {
          return false;
        }
        var moved := disk.Rename(Members(slot), retained);
        if !moved {
          return false;
        }
      }
      placed := disk.Rename(ProgramsCandidate(slot, unix), Members(slot));
      if !placed && presence == There {
        ghost var denied := disk.denied;
        var back := disk.Rename(retained, Members(slot));
        if !back {
          TriedBetween(old(disk.denied), denied, disk.denied, disk.denied, Renaming(retained, Members(slot)));
        }
      }
    }

    /** New programs into a spare slot: prepared beside it, the previous ones set aside and kept, then
        one rename. The slot that is selected is never touched; wherever it stops, the previous programs
        are in place or kept. */
    method Materialize(slot: Slot, programs: Content, unix: nat, later: nat, free: bool, verified: bool)
      returns (ok: bool)
      modifies disk
      ensures old(disk.past) <= disk.past
      ensures Materializing(old(disk.nodes), disk.nodes, slot, unix, later)
      ensures forall k | |old(disk.past)| <= k < |disk.past| ::
                Materializing(old(disk.nodes), disk.past[k], slot, unix, later)
      ensures Active in old(disk.nodes) && old(disk.nodes)[Active].SelectionFile?
              && old(disk.nodes)[Active].selection.slot == slot ==>
                !ok && disk.nodes == old(disk.nodes) && disk.past == old(disk.past)
      ensures ok ==> Members(slot) in disk.nodes && disk.nodes[Members(slot)] == programs
      ensures ok ==> Spare(old(disk.nodes), slot) && free && verified
      ensures (&& disk.reliable && Spare(old(disk.nodes), slot) && free && verified
               && ProgramsCandidate(slot, unix) !in old(disk.nodes)
               && (Members(slot) in old(disk.nodes) ==> RetainedPrograms(slot, later) !in old(disk.nodes))) ==> ok
    {
      var spare := SlotIsSpare(slot);
      if !spare || !free {
        return false;
      }
      ghost var start := disk.nodes;
      var written := disk.WriteNew(ProgramsCandidate(slot, unix), programs, Torn);
      if !written || !verified {
        return false;
      }
      var placed := SwapIn(slot, programs, unix, later, start);
      var reported: bool := *;
      return placed && (reported || disk.reliable);
    }

    /** A file beside active.json, to be renamed over it: finished or not, it selects nothing. */
    method WriteTemporary(temporary: Path, content: Content) returns (written: bool)
      requires Sound(disk.nodes) && (temporary.ActiveTemporary? || temporary.RestoreTemporary?)
      modifies disk
      ensures QuietRun(old(disk.nodes), disk.nodes, disk.past, |old(disk.past)|) && old(disk.past) <= disk.past
      ensures written ==> temporary !in old(disk.nodes) && disk.nodes == old(disk.nodes)[temporary := content]
      ensures disk.reliable && temporary !in old(disk.nodes) ==> written
    {
      ghost var start := disk.nodes;
      written := disk.WriteNew(temporary, content, Torn);
      forall state | state == disk.nodes || Unfinished(start, temporary, Torn, state)
        ensures Quiet(start, state)
      {
        SoundMeanwhile(start, state);
      }
    }

    /** A whole temporary renamed over active.json: of what was there before it was written, only
        active.json changes, and it holds what the temporary did. */
    method RenameOver(temporary: Path, content: Content, ghost start: Nodes) returns (renamed: bool)
      requires Sound(start) && (temporary.ActiveTemporary? || temporary.RestoreTemporary?) && temporary !in start
      requires disk.nodes == start[temporary := content]
      modifies disk
      ensures old(disk.past) <= disk.past
      ensures !renamed ==> disk.nodes == old(disk.nodes) && disk.past == old(disk.past)
      ensures renamed ==>
                && Intact(start, disk.nodes) && Active in disk.nodes && disk.nodes[Active] == content
                && (content.SelectionFile? && Prepared(start, content.selection) ==> Sound(disk.nodes))
      ensures forall k | |old(disk.past)| <= k < |disk.past| :: disk.past[k] == disk.nodes
      ensures disk.reliable ==> renamed
      ensures renamed ==> |disk.past| == |old(disk.past)| + 1
    {
      if content.SelectionFile? && Prepared(start, content.selection) {
        RenameSelects(start, disk.nodes, temporary, content.selection);
      }
      renamed := disk.Rename(temporary, Active);
    }

    /** The baseline is in force, and the candidate is still the plan's and leads to its inputs. */
    method CheckCandidate(plan: Plan) returns (ok: bool)
      requires plan.snapshot.root == root && plan.Settled(disk.nodes)
      modifies this
      ensures ok ==> BaselineHolds(root, disk.nodes, plan.baseline)
      ensures disk.reliable && ActiveIs(disk.nodes, plan.baseline) ==> ok
      ensures old(compared) <= compared
    {
      var holds := CheckBaseline(plan.baseline);
      if !holds {
        return false;
      }
      var bytes := disk.Read(plan.candidate);
      if bytes.None? || bytes.value != plan.snapshot.selectionBytes {
        return false;
      }
      var loaded := FromBytes(bytes.value);
      ok := loaded.Some?;
    }

    /** The target written beside active.json, the baseline compared once more, then one rename. */
    method Supersede(plan: Plan) returns (renamed: bool)
      requires Sound(disk.nodes) && plan.snapshot.root == root && plan.Settled(disk.nodes)
      requires BaselineHolds(root, disk.nodes, plan.baseline)
      modifies this, disk
      ensures old(disk.past) <= disk.past && plan.Settled(disk.nodes)
      ensures forall k | |old(disk.past)| <= k < |disk.past| ::
                || Quiet(old(disk.nodes), disk.past[k])
                || Selects(root, old(disk.nodes), plan.baseline, plan.snapshot, disk.past[k])
      ensures !renamed ==> Quiet(old(disk.nodes), disk.nodes)
      ensures renamed ==> Selects(root, old(disk.nodes), plan.baseline, plan.snapshot, disk.nodes)
      ensures disk.reliable && ActiveTemporary(plan.snapshot.selection.generation) !in old(disk.nodes) ==> renamed
      ensures old(compared) <= compared
      ensures renamed ==> ComparedBefore(plan.baseline)
    {
      ghost var start := disk.nodes;
      var temporary := ActiveTemporary(plan.snapshot.selection.generation);
      var written := WriteTemporary(temporary, plan.snapshot.selectionBytes);
      SettledStays(plan, start, disk.nodes);
      if !written {
        return false;
      }
      BaselineStays(root, start, disk.nodes, plan.baseline);
      var holds := CheckBaseline(plan.baseline);
      if !holds {
        return false;
      }
      renamed := RenameOver(temporary, plan.snapshot.selectionBytes, start);
      SettledStays(plan, start, disk.nodes);
    }

    /** The baseline compared again, then one rename. Once renamed the plan is committed, whatever
        is found afterwards. */
    method Commit(plan: Plan) returns (ok: bool)
      requires Sound(disk.nodes)
      requires plan.snapshot.root == root ==> plan.Settled(disk.nodes)
      modifies this, disk, plan`committed
      ensures old(disk.past) <= disk.past
      ensures plan.snapshot.root != root ==>
                !ok && disk.nodes == old(disk.nodes) && disk.past == old(disk.past) && plan.committed == old(plan.committed)
      ensures forall k | |old(disk.past)| <= k < |disk.past| ::
                || Quiet(old(disk.nodes), disk.past[k])
                || Selects(root, old(disk.nodes), plan.baseline, plan.snapshot, disk.past[k])
      ensures old(plan.committed) ==> plan.committed && !ok && disk.past == old(disk.past)
      ensures plan.committed == old(plan.committed) ==> Quiet(old(disk.nodes), disk.nodes)
      ensures plan.committed && !old(plan.committed) ==>
                Selects(root, old(disk.nodes), plan.baseline, plan.snapshot, disk.nodes)
      ensures ok ==> plan.committed && InForce(root, disk.nodes, plan.snapshot)
      ensures (&& disk.reliable && plan.snapshot.root == root && !old(plan.committed)
               && ActiveIs(old(disk.nodes), plan.baseline)
               && ActiveTemporary(plan.snapshot.selection.generation) !in old(disk.nodes)) ==> ok
      ensures old(plan.Live(disk.nodes)) ==> plan.Live(disk.nodes)
      ensures plan.snapshot.root == root ==> plan.Settled(disk.nodes)
      ensures plan.committed && !old(plan.committed) ==> ComparedBefore(plan.baseline)
      ensures ok ==> ComparedNow(Some(plan.snapshot))
    {
      if plan.snapshot.root != root || plan.committed {
        return false;
      }
      var holds := CheckCandidate(plan);
      if !holds {
        return false;
      }
      var renamed := Supersede(plan);
      if !renamed {
        return false;
      }
      plan.committed := true;
      ok := Unchanged(plan.snapshot);
    }

    /** Restoring with no baseline: the first selection is set aside in its own generation. */
    method RetainFirst(plan: Plan) returns (ok: bool)
      requires Sound(disk.nodes) && plan.baseline.None? && plan.committed
      requires plan.snapshot.root == root ==> ActiveIs(disk.nodes, Some(plan.snapshot))
      requires ComparedNow(Some(plan.snapshot))
      modifies this, disk, plan`committed
      ensures old(disk.past) <= disk.past
      ensures forall k | |old(disk.past)| <= k < |disk.past| ::
                Back(root, plan, old(disk.nodes), disk.past[k])
      ensures plan.committed ==> disk.nodes == old(disk.nodes)
      ensures !plan.committed ==> Back(root, plan, old(disk.nodes), disk.nodes)
      ensures ok ==> !plan.committed && Active !in disk.nodes
      ensures disk.reliable && Active in old(disk.nodes) && Beside(None, plan.snapshot) !in old(disk.nodes) ==> ok
      ensures !plan.committed ==> ComparedBefore(Some(plan.snapshot))
      ensures ok ==> ComparedNow(plan.baseline)
    {
      var retained := RetainedActive(plan.snapshot.selection.generation);
      var presence := disk.Inspect(retained);
      if presence != Missing {
        return false;
      }
      if Active in disk.nodes {
        RetainUnselects(disk.nodes, retained);
      }
      var renamed := disk.Rename(Active, retained);
      if !renamed {
        return false;
      }
      plan.committed := false;
      ok := CheckBaseline(None);
    }

    /** The plan's own selection compared once more, then the baseline's bytes renamed over it. */
    method RenameBack(plan: Plan, previous: Snapshot, ghost start: Nodes) returns (renamed: bool)
      requires Sound(start) && plan.baseline == Some(previous) && Beside(plan.baseline, plan.snapshot) !in start
      requires disk.nodes == start[Beside(plan.baseline, plan.snapshot) := previous.selectionBytes]
      requires plan.snapshot.root == root ==>
                 Decoded(previous) && Prepared(start, previous.selection) && ActiveIs(start, Some(plan.snapshot))
      modifies this, disk
      ensures old(disk.past) <= disk.past
      ensures !renamed ==> disk.nodes == old(disk.nodes) && disk.past == old(disk.past)
      ensures renamed ==> Back(root, plan, start, disk.nodes) && ComparedBefore(Some(plan.snapshot))
      ensures forall k | |old(disk.past)| <= k < |disk.past| :: disk.past[k] == disk.nodes
      ensures (&& disk.reliable && plan.snapshot.root == root
               && Decoded(plan.snapshot) && Loads(root, start, plan.snapshot)) ==> renamed
    {
      if plan.snapshot.root == root && Loads(root, start, plan.snapshot) {
        LoadStays(root, start, disk.nodes, start[Active].selection);
      }
      var same := Unchanged(plan.snapshot);
      if !same {
        return false;
      }
      renamed := RenameOver(Beside(plan.baseline, plan.snapshot), previous.selectionBytes, start);
    }

    /** Restoring a baseline: its own bytes come back through one rename. */
    method PutBack(plan: Plan, previous: Snapshot) returns (ok: bool)
      requires Sound(disk.nodes) && plan.baseline == Some(previous) && plan.committed
      requires plan.snapshot.root == root ==>
                 && previous.root == root && Decoded(previous) && Prepared(disk.nodes, previous.selection)
                 && ActiveIs(disk.nodes, Some(plan.snapshot))
      modifies this, disk, plan`committed
      ensures old(disk.past) <= disk.past
      ensures forall k | |old(disk.past)| <= k < |disk.past| ::
                || Quiet(old(disk.nodes), disk.past[k])
                || Back(root, plan, old(disk.nodes), disk.past[k])
      ensures plan.committed ==> Quiet(old(disk.nodes), disk.nodes)
      ensures !plan.committed ==> Back(root, plan, old(disk.nodes), disk.nodes)
      ensures ok ==> !plan.committed
      ensures ok && plan.snapshot.root == root ==> InForce(root, disk.nodes, previous)
      ensures (&& disk.reliable && plan.snapshot.root == root && Loads(root, old(disk.nodes), previous)
               && Decoded(plan.snapshot) && Loads(root, old(disk.nodes), plan.snapshot)
               && Beside(plan.baseline, plan.snapshot) !in old(disk.nodes)) ==> ok
      ensures !plan.committed ==> ComparedBefore(Some(plan.snapshot))
      ensures ok ==> ComparedNow(plan.baseline)
      ensures Load(root, old(disk.nodes), previous.selectionBytes).None? ==>
                plan.committed && disk.nodes == old(disk.nodes) && disk.past == old(disk.past)
    {
      ghost var start := disk.nodes;
      var loaded := FromBytes(previous.selectionBytes);
      if loaded.None? {
        return false;
      }
      var written := WriteTemporary(RestoreTemporary(plan.snapshot.selection.generation), previous.selectionBytes);
      if !written {
        return false;
      }
      var renamed := RenameBack(plan, previous, start);
      if !renamed {
        return false;
      }
      plan.committed := false;
      if plan.snapshot.root == root && Loads(root, start, previous) {
        LoadsStay(root, start, disk.nodes, previous);
      }
      ok := Unchanged(previous);
    }

    /** The transaction that has not tried to start its Runtime may put its own baseline back. A plan
        of another installation is not told apart: its baseline's bytes are then put here, whole or
        not, but nothing else that was there is lost. */
    method RestoreBeforeStart(plan: Plan) returns (ok: bool)
      requires Sound(disk.nodes)
      requires plan.snapshot.root == root ==> plan.Settled(disk.nodes)
      modifies this, disk, plan`committed
      ensures old(disk.past) <= disk.past
      ensures forall k | |old(disk.past)| <= k < |disk.past| ::
                || Quiet(old(disk.nodes), disk.past[k])
                || Back(root, plan, old(disk.nodes), disk.past[k])
      ensures plan.startAttempted ==>
                !ok && disk.nodes == old(disk.nodes) && disk.past == old(disk.past) && plan.committed == old(plan.committed)
      ensures !old(plan.committed) ==> !plan.committed && disk.past == old(disk.past)
      ensures plan.committed == old(plan.committed) ==> Quiet(old(disk.nodes), disk.nodes)
      ensures old(plan.committed) && !plan.committed ==> Back(root, plan, old(disk.nodes), disk.nodes)
      ensures ok ==> !plan.committed
      ensures ok && plan.snapshot.root == root ==> BaselineHolds(root, disk.nodes, plan.baseline)
      ensures (&& disk.reliable && plan.snapshot.root == root && old(plan.committed) && !plan.startAttempted
               && ActiveIs(old(disk.nodes), Some(plan.snapshot))
               && Beside(plan.baseline, plan.snapshot) !in old(disk.nodes)) ==> ok
      ensures plan.snapshot.root == root && old(plan.Live(disk.nodes)) ==> plan.Live(disk.nodes)
      ensures plan.snapshot.root == root ==> plan.Settled(disk.nodes)
      ensures old(plan.committed) && !plan.committed ==> ComparedBefore(Some(plan.snapshot))
      ensures ok ==> ComparedNow(plan.baseline)
      ensures (&& old(plan.committed) && plan.baseline.Some?
               && Load(root, old(disk.nodes), plan.baseline.value.selectionBytes).None?) ==>
                plan.committed && disk.nodes == old(disk.nodes) && disk.past == old(disk.past)
    {
      if plan.startAttempted {
        return false;
      }
      if !plan.committed {
        ok := CheckBaseline(plan.baseline);
        return;
      }
      ghost var start := disk.nodes;
      var same := Unchanged(plan.snapshot);
      if !same {
        return false;
      }
      match plan.baseline
      case None => ok := RetainFirst(plan);
      case Some(previous) => ok := PutBack(plan, previous);
      if plan.snapshot.root == root {
        SettledStays(plan, start, disk.nodes);
      }
    }
  }
}
