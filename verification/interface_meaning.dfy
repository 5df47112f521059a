/** Who must read whom for a check to pass, and whom a refusal names, told from the components alone. */
module InterfaceMeaning {
  import opened Outcomes
  import opened Interfaces

  /** The reader reads the revision the writer writes. */
  predicate Reads(interface: Interface, writer: Component, reader: Component) {
    && interface in writer.speaks && interface in reader.speaks
    && reader.speaks[interface].min <= writer.speaks[interface].max <= reader.speaks[interface].max
  }

  /** Some revision is held by both. */
  predicate Meets(interface: Interface, left: Component, right: Component) {
    && interface in left.speaks && interface in right.speaks
    && left.speaks[interface].min <= right.speaks[interface].max
    && right.speaks[interface].min <= left.speaks[interface].max
  }

  /** The configuration is one document in one revision for the three that write, edit and read it. */
  predicate OneConfig(p: Parties) {
    Meets(ActingdConfig, p.installer, p.ui) && Meets(ActingdConfig, p.ui, p.runtime) && Meets(ActingdConfig, p.installer, p.runtime)
  }

  /** What the previous Runtime asks: it can be read and closed, and both the next Runtime and the console
      read the ledger it wrote. */
  predicate FollowsOn(p: Parties, previous: Component) {
    && Meets(ActingdConfig, p.installer, previous) && Meets(InstallControl, p.installer, previous)
    && Reads(Ledger, previous, p.runtime) && Reads(Ledger, previous, p.ui)
  }

  /** A new slot holds the program core only. */
  predicate FitsASlot(runtime: Component) {
    && (runtime.toolsLayout == Some(2) || runtime.toolsLayout == Some(3))
    && ActingdConfig in runtime.speaks && runtime.speaks[ActingdConfig].min <= 2 <= runtime.speaks[ActingdConfig].max
    && InstallSelection in runtime.speaks
    && runtime.speaks[InstallSelection].min <= 1 <= runtime.speaks[InstallSelection].max
  }

  /** Everything a check asks of the components. */
  ghost predicate Compatible(p: Parties) {
    && OneConfig(p) && (p.previous.Some? ==> FollowsOn(p, p.previous.value))
    && Reads(InstallSelection, p.installer, p.runtime) && Reads(InstallSelection, p.installer, p.ui)
    && (p.manager ==> Reads(InstallSelection, p.ui, p.runtime))
    && Meets(InstallControl, p.installer, p.runtime) && Reads(Ledger, p.runtime, p.ui)
    && Meets(RuntimeClient, p.ui, p.runtime)
    && (forall bundle | bundle in p.bundles :: Reads(Package, bundle, p.runtime) && Reads(Package, bundle, p.installer))
    && (p.newSlot ==> FitsASlot(p.runtime))
  }

  lemma MeetsIs(interface: Interface, left: Component, right: Component)
    ensures Holds(Negotiate(interface, left, right)) <==> Meets(interface, left, right)
  {
    if Meets(interface, left, right) {
      var revision := Max(left.speaks[interface].min, right.speaks[interface].min);
      assert Contains(left.speaks[interface], revision) && Contains(right.speaks[interface], revision);
    }
  }

  lemma ConfigIs(p: Parties)
    ensures Holds(Agree(ActingdConfig, [p.installer, p.ui, p.runtime])) <==> OneConfig(p)
  {
    var parties := [p.installer, p.ui, p.runtime];
    assert parties[0] == p.installer && parties[1] == p.ui && parties[2] == p.runtime;
    if OneConfig(p) {
      var a, b, c := p.installer.speaks[ActingdConfig], p.ui.speaks[ActingdConfig], p.runtime.speaks[ActingdConfig];
      var revision := Max(a.min, Max(b.min, c.min));
      assert AllRead(parties, ActingdConfig, revision);
    }
    if Holds(Agree(ActingdConfig, parties)) {
      assert Speaks(parties[0], ActingdConfig) && Speaks(parties[1], ActingdConfig) && Speaks(parties[2], ActingdConfig);
      var revision: nat :| AllRead(parties, ActingdConfig, revision);
      assert Contains(parties[0].speaks[ActingdConfig], revision) && Contains(parties[1].speaks[ActingdConfig], revision)
          && Contains(parties[2].speaks[ActingdConfig], revision);
    }
  }

  lemma SlotIs(runtime: Component)
    ensures Holds(Slot(runtime)) <==> FitsASlot(runtime)
  {
  }

  lemma HoldJoin(a: seq<Edge>, b: seq<Edge>)
    ensures AllHold(a + b) <==> AllHold(a) && AllHold(b)
  {
    if AllHold(a + b) {
      forall i | 0 <= i < |a|
        ensures Holds(a[i])
      {
        assert (a + b)[i] == a[i];
      }
      forall i | 0 <= i < |b|
        ensures Holds(b[i])
      {
        assert (a + b)[|a| + i] == b[i];
      }
    }
  }

  lemma HoldOne(a: Edge)
    ensures AllHold([a]) <==> Holds(a)
  {
    assert [a][0] == a;
  }

  lemma HoldTwo(a: Edge, b: Edge)
    ensures AllHold([a, b]) <==> Holds(a) && Holds(b)
  {
    assert [a, b][0] == a && [a, b][1] == b;
  }

  lemma NoneToHold()
    ensures AllHold([])
  {
  }

  lemma ConfigGroup(p: Parties)
    ensures AllHold(ConfigEdges(p)) <==>
              OneConfig(p) && (p.previous.Some? ==> Meets(ActingdConfig, p.installer, p.previous.value))
  {
    var first := Agree(ActingdConfig, [p.installer, p.ui, p.runtime]);
    ConfigIs(p);
    HoldOne(first);
    if p.previous.Some? {
      var second := Negotiate(ActingdConfig, p.installer, p.previous.value);
      MeetsIs(ActingdConfig, p.installer, p.previous.value);
      HoldOne(second);
      HoldJoin([first], [second]);
    } else {
      NoneToHold();
      HoldJoin([first], []);
    }
  }

  lemma SelectionGroup(p: Parties)
    ensures AllHold(SelectionEdges(p)) <==>
              && Reads(InstallSelection, p.installer, p.runtime) && Reads(InstallSelection, p.installer, p.ui)
              && (p.manager ==> Reads(InstallSelection, p.ui, p.runtime))
  {
    var one, two := Contain(InstallSelection, p.installer, p.runtime), Contain(InstallSelection, p.installer, p.ui);
    var three := Contain(InstallSelection, p.ui, p.runtime);
    HoldTwo(one, two);
    HoldOne(three);
    NoneToHold();
    HoldJoin([one, two], if p.manager then [three] else []);
  }

  lemma ControlGroup(p: Parties)
    ensures AllHold(ControlEdges(p)) <==>
              && Meets(InstallControl, p.installer, p.runtime)
              && (p.previous.Some? ==> Meets(InstallControl, p.installer, p.previous.value))
  {
    var last := Negotiate(InstallControl, p.installer, p.runtime);
    MeetsIs(InstallControl, p.installer, p.runtime);
    HoldOne(last);
    if p.previous.Some? {
      var first := Negotiate(InstallControl, p.installer, p.previous.value);
      MeetsIs(InstallControl, p.installer, p.previous.value);
      HoldOne(first);
      HoldJoin([first], [last]);
    } else {
      NoneToHold();
      HoldJoin([], [last]);
    }
  }

  lemma LedgerGroup(p: Parties)
    ensures AllHold(LedgerEdges(p)) <==>
              && Reads(Ledger, p.runtime, p.ui)
              && (p.previous.Some? ==>
                    Reads(Ledger, p.previous.value, p.runtime) && Reads(Ledger, p.previous.value, p.ui))
  {
    var last := Contain(Ledger, p.runtime, p.ui);
    HoldOne(last);
    if p.previous.Some? {
      var one, two := Contain(Ledger, p.previous.value, p.runtime), Contain(Ledger, p.previous.value, p.ui);
      HoldTwo(one, two);
      HoldJoin([one, two], [last]);
    } else {
      NoneToHold();
      HoldJoin([], [last]);
    }
  }

  lemma {:induction false} BundleGroup(p: Parties, n: nat)
    requires n <= |p.bundles|
    ensures AllHold(BundleEdges(p, n)) <==>
              forall i | 0 <= i < n :: Reads(Package, p.bundles[i], p.runtime) && Reads(Package, p.bundles[i], p.installer)
  {
    if n > 0 {
      var one, two := Contain(Package, p.bundles[n - 1], p.runtime), Contain(Package, p.bundles[n - 1], p.installer);
      BundleGroup(p, n - 1);
      HoldTwo(one, two);
      HoldJoin(BundleEdges(p, n - 1), [one, two]);
    }
  }

  lemma SlotGroup(p: Parties)
    ensures AllHold(SlotEdges(p)) <==> (p.newSlot ==> FitsASlot(p.runtime))
  {
    SlotIs(p.runtime);
    HoldOne(Slot(p.runtime));
    NoneToHold();
  }

  /** A check passes its components exactly when they are compatible: among the rest, the console reads
      what the next Runtime writes of the ledger, and both read what the previous one wrote. */
  lemma HoldsExactlyWhenCompatible(p: Parties)
    ensures AllHold(Edges(p)) <==> Compatible(p)
  {
    var client := Negotiate(RuntimeClient, p.ui, p.runtime);
    var a, b, c, d := ConfigEdges(p), SelectionEdges(p), ControlEdges(p), LedgerEdges(p);
    HoldJoin(a, b);
    HoldJoin(a + b, c);
    HoldJoin(a + b + c, d);
    HoldJoin(a + b + c + d, [client]);
    HoldJoin(a + b + c + d + [client], BundleEdges(p, |p.bundles|));
    HoldJoin(a + b + c + d + [client] + BundleEdges(p, |p.bundles|), SlotEdges(p));
    ConfigGroup(p);
    SelectionGroup(p);
    ControlGroup(p);
    LedgerGroup(p);
    MeetsIs(RuntimeClient, p.ui, p.runtime);
    HoldOne(client);
    BundleGroup(p, |p.bundles|);
    SlotGroup(p);
  }

  // Whom a refusal names.

  ghost predicate IsParty(edge: Edge, party: Component) {
    match edge
    case Agree(_, parties) => party in parties
    case Negotiate(_, left, right) => party == left || party == right
    case Contain(_, writer, reader) => party == writer || party == reader
    case Slot(_) => false
  }

  /** An edge lists a failure exactly for what it names. */
  ghost predicate Names(edge: Edge, failure: Failure) {
    match failure
    case DoesNotSpeak(interface, name) =>
      !edge.Slot? && edge.interface == interface
      && exists party :: IsParty(edge, party) && party.name == name && interface !in party.speaks
    case NoCommon(interface, left, right) =>
      && edge.Negotiate? && edge.interface == interface && edge.left.name == left && edge.right.name == right
      && interface in edge.left.speaks && interface in edge.right.speaks && !Meets(interface, edge.left, edge.right)
    case Unread(interface, writer, reader) =>
      && edge.Contain? && edge.interface == interface && edge.writer.name == writer && edge.reader.name == reader
      && interface in edge.writer.speaks && interface in edge.reader.speaks && !Reads(interface, edge.writer, edge.reader)
    case NoneForAll(interface, names) =>
      && edge.Agree? && edge.interface == interface && AllSpeak(edge.parties, interface) && !Holds(edge)
      && |names| == |edge.parties| && forall i | 0 <= i < |names| :: names[i] == edge.parties[i].name
    case NewSlot(name, needs) =>
      && edge.Slot? && edge.runtime.name == name && !FitsASlot(edge.runtime)
      && (ToolsLayout in needs <==> edge.runtime.toolsLayout != Some(2) && edge.runtime.toolsLayout != Some(3))
      && (ConfigTwo in needs <==> !(ActingdConfig in edge.runtime.speaks
                                    && Contains(edge.runtime.speaks[ActingdConfig], 2)))
      && (SelectionOne in needs <==> !(InstallSelection in edge.runtime.speaks
                                       && Contains(edge.runtime.speaks[InstallSelection], 1)))
  }

  lemma {:induction false} SilentAre(interface: Interface, parties: seq<Component>, failure: Failure)
    ensures failure in SilentOnes(interface, parties) <==>
              && failure.DoesNotSpeak? && failure.interface == interface
              && exists party :: party in parties && party.name == failure.party && interface !in party.speaks
  {
    if parties != [] {
      var front, last := parties[..|parties| - 1], parties[|parties| - 1];
      assert parties == front + [last];
      SilentAre(interface, front, failure);
    }
  }

  lemma {:induction false} LabelsAre(parties: seq<Component>)
    ensures |Labels(parties)| == |parties| && forall i | 0 <= i < |parties| :: Labels(parties)[i] == parties[i].name
  {
    if parties != [] {
      LabelsAre(parties[..|parties| - 1]);
    }
  }

  /** Whatever an edge lists names its own parties, by what is wrong with them. */
  lemma ListedNames(edge: Edge, failure: Failure)
    requires edge.Agree? ==> edge.parties != []
    requires failure in Unmet(edge)
    ensures Names(edge, failure)
  {
    UnmetWhenNotHeld(edge);
    match edge
    case Agree(interface, parties) =>
      SilentAre(interface, parties, failure);
      LabelsAre(parties);
      RangesOfAll(interface, parties);
    case Negotiate(interface, left, right) =>
      SilentAre(interface, [left, right], failure);
      MeetsIs(interface, left, right);
    case Contain(interface, writer, reader) => SilentAre(interface, [writer, reader], failure);
    case Slot(runtime) => SlotIs(runtime);
  }

  /** And every party that does not speak, and every pair of those that do but do not meet or read, is
      listed. */
  lemma NamesListed(edge: Edge, failure: Failure)
    requires edge.Agree? ==> edge.parties != []
    requires Names(edge, failure) && !failure.NoneForAll? && !failure.NewSlot?
    ensures failure in Unmet(edge)
  {
    UnmetWhenNotHeld(edge);
    match edge
    case Agree(interface, parties) =>
      SilentAre(interface, parties, failure);
      RangesOfAll(interface, parties);
      var party :| IsParty(edge, party) && party.name == failure.party && interface !in party.speaks;
      var i :| 0 <= i < |parties| && parties[i] == party;
      assert !Speaks(parties[i], interface);
    case Negotiate(interface, left, right) =>
      SilentAre(interface, [left, right], failure);
      MeetsIs(interface, left, right);
    case Contain(interface, writer, reader) => SilentAre(interface, [writer, reader], failure);
    case Slot(runtime) =>
  }

  /** How the two Runtimes are controlled: cold exactly when the greatest revision in common is 0. */
  lemma ControlIsNegotiated(left: Component, right: Component, revision: nat)
    requires Meets(InstallControl, left, right)
    requires Contains(left.speaks[InstallControl], revision) && Contains(right.speaks[InstallControl], revision)
    requires forall other: nat | Contains(left.speaks[InstallControl], other) && Contains(right.speaks[InstallControl], other) ::
               other <= revision
    ensures var settled := Settled(Negotiate(InstallControl, left, right));
            settled == Some(revision) && (ControlOf(settled.value).Cold? <==> revision == 0)
  {
    PairMeets(left.speaks[InstallControl], right.speaks[InstallControl]);
    MeetsIs(InstallControl, left, right);
  }
}
