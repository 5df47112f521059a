/** The interface check before an installation changes: each pair or group of components that share a
    document must speak a revision of it in common. */
module Interfaces {
  import opened Outcomes

  datatype Interface = ActingdConfig | InstallSelection | InstallControl | Ledger | RuntimeClient | Package

  datatype Span = Span(min: nat, max: nat)

  /** The revisions a component reads; a writer writes the greatest. */
  type Range = span: Span | span.min <= span.max witness Span(0, 0)

  datatype Component = Component(
    name: string, commit: string, speaks: map<Interface, Range>, toolsLayout: Option<nat>)

  datatype Parties = Parties(
    installer: Component, runtime: Component, ui: Component, previous: Option<Component>, manager: bool,
    newSlot: bool, bundles: seq<Component>)

  datatype Control = Cold | Transition

  datatype Agreed = Agreed(close: Option<Control>, start: Control, previous: Option<string>)

  datatype Need = ToolsLayout | ConfigTwo | SelectionOne

  datatype Failure =
    | DoesNotSpeak(interface: Interface, party: string)
    | NoCommon(interface: Interface, left: string, right: string)
    | NoneForAll(interface: Interface, parties: seq<string>)
    | Unread(interface: Interface, writer: string, reader: string)
    | NewSlot(runtime: string, needs: seq<Need>)

  datatype Stop = Refused(failures: seq<Failure>) | NoResult | Unreported

  datatype Verdict = Passed(agreed: Agreed) | Stopped(stop: Stop)

  predicate Contains(range: Range, revision: nat) {
    range.min <= revision <= range.max
  }

  function Min(a: nat, b: nat): nat {
    if a <= b then a else b
  }

  function Max(a: nat, b: nat): nat {
    if a <= b then b else a
  }

  /** The highest revision both ranges hold, when they meet. */
  function Common(a: Range, b: Range): Option<nat> {
    var low, high := Max(a.min, b.min), Min(a.max, b.max);
    if low <= high then Some(high) else None
  }

  function ControlOf(revision: nat): Control {
    if revision == 0 then Cold else Transition
  }

  // The revision several ranges agree on.

  function Low(ranges: seq<Range>): nat {
    if ranges == [] then 0 else Max(Low(ranges[..|ranges| - 1]), ranges[|ranges| - 1].min)
  }

  function High(ranges: seq<Range>): nat
    requires ranges != []
  {
    if |ranges| == 1 then ranges[0].max else Min(High(ranges[..|ranges| - 1]), ranges[|ranges| - 1].max)
  }

  function Agreement(ranges: seq<Range>): Option<nat> {
    if ranges == [] || Low(ranges) > High(ranges) then None else Some(High(ranges))
  }

  ghost predicate InAll(ranges: seq<Range>, revision: nat) {
    forall i | 0 <= i < |ranges| :: Contains(ranges[i], revision)
  }

  lemma {:induction false} LowIs(ranges: seq<Range>)
    ensures forall i | 0 <= i < |ranges| :: ranges[i].min <= Low(ranges)
    ensures ranges != [] ==> exists i :: 0 <= i < |ranges| && ranges[i].min == Low(ranges)
  {
    if ranges != [] {
      var front := ranges[..|ranges| - 1];
      LowIs(front);
      if front != [] && Low(front) >= ranges[|ranges| - 1].min {
        var i :| 0 <= i < |front| && front[i].min == Low(front);
        assert ranges[i].min == Low(ranges);
      } else {
        assert ranges[|ranges| - 1].min == Low(ranges);
      }
    }
  }

  lemma {:induction false} HighIs(ranges: seq<Range>)
    requires ranges != []
    ensures forall i | 0 <= i < |ranges| :: High(ranges) <= ranges[i].max
    ensures exists i :: 0 <= i < |ranges| && ranges[i].max == High(ranges)
  {
    if |ranges| == 1 {
      assert ranges[0].max == High(ranges);
    } else {
      var front := ranges[..|ranges| - 1];
      HighIs(front);
      if High(front) <= ranges[|ranges| - 1].max {
        var i :| 0 <= i < |front| && front[i].max == High(front);
        assert ranges[i].max == High(ranges);
      } else {
        assert ranges[|ranges| - 1].max == High(ranges);
      }
    }
  }

  /** What is agreed is the greatest revision every range holds; none is agreed only when there is none. */
  lemma AgreementIsGreatest(ranges: seq<Range>)
    requires ranges != []
    ensures Agreement(ranges).Some? ==>
              InAll(ranges, Agreement(ranges).value)
              && forall revision: nat | InAll(ranges, revision) :: revision <= Agreement(ranges).value
    ensures Agreement(ranges).None? ==> forall revision: nat :: !InAll(ranges, revision)
  {
    LowIs(ranges);
    HighIs(ranges);
    var at :| 0 <= at < |ranges| && ranges[at].max == High(ranges);
    var low :| 0 <= low < |ranges| && ranges[low].min == Low(ranges);
    forall revision: nat | InAll(ranges, revision)
      ensures Low(ranges) <= revision <= High(ranges)
    {
      assert Contains(ranges[at], revision) && Contains(ranges[low], revision);
    }
  }

  /** Ranges agree exactly when every two of them meet. */
  lemma AgreeIffPairsDo(ranges: seq<Range>)
    requires ranges != []
    ensures Agreement(ranges).Some? <==>
            forall i, j | 0 <= i < |ranges| && 0 <= j < |ranges| :: Common(ranges[i], ranges[j]).Some?
  {
    LowIs(ranges);
    HighIs(ranges);
    var at :| 0 <= at < |ranges| && ranges[at].max == High(ranges);
    var low :| 0 <= low < |ranges| && ranges[low].min == Low(ranges);
    assert Common(ranges[low], ranges[at]).Some? ==> Low(ranges) <= High(ranges);
  }

  /** What is agreed is the least of what the pairs would settle on. */
  lemma AgreementIsLeastPair(ranges: seq<Range>)
    requires Agreement(ranges).Some?
    ensures forall i, j | 0 <= i < |ranges| && 0 <= j < |ranges| ::
              Common(ranges[i], ranges[j]).Some? && Agreement(ranges).value <= Common(ranges[i], ranges[j]).value
    ensures exists i, j :: 0 <= i < |ranges| && 0 <= j < |ranges| && Common(ranges[i], ranges[j]) == Agreement(ranges)
  {
    AgreeIffPairsDo(ranges);
    HighIs(ranges);
    var at :| 0 <= at < |ranges| && ranges[at].max == High(ranges);
    assert Common(ranges[at], ranges[at]) == Agreement(ranges);
  }

  // The edges of a check.

  datatype Edge =
    | Agree(interface: Interface, parties: seq<Component>)
    | Negotiate(interface: Interface, left: Component, right: Component)
    | Contain(interface: Interface, writer: Component, reader: Component)
    | Slot(runtime: Component)

  predicate Speaks(party: Component, interface: Interface) {
    interface in party.speaks
  }

  ghost predicate AllSpeak(parties: seq<Component>, interface: Interface) {
    forall i | 0 <= i < |parties| :: Speaks(parties[i], interface)
  }

  ghost predicate AllRead(parties: seq<Component>, interface: Interface, revision: nat)
    requires AllSpeak(parties, interface)
  {
    forall i | 0 <= i < |parties| :: Contains(parties[i].speaks[interface], revision)
  }

  /** An edge holds: a revision in common, a writer's revision read, or a slot's needs met. */
  ghost predicate Holds(edge: Edge) {
    match edge
    case Agree(interface, parties) =>
      AllSpeak(parties, interface) && exists revision: nat :: AllRead(parties, interface, revision)
    case Negotiate(interface, left, right) =>
      && Speaks(left, interface) && Speaks(right, interface)
      && exists revision: nat :: Contains(left.speaks[interface], revision) && Contains(right.speaks[interface], revision)
    case Contain(interface, writer, reader) =>
      && Speaks(writer, interface) && Speaks(reader, interface)
      && Contains(reader.speaks[interface], writer.speaks[interface].max)
    case Slot(runtime) => SlotNeeds(runtime) == []
  }

  function SlotNeeds(runtime: Component): seq<Need> {
    (if runtime.toolsLayout == Some(2) || runtime.toolsLayout == Some(3) then [] else [ToolsLayout])
    + (if Speaks(runtime, ActingdConfig) && Contains(runtime.speaks[ActingdConfig], 2) then [] else [ConfigTwo])
    + (if Speaks(runtime, InstallSelection) && Contains(runtime.speaks[InstallSelection], 1) then []
       else [SelectionOne])
  }

  function SilentOnes(interface: Interface, parties: seq<Component>): seq<Failure> {
    if parties == [] then []
    else
      var last := parties[|parties| - 1];
      SilentOnes(interface, parties[..|parties| - 1])
      + if Speaks(last, interface) then [] else [DoesNotSpeak(interface, last.name)]
  }

  /** The ranges of the parties that speak. */
  function RangesOf(interface: Interface, parties: seq<Component>): seq<Range> {
    if parties == [] then []
    else
      var last := parties[|parties| - 1];
      RangesOf(interface, parties[..|parties| - 1])
      + if Speaks(last, interface) then [last.speaks[interface]] else []
  }

  function Labels(parties: seq<Component>): seq<string> {
    if parties == [] then [] else Labels(parties[..|parties| - 1]) + [parties[|parties| - 1].name]
  }

  /** What an edge lists when it does not hold. */
  function Unmet(edge: Edge): seq<Failure> {
    match edge
    case Agree(interface, parties) =>
      var ranges := RangesOf(interface, parties);
      if |ranges| < |parties| then SilentOnes(interface, parties)
      else if ranges != [] && Low(ranges) > High(ranges) then [NoneForAll(interface, Labels(parties))]
      else []
    case Negotiate(interface, left, right) =>
      if Speaks(left, interface) && Speaks(right, interface) then
        if Common(left.speaks[interface], right.speaks[interface]).None?
        then [NoCommon(interface, left.name, right.name)] else []
      else SilentOnes(interface, [left, right])
    case Contain(interface, writer, reader) =>
      if Speaks(writer, interface) && Speaks(reader, interface) then
        if Contains(reader.speaks[interface], writer.speaks[interface].max) then []
        else [Unread(interface, writer.name, reader.name)]
      else SilentOnes(interface, [writer, reader])
    case Slot(runtime) => if SlotNeeds(runtime) == [] then [] else [NewSlot(runtime.name, SlotNeeds(runtime))]
  }

  function Settled(edge: Edge): Option<nat>
    requires edge.Agree? || edge.Negotiate?
  {
    match edge
    case Agree(interface, parties) =>
      var ranges := RangesOf(interface, parties);
      if |ranges| < |parties| then None else Agreement(ranges)
    case Negotiate(interface, left, right) =>
      if Speaks(left, interface) && Speaks(right, interface)
      then Common(left.speaks[interface], right.speaks[interface]) else None
  }

  lemma {:induction false} RangesOfAll(interface: Interface, parties: seq<Component>)
    ensures var ranges := RangesOf(interface, parties);
            && |ranges| <= |parties|
            && (|ranges| == |parties| <==> AllSpeak(parties, interface))
            && (AllSpeak(parties, interface) ==>
                  forall i | 0 <= i < |parties| :: ranges[i] == parties[i].speaks[interface])
  {
    if parties != [] {
      var front := parties[..|parties| - 1];
      RangesOfAll(interface, front);
      AllSpeakMore(interface, front, parties[|front|]);
      assert parties == front + [parties[|front|]];
    }
  }

  lemma AllSpeakMore(interface: Interface, front: seq<Component>, last: Component)
    ensures AllSpeak(front + [last], interface) <==> AllSpeak(front, interface) && Speaks(last, interface)
  {
    var parties := front + [last];
    assert parties[|front|] == last && forall i | 0 <= i < |front| :: parties[i] == front[i];
  }

  lemma {:induction false} SilentWhenSome(interface: Interface, parties: seq<Component>)
    ensures SilentOnes(interface, parties) == [] <==> AllSpeak(parties, interface)
  {
    if parties != [] {
      var front := parties[..|parties| - 1];
      SilentWhenSome(interface, front);
      assert AllSpeak(parties, interface) <==> AllSpeak(front, interface) && Speaks(parties[|front|], interface);
    }
  }

  /** An edge lists something exactly when it does not hold. */
  lemma UnmetWhenNotHeld(edge: Edge)
    requires edge.Agree? ==> edge.parties != []
    ensures Unmet(edge) == [] <==> Holds(edge)
    ensures edge.Agree? || edge.Negotiate? ==> (Settled(edge).Some? <==> Holds(edge))
  {
    match edge
    case Agree(interface, parties) => AgreeUnmet(interface, parties);
    case Negotiate(interface, left, right) =>
      SilentWhenSome(interface, [left, right]);
      assert AllSpeak([left, right], interface) <==> Speaks([left, right][0], interface) && Speaks([left, right][1], interface);
      if Speaks(left, interface) && Speaks(right, interface) {
        PairMeets(left.speaks[interface], right.speaks[interface]);
      }
    case Contain(interface, writer, reader) =>
      SilentWhenSome(interface, [writer, reader]);
      assert AllSpeak([writer, reader], interface) <==>
             Speaks([writer, reader][0], interface) && Speaks([writer, reader][1], interface);
    case Slot(runtime) =>
  }

  lemma PairMeets(a: Range, b: Range)
    ensures Common(a, b).Some? <==> exists revision: nat :: Contains(a, revision) && Contains(b, revision)
    ensures Common(a, b).Some? ==>
              && Contains(a, Common(a, b).value) && Contains(b, Common(a, b).value)
              && forall revision: nat | Contains(a, revision) && Contains(b, revision) :: revision <= Common(a, b).value
  {
    if Common(a, b).Some? {
      assert Contains(a, Common(a, b).value) && Contains(b, Common(a, b).value);
    }
  }

  lemma SameRevisions(interface: Interface, parties: seq<Component>, ranges: seq<Range>, revision: nat)
    requires AllSpeak(parties, interface) && |ranges| == |parties|
    requires forall i | 0 <= i < |parties| :: ranges[i] == parties[i].speaks[interface]
    ensures InAll(ranges, revision) <==> AllRead(parties, interface, revision)
  {
  }

  lemma AgreeUnmet(interface: Interface, parties: seq<Component>)
    requires parties != []
    ensures Unmet(Agree(interface, parties)) == [] <==> Holds(Agree(interface, parties))
    ensures Settled(Agree(interface, parties)).Some? <==> Holds(Agree(interface, parties))
  {
    RangesOfAll(interface, parties);
    SilentWhenSome(interface, parties);
    if AllSpeak(parties, interface) {
      AgreementIsAllRead(interface, parties, RangesOf(interface, parties));
    }
  }

  lemma AgreementIsAllRead(interface: Interface, parties: seq<Component>, ranges: seq<Range>)
    requires parties != [] && AllSpeak(parties, interface) && |ranges| == |parties|
    requires forall i | 0 <= i < |parties| :: ranges[i] == parties[i].speaks[interface]
    ensures Agreement(ranges).Some? <==> exists revision: nat :: AllRead(parties, interface, revision)
  {
    AgreementIsGreatest(ranges);
    if Agreement(ranges).Some? {
      SameRevisions(interface, parties, ranges, Agreement(ranges).value);
    } else if revision: nat :| AllRead(parties, interface, revision) {
      SameRevisions(interface, parties, ranges, revision);
    }
  }

  // Every edge of a check, in its order.

  function ConfigEdges(p: Parties): seq<Edge> {
    [Agree(ActingdConfig, [p.installer, p.ui, p.runtime])]
    + (match p.previous case None => [] case Some(previous) => [Negotiate(ActingdConfig, p.installer, previous)])
  }

  function SelectionEdges(p: Parties): seq<Edge> {
    [Contain(InstallSelection, p.installer, p.runtime), Contain(InstallSelection, p.installer, p.ui)]
    + if p.manager then [Contain(InstallSelection, p.ui, p.runtime)] else []
  }

  function ControlEdges(p: Parties): seq<Edge> {
    (match p.previous case None => [] case Some(previous) => [Negotiate(InstallControl, p.installer, previous)])
    + [Negotiate(InstallControl, p.installer, p.runtime)]
  }

  function LedgerEdges(p: Parties): seq<Edge> {
    (match p.previous
     case None => []
     case Some(previous) => [Contain(Ledger, previous, p.runtime), Contain(Ledger, previous, p.ui)])
    + [Contain(Ledger, p.runtime, p.ui)]
  }

  function BundleEdges(p: Parties, n: nat): seq<Edge>
    requires n <= |p.bundles|
  {
    if n == 0 then []
    else
      BundleEdges(p, n - 1)
      + [Contain(Package, p.bundles[n - 1], p.runtime), Contain(Package, p.bundles[n - 1], p.installer)]
  }

  function Edges(p: Parties): seq<Edge> {
    ConfigEdges(p) + SelectionEdges(p) + ControlEdges(p) + LedgerEdges(p)
    + [Negotiate(RuntimeClient, p.ui, p.runtime)] + BundleEdges(p, |p.bundles|)
    + SlotEdges(p)
  }

  function SlotEdges(p: Parties): seq<Edge> {
    if p.newSlot then [Slot(p.runtime)] else []
  }

  function Flatten(edges: seq<Edge>, told: Edge -> seq<Failure>): seq<Failure> {
    if edges == [] then [] else Flatten(edges[..|edges| - 1], told) + told(edges[|edges| - 1])
  }

  /** Everything the edges list, in order. */
  function Listed(edges: seq<Edge>): seq<Failure> {
    Flatten(edges, Unmet)
  }

  /** Each failure once, where it first came. */
  function Once(failures: seq<Failure>): seq<Failure> {
    if failures == [] then []
    else
      var before, last := Once(failures[..|failures| - 1]), failures[|failures| - 1];
      if last in before then before else before + [last]
  }

  lemma {:induction false} FlattenJoin(a: seq<Edge>, b: seq<Edge>, told: Edge -> seq<Failure>)
    ensures Flatten(a + b, told) == Flatten(a, told) + Flatten(b, told)
  {
    if b == [] {
      assert a + b == a;
    } else {
      FlattenJoin(a, b[..|b| - 1], told);
      assert (a + b)[..|a + b| - 1] == a + b[..|b| - 1];
    }
  }

  lemma FlattenTwo(edges: seq<Edge>, one: Edge, two: Edge, told: Edge -> seq<Failure>)
    ensures Flatten(edges + [one], told) == Flatten(edges, told) + told(one)
    ensures Flatten(edges + [one, two], told) == Flatten(edges, told) + told(one) + told(two)
  {
    assert (edges + [one])[..|edges|] == edges;
    assert (edges + [one, two])[..|edges| + 1] == edges + [one];
  }

  lemma ListedMore(edges: seq<Edge>, one: Edge, two: Edge)
    ensures Listed(edges + [one]) == Listed(edges) + Unmet(one)
    ensures Listed(edges + [one, two]) == Listed(edges) + Unmet(one) + Unmet(two)
  {
    FlattenTwo(edges, one, two, Unmet);
  }

  ghost predicate Asked(edges: seq<Edge>) {
    forall i | 0 <= i < |edges| :: edges[i].Agree? ==> edges[i].parties != []
  }

  ghost predicate AllHold(edges: seq<Edge>) {
    forall i | 0 <= i < |edges| :: Holds(edges[i])
  }

  lemma {:induction false} NothingFlat(edges: seq<Edge>, told: Edge -> seq<Failure>)
    ensures Flatten(edges, told) == [] <==> forall i | 0 <= i < |edges| :: told(edges[i]) == []
  {
    if edges != [] {
      NothingFlat(edges[..|edges| - 1], told);
    }
  }

  /** A refusal lists every edge that is not met. */
  lemma {:induction false} ListsEveryUnmet(edges: seq<Edge>, told: Edge -> seq<Failure>, i: nat, failure: Failure)
    requires i < |edges| && failure in told(edges[i])
    ensures failure in Flatten(edges, told)
  {
    if i < |edges| - 1 {
      ListsEveryUnmet(edges[..|edges| - 1], told, i, failure);
    }
  }

  lemma ListedWhenNotHeld(edges: seq<Edge>)
    requires Asked(edges)
    ensures Listed(edges) == [] <==> AllHold(edges)
  {
    NothingFlat(edges, Unmet);
    forall i | 0 <= i < |edges|
      ensures Unmet(edges[i]) == [] <==> Holds(edges[i])
    {
      UnmetWhenNotHeld(edges[i]);
    }
  }

  lemma {:induction false} OnceHolds(failures: seq<Failure>)
    ensures forall failure :: failure in Once(failures) <==> failure in failures
    ensures Once(failures) == [] <==> failures == []
    ensures forall i, j | 0 <= i < j < |Once(failures)| :: Once(failures)[i] != Once(failures)[j]
  {
    if failures != [] {
      var front := failures[..|failures| - 1];
      OnceHolds(front);
      assert failures == front + [failures[|failures| - 1]];
    }
  }

  /** The list of failures an edge's check adds to. */
  class Failures {
    var list: seq<Failure>

    constructor ()
      ensures list == []
    {
      list := [];
    }

    method Silent(interface: Interface, parties: seq<Component>)
      modifies this
      ensures list == old(list) + SilentOnes(interface, parties)
    {
      for n := 0 to |parties|
        invariant list == old(list) + SilentOnes(interface, parties[..n])
      {
        assert parties[..n + 1][..n] == parties[..n];
        if interface !in parties[n].speaks {
          list := list + [DoesNotSpeak(interface, parties[n].name)];
        }
      }
      assert parties[..|parties|] == parties;
    }

    method NegotiatePair(interface: Interface, left: Component, right: Component) returns (revision: Option<nat>)
      modifies this
      ensures list == old(list) + Unmet(Negotiate(interface, left, right))
      ensures revision == Settled(Negotiate(interface, left, right))
    {
      if interface in left.speaks && interface in right.speaks {
        revision := Common(left.speaks[interface], right.speaks[interface]);
        if revision.None? {
          list := list + [NoCommon(interface, left.name, right.name)];
        }
      } else {
        Silent(interface, [left, right]);
        revision := None;
      }
    }

    method AgreeAll(interface: Interface, parties: seq<Component>) returns (revision: Option<nat>)
      modifies this
      ensures list == old(list) + Unmet(Agree(interface, parties))
      ensures revision == Settled(Agree(interface, parties))
    {
      var speaking := RangesOf(interface, parties);
      if |speaking| < |parties| {
        Silent(interface, parties);
        return None;
      }
      if speaking == [] {
        return None;
      }
      var low, high := Low(speaking), High(speaking);
      if low > high {
        list := list + [NoneForAll(interface, Labels(parties))];
        return None;
      }
      revision := Some(high);
    }

    method ContainWritten(interface: Interface, writer: Component, reader: Component)
      modifies this
      ensures list == old(list) + Unmet(Contain(interface, writer, reader))
    {
      if interface in writer.speaks && interface in reader.speaks {
        if !Contains(reader.speaks[interface], writer.speaks[interface].max) {
          list := list + [Unread(interface, writer.name, reader.name)];
        }
      } else {
        Silent(interface, [writer, reader]);
      }
    }

    method CheckSlot(runtime: Component)
      modifies this
      ensures list == old(list) + Unmet(Slot(runtime))
    {
      var needs: seq<Need> := [];
      if runtime.toolsLayout != Some(2) && runtime.toolsLayout != Some(3) {
        needs := needs + [ToolsLayout];
      }
      if ActingdConfig !in runtime.speaks || !Contains(runtime.speaks[ActingdConfig], 2) {
        needs := needs + [ConfigTwo];
      }
      if InstallSelection !in runtime.speaks || !Contains(runtime.speaks[InstallSelection], 1) {
        needs := needs + [SelectionOne];
      }
      assert needs == SlotNeeds(runtime);
      if needs != [] {
        list := list + [NewSlot(runtime.name, needs)];
      }
    }

    method CheckBundles(p: Parties)
      modifies this
      ensures list == old(list) + Listed(BundleEdges(p, |p.bundles|))
    {
      for n := 0 to |p.bundles|
        invariant list == old(list) + Listed(BundleEdges(p, n))
      {
        ContainWritten(Package, p.bundles[n], p.runtime);
        ContainWritten(Package, p.bundles[n], p.installer);
        ListedMore(
          BundleEdges(p, n), Contain(Package, p.bundles[n], p.runtime), Contain(Package, p.bundles[n], p.installer));
      }
    }

    method NegotiateAfter(ghost before: seq<Edge>, interface: Interface, left: Component, right: Component,
                          ghost start: seq<Failure>)
      returns (revision: Option<nat>)
      requires list == start + Listed(before)
      modifies this
      ensures list == start + Listed(before + [Negotiate(interface, left, right)])
      ensures revision == Settled(Negotiate(interface, left, right))
    {
      revision := NegotiatePair(interface, left, right);
      ListedMore(before, Negotiate(interface, left, right), Negotiate(interface, left, right));
    }

    method AgreeFirst(interface: Interface, parties: seq<Component>) returns (revision: Option<nat>)
      modifies this
      ensures list == old(list) + Listed([Agree(interface, parties)])
      ensures revision == Settled(Agree(interface, parties))
    {
      revision := AgreeAll(interface, parties);
      ListedMore([], Agree(interface, parties), Agree(interface, parties));
      assert [] + [Agree(interface, parties)] == [Agree(interface, parties)];
    }

    /** One document in one revision for the three that write, edit and read it. */
    method CheckConfig(p: Parties) returns (config: Option<nat>)
      modifies this
      ensures list == old(list) + Listed(ConfigEdges(p))
      ensures config == Settled(Agree(ActingdConfig, [p.installer, p.ui, p.runtime]))
    {
      ghost var start := list;
      config := AgreeFirst(ActingdConfig, [p.installer, p.ui, p.runtime]);
      ghost var first := [Agree(ActingdConfig, [p.installer, p.ui, p.runtime])];
      match p.previous {
        case None => assert first + [] == first;
        case Some(previous) =>
          var revision := NegotiateAfter(first, ActingdConfig, p.installer, previous, start);
      }
    }

    /** Two containments of what one interface writes. */
    method ContainTwo(interface: Interface, first: (Component, Component), second: (Component, Component))
      modifies this
      ensures list == old(list)
                      + Listed([Contain(interface, first.0, first.1), Contain(interface, second.0, second.1)])
    {
      ContainWritten(interface, first.0, first.1);
      ContainWritten(interface, second.0, second.1);
      ListedMore([], Contain(interface, first.0, first.1), Contain(interface, second.0, second.1));
      assert [] + [Contain(interface, first.0, first.1), Contain(interface, second.0, second.1)]
          == [Contain(interface, first.0, first.1), Contain(interface, second.0, second.1)];
    }

    method ContainAfter(ghost before: seq<Edge>, interface: Interface, writer: Component, reader: Component,
                        ghost start: seq<Failure>)
      requires list == start + Listed(before)
      modifies this
      ensures list == start + Listed(before + [Contain(interface, writer, reader)])
    {
      ContainWritten(interface, writer, reader);
      ListedMore(before, Contain(interface, writer, reader), Contain(interface, writer, reader));
    }

    method CheckSelection(p: Parties)
      modifies this
      ensures list == old(list) + Listed(SelectionEdges(p))
    {
      ghost var start := list;
      ContainTwo(InstallSelection, (p.installer, p.runtime), (p.installer, p.ui));
      ghost var first := [Contain(InstallSelection, p.installer, p.runtime), Contain(InstallSelection, p.installer, p.ui)];
      if p.manager {
        ContainAfter(first, InstallSelection, p.ui, p.runtime, start);
      }
      assert first + [] == first;
    }

    /** What closes the previous Runtime, when there is one, and what starts the next. */
    method CheckControl(p: Parties) returns (close: Option<nat>, start: Option<nat>)
      modifies this
      ensures list == old(list) + Listed(ControlEdges(p))
      ensures start == Settled(Negotiate(InstallControl, p.installer, p.runtime))
      ensures close == if p.previous.None? then None
                       else Settled(Negotiate(InstallControl, p.installer, p.previous.value))
    {
      ghost var held, before: seq<Edge> := list, [];
      assert held == held + Listed(before);
      close := None;
      match p.previous {
        case None =>
        case Some(previous) =>
          close := NegotiateAfter(before, InstallControl, p.installer, previous, held);
          before := before + [Negotiate(InstallControl, p.installer, previous)];
      }
      start := NegotiateAfter(before, InstallControl, p.installer, p.runtime, held);
    }

    method CheckLedger(p: Parties)
      modifies this
      ensures list == old(list) + Listed(LedgerEdges(p))
    {
      ghost var start, before: seq<Edge> := list, [];
      assert start == start + Listed(before);
      match p.previous {
        case None =>
        case Some(previous) =>
          ContainTwo(Ledger, (previous, p.runtime), (previous, p.ui));
          before := [Contain(Ledger, previous, p.runtime), Contain(Ledger, previous, p.ui)];
      }
      ContainAfter(before, Ledger, p.runtime, p.ui, start);
    }

    method CheckNewSlot(p: Parties)
      modifies this
      ensures list == old(list) + Listed(SlotEdges(p))
    {
      if p.newSlot {
        CheckSlot(p.runtime);
        ListedMore([], Slot(p.runtime), Slot(p.runtime));
        assert [] + [Slot(p.runtime)] == [Slot(p.runtime)];
      }
    }

    /** Every edge, in order. */
    method CheckEdges(p: Parties) returns (config: Option<nat>, close: Option<nat>, start: Option<nat>, client: Option<nat>)
      modifies this
      ensures list == old(list) + Listed(Edges(p))
      ensures config == Settled(Agree(ActingdConfig, [p.installer, p.ui, p.runtime]))
      ensures start == Settled(Negotiate(InstallControl, p.installer, p.runtime))
      ensures close == if p.previous.None? then None
                       else Settled(Negotiate(InstallControl, p.installer, p.previous.value))
      ensures client == Settled(Negotiate(RuntimeClient, p.ui, p.runtime))
    {
      ghost var before := list;
      config := CheckConfig(p);
      CheckSelection(p);
      close, start := CheckControl(p);
      CheckLedger(p);
      client := NegotiatePair(RuntimeClient, p.ui, p.runtime);
      CheckBundles(p);
      CheckNewSlot(p);
      EdgesListed(p);
      SumOfSeven(
        before, Listed(ConfigEdges(p)), Listed(SelectionEdges(p)), Listed(ControlEdges(p)), Listed(LedgerEdges(p)),
        Unmet(Negotiate(RuntimeClient, p.ui, p.runtime)), Listed(BundleEdges(p, |p.bundles|)), Listed(SlotEdges(p)));
    }

    /** Each failure listed once. */
    method DrainOnce() returns (listed: seq<Failure>)
      ensures listed == Once(list)
    {
      listed := [];
      for n := 0 to |list|
        invariant listed == Once(list[..n])
      {
        assert list[..n + 1][..n] == list[..n];
        if list[n] !in listed {
          listed := listed + [list[n]];
        }
      }
      assert list[..|list|] == list;
    }
  }

  lemma SumOfSeven<T>(
    start: seq<T>, a: seq<T>, b: seq<T>, c: seq<T>, d: seq<T>, e: seq<T>, f: seq<T>, g: seq<T>)
    ensures start + a + b + c + d + e + f + g == start + (a + b + c + d + e + f + g)
  {
  }

  lemma EdgesListed(p: Parties)
    ensures Listed(Edges(p))
         == Listed(ConfigEdges(p)) + Listed(SelectionEdges(p)) + Listed(ControlEdges(p)) + Listed(LedgerEdges(p))
            + Unmet(Negotiate(RuntimeClient, p.ui, p.runtime)) + Listed(BundleEdges(p, |p.bundles|)) + Listed(SlotEdges(p))
  {
    FlattenSeven(ConfigEdges(p), SelectionEdges(p), ControlEdges(p), LedgerEdges(p),
                 Negotiate(RuntimeClient, p.ui, p.runtime), BundleEdges(p, |p.bundles|), SlotEdges(p), Unmet);
  }

  lemma FlattenSeven(
    a: seq<Edge>, b: seq<Edge>, c: seq<Edge>, d: seq<Edge>, e: Edge, f: seq<Edge>, g: seq<Edge>,
    told: Edge -> seq<Failure>)
    ensures Flatten(a + b + c + d + [e] + f + g, told)
         == Flatten(a, told) + Flatten(b, told) + Flatten(c, told) + Flatten(d, told) + told(e) + Flatten(f, told)
            + Flatten(g, told)
  {
    FlattenJoin(a, b, told);
    FlattenJoin(a + b, c, told);
    FlattenJoin(a + b + c, d, told);
    FlattenTwo(a + b + c + d, e, e, told);
    FlattenJoin(a + b + c + d + [e], f, told);
    FlattenJoin(a + b + c + d + [e] + f, g, told);
  }

  /** The whole check, with whether its lines could be reported. */
  method Check(p: Parties, linesReported: bool, lastReported: bool) returns (verdict: Verdict)
    ensures verdict.Passed? <==> linesReported && lastReported && AllHold(Edges(p))
    ensures verdict != Stopped(NoResult)
    ensures verdict.Stopped? && verdict.stop.Refused? ==>
              verdict.stop.failures == Once(Listed(Edges(p))) && verdict.stop.failures != []
    ensures linesReported && !AllHold(Edges(p)) ==> verdict.Stopped? && verdict.stop.Refused?
    ensures verdict.Passed? ==>
              var agreed := verdict.agreed;
              && (agreed.close.Some? <==> p.previous.Some?) && (agreed.previous.Some? <==> p.previous.Some?)
              && Settled(Negotiate(InstallControl, p.installer, p.runtime)).Some?
              && agreed.start == ControlOf(Settled(Negotiate(InstallControl, p.installer, p.runtime)).value)
              && (p.previous.Some? ==>
                    && agreed.previous == Some(p.previous.value.commit)
                    && Settled(Negotiate(InstallControl, p.installer, p.previous.value)).Some?
                    && agreed.close
                       == Some(ControlOf(Settled(Negotiate(InstallControl, p.installer, p.previous.value)).value)))
  {
    if !linesReported {
      return Stopped(Unreported);
    }
    var failures := new Failures();
    var config, close, start, client := failures.CheckEdges(p);
    assert [] + Listed(Edges(p)) == Listed(Edges(p));
    var listed := failures.DrainOnce();
    EdgesAsked(p);
    ListedWhenNotHeld(Edges(p));
    OnceHolds(Listed(Edges(p)));
    if listed != [] {
      return Stopped(Refused(listed));
    }
    SettledWhenAllHold(p);
    if config.None? || start.None? || client.None? {
      return Stopped(NoResult);
    }
    if !lastReported {
      return Stopped(Unreported);
    }
    verdict := Passed(Agreed(
      if close.Some? then Some(ControlOf(close.value)) else None, ControlOf(start.value),
      if p.previous.Some? then Some(p.previous.value.commit) else None));
  }

  lemma {:induction false} BundlesAsked(p: Parties, n: nat)
    requires n <= |p.bundles|
    ensures forall i | 0 <= i < |BundleEdges(p, n)| :: BundleEdges(p, n)[i].Contain?
    ensures |BundleEdges(p, n)| == 2 * n
  {
    if n > 0 {
      BundlesAsked(p, n - 1);
    }
  }

  lemma EdgesAsked(p: Parties)
    ensures Asked(Edges(p))
  {
    BundlesAsked(p, |p.bundles|);
  }

  /** When every edge holds, every negotiation has its result. */
  lemma SettledWhenAllHold(p: Parties)
    requires AllHold(Edges(p))
    ensures Settled(Agree(ActingdConfig, [p.installer, p.ui, p.runtime])).Some?
    ensures Settled(Negotiate(InstallControl, p.installer, p.runtime)).Some?
    ensures Settled(Negotiate(RuntimeClient, p.ui, p.runtime)).Some?
    ensures p.previous.Some? ==> Settled(Negotiate(InstallControl, p.installer, p.previous.value)).Some?
  {
    var edges, config, selection, control := Edges(p), |ConfigEdges(p)|, |SelectionEdges(p)|, |ControlEdges(p)|;
    var ledger := |LedgerEdges(p)|;
    assert edges[0] == Agree(ActingdConfig, [p.installer, p.ui, p.runtime]);
    UnmetWhenNotHeld(edges[0]);
    assert edges[config + selection + control - 1] == Negotiate(InstallControl, p.installer, p.runtime);
    UnmetWhenNotHeld(edges[config + selection + control - 1]);
    assert edges[config + selection + control + ledger] == Negotiate(RuntimeClient, p.ui, p.runtime);
    UnmetWhenNotHeld(edges[config + selection + control + ledger]);
    if p.previous.Some? {
      assert edges[config + selection] == Negotiate(InstallControl, p.installer, p.previous.value);
      UnmetWhenNotHeld(edges[config + selection]);
    }
  }

  // Reading more never turns an acceptance into a refusal.

  /** The same component, but reading from an earlier revision on. */
  ghost predicate Lower(a: Component, b: Component) {
    && a.toolsLayout == b.toolsLayout && a.speaks.Keys == b.speaks.Keys
    && forall interface | interface in a.speaks ::
         b.speaks[interface].min <= a.speaks[interface].min && b.speaks[interface].max == a.speaks[interface].max
  }

  ghost predicate LowerAll(a: seq<Component>, b: seq<Component>) {
    |a| == |b| && forall i | 0 <= i < |a| :: Lower(a[i], b[i])
  }

  ghost predicate LowerParties(p: Parties, q: Parties) {
    && Lower(p.installer, q.installer) && Lower(p.runtime, q.runtime) && Lower(p.ui, q.ui)
    && p.previous.Some? == q.previous.Some? && (p.previous.Some? ==> Lower(p.previous.value, q.previous.value))
    && p.manager == q.manager && p.newSlot == q.newSlot && LowerAll(p.bundles, q.bundles)
  }

  ghost predicate LowerEdge(e: Edge, f: Edge) {
    match e
    case Agree(interface, parties) => f.Agree? && f.interface == interface && LowerAll(parties, f.parties)
    case Negotiate(interface, left, right) =>
      f.Negotiate? && f.interface == interface && Lower(left, f.left) && Lower(right, f.right)
    case Contain(interface, writer, reader) =>
      f.Contain? && f.interface == interface && Lower(writer, f.writer) && Lower(reader, f.reader)
    case Slot(runtime) => f.Slot? && Lower(runtime, f.runtime)
  }

  lemma LowerHolds(e: Edge, f: Edge)
    requires LowerEdge(e, f) && Holds(e)
    ensures Holds(f)
  {
    match e
    case Agree(interface, parties) =>
      forall i | 0 <= i < |f.parties|
        ensures Speaks(f.parties[i], interface)
      {
        assert Lower(parties[i], f.parties[i]) && Speaks(parties[i], interface);
      }
      var revision: nat :| AllRead(parties, interface, revision);
      forall i | 0 <= i < |f.parties|
        ensures Contains(f.parties[i].speaks[interface], revision)
      {
        assert Lower(parties[i], f.parties[i]) && Contains(parties[i].speaks[interface], revision);
      }
      assert AllRead(f.parties, interface, revision);
    case Negotiate(interface, left, right) =>
      var revision: nat :| Contains(left.speaks[interface], revision) && Contains(right.speaks[interface], revision);
      assert Contains(f.left.speaks[interface], revision) && Contains(f.right.speaks[interface], revision);
    case Contain(interface, writer, reader) =>
    case Slot(runtime) =>
  }

  ghost predicate LowerList(a: seq<Edge>, b: seq<Edge>) {
    |a| == |b| && forall i | 0 <= i < |a| :: LowerEdge(a[i], b[i])
  }

  lemma LowerJoin(a: seq<Edge>, b: seq<Edge>, c: seq<Edge>, d: seq<Edge>)
    requires LowerList(a, c) && LowerList(b, d)
    ensures LowerList(a + b, c + d)
  {
  }

  lemma {:induction false} LowerBundles(p: Parties, q: Parties, n: nat)
    requires LowerParties(p, q) && n <= |p.bundles|
    ensures LowerList(BundleEdges(p, n), BundleEdges(q, n))
  {
    if n > 0 {
      LowerBundles(p, q, n - 1);
      assert Lower(p.bundles[n - 1], q.bundles[n - 1]);
    }
  }

  lemma LowerThree(p: Parties, q: Parties)
    requires LowerParties(p, q)
    ensures LowerAll([p.installer, p.ui, p.runtime], [q.installer, q.ui, q.runtime])
  {
  }

  lemma LowerGroups(p: Parties, q: Parties)
    requires LowerParties(p, q)
    ensures LowerList(ConfigEdges(p), ConfigEdges(q)) && LowerList(SelectionEdges(p), SelectionEdges(q))
    ensures LowerList(ControlEdges(p), ControlEdges(q)) && LowerList(LedgerEdges(p), LedgerEdges(q))
    ensures LowerList(SlotEdges(p), SlotEdges(q))
  {
    LowerThree(p, q);
  }

  lemma LowerEdges(p: Parties, q: Parties)
    requires LowerParties(p, q)
    ensures LowerList(Edges(p), Edges(q))
  {
    LowerGroups(p, q);
    LowerBundles(p, q, |p.bundles|);
    var client := [Negotiate(RuntimeClient, p.ui, p.runtime)];
    LowerSeven(
      ConfigEdges(p), SelectionEdges(p), ControlEdges(p), LedgerEdges(p), client, BundleEdges(p, |p.bundles|), SlotEdges(p),
      ConfigEdges(q), SelectionEdges(q), ControlEdges(q), LedgerEdges(q), [Negotiate(RuntimeClient, q.ui, q.runtime)],
      BundleEdges(q, |q.bundles|), SlotEdges(q));
  }

  lemma LowerSeven(
    a: seq<Edge>, b: seq<Edge>, c: seq<Edge>, d: seq<Edge>, e: seq<Edge>, f: seq<Edge>, g: seq<Edge>,
    h: seq<Edge>, i: seq<Edge>, j: seq<Edge>, k: seq<Edge>, l: seq<Edge>, m: seq<Edge>, n: seq<Edge>)
    requires LowerList(a, h) && LowerList(b, i) && LowerList(c, j) && LowerList(d, k)
    requires LowerList(e, l) && LowerList(f, m) && LowerList(g, n)
    ensures LowerList(a + b + c + d + e + f + g, h + i + j + k + l + m + n)
  {
    LowerJoin(a, b, h, i);
    LowerJoin(a + b, c, h + i, j);
    LowerJoin(a + b + c, d, h + i + j, k);
    LowerJoin(a + b + c + d, e, h + i + j + k, l);
    LowerJoin(a + b + c + d + e, f, h + i + j + k + l, m);
    LowerJoin(a + b + c + d + e + f, g, h + i + j + k + l + m, n);
  }

  /** A check that passes still passes when any component also reads earlier revisions. */
  lemma ReadingMoreNeverRefuses(p: Parties, q: Parties)
    requires LowerParties(p, q) && AllHold(Edges(p))
    ensures AllHold(Edges(q))
  {
    LowerEdges(p, q);
    var before, after := Edges(p), Edges(q);
    forall i | 0 <= i < |after|
      ensures Holds(after[i])
    {
      assert LowerEdge(before[i], after[i]);
      LowerHolds(before[i], after[i]);
    }
  }
}
