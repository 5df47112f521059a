/** One frame, and what the loaded events say happened on it: its capture, the recognition made on it
    and the inputs meant on it. */
module FrameGroups {
  import opened Outcomes
  import opened Picking

  datatype Artifact = Artifact(id: nat, captureFrame: bool)

  datatype Eviction = Eviction(artifact: nat, reason: string)

  datatype Region = Region(x: int, y: int, width: nat, height: nat)

  datatype Evaluated = Evaluated(id: string, role: string, passed: bool, region: Option<Region>)

  /** An input action as written: its kind and the numbers it names. */
  datatype Action = Action(kind: string, numbers: map<string, int>)

  datatype Fact =
    | Recognition(candidates: nat, matched: Option<string>, size: (nat, nat), targets: seq<Evaluated>)
    | Intent(step: nat, operation: string, stated: Option<(nat, nat)>, action: Action)
    | Otherwise

  datatype Event = Event(
    sequence: nat, id: nat, eventType: string, frame: Option<string>, run: Option<string>, action: Option<string>,
    artifacts: seq<Artifact>, evictions: seq<Eviction>, fact: Fact)

  datatype Target = Target(sequence: nat, id: nat, artifact: Artifact, eviction: Option<Eviction>)

  datatype Mark = Mark(step: nat, operation: string, kind: string, points: seq<(int, int)>)

  datatype Box = Box(id: string, role: string, passed: bool, region: Region)

  datatype Group = Group(
    target: Option<Target>, extent: Option<(nat, nat)>, recognition: Option<(Option<string>, nat)>,
    targets: (nat, nat), boxes: seq<Box>, marks: seq<Mark>)

  function Front<T>(list: seq<T>): seq<T>
    requires list != []
  {
    list[..|list| - 1]
  }

  function Last<T>(list: seq<T>): T
    requires list != []
  {
    list[|list| - 1]
  }

  function Capture(artifacts: seq<Artifact>): Option<Artifact> {
    if artifacts == [] then None
    else if artifacts[0].captureFrame then Some(artifacts[0])
    else Capture(artifacts[1..])
  }

  function EvictionOf(evictions: seq<Eviction>, artifact: nat): Option<Eviction> {
    if evictions == [] then None
    else if evictions[0].artifact == artifact then Some(evictions[0])
    else EvictionOf(evictions[1..], artifact)
  }

  function Pair(numbers: map<string, int>, x: string, y: string): seq<(int, int)> {
    if x in numbers && y in numbers then [(numbers[x], numbers[y])] else []
  }

  function Points(action: Action): seq<(int, int)> {
    Pair(action.numbers, "x", "y") + Pair(action.numbers, "x1", "y1")
    + Pair(action.numbers, "x2", "y2") + Pair(action.numbers, "x3", "y3")
  }

  function Passed(targets: seq<Evaluated>): (count: nat)
    ensures count <= |targets|
  {
    if targets == [] then 0 else Passed(Front(targets)) + if Last(targets).passed then 1 else 0
  }

  function Boxes(targets: seq<Evaluated>): seq<Box> {
    if targets == [] then []
    else
      var last := Last(targets);
      Boxes(Front(targets))
      + if last.region.Some? then [Box(last.id, last.role, last.passed, last.region.value)] else []
  }

  // The events of the frame, in ledger order, each once.

  function OfFrame(frame: string, events: seq<Event>): seq<Event> {
    if events == [] then []
    else OfFrame(frame, Front(events)) + if Last(events).frame == Some(frame) then [Last(events)] else []
  }

  /** Stable insertion by sequence. */
  function Inserted(sorted: seq<Event>, event: Event): seq<Event> {
    if sorted == [] || Last(sorted).sequence <= event.sequence then sorted + [event]
    else Inserted(Front(sorted), event) + [Last(sorted)]
  }

  function SortedBySequence(events: seq<Event>): seq<Event> {
    if events == [] then [] else Inserted(SortedBySequence(Front(events)), Last(events))
  }

  /** Of a run of events of one sequence, the first. */
  function Deduped(events: seq<Event>): seq<Event> {
    if events == [] then []
    else
      var before := Deduped(Front(events));
      if before != [] && Last(before).sequence == Last(events).sequence then before else before + [Last(events)]
  }

  function InLedgerOrder(frame: string, events: seq<Event>): seq<Event> {
    Deduped(SortedBySequence(OfFrame(frame, events)))
  }

  ghost predicate Increasing(events: seq<Event>) {
    forall i, j | 0 <= i < j < |events| :: events[i].sequence < events[j].sequence
  }

  ghost predicate Sorted(events: seq<Event>) {
    forall i, j | 0 <= i < j < |events| :: events[i].sequence <= events[j].sequence
  }

  /** A sequence names one event: the ledger's own. */
  ghost predicate Coherent(events: seq<Event>) {
    forall i, j | 0 <= i < |events| && 0 <= j < |events| && events[i].sequence == events[j].sequence ::
      events[i] == events[j]
  }

  ghost predicate SameEvents(a: seq<Event>, b: seq<Event>) {
    forall event :: event in a <==> event in b
  }

  lemma {:induction false} OfFrameHolds(frame: string, events: seq<Event>)
    ensures forall event :: event in OfFrame(frame, events) <==> event in events && event.frame == Some(frame)
  {
    if events != [] {
      OfFrameHolds(frame, Front(events));
      assert events == Front(events) + [Last(events)];
    }
  }

  lemma {:induction false} InsertedHolds(sorted: seq<Event>, event: Event)
    requires Sorted(sorted)
    ensures Sorted(Inserted(sorted, event))
    ensures forall other :: other in Inserted(sorted, event) <==> other in sorted || other == event
  {
    if sorted != [] {
      assert sorted == Front(sorted) + [Last(sorted)];
      if Last(sorted).sequence > event.sequence {
        InsertedHolds(Front(sorted), event);
        forall other | other in Inserted(Front(sorted), event)
          ensures other.sequence <= Last(sorted).sequence
        {
        }
      }
    }
  }

  lemma {:induction false} SortedHolds(events: seq<Event>)
    ensures Sorted(SortedBySequence(events)) && SameEvents(SortedBySequence(events), events)
  {
    if events != [] {
      SortedHolds(Front(events));
      InsertedHolds(SortedBySequence(Front(events)), Last(events));
      assert events == Front(events) + [Last(events)];
    }
  }

  /** Of events in order, the next is behind them all or is the last of them again. */
  lemma NextIsLastOrLater(events: seq<Event>, before: seq<Event>)
    requires Sorted(events) && Coherent(events) && events != []
    requires before != [] && SameEvents(before, Front(events))
    ensures Last(before).sequence < Last(events).sequence || Last(before) == Last(events)
  {
    assert Last(before) in before;
    var i :| 0 <= i < |events| - 1 && events[i] == Last(before);
    assert events[i].sequence <= events[|events| - 1].sequence;
  }

  lemma BehindTheLast(before: seq<Event>, event: Event)
    requires Increasing(before) && (before == [] || Last(before).sequence < event.sequence)
    ensures Increasing(before + [event])
  {
  }

  lemma SameEventsMore(events: seq<Event>, before: seq<Event>)
    requires events != [] && SameEvents(before, Front(events))
    ensures SameEvents(before + [Last(events)], events)
    ensures Last(events) in before ==> SameEvents(before, events)
  {
    assert events == Front(events) + [Last(events)];
  }

  lemma {:induction false} DedupedHolds(events: seq<Event>)
    requires Sorted(events) && Coherent(events)
    ensures Increasing(Deduped(events)) && SameEvents(Deduped(events), events)
  {
    if events != [] {
      var before := Deduped(Front(events));
      DedupedHolds(Front(events));
      SameEventsMore(events, before);
      if before != [] {
        NextIsLastOrLater(events, before);
      }
      if before == [] || Last(before).sequence < Last(events).sequence {
        BehindTheLast(before, Last(events));
      }
    }
  }

  lemma LastOnce(a: seq<Event>, event: Event)
    requires Increasing(a) && a != []
    ensures event in Front(a) <==> event in a && event != Last(a)
    ensures event in a && event.sequence >= Last(a).sequence ==> event == Last(a)
  {
    assert a == Front(a) + [Last(a)];
  }

  /** Increasing lists of the same events are the same list. */
  lemma {:induction false} IncreasingIsUnique(a: seq<Event>, b: seq<Event>)
    requires Increasing(a) && Increasing(b) && SameEvents(a, b)
    ensures a == b
  {
    assert a != [] ==> a[0] in b;
    assert b != [] ==> b[0] in a;
    if a != [] && b != [] {
      LastIsLast(a, b);
      LastIsLast(b, a);
      LastOnce(b, Last(a));
      forall event
        ensures event in Front(a) <==> event in Front(b)
      {
        LastOnce(a, event);
        LastOnce(b, event);
      }
      IncreasingIsUnique(Front(a), Front(b));
      assert a == Front(a) + [Last(a)] && b == Front(b) + [Last(b)];
    }
  }

  lemma LastIsLast(a: seq<Event>, b: seq<Event>)
    requires Increasing(a) && Increasing(b) && SameEvents(a, b) && a != [] && b != []
    ensures Last(a).sequence <= Last(b).sequence
  {
    assert Last(a) in b;
  }

  /** What the group states depends only on which events there are: not on their order or repetition. */
  lemma OrderDoesNotMatter(frame: string, a: seq<Event>, b: seq<Event>)
    requires Coherent(a) && Coherent(b) && SameEvents(a, b)
    ensures Stated(InLedgerOrder(frame, a)) == Stated(InLedgerOrder(frame, b))
  {
    InOrder(frame, a);
    InOrder(frame, b);
    forall event
      ensures event in InLedgerOrder(frame, a) <==> event in InLedgerOrder(frame, b)
    {
      assert event in a <==> event in b;
    }
    IncreasingIsUnique(InLedgerOrder(frame, a), InLedgerOrder(frame, b));
  }

  /** They are the frame's events, each once, by increasing sequence. */
  lemma InOrder(frame: string, events: seq<Event>)
    requires Coherent(events)
    ensures Increasing(InLedgerOrder(frame, events))
    ensures forall event :: event in InLedgerOrder(frame, events) <==> event in events && event.frame == Some(frame)
  {
    var ours := OfFrame(frame, events);
    OfFrameHolds(frame, events);
    SortedHolds(ours);
    var sorted := SortedBySequence(ours);
    forall i, j | 0 <= i < |sorted| && 0 <= j < |sorted| && sorted[i].sequence == sorted[j].sequence
      ensures sorted[i] == sorted[j]
    {
      assert sorted[i] in ours && sorted[j] in ours;
      assert sorted[i] in events && sorted[j] in events;
    }
    DedupedHolds(sorted);
  }

  // What the group states, told from the ordered events.

  predicate Verified(event: Event) {
    event.eventType == "artifact.verified"
  }

  predicate Shows(event: Event, verified: bool) {
    Capture(event.artifacts).Some? && (verified ==> Verified(event))
  }

  /** The first capture, or the first verified one. */
  function FirstCapture(events: seq<Event>, verified: bool): (first: Option<Event>)
    ensures first.Some? ==> Capture(first.value.artifacts).Some?
  {
    if events == [] then None
    else
      var before := FirstCapture(Front(events), verified);
      var last := Last(events);
      if before.None? && Shows(last, verified) then Some(last) else before
  }

  function TargetOf(event: Event): Target
    requires Capture(event.artifacts).Some?
  {
    var artifact := Capture(event.artifacts).value;
    Target(event.sequence, event.id, artifact, EvictionOf(event.evictions, artifact.id))
  }

  function LastRecognition(events: seq<Event>): (last: Option<Fact>)
    ensures last.Some? ==> last.value.Recognition?
  {
    if events == [] then None
    else if Last(events).fact.Recognition? then Some(Last(events).fact)
    else LastRecognition(Front(events))
  }

  function FirstStated(events: seq<Event>): Option<(nat, nat)> {
    if events == [] then None
    else
      var before := FirstStated(Front(events));
      if before.None? && Last(events).fact.Intent? then Last(events).fact.stated else before
  }

  function Marks(events: seq<Event>): seq<Mark> {
    if events == [] then []
    else
      var fact := Last(events).fact;
      Marks(Front(events))
      + if fact.Intent? then [Mark(fact.step, fact.operation, fact.action.kind, Points(fact.action))] else []
  }

  function TargetIn(ordered: seq<Event>): Option<Target> {
    var verified, any := FirstCapture(ordered, true), FirstCapture(ordered, false);
    if verified.Some? then Some(TargetOf(verified.value))
    else if any.Some? then Some(TargetOf(any.value)) else None
  }

  function Stated(ordered: seq<Event>): Group {
    match LastRecognition(ordered)
    case Some(seen) =>
      Group(TargetIn(ordered), Some(seen.size), Some((seen.matched, seen.candidates)),
            (Passed(seen.targets), |seen.targets|), Boxes(seen.targets), Marks(ordered))
    case None => Group(TargetIn(ordered), FirstStated(ordered), None, (0, 0), [], Marks(ordered))
  }

  ghost predicate FirstAt(events: seq<Event>, verified: bool, i: nat) {
    i < |events| && Shows(events[i], verified) && forall j | 0 <= j < i :: !Shows(events[j], verified)
  }

  /** `FirstCapture` is the capture no earlier event precedes. */
  lemma {:induction false} FirstCaptureIs(events: seq<Event>, verified: bool)
    ensures FirstCapture(events, verified).None? <==> forall event | event in events :: !Shows(event, verified)
    ensures FirstCapture(events, verified).Some? ==>
              exists i: nat :: FirstAt(events, verified, i) && events[i] == FirstCapture(events, verified).value
  {
    if events != [] {
      var front := Front(events);
      FirstCaptureIs(front, verified);
      assert events == front + [Last(events)];
      if FirstCapture(front, verified).Some? {
        var i: nat :| FirstAt(front, verified, i) && front[i] == FirstCapture(front, verified).value;
        assert FirstAt(events, verified, i);
      } else if Shows(Last(events), verified) {
        assert FirstAt(events, verified, |front|);
      }
    }
  }

  // What the group states, told from the events alone.

  /** The last event of the frame that recognises it. */
  ghost predicate LatestRecognition(events: seq<Event>, i: nat) {
    i < |events| && events[i].fact.Recognition? && forall j | i < j < |events| :: !events[j].fact.Recognition?
  }

  /** The first input meant on the frame that states its extent. */
  ghost predicate FirstStating(events: seq<Event>, i: nat) {
    && i < |events| && StatesExtent(events[i])
    && forall j | 0 <= j < i :: !StatesExtent(events[j])
  }

  predicate StatesExtent(event: Event) {
    event.fact.Intent? && event.fact.stated.Some?
  }

  ghost function WithRegion(targets: seq<Evaluated>): set<nat> {
    set i: nat | i < |targets| && targets[i].region.Some?
  }

  ghost function Intents(events: seq<Event>): set<nat> {
    set i: nat | i < |events| && events[i].fact.Intent?
  }

  /** The boxes are those of the targets with a region, at these places, in order. */
  ghost predicate BoxedAt(targets: seq<Evaluated>, boxes: seq<Box>, at: seq<nat>) {
    && Ascending(at, |targets|) && |boxes| == |at|
    && (forall k | 0 <= k < |at| ::
          var target := targets[at[k]];
          target.region.Some? && boxes[k] == Box(target.id, target.role, target.passed, target.region.value))
    && Covers(at, WithRegion(targets))
  }

  function MarkOf(fact: Fact): Mark
    requires fact.Intent?
  {
    Mark(fact.step, fact.operation, fact.action.kind, Points(fact.action))
  }

  /** The marks are those of the inputs meant on the frame, at these places, in order. */
  ghost predicate MarkedAt(events: seq<Event>, marks: seq<Mark>, at: seq<nat>) {
    && Ascending(at, |events|) && |marks| == |at|
    && (forall k | 0 <= k < |at| ::
          events[at[k]].fact.Intent? && marks[k] == MarkOf(events[at[k]].fact))
    && Covers(at, Intents(events))
  }

  ghost function PassedAt(targets: seq<Evaluated>): set<nat> {
    set i: nat | i < |targets| && targets[i].passed
  }

  lemma {:induction false} PassedIs(targets: seq<Evaluated>)
    ensures Passed(targets) == |PassedAt(targets)|
  {
    if targets != [] {
      var front := Front(targets);
      PassedIs(front);
      if Last(targets).passed {
        assert PassedAt(targets) == PassedAt(front) + {|front|};
      } else {
        assert PassedAt(targets) == PassedAt(front);
      }
    }
  }

  lemma BoxedMore(front: seq<Evaluated>, last: Evaluated, boxes: seq<Box>, at: seq<nat>)
    requires BoxedAt(front, boxes, at)
    ensures last.region.None? ==> BoxedAt(front + [last], boxes, at)
    ensures last.region.Some? ==>
              BoxedAt(front + [last], boxes + [Box(last.id, last.role, last.passed, last.region.value)], at + [|front|])
  {
    PickMore(at, WithRegion(front), |front|, WithRegion(front + [last]));
  }

  lemma {:induction false} BoxesAre(targets: seq<Evaluated>) returns (at: seq<nat>)
    ensures BoxedAt(targets, Boxes(targets), at)
  {
    at := [];
    if targets != [] {
      at := BoxesAre(Front(targets));
      assert targets == Front(targets) + [Last(targets)];
      BoxedMore(Front(targets), Last(targets), Boxes(Front(targets)), at);
      at := if Last(targets).region.Some? then at + [|targets| - 1] else at;
      assert Last(targets).region.None? ==> Boxes(targets) == Boxes(Front(targets));
    }
  }

  lemma MarkedMore(front: seq<Event>, last: Event, marks: seq<Mark>, at: seq<nat>)
    requires MarkedAt(front, marks, at)
    ensures !last.fact.Intent? ==> MarkedAt(front + [last], marks, at)
    ensures last.fact.Intent? ==> MarkedAt(front + [last], marks + [MarkOf(last.fact)], at + [|front|])
  {
    PickMore(at, Intents(front), |front|, Intents(front + [last]));
  }

  lemma {:induction false} MarksAre(events: seq<Event>) returns (at: seq<nat>)
    ensures MarkedAt(events, Marks(events), at)
  {
    at := [];
    if events != [] {
      at := MarksAre(Front(events));
      assert events == Front(events) + [Last(events)];
      MarkedMore(Front(events), Last(events), Marks(Front(events)), at);
      at := if Last(events).fact.Intent? then at + [|events| - 1] else at;
      assert !Last(events).fact.Intent? ==> Marks(events) == Marks(Front(events));
    }
  }

  /** The named pairs of an action come in this order, each exactly when both its numbers are named. */
  lemma PointsAre(action: Action)
    ensures var numbers, points := action.numbers, Points(action);
            var p0 := if "x" in numbers && "y" in numbers then 1 else 0;
            var p1 := p0 + if "x1" in numbers && "y1" in numbers then 1 else 0;
            var p2 := p1 + if "x2" in numbers && "y2" in numbers then 1 else 0;
            && |points| == p2 + (if "x3" in numbers && "y3" in numbers then 1 else 0)
            && (p0 == 1 ==> points[0] == (numbers["x"], numbers["y"]))
            && ("x1" in numbers && "y1" in numbers ==> points[p0] == (numbers["x1"], numbers["y1"]))
            && ("x2" in numbers && "y2" in numbers ==> points[p1] == (numbers["x2"], numbers["y2"]))
            && ("x3" in numbers && "y3" in numbers ==> points[p2] == (numbers["x3"], numbers["y3"]))
  {
  }

  /** The first artifact of its kind, and what evicted it, if anything did. */
  ghost predicate Holds(event: Event, target: Target) {
    && target.sequence == event.sequence && target.id == event.id
    && (exists i :: 0 <= i < |event.artifacts| && event.artifacts[i] == target.artifact && target.artifact.captureFrame
                    && forall j | 0 <= j < i :: !event.artifacts[j].captureFrame)
    && (target.eviction.None? <==> forall eviction | eviction in event.evictions :: eviction.artifact != target.artifact.id)
    && (target.eviction.Some? ==>
          exists i :: 0 <= i < |event.evictions| && event.evictions[i] == target.eviction.value
                      && target.eviction.value.artifact == target.artifact.id
                      && forall j | 0 <= j < i :: event.evictions[j].artifact != target.artifact.id)
  }

  lemma {:induction false} CaptureIs(artifacts: seq<Artifact>)
    ensures Capture(artifacts).None? <==> forall artifact | artifact in artifacts :: !artifact.captureFrame
    ensures Capture(artifacts).Some? ==>
              exists i :: 0 <= i < |artifacts| && artifacts[i] == Capture(artifacts).value && artifacts[i].captureFrame
                          && forall j | 0 <= j < i :: !artifacts[j].captureFrame
  {
    if artifacts != [] && !artifacts[0].captureFrame {
      CaptureIs(artifacts[1..]);
      if Capture(artifacts[1..]).Some? {
        var i :| 0 <= i < |artifacts[1..]| && artifacts[1..][i] == Capture(artifacts[1..]).value
                 && artifacts[1..][i].captureFrame && forall j | 0 <= j < i :: !artifacts[1..][j].captureFrame;
        assert artifacts[i + 1] == Capture(artifacts).value;
        forall j | 0 <= j < i + 1
          ensures !artifacts[j].captureFrame
        {
          assert j > 0 ==> artifacts[j] == artifacts[1..][j - 1];
        }
      }
    }
  }

  lemma {:induction false} EvictionIs(evictions: seq<Eviction>, artifact: nat)
    ensures EvictionOf(evictions, artifact).None? <==> forall eviction | eviction in evictions :: eviction.artifact != artifact
    ensures EvictionOf(evictions, artifact).Some? ==>
              exists i :: 0 <= i < |evictions| && evictions[i] == EvictionOf(evictions, artifact).value
                          && evictions[i].artifact == artifact && forall j | 0 <= j < i :: evictions[j].artifact != artifact
  {
    if evictions != [] && evictions[0].artifact != artifact {
      EvictionIs(evictions[1..], artifact);
      if EvictionOf(evictions[1..], artifact).Some? {
        var i :| 0 <= i < |evictions[1..]| && evictions[1..][i] == EvictionOf(evictions[1..], artifact).value
                 && evictions[1..][i].artifact == artifact && forall j | 0 <= j < i :: evictions[1..][j].artifact != artifact;
        assert evictions[i + 1] == EvictionOf(evictions, artifact).value;
        forall j | 0 <= j < i + 1
          ensures evictions[j].artifact != artifact
        {
          assert j > 0 ==> evictions[j] == evictions[1..][j - 1];
        }
      }
    }
  }

  lemma TargetHolds(event: Event)
    requires Capture(event.artifacts).Some?
    ensures Holds(event, TargetOf(event))
  {
    CaptureIs(event.artifacts);
    EvictionIs(event.evictions, TargetOf(event).artifact.id);
  }

  predicate ShowsFrame(event: Event) {
    exists i :: 0 <= i < |event.artifacts| && event.artifacts[i].captureFrame
  }

  /** The frame's target is of the first verified capture, or with none of the first capture. */
  ghost predicate Targeted(events: seq<Event>, target: Option<Target>) {
    && (target.None? <==> forall event | event in events :: !ShowsFrame(event))
    && (target.Some? ==>
          exists i: nat ::
            && i < |events| && Holds(events[i], target.value)
            && (forall j | 0 <= j < i :: !(ShowsFrame(events[j]) && events[j].eventType == "artifact.verified"))
            && (events[i].eventType != "artifact.verified" ==>
                  && (forall j | 0 <= j < i :: !ShowsFrame(events[j]))
                  && forall event | event in events && ShowsFrame(event) :: event.eventType != "artifact.verified"))
  }

  lemma ShowsIs(event: Event, verified: bool)
    ensures Shows(event, verified) <==> ShowsFrame(event) && (verified ==> Verified(event))
  {
    CaptureIs(event.artifacts);
  }

  lemma TargetIs(events: seq<Event>)
    ensures Targeted(events, TargetIn(events))
  {
    FirstCaptureIs(events, true);
    FirstCaptureIs(events, false);
    forall event, verified
      ensures Shows(event, verified) <==> ShowsFrame(event) && (verified ==> Verified(event))
    {
      ShowsIs(event, verified);
    }
    var chosen := FirstCapture(events, true).Some?;
    if FirstCapture(events, false).Some? {
      var i: nat :| FirstAt(events, chosen, i) && events[i] == FirstCapture(events, chosen).value;
      TargetHolds(events[i]);
      assert TargetIn(events) == Some(TargetOf(events[i]));
    }
  }

  /** The group says what the last recognition does, whole; with none, only the extent, and that is the
      first one an input states. */
  ghost predicate Recognised(events: seq<Event>, group: Group) {
    && (forall i: nat | LatestRecognition(events, i) ::
          var fact := events[i].fact;
          && group.recognition == Some((fact.matched, fact.candidates)) && group.extent == Some(fact.size)
          && group.targets == (|PassedAt(fact.targets)|, |fact.targets|)
          && exists at :: BoxedAt(fact.targets, group.boxes, at))
    && ((forall event | event in events :: !event.fact.Recognition?) ==>
          && group.recognition == None && group.targets == (0, 0) && group.boxes == []
          && (forall i: nat | FirstStating(events, i) :: group.extent == events[i].fact.stated)
          && ((forall event | event in events :: !StatesExtent(event)) ==> group.extent == None))
  }

  lemma {:induction false} LastRecognitionIs(events: seq<Event>)
    ensures LastRecognition(events).None? <==> forall event | event in events :: !event.fact.Recognition?
    ensures forall i: nat | LatestRecognition(events, i) :: LastRecognition(events) == Some(events[i].fact)
  {
    if events != [] {
      var front := Front(events);
      LastRecognitionIs(front);
      assert events == front + [Last(events)];
      forall i: nat | LatestRecognition(events, i)
        ensures LastRecognition(events) == Some(events[i].fact)
      {
        if i < |front| {
          assert !events[|front|].fact.Recognition?;
          assert LatestRecognition(front, i);
        }
      }
    }
  }

  lemma {:induction false} FirstStatedIs(events: seq<Event>)
    ensures FirstStated(events).None? <==> forall event | event in events :: !StatesExtent(event)
    ensures forall i: nat | FirstStating(events, i) :: FirstStated(events) == events[i].fact.stated
  {
    if events != [] {
      var front := Front(events);
      FirstStatedIs(front);
      assert events == front + [Last(events)];
      forall i: nat | FirstStating(events, i)
        ensures FirstStated(events) == events[i].fact.stated
      {
        if i < |front| {
          assert FirstStating(front, i);
        } else {
          assert forall event | event in front :: !StatesExtent(event);
        }
      }
    }
  }

  lemma RecognisedIs(events: seq<Event>)
    ensures Recognised(events, Stated(events))
  {
    LastRecognitionIs(events);
    FirstStatedIs(events);
    forall i: nat | LatestRecognition(events, i)
      ensures Stated(events).targets == (|PassedAt(events[i].fact.targets)|, |events[i].fact.targets|)
      ensures exists at :: BoxedAt(events[i].fact.targets, Stated(events).boxes, at)
    {
      PassedIs(events[i].fact.targets);
      var at := BoxesAre(events[i].fact.targets);
    }
  }

  lemma OneEventMore(ordered: seq<Event>, n: nat)
    requires n < |ordered|
    ensures Front(ordered[..n + 1]) == ordered[..n] && Last(ordered[..n + 1]) == ordered[n]
    ensures FirstCapture(ordered[..n], true).Some? ==> FirstCapture(ordered[..n], false).Some?
  {
    FirstCaptureIs(ordered[..n], true);
    FirstCaptureIs(ordered[..n], false);
  }

  /** A capture is taken if there is none, or if it is the first verified. */
  method TakeCapture(ghost ordered: seq<Event>, ghost n: nat, event: Event, target: Option<Target>, verified: bool)
    returns (taken: Option<Target>, known: bool)
    requires n < |ordered| && event == ordered[n]
    requires target == TargetIn(ordered[..n]) && verified == FirstCapture(ordered[..n], true).Some?
    ensures taken == TargetIn(ordered[..n + 1]) && known == FirstCapture(ordered[..n + 1], true).Some?
  {
    taken, known := target, verified;
    OneEventMore(ordered, n);
    var capture := Capture(event.artifacts);
    if capture.Some? {
      if target.None? || (Verified(event) && !verified) {
        known := Verified(event);
        taken := Some(Target(event.sequence, event.id, capture.value, EvictionOf(event.evictions, capture.value.id)));
      }
    }
  }

  /** The fold over the ordered events, as it runs: each field updated in place. */
  method Read(frame: string, events: seq<Event>) returns (group: Group)
    ensures group == Stated(InLedgerOrder(frame, events))
    ensures Recognised(InLedgerOrder(frame, events), group) && Targeted(InLedgerOrder(frame, events), group.target)
    ensures exists at :: MarkedAt(InLedgerOrder(frame, events), group.marks, at)
  {
    group := Group(None, None, None, (0, 0), [], []);
    var ordered := InLedgerOrder(frame, events);
    var verified := false;
    for n := 0 to |ordered|
      invariant group == Stated(ordered[..n])
      invariant verified == FirstCapture(ordered[..n], true).Some?
    {
      var event := ordered[n];
      var target: Option<Target>;
      target, verified := TakeCapture(ordered, n, event, group.target, verified);
      group := group.(target := target);
      OneEventMore(ordered, n);
      match event.fact {
        case Recognition(candidates, matched, size, targets) =>
          group := group.(recognition := Some((matched, candidates)), extent := Some(size),
                          targets := (Passed(targets), |targets|), boxes := Boxes(targets));
        case Intent(step, operation, stated, action) =>
          if stated.Some? && group.extent.None? {
            group := group.(extent := stated);
          }
          group := group.(marks := group.marks + [Mark(step, operation, action.kind, Points(action))]);
        case Otherwise =>
      }
    }
    assert ordered[..|ordered|] == ordered;
    RecognisedIs(ordered);
    TargetIs(ordered);
    ghost var at := MarksAre(ordered);
  }
}
