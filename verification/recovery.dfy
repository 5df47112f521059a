/** What the ledger's pages say of a run's recovery, merged across pages: a later page adds evidence
    and never takes any away. */
module Recovery {
  import opened Outcomes

  datatype State = Unknown | Unresolved | Recovered

  /** One failure, and the success that answered it if the page names one. */
  datatype Evidence = Evidence(failure: nat, success: Option<nat>)

  /** A page's statement about one run. */
  datatype Statement = Statement(runId: string, state: State, evidence: seq<Evidence>, gaps: seq<string>)

  datatype Group = Group(runId: string, state: State, evidence: seq<Evidence>, gaps: seq<string>)

  type Answers = map<nat, Option<nat>>

  function Rank(state: State): nat {
    match state
    case Unknown => 0
    case Unresolved => 1
    case Recovered => 2
  }

  function Or(held: Option<nat>, other: Option<nat>): Option<nat> {
    if held.Some? then held else other
  }

  ghost predicate StrictlySorted(evidence: seq<Evidence>) {
    forall i, j | 0 <= i < j < |evidence| :: evidence[i].failure < evidence[j].failure
  }

  ghost predicate Distinct(evidence: seq<Evidence>) {
    forall i, j | 0 <= i < j < |evidence| :: evidence[i].failure != evidence[j].failure
  }

  ghost function Failures(evidence: seq<Evidence>): set<nat> {
    set i | 0 <= i < |evidence| :: evidence[i].failure
  }

  /** The answer a list gives to a failure: its first success for it. */
  ghost function FirstAnswer(evidence: seq<Evidence>, failure: nat): Option<nat> {
    if evidence == [] then None
    else
      var last := evidence[|evidence| - 1];
      Or(FirstAnswer(evidence[..|evidence| - 1], failure), if last.failure == failure then last.success else None)
  }

  /** A list as the answers it gives. */
  ghost function AnswersOf(evidence: seq<Evidence>): Answers {
    map failure | failure in Failures(evidence) :: FirstAnswer(evidence, failure)
  }

  /** The join: every failure either names, an answer already held kept, else the page's first. */
  ghost function Joined(held: Answers, evidence: seq<Evidence>): Answers {
    map failure | failure in held.Keys + Failures(evidence) ::
      Or(if failure in held then held[failure] else None, FirstAnswer(evidence, failure))
  }

  ghost function AnsweredSet(answers: Answers): set<nat> {
    set failure | failure in answers && answers[failure].Some?
  }

  /** The failures a group folds, in order: those answered. */
  function Folded(evidence: seq<Evidence>): seq<nat> {
    if evidence == [] then []
    else
      var last := evidence[|evidence| - 1];
      Folded(evidence[..|evidence| - 1]) + if last.success.Some? then [last.failure] else []
  }

  lemma {:induction false} FoldedOfList(evidence: seq<Evidence>, failure: nat)
    requires Distinct(evidence)
    ensures failure in Folded(evidence) <==> FirstAnswer(evidence, failure).Some?
  {
    if evidence != [] {
      var short := evidence[..|evidence| - 1];
      FoldedOfList(short, failure);
      if failure == evidence[|short|].failure {
        NoAnswer(short, failure);
      }
    }
  }

  /** What a group folds is what it has answers for. */
  lemma FoldedIsAnswered(evidence: seq<Evidence>, failure: nat)
    requires Distinct(evidence)
    ensures failure in Folded(evidence) <==> failure in AnsweredSet(AnswersOf(evidence))
  {
    FoldedOfList(evidence, failure);
    AnsweredMeansNamed(evidence, failure);
  }

  lemma {:induction false} FirstAnswerIs(evidence: seq<Evidence>, at: nat)
    requires Distinct(evidence) && at < |evidence|
    ensures FirstAnswer(evidence, evidence[at].failure) == evidence[at].success
  {
    var short := evidence[..|evidence| - 1];
    if at < |short| {
      FirstAnswerIs(short, at);
    } else {
      NoAnswer(short, evidence[at].failure);
    }
  }

  lemma {:induction false} NoAnswer(evidence: seq<Evidence>, failure: nat)
    requires failure !in Failures(evidence)
    ensures FirstAnswer(evidence, failure) == None
  {
    if evidence != [] {
      var short := evidence[..|evidence| - 1];
      assert forall i | 0 <= i < |short| :: short[i] == evidence[i];
      NoAnswer(short, failure);
      assert evidence[|evidence| - 1].failure in Failures(evidence);
    }
  }

  /** A list of distinct failures holds exactly the answers it gives. */
  lemma DistinctElements(evidence: seq<Evidence>, item: Evidence)
    requires Distinct(evidence)
    ensures item in evidence <==>
              item.failure in Failures(evidence) && FirstAnswer(evidence, item.failure) == item.success
  {
    if item.failure in Failures(evidence) {
      var at :| 0 <= at < |evidence| && evidence[at].failure == item.failure;
      FirstAnswerIs(evidence, at);
    }
  }

  function Front(evidence: seq<Evidence>): seq<Evidence>
    requires evidence != []
  {
    evidence[..|evidence| - 1]
  }

  lemma WithoutLast(evidence: seq<Evidence>, item: Evidence)
    requires StrictlySorted(evidence) && evidence != []
    ensures item in Front(evidence) <==> item in evidence && item != evidence[|evidence| - 1]
  {
    assert evidence == Front(evidence) + [evidence[|evidence| - 1]];
  }

  lemma SameLast(one: seq<Evidence>, two: seq<Evidence>)
    requires StrictlySorted(one) && StrictlySorted(two) && one != [] && two != []
    requires forall item :: item in one <==> item in two
    ensures one[|one| - 1] == two[|two| - 1]
    ensures forall item :: item in Front(one) <==> item in Front(two)
  {
    assert one[|one| - 1] in two && two[|two| - 1] in one;
    forall item
      ensures item in Front(one) <==> item in Front(two)
    {
      WithoutLast(one, item);
      WithoutLast(two, item);
    }
  }

  lemma SameFrontAndLast(one: seq<Evidence>, two: seq<Evidence>)
    requires one != [] && two != [] && Front(one) == Front(two) && one[|one| - 1] == two[|two| - 1]
    ensures one == two
  {
    assert one == Front(one) + [one[|one| - 1]];
    assert two == Front(two) + [two[|two| - 1]];
  }

  lemma SameEmptiness(one: seq<Evidence>, two: seq<Evidence>)
    requires forall item :: item in one <==> item in two
    ensures one == [] <==> two == []
  {
    assert one != [] ==> one[0] in two;
    assert two != [] ==> two[0] in one;
  }

  lemma {:induction false} SameElementsSameList(one: seq<Evidence>, two: seq<Evidence>)
    requires StrictlySorted(one) && StrictlySorted(two)
    requires forall item :: item in one <==> item in two
    ensures one == two
    decreases |one|
  {
    SameEmptiness(one, two);
    if one != [] {
      SameLast(one, two);
      SameElementsSameList(Front(one), Front(two));
      SameFrontAndLast(one, two);
    }
  }

  /** Two sorted lists that give the same answers are the same list. */
  lemma SortedIsUnique(one: seq<Evidence>, two: seq<Evidence>)
    requires StrictlySorted(one) && StrictlySorted(two) && AnswersOf(one) == AnswersOf(two)
    ensures one == two
  {
    forall item
      ensures item in one <==> item in two
    {
      DistinctElements(one, item);
      DistinctElements(two, item);
      assert AnswersOf(one).Keys == Failures(one) && AnswersOf(two).Keys == Failures(two);
      if item.failure in Failures(one) {
        assert AnswersOf(one)[item.failure] == FirstAnswer(one, item.failure);
        assert AnswersOf(two)[item.failure] == FirstAnswer(two, item.failure);
      }
    }
    SameElementsSameList(one, two);
  }

  lemma SameElementsSameAnswers(one: seq<Evidence>, two: seq<Evidence>)
    requires Distinct(one) && Distinct(two)
    requires forall item :: item in one <==> item in two
    ensures AnswersOf(one) == AnswersOf(two)
  {
    forall failure | failure in Failures(one)
      ensures failure in Failures(two) && FirstAnswer(one, failure) == FirstAnswer(two, failure)
    {
      DistinctElements(one, Evidence(failure, FirstAnswer(one, failure)));
      DistinctElements(two, Evidence(failure, FirstAnswer(one, failure)));
    }
    forall failure | failure in Failures(two)
      ensures failure in Failures(one)
    {
      DistinctElements(two, Evidence(failure, FirstAnswer(two, failure)));
      DistinctElements(one, Evidence(failure, FirstAnswer(two, failure)));
    }
  }

  // One page's list taken in, item by item.

  lemma JoinedStep(held: Answers, evidence: seq<Evidence>, at: nat)
    requires at < |evidence|
    ensures var before := Joined(held, evidence[..at]);
            var item := evidence[at];
            Joined(held, evidence[..at + 1])
            == before[item.failure := Or(if item.failure in before then before[item.failure] else None, item.success)]
  {
    var short, long := evidence[..at], evidence[..at + 1];
    assert long[..|long| - 1] == short && long[|long| - 1] == evidence[at];
    assert Failures(long) == Failures(short) + {evidence[at].failure} by {
      assert long[at].failure in Failures(long);
      assert forall i | 0 <= i < at :: long[i] == short[i];
      forall failure | failure in Failures(short)
        ensures failure in Failures(long)
      {
        var i :| 0 <= i < |short| && short[i].failure == failure;
        assert long[i].failure == failure;
      }
    }
    forall failure | failure !in Failures(short)
      ensures FirstAnswer(short, failure) == None
    {
      NoAnswer(short, failure);
    }
  }

  lemma JoinedWithNothing(held: Answers)
    ensures Joined(held, []) == held
  {
  }

  /** An item's answer put where its failure stands, or the item added behind the others. */
  lemma AnswerSet(evidence: seq<Evidence>, after: seq<Evidence>, item: Evidence)
    requires Distinct(evidence) && Distinct(after)
    requires forall other :: other in after <==> other == item || (other in evidence && other.failure != item.failure)
    ensures AnswersOf(after) == AnswersOf(evidence)[item.failure := item.success]
  {
    assert item in after;
    forall failure: nat
      ensures failure in Failures(after) <==> failure == item.failure || failure in Failures(evidence)
      ensures failure in Failures(after) ==>
                FirstAnswer(after, failure) == if failure == item.failure then item.success else FirstAnswer(evidence, failure)
    {
      DistinctElements(after, item);
      DistinctElements(evidence, Evidence(failure, FirstAnswer(evidence, failure)));
      DistinctElements(after, Evidence(failure, FirstAnswer(evidence, failure)));
      DistinctElements(after, Evidence(failure, FirstAnswer(after, failure)));
      DistinctElements(evidence, Evidence(failure, FirstAnswer(after, failure)));
    }
  }

  method FindFailure(evidence: seq<Evidence>, failure: nat) returns (at: nat)
    ensures at <= |evidence|
    ensures at < |evidence| ==> evidence[at].failure == failure
    ensures at == |evidence| ==> failure !in Failures(evidence)
  {
    at := 0;
    while at < |evidence|
      invariant at <= |evidence|
      invariant forall i | 0 <= i < at :: evidence[i].failure != failure
    {
      if evidence[at].failure == failure {
        return;
      }
      at := at + 1;
    }
  }

  function Inserted(sorted: seq<Evidence>, item: Evidence): seq<Evidence> {
    if sorted == [] || item.failure < sorted[0].failure then [item] + sorted
    else [sorted[0]] + Inserted(sorted[1..], item)
  }

  /** A stable sort by failure. */
  function SortedByFailure(evidence: seq<Evidence>): seq<Evidence> {
    if evidence == [] then []
    else Inserted(SortedByFailure(evidence[..|evidence| - 1]), evidence[|evidence| - 1])
  }

  lemma {:induction false} InsertedHolds(sorted: seq<Evidence>, item: Evidence)
    ensures forall other :: other in Inserted(sorted, item) <==> other == item || other in sorted
  {
    if sorted != [] {
      InsertedHolds(sorted[1..], item);
      assert sorted == [sorted[0]] + sorted[1..];
    }
  }

  lemma SortedAbove(first: Evidence, rest: seq<Evidence>)
    requires StrictlySorted(rest) && forall other | other in rest :: first.failure < other.failure
    ensures StrictlySorted([first] + rest)
  {
  }

  lemma {:induction false} InsertedIsSorted(sorted: seq<Evidence>, item: Evidence)
    requires StrictlySorted(sorted) && item.failure !in Failures(sorted)
    ensures StrictlySorted(Inserted(sorted, item))
    ensures forall other :: other in Inserted(sorted, item) <==> other == item || other in sorted
  {
    InsertedHolds(sorted, item);
    if sorted != [] {
      assert sorted[0].failure in Failures(sorted);
      if item.failure > sorted[0].failure {
        var rest := sorted[1..];
        assert forall i | 0 <= i < |rest| :: rest[i] == sorted[i + 1];
        InsertedIsSorted(rest, item);
        SortedAbove(sorted[0], Inserted(rest, item));
      } else {
        SortedAbove(item, sorted);
      }
    }
  }

  lemma {:induction false} SortingKeepsAnswers(evidence: seq<Evidence>)
    requires Distinct(evidence)
    ensures StrictlySorted(SortedByFailure(evidence))
    ensures forall item :: item in SortedByFailure(evidence) <==> item in evidence
    ensures AnswersOf(SortedByFailure(evidence)) == AnswersOf(evidence)
  {
    if evidence != [] {
      var short, last := evidence[..|evidence| - 1], evidence[|evidence| - 1];
      SortingKeepsAnswers(short);
      assert evidence == short + [last];
      var sorted := SortedByFailure(short);
      assert last.failure !in Failures(sorted) by {
        forall i | 0 <= i < |sorted|
          ensures sorted[i].failure != last.failure
        {
          assert sorted[i] in short;
        }
      }
      InsertedIsSorted(sorted, last);
    }
    SameElementsSameAnswers(SortedByFailure(evidence), evidence);
  }

  predicate NoRepeats(gaps: seq<string>) {
    forall i, j | 0 <= i < j < |gaps| :: gaps[i] != gaps[j]
  }

  /** What a group is: its failures sorted and unique, each gap once. */
  ghost predicate Tidy(group: Group) {
    StrictlySorted(group.evidence) && NoRepeats(group.gaps)
  }

  /** The later of the two states, as far as resolved. */
  function Further(one: State, two: State): State {
    if Rank(two) > Rank(one) then two else one
  }

  ghost function GapSet(gaps: seq<string>): set<string> {
    set gap | gap in gaps
  }

  lemma OneGapMore(gaps: seq<string>, gap: string)
    ensures GapSet(gaps + [gap]) == GapSet(gaps) + {gap}
  {
  }

  /** What merging one statement makes of a group. */
  ghost predicate Absorbs(before: Group, statement: Statement, after: Group) {
    && after.runId == before.runId
    && after.state == Further(before.state, statement.state)
    && StrictlySorted(after.evidence)
    && AnswersOf(after.evidence) == Joined(AnswersOf(before.evidence), statement.evidence)
    && NoRepeats(after.gaps) && before.gaps <= after.gaps
    && GapSet(after.gaps) == GapSet(before.gaps) + GapSet(statement.gaps)
  }

  /** Takes in what a page states about the group's run. */
  method Absorb(group: Group, statement: Statement) returns (merged: Group)
    requires Tidy(group)
    ensures Absorbs(group, statement, merged)
  {
    var state := group.state;
    if Rank(statement.state) > Rank(state) {
      state := statement.state;
    }
    var evidence := group.evidence;
    JoinedWithNothing(AnswersOf(group.evidence));
    assert statement.evidence[..0] == [];
    for at := 0 to |statement.evidence|
      invariant Distinct(evidence)
      invariant AnswersOf(evidence) == Joined(AnswersOf(group.evidence), statement.evidence[..at])
    {
      var item := statement.evidence[at];
      ghost var before := evidence;
      var held := FindFailure(evidence, item.failure);
      if held < |evidence| {
        FirstAnswerIs(evidence, held);
        evidence := evidence[held := Evidence(item.failure, Or(evidence[held].success, item.success))];
        AnswerReplaced(before, evidence, held);
      } else {
        evidence := evidence + [item];
        AnswerAdded(before, item);
      }
      JoinedStep(AnswersOf(group.evidence), statement.evidence, at);
    }
    assert statement.evidence[..|statement.evidence|] == statement.evidence;
    SortingKeepsAnswers(evidence);
    var gaps := group.gaps;
    for at := 0 to |statement.gaps|
      invariant NoRepeats(gaps) && group.gaps <= gaps
      invariant GapSet(gaps) == GapSet(group.gaps) + GapSet(statement.gaps[..at])
    {
      assert statement.gaps[..at + 1] == statement.gaps[..at] + [statement.gaps[at]];
      OneGapMore(statement.gaps[..at], statement.gaps[at]);
      OneGapMore(gaps, statement.gaps[at]);
      if statement.gaps[at] !in gaps {
        gaps := gaps + [statement.gaps[at]];
      }
    }
    assert statement.gaps[..|statement.gaps|] == statement.gaps;
    merged := Group(group.runId, state, SortedByFailure(evidence), gaps);
  }

  lemma AnswerReplaced(before: seq<Evidence>, after: seq<Evidence>, at: nat)
    requires Distinct(before) && at < |before|
    requires |after| == |before| && after[at].failure == before[at].failure && after == before[at := after[at]]
    ensures Distinct(after)
    ensures AnswersOf(after) == AnswersOf(before)[after[at].failure := after[at].success]
  {
    forall other
      ensures other in after <==> other == after[at] || (other in before && other.failure != after[at].failure)
    {
      if other in after {
        var i :| 0 <= i < |after| && after[i] == other;
        if i != at {
          assert before[i] == other;
        }
      }
      if other in before && other.failure != after[at].failure {
        var i :| 0 <= i < |before| && before[i] == other;
        assert after[i] == other;
      }
    }
    AnswerSet(before, after, after[at]);
  }

  lemma AnswerAdded(before: seq<Evidence>, item: Evidence)
    requires Distinct(before) && item.failure !in Failures(before)
    ensures Distinct(before + [item])
    ensures AnswersOf(before + [item]) == AnswersOf(before)[item.failure := item.success]
  {
    forall i | 0 <= i < |before|
      ensures before[i].failure != item.failure
    {
      assert before[i].failure in Failures(before);
    }
    AnswerSet(before, before + [item], item);
  }

  // The merge as a join.

  /** Stating the same again changes nothing. */
  lemma AbsorbingTwice(group: Group, statement: Statement, once: Group, twice: Group)
    requires Tidy(group) && Absorbs(group, statement, once) && Absorbs(once, statement, twice)
    ensures twice == once
  {
    assert Joined(AnswersOf(once.evidence), statement.evidence) == AnswersOf(once.evidence);
    SortedIsUnique(once.evidence, twice.evidence);
    assert GapSet(twice.gaps) == GapSet(once.gaps);
    GapCount(once.gaps);
    GapCount(twice.gaps);
  }

  lemma {:induction false} GapCount(gaps: seq<string>)
    requires NoRepeats(gaps)
    ensures |GapSet(gaps)| == |gaps|
  {
    if gaps != [] {
      var short, last := gaps[..|gaps| - 1], gaps[|gaps| - 1];
      assert gaps == short + [last];
      OneGapMore(short, last);
      GapCount(short);
    }
  }

  /** A page never takes anything away: the state is no less resolved, every answer held stays as it
      is, and a folded failure stays folded. */
  lemma AbsorbingNeverShrinks(group: Group, statement: Statement, merged: Group)
    requires Tidy(group) && Absorbs(group, statement, merged)
    ensures Rank(group.state) <= Rank(merged.state) && Rank(statement.state) <= Rank(merged.state)
    ensures Failures(group.evidence) + Failures(statement.evidence) == Failures(merged.evidence)
    ensures AnsweredSet(AnswersOf(group.evidence)) <= AnsweredSet(AnswersOf(merged.evidence))
    ensures forall failure | failure in AnsweredSet(AnswersOf(group.evidence)) ::
              AnswersOf(merged.evidence)[failure] == AnswersOf(group.evidence)[failure]
    ensures GapSet(group.gaps) <= GapSet(merged.gaps)
  {
    assert AnswersOf(merged.evidence).Keys == Failures(merged.evidence);
    assert AnswersOf(group.evidence).Keys == Failures(group.evidence);
  }

  /** Two pages that both answer a failure nothing held answers give it the same success. */
  ghost predicate Agree(held: Answers, one: seq<Evidence>, two: seq<Evidence>) {
    forall failure |
      failure in Failures(one) && failure in Failures(two) && failure !in AnsweredSet(held)
      && FirstAnswer(one, failure).Some? && FirstAnswer(two, failure).Some? ::
      FirstAnswer(one, failure) == FirstAnswer(two, failure)
  }

  function At(held: Answers, failure: nat): Option<nat> {
    if failure in held then held[failure] else None
  }

  lemma JoinedTwiceAt(held: Answers, one: seq<Evidence>, two: seq<Evidence>, failure: nat)
    ensures var joined := Joined(Joined(held, one), two);
            && (failure in joined <==> failure in held || failure in Failures(one) || failure in Failures(two))
            && At(joined, failure) == Or(At(held, failure), Or(FirstAnswer(one, failure), FirstAnswer(two, failure)))
  {
    if failure !in Failures(one) {
      NoAnswer(one, failure);
    }
    if failure !in Failures(two) {
      NoAnswer(two, failure);
    }
  }

  lemma AnsweredMeansNamed(evidence: seq<Evidence>, failure: nat)
    ensures FirstAnswer(evidence, failure).Some? ==> failure in Failures(evidence)
  {
    if failure !in Failures(evidence) {
      NoAnswer(evidence, failure);
    }
  }

  /** Exactly then their order does not matter. */
  lemma OrderMattersUnlessAgreed(held: Answers, one: seq<Evidence>, two: seq<Evidence>)
    ensures Joined(Joined(held, one), two) == Joined(Joined(held, two), one) <==> Agree(held, one, two)
  {
    var forth, back := Joined(Joined(held, one), two), Joined(Joined(held, two), one);
    forall failure: nat
      ensures failure in forth <==> failure in back
      ensures At(forth, failure) == At(back, failure) <==>
              (At(held, failure).Some? || FirstAnswer(one, failure).None? || FirstAnswer(two, failure).None?
               || FirstAnswer(one, failure) == FirstAnswer(two, failure))
    {
      JoinedTwiceAt(held, one, two, failure);
      JoinedTwiceAt(held, two, one, failure);
    }
    forall failure: nat
      ensures FirstAnswer(one, failure).Some? ==> failure in Failures(one)
      ensures FirstAnswer(two, failure).Some? ==> failure in Failures(two)
    {
      AnsweredMeansNamed(one, failure);
      AnsweredMeansNamed(two, failure);
    }
    SameByLookup(forth, back);
  }

  lemma SameByLookup(one: Answers, two: Answers)
    requires forall failure :: failure in one <==> failure in two
    ensures one == two <==> forall failure: nat :: At(one, failure) == At(two, failure)
  {
    if forall failure: nat :: At(one, failure) == At(two, failure) {
      forall failure | failure in one
        ensures one[failure] == two[failure]
      {
        assert At(one, failure) == At(two, failure);
      }
    }
  }

  /** One group over a run of pages, in the order they were read. */
  ghost predicate Merging(groups: seq<Group>, statements: seq<Statement>) {
    && |groups| == |statements| + 1 && Tidy(groups[0])
    && forall i | 0 <= i < |statements| :: Absorbs(groups[i], statements[i], groups[i + 1])
  }

  /** What the pages together say of a failure the group did not answer: all that answer it agree. */
  ghost predicate AllAgree(held: Answers, statements: seq<Statement>) {
    forall one, two | one in statements && two in statements :: Agree(held, one.evidence, two.evidence)
  }

  ghost predicate Answered(statements: seq<Statement>, failure: nat, success: Option<nat>) {
    success.Some? && exists statement | statement in statements ::
      failure in Failures(statement.evidence) && FirstAnswer(statement.evidence, failure) == success
  }

  ghost predicate Named(statements: seq<Statement>, failure: nat) {
    exists statement | statement in statements :: failure in Failures(statement.evidence)
  }

  lemma {:induction false} MergedAnswer(groups: seq<Group>, statements: seq<Statement>, failure: nat)
    requires Merging(groups, statements)
    ensures var held, merged := AnswersOf(groups[0].evidence), AnswersOf(groups[|statements|].evidence);
            && (failure in merged <==> failure in held || Named(statements, failure))
            && (failure in held && held[failure].Some? ==> failure in merged && merged[failure] == held[failure])
            && (failure in merged && merged[failure].Some? ==>
                  (failure in held && held[failure].Some?) || Answered(statements, failure, merged[failure]))
            && (failure in merged && merged[failure].None? ==>
                  forall statement | statement in statements :: FirstAnswer(statement.evidence, failure).None?)
    decreases |statements|
  {
    if statements != [] {
      var n := |statements| - 1;
      var last := statements[n];
      var earlier := statements[..n];
      assert statements == earlier + [last];
      MergedAnswer(groups[..n + 1], earlier, failure);
      assert Absorbs(groups[n], last, groups[n + 1]);
      if failure !in Failures(last.evidence) {
        NoAnswer(last.evidence, failure);
      }
      assert Named(statements, failure) <==> Named(earlier, failure) || failure in Failures(last.evidence);
      var before := AnswersOf(groups[n].evidence);
      if failure !in before && !Named(earlier, failure) {
        forall statement | statement in earlier
          ensures FirstAnswer(statement.evidence, failure).None?
        {
          NoAnswer(statement.evidence, failure);
        }
      }
    }
  }

  /** Page `i` answers the failure, and no page before it does. */
  ghost predicate FirstToAnswer(statements: seq<Statement>, failure: nat, i: nat) {
    && i < |statements| && FirstAnswer(statements[i].evidence, failure).Some?
    && forall j | 0 <= j < i :: FirstAnswer(statements[j].evidence, failure).None?
  }

  /** Where pages disagree, the first that answers decides, unless the group held an answer already. */
  lemma {:induction false} FirstPageDecides(groups: seq<Group>, statements: seq<Statement>, failure: nat, i: nat)
    requires Merging(groups, statements) && FirstToAnswer(statements, failure, i)
    ensures var held, merged := AnswersOf(groups[0].evidence), AnswersOf(groups[|statements|].evidence);
            && failure in merged
            && merged[failure] == if failure in held && held[failure].Some? then held[failure]
                                  else FirstAnswer(statements[i].evidence, failure)
    decreases |statements|
  {
    var n := |statements| - 1;
    var last, earlier := statements[n], statements[..n];
    assert statements == earlier + [last];
    assert Absorbs(groups[n], last, groups[n + 1]);
    MergedAnswer(groups[..n + 1], earlier, failure);
    if i < n {
      FirstPageDecides(groups[..n + 1], earlier, failure, i);
    } else {
      AnsweredMeansNamed(last.evidence, failure);
    }
  }

  lemma {:induction false} MergedState(groups: seq<Group>, statements: seq<Statement>)
    requires Merging(groups, statements)
    ensures var merged := groups[|statements|].state;
            && Rank(groups[0].state) <= Rank(merged)
            && (forall statement | statement in statements :: Rank(statement.state) <= Rank(merged))
            && (merged == groups[0].state || exists statement | statement in statements :: statement.state == merged)
    ensures forall gap :: gap in GapSet(groups[|statements|].gaps) <==>
              gap in GapSet(groups[0].gaps) || exists statement | statement in statements :: gap in GapSet(statement.gaps)
    decreases |statements|
  {
    if statements != [] {
      var n := |statements| - 1;
      var last, earlier := statements[n], statements[..n];
      assert statements == earlier + [last];
      MergedState(groups[..n + 1], earlier);
      assert Absorbs(groups[n], last, groups[n + 1]);
    }
  }

  /** When the pages agree on every failure they answer, the merged evidence, state and gaps are the
      same in every order the pages come. */
  lemma PageOrderDoesNotMatter(
    groups: seq<Group>, statements: seq<Statement>, otherGroups: seq<Group>, otherStatements: seq<Statement>)
    requires Merging(groups, statements) && Merging(otherGroups, otherStatements)
    requires groups[0] == otherGroups[0] && multiset(statements) == multiset(otherStatements)
    requires AllAgree(AnswersOf(groups[0].evidence), statements)
    ensures var one, two := groups[|statements|], otherGroups[|otherStatements|];
            one.evidence == two.evidence && one.state == two.state && GapSet(one.gaps) == GapSet(two.gaps)
  {
    var one, two := groups[|statements|], otherGroups[|otherStatements|];
    forall statement
      ensures statement in statements <==> statement in otherStatements
    {
      assert statement in multiset(statements) <==> statement in multiset(otherStatements);
    }
    MergedState(groups, statements);
    MergedState(otherGroups, otherStatements);
    forall failure: nat
      ensures failure in AnswersOf(one.evidence) <==> failure in AnswersOf(two.evidence)
      ensures failure in AnswersOf(one.evidence) ==>
                AnswersOf(one.evidence)[failure] == AnswersOf(two.evidence)[failure]
    {
      MergedAnswer(groups, statements, failure);
      MergedAnswer(otherGroups, otherStatements, failure);
      SameAnswer(groups[0], statements, otherStatements, failure);
    }
    FinalIsSorted(groups, statements);
    FinalIsSorted(otherGroups, otherStatements);
    assert AnswersOf(one.evidence) == AnswersOf(two.evidence);
    SortedIsUnique(one.evidence, two.evidence);
  }

  lemma FinalIsSorted(groups: seq<Group>, statements: seq<Statement>)
    requires Merging(groups, statements)
    ensures StrictlySorted(groups[|statements|].evidence)
  {
    if statements != [] {
      assert Absorbs(groups[|statements| - 1], statements[|statements| - 1], groups[|statements|]);
    }
  }

  lemma SameAnswer(group: Group, statements: seq<Statement>, otherStatements: seq<Statement>, failure: nat)
    requires forall statement :: statement in statements <==> statement in otherStatements
    requires AllAgree(AnswersOf(group.evidence), statements)
    ensures Named(statements, failure) <==> Named(otherStatements, failure)
    ensures failure !in AnsweredSet(AnswersOf(group.evidence)) ==>
              forall a, b | Answered(statements, failure, a) && Answered(otherStatements, failure, b) :: a == b
  {
  }

  // The view's groups, one a run.

  ghost predicate OneEach(recovery: seq<Group>) {
    && (forall i | 0 <= i < |recovery| :: Tidy(recovery[i]))
    && (forall i, j | 0 <= i < j < |recovery| :: recovery[i].runId != recovery[j].runId)
  }

  function Fresh(runId: string, state: State): Group {
    Group(runId, state, [], [])
  }

  /** A statement goes into its run's group, or a new one behind the others; no other group changes. */
  ghost predicate TakesIn(before: seq<Group>, statement: Statement, after: seq<Group>) {
    if exists i :: 0 <= i < |before| && before[i].runId == statement.runId then
      && |after| == |before|
      && forall i | 0 <= i < |before| ::
           if before[i].runId == statement.runId then Absorbs(before[i], statement, after[i]) else after[i] == before[i]
    else
      && |after| == |before| + 1 && before <= after
      && Absorbs(Fresh(statement.runId, statement.state), statement, after[|before|])
  }

  method AbsorbRecovery(recovery: seq<Group>, statement: Statement) returns (merged: seq<Group>)
    requires OneEach(recovery)
    ensures OneEach(merged) && TakesIn(recovery, statement, merged)
  {
    for at := 0 to |recovery|
      invariant forall i | 0 <= i < at :: recovery[i].runId != statement.runId
    {
      if recovery[at].runId == statement.runId {
        var group := Absorb(recovery[at], statement);
        return recovery[at := group];
      }
    }
    var group := Absorb(Fresh(statement.runId, statement.state), statement);
    return recovery + [group];
  }

  function OfRun(statements: seq<Statement>, runId: string): seq<Statement> {
    if statements == [] then []
    else
      var last := statements[|statements| - 1];
      OfRun(statements[..|statements| - 1], runId) + if last.runId == runId then [last] else []
  }

  ghost predicate Reading(views: seq<seq<Group>>, statements: seq<Statement>) {
    && |views| == |statements| + 1 && views[0] == []
    && (forall i | 0 <= i < |views| :: OneEach(views[i]))
    && forall i | 0 <= i < |statements| :: TakesIn(views[i], statements[i], views[i + 1])
  }

  lemma ReadingMore(views: seq<seq<Group>>, statements: seq<Statement>, statement: Statement, after: seq<Group>)
    requires Reading(views, statements) && OneEach(after) && TakesIn(views[|statements|], statement, after)
    ensures Reading(views + [after], statements + [statement])
  {
  }

  ghost predicate Has(recovery: seq<Group>, group: Group) {
    exists i :: 0 <= i < |recovery| && recovery[i] == group
  }

  ghost predicate HasRun(recovery: seq<Group>, runId: string) {
    exists i :: 0 <= i < |recovery| && recovery[i].runId == runId
  }

  lemma StepOfItsRun(before: seq<Group>, statement: Statement, after: seq<Group>, group: Group)
    returns (merged: Group)
    requires TakesIn(before, statement, after) && Has(before, group) && group.runId == statement.runId
    ensures Absorbs(group, statement, merged) && Has(after, merged)
  {
    var i :| 0 <= i < |before| && before[i] == group;
    merged := after[i];
  }

  lemma StepOfAnother(before: seq<Group>, statement: Statement, after: seq<Group>, runId: string)
    requires TakesIn(before, statement, after) && runId != statement.runId
    ensures forall group | Has(before, group) && group.runId == runId :: Has(after, group)
    ensures HasRun(after, runId) ==> HasRun(before, runId)
  {
    forall group | Has(before, group) && group.runId == runId
      ensures Has(after, group)
    {
      var i :| 0 <= i < |before| && before[i] == group;
      assert after[i] == group;
    }
    if HasRun(after, runId) {
      var i :| 0 <= i < |after| && after[i].runId == runId;
      assert i < |before| ==> before[i].runId == runId;
    }
  }

  lemma FirstStepOfItsRun(before: seq<Group>, statement: Statement, after: seq<Group>) returns (merged: Group)
    requires TakesIn(before, statement, after) && !HasRun(before, statement.runId)
    ensures Absorbs(Fresh(statement.runId, Unknown), statement, merged) && Has(after, merged)
  {
    merged := after[|before|];
    assert Absorbs(Fresh(statement.runId, statement.state), statement, merged);
  }

  lemma MergingMore(groups: seq<Group>, statements: seq<Statement>, statement: Statement, merged: Group)
    requires Merging(groups, statements) && Absorbs(groups[|statements|], statement, merged)
    ensures Merging(groups + [merged], statements + [statement])
  {
  }

  /** Each group the view holds is its own run's statements merged in the order read, whatever other
      runs' statements came between; and a run has a group exactly when some statement names it. */
  lemma {:induction false} GroupIsItsRunsMerge(views: seq<seq<Group>>, statements: seq<Statement>, runId: string)
    returns (groups: seq<Group>)
    requires Reading(views, statements)
    ensures Merging(groups, OfRun(statements, runId))
    ensures groups[0] == Fresh(runId, Unknown) && groups[|groups| - 1].runId == runId
    ensures if OfRun(statements, runId) != [] then Has(views[|statements|], groups[|groups| - 1])
            else !HasRun(views[|statements|], runId)
    decreases |statements|
  {
    if statements == [] {
      groups := [Fresh(runId, Unknown)];
    } else {
      var n := |statements| - 1;
      var earlier, statement := statements[..n], statements[n];
      groups := GroupIsItsRunsMerge(views[..n + 1], earlier, runId);
      assert TakesIn(views[n], statement, views[n + 1]);
      if statement.runId != runId {
        StepOfAnother(views[n], statement, views[n + 1], runId);
      } else {
        var merged: Group;
        if OfRun(earlier, runId) != [] {
          merged := StepOfItsRun(views[n], statement, views[n + 1], groups[|groups| - 1]);
        } else {
          merged := FirstStepOfItsRun(views[n], statement, views[n + 1]);
        }
        MergingMore(groups, OfRun(earlier, runId), statement, merged);
        groups := groups + [merged];
      }
    }
  }
}
