/** The middle list: rows newest first, each run's recovery header at its newest row, and every
    failure the ledger answered folded under it. */
module Display {
  import opened Outcomes
  import opened LedgerView
  import R = Recovery

  datatype Row = Header(group: nat) | Shown(event: Event, folded: bool)

  predicate Belongs(group: R.Group, event: Event) {
    event.sequence in R.Folded(group.evidence) || event.run == Some(group.runId)
  }

  function RowWith(rows: seq<Event>, sequence: nat): Option<Event> {
    if rows == [] then None
    else if rows[0].sequence == sequence then Some(rows[0])
    else RowWith(rows[1..], sequence)
  }

  /** The loaded rows of a list of failures, newest first. */
  function FoldedRows(rows: seq<Event>, failures: seq<nat>): seq<Row> {
    if failures == [] then []
    else
      var row := RowWith(rows, failures[|failures| - 1]);
      (if row.Some? then [Shown(row.value, true)] else []) + FoldedRows(rows, failures[..|failures| - 1])
  }

  ghost function Loaded(rows: seq<Event>, failures: seq<nat>): set<nat> {
    set failure | failure in failures && RowWith(rows, failure).Some?
  }

  /** The first group not shown yet that the row belongs to. */
  function Anchor(recovery: seq<R.Group>, shown: set<nat>, event: Event): (anchor: Option<nat>)
    ensures anchor.Some? ==> anchor.value < |recovery|
  {
    if recovery == [] then None
    else
      var last: nat := |recovery| - 1;
      var earlier := Anchor(recovery[..last], shown, event);
      if earlier.None? && last !in shown && Belongs(recovery[last], event) then Some(last) else earlier
  }

  /** What one row adds to the list, and the groups shown and rows emitted after it. */
  datatype Turn = Turn(added: seq<Row>, shown: set<nat>, emitted: set<nat>)

  ghost function TurnAt(rows: seq<Event>, recovery: seq<R.Group>, k: nat, shown: set<nat>, emitted: set<nat>): Turn
    requires k < |rows|
  {
    var event := rows[k];
    var anchor := Anchor(recovery, shown, event);
    if event.sequence in emitted then Turn([], shown, emitted)
    else if anchor.None? then Turn([Shown(event, false)], shown, emitted)
    else
      var failures := R.Folded(recovery[anchor.value].evidence);
      var more := emitted + Loaded(rows, failures);
      Turn([Header(anchor.value)] + FoldedRows(rows, failures)
           + (if event.sequence in more then [] else [Shown(event, false)]),
           shown + {anchor.value}, more)
  }

  /** The loop's last turn when the rows from `n` on are done. */
  ghost function LastTurn(rows: seq<Event>, recovery: seq<R.Group>, n: nat): Turn
    requires n <= |rows|
    decreases |rows| - n
  {
    if n == |rows| then Turn([], {}, {})
    else
      var before := LastTurn(rows, recovery, n + 1);
      TurnAt(rows, recovery, n, before.shown, before.emitted)
  }

  /** What each row adds when the loop comes to it. */
  ghost function Turns(rows: seq<Event>, recovery: seq<R.Group>): (blocks: seq<seq<Row>>)
    ensures |blocks| == |rows|
  {
    seq(|rows|, k requires 0 <= k < |rows| => LastTurn(rows, recovery, k).added)
  }

  /** The blocks of the rows, the last first. */
  ghost function Stacked(blocks: seq<seq<Row>>): seq<Row> {
    if blocks == [] then [] else Stacked(blocks[1..]) + blocks[0]
  }

  ghost function Listed(rows: seq<Event>, recovery: seq<R.Group>): seq<Row> {
    Stacked(Turns(rows, recovery))
  }

  lemma {:induction false} AnchorIs(recovery: seq<R.Group>, shown: set<nat>, event: Event)
    ensures var anchor := Anchor(recovery, shown, event);
            && (anchor.Some? ==>
                  && anchor.value !in shown && Belongs(recovery[anchor.value], event)
                  && forall i | 0 <= i < anchor.value :: i in shown || !Belongs(recovery[i], event))
            && (anchor.None? ==> forall i | 0 <= i < |recovery| :: i in shown || !Belongs(recovery[i], event))
  {
    if recovery != [] {
      AnchorIs(recovery[..|recovery| - 1], shown, event);
    }
  }

  method FindRow(rows: seq<Event>, sequence: nat) returns (row: Option<Event>)
    ensures row == RowWith(rows, sequence)
  {
    for at := 0 to |rows|
      invariant RowWith(rows, sequence) == RowWith(rows[at..], sequence)
    {
      if rows[at].sequence == sequence {
        return Some(rows[at]);
      }
      assert rows[at..][1..] == rows[at + 1..];
    }
    return None;
  }

  /** One row of the loop: skipped when emitted, else under its group's header if that is not shown yet. */
  method OneTurn(
    rows: seq<Event>, recovery: seq<R.Group>, k: nat, headerShown: set<nat>, emitted: seq<nat>, ghost before: set<nat>)
    returns (added: seq<Row>, shown: set<nat>, after: seq<nat>)
    requires k < |rows| && SameMembers(emitted, before)
    ensures var turn := TurnAt(rows, recovery, k, headerShown, before);
            added == turn.added && shown == turn.shown && SameMembers(after, turn.emitted)
  {
    var event := rows[k];
    added, shown, after := [], headerShown, emitted;
    if event.sequence in emitted {
      return;
    }
    var anchor := Anchor(recovery, headerShown, event);
    if anchor.Some? {
      AnchorIs(recovery, headerShown, event);
      shown := shown + {anchor.value};
      var block: seq<Row>;
      block, after := FoldBlock(rows, R.Folded(recovery[anchor.value].evidence), emitted, before);
      added := [Header(anchor.value)] + block;
    }
    if event.sequence !in after {
      added := added + [Shown(event, false)];
    }
  }

  /** The whole list, as the loop over the rows builds it. */
  method DisplayRows(rows: seq<Event>, recovery: seq<R.Group>) returns (display: seq<Row>)
    ensures display == Listed(rows, recovery)
  {
    var headerShown: set<nat>, emitted: seq<nat> := {}, [];
    display := [];
    ghost var turns := Turns(rows, recovery);
    var n: nat := |rows|;
    while n > 0
      invariant n <= |rows|
      invariant display == Stacked(turns[n..])
      invariant headerShown == LastTurn(rows, recovery, n).shown
      invariant SameMembers(emitted, LastTurn(rows, recovery, n).emitted)
    {
      n := n - 1;
      assert turns[n..][1..] == turns[n + 1..];
      var added: seq<Row>;
      added, headerShown, emitted :=
        OneTurn(rows, recovery, n, headerShown, emitted, LastTurn(rows, recovery, n + 1).emitted);
      display := display + added;
    }
    assert turns[0..] == turns;
  }

  ghost predicate SameMembers(list: seq<nat>, members: set<nat>) {
    forall sequence :: sequence in list <==> sequence in members
  }

  /** A group's answered failures that are loaded, newest first, and noted as emitted. */
  method FoldBlock(rows: seq<Event>, failures: seq<nat>, before: seq<nat>, ghost beforeSet: set<nat>)
    returns (block: seq<Row>, emitted: seq<nat>)
    requires SameMembers(before, beforeSet)
    ensures block == FoldedRows(rows, failures)
    ensures SameMembers(emitted, beforeSet + Loaded(rows, failures))
  {
    block, emitted := [], before;
    var n := |failures|;
    assert failures[..n] == failures;
    while n > 0
      invariant n <= |failures|
      invariant block + FoldedRows(rows, failures[..n]) == FoldedRows(rows, failures)
      invariant forall sequence ::
                  sequence in emitted <==> sequence in beforeSet || sequence in Loaded(rows, failures[n..])
    {
      n := n - 1;
      var member := FindRow(rows, failures[n]);
      assert failures[..n + 1][..n] == failures[..n];
      assert failures[n..] == [failures[n]] + failures[n + 1..];
      if member.Some? {
        emitted := emitted + [failures[n]];
        block := block + [Shown(member.value, true)];
      }
    }
    assert failures[0..] == failures;
  }

  // The reference: what each row contributes, told from the rows and groups alone.

  /** The newest row of a group among `rows[..n]`, counted from 1; 0 when it has none. */
  ghost function Newest(rows: seq<Event>, group: R.Group, n: nat): (at: nat)
    requires n <= |rows|
    ensures at <= n
  {
    if n == 0 then 0 else if Belongs(group, rows[n - 1]) then n else Newest(rows, group, n - 1)
  }

  lemma {:induction false} NewestIs(rows: seq<Event>, group: R.Group, n: nat, k: nat)
    requires n <= |rows| && k < n
    ensures var at := Newest(rows, group, n); Belongs(group, rows[k]) ==> k < at
    ensures var at := Newest(rows, group, n); at == k + 1 ==> Belongs(group, rows[k])
  {
    if k < n - 1 {
      NewestIs(rows, group, n - 1, k);
    }
  }

  /** No row belongs to two groups. */
  ghost predicate OneGroupEach(rows: seq<Event>, recovery: seq<R.Group>) {
    forall k, i, j | 0 <= k < |rows| && 0 <= i < |recovery| && 0 <= j < |recovery| && i != j ::
      !(Belongs(recovery[i], rows[k]) && Belongs(recovery[j], rows[k]))
  }

  ghost predicate IsFolded(recovery: seq<R.Group>, event: Event) {
    exists i :: 0 <= i < |recovery| && event.sequence in R.Folded(recovery[i].evidence)
  }

  /** A group whose newest row this is. */
  ghost predicate Heads(rows: seq<Event>, recovery: seq<R.Group>, k: nat, i: nat)
    requires k < |rows| && i < |recovery|
  {
    Newest(rows, recovery[i], |rows|) == k + 1
  }

  /** A row contributes its group's header and folded block if it is the group's newest, and itself
      unless it is folded. */
  ghost function Block(rows: seq<Event>, recovery: seq<R.Group>, k: nat): seq<Row>
    requires k < |rows|
  {
    var head := HeadedBy(rows, recovery, k, 0);
    (if head.Some? then [Header(head.value)] + FoldedRows(rows, R.Folded(recovery[head.value].evidence)) else [])
    + if IsFolded(recovery, rows[k]) then [] else [Shown(rows[k], false)]
  }

  ghost function HeadedBy(rows: seq<Event>, recovery: seq<R.Group>, k: nat, at: nat): (head: Option<nat>)
    requires k < |rows| && at <= |recovery|
    ensures head.Some? ==> at <= head.value < |recovery| && Heads(rows, recovery, k, head.value)
    decreases |recovery| - at
  {
    if at == |recovery| then None
    else if Heads(rows, recovery, k, at) then Some(at)
    else HeadedBy(rows, recovery, k, at + 1)
  }

  lemma {:induction false} HeadedByIs(rows: seq<Event>, recovery: seq<R.Group>, k: nat, at: nat, i: nat)
    requires k < |rows| && at <= i < |recovery| && Heads(rows, recovery, k, i)
    ensures HeadedBy(rows, recovery, k, at).Some?
    decreases |recovery| - at
  {
    if !Heads(rows, recovery, k, at) {
      HeadedByIs(rows, recovery, k, at + 1, i);
    }
  }

  ghost function Blocks(rows: seq<Event>, recovery: seq<R.Group>): (blocks: seq<seq<Row>>)
    ensures |blocks| == |rows|
  {
    seq(|rows|, k requires 0 <= k < |rows| => Block(rows, recovery, k))
  }

  lemma {:induction false} RowWithIs(rows: seq<Event>, sequence: nat)
    ensures var row := RowWith(rows, sequence);
            && (row.Some? ==> row.value in rows && row.value.sequence == sequence)
            && (row.None? ==> forall event | event in rows :: event.sequence != sequence)
  {
    if rows != [] {
      RowWithIs(rows[1..], sequence);
    }
  }

  ghost predicate FoldedByShown(recovery: seq<R.Group>, shown: set<nat>, sequence: nat) {
    exists i :: i in shown && i < |recovery| && sequence in R.Folded(recovery[i].evidence)
  }

  /** The loop's state before `rows[..n]`: shown are the groups with a row above, emitted the loaded
      rows they fold. */
  ghost predicate UpTo(rows: seq<Event>, recovery: seq<R.Group>, n: nat, shown: set<nat>, emitted: set<nat>)
    requires n <= |rows|
  {
    && (forall i: nat :: i in shown <==> i < |recovery| && Newest(rows, recovery[i], |rows|) > n)
    && (forall k | 0 <= k < |rows| :: rows[k].sequence in emitted <==> FoldedByShown(recovery, shown, rows[k].sequence))
  }

  /** The one group a row belongs to, if any, decides its block and whether the next state differs. */
  lemma BlockOfMember(rows: seq<Event>, recovery: seq<R.Group>, k: nat, i: nat)
    requires OneGroupEach(rows, recovery) && k < |rows| && i < |recovery| && Belongs(recovery[i], rows[k])
    ensures IsFolded(recovery, rows[k]) <==> rows[k].sequence in R.Folded(recovery[i].evidence)
    ensures forall j: nat | j < |recovery| && Heads(rows, recovery, k, j) :: j == i
    ensures HeadedBy(rows, recovery, k, 0) == if Heads(rows, recovery, k, i) then Some(i) else None
  {
    forall j: nat | j < |recovery| && Heads(rows, recovery, k, j)
      ensures j == i
    {
      NewestIs(rows, recovery[j], |rows|, k);
    }
    if Heads(rows, recovery, k, i) {
      HeadedByIs(rows, recovery, k, 0, i);
    }
  }

  lemma BlockOfLoner(rows: seq<Event>, recovery: seq<R.Group>, k: nat)
    requires k < |rows|
    requires forall i: nat | i < |recovery| :: !Belongs(recovery[i], rows[k])
    ensures Block(rows, recovery, k) == [Shown(rows[k], false)]
    ensures forall i: nat | i < |recovery| :: !Heads(rows, recovery, k, i)
  {
    forall i: nat | i < |recovery|
      ensures !Heads(rows, recovery, k, i)
    {
      NewestIs(rows, recovery[i], |rows|, k);
    }
    assert !IsFolded(recovery, rows[k]) by {
      forall i | 0 <= i < |recovery|
        ensures rows[k].sequence !in R.Folded(recovery[i].evidence)
      {
        assert !Belongs(recovery[i], rows[k]);
      }
    }
  }

  /** A row that heads no group leaves the state as it is. */
  lemma StateKept(rows: seq<Event>, recovery: seq<R.Group>, k: nat, shown: set<nat>, emitted: set<nat>)
    requires k < |rows| && UpTo(rows, recovery, k + 1, shown, emitted)
    requires forall i: nat | i < |recovery| :: !Heads(rows, recovery, k, i)
    ensures UpTo(rows, recovery, k, shown, emitted)
  {
    forall i: nat
      ensures i in shown <==> i < |recovery| && Newest(rows, recovery[i], |rows|) > k
    {
      if i < |recovery| {
        assert !Heads(rows, recovery, k, i);
      }
    }
  }

  /** A row that heads a group adds it, and the rows it folds. */
  lemma StateGrows(rows: seq<Event>, recovery: seq<R.Group>, k: nat, shown: set<nat>, emitted: set<nat>, head: nat)
    requires k < |rows| && UpTo(rows, recovery, k + 1, shown, emitted) && head < |recovery|
    requires forall i: nat | i < |recovery| :: Heads(rows, recovery, k, i) <==> i == head
    ensures UpTo(rows, recovery, k, shown + {head}, emitted + Loaded(rows, R.Folded(recovery[head].evidence)))
  {
    forall i: nat
      ensures i in shown + {head} <==> i < |recovery| && Newest(rows, recovery[i], |rows|) > k
    {
      if i < |recovery| {
        assert Heads(rows, recovery, k, i) <==> i == head;
      }
    }
    forall at | 0 <= at < |rows|
      ensures rows[at].sequence in emitted + Loaded(rows, R.Folded(recovery[head].evidence)) <==>
              FoldedByShown(recovery, shown + {head}, rows[at].sequence)
    {
      RowWithIs(rows, rows[at].sequence);
      FoldedByOneMore(recovery, shown, head, rows[at].sequence);
    }
  }

  lemma FoldedByOneMore(recovery: seq<R.Group>, shown: set<nat>, head: nat, sequence: nat)
    requires head < |recovery|
    ensures FoldedByShown(recovery, shown + {head}, sequence) <==>
            FoldedByShown(recovery, shown, sequence) || sequence in R.Folded(recovery[head].evidence)
  {
    if i :| i in shown && i < |recovery| && sequence in R.Folded(recovery[i].evidence) {
      assert i in shown + {head};
    }
    assert head in shown + {head};
  }

  /** A row of a group shown above: skipped if folded, else itself. */
  lemma TurnOfShown(rows: seq<Event>, recovery: seq<R.Group>, k: nat, shown: set<nat>, emitted: set<nat>, i: nat)
    requires k < |rows| && OneGroupEach(rows, recovery) && UpTo(rows, recovery, k + 1, shown, emitted)
    requires i < |recovery| && Belongs(recovery[i], rows[k]) && i in shown
    ensures TurnAt(rows, recovery, k, shown, emitted) == Turn(Block(rows, recovery, k), shown, emitted)
    ensures UpTo(rows, recovery, k, shown, emitted)
  {
    AnchorIs(recovery, shown, rows[k]);
    BlockOfMember(rows, recovery, k, i);
    EmittedIffFolded(rows, recovery, k, shown, emitted, i);
    assert !Heads(rows, recovery, k, i);
    StateKept(rows, recovery, k, shown, emitted);
    assert HeadedBy(rows, recovery, k, 0).None?;
    assert Anchor(recovery, shown, rows[k]).None?;
  }

  /** A row of a group not shown yet heads it. */
  lemma TurnOfHead(rows: seq<Event>, recovery: seq<R.Group>, k: nat, shown: set<nat>, emitted: set<nat>, i: nat)
    requires k < |rows| && OneGroupEach(rows, recovery) && UpTo(rows, recovery, k + 1, shown, emitted)
    requires i < |recovery| && Belongs(recovery[i], rows[k]) && i !in shown
    ensures var turn := TurnAt(rows, recovery, k, shown, emitted);
            && turn.added == Block(rows, recovery, k)
            && UpTo(rows, recovery, k, turn.shown, turn.emitted)
  {
    var failures := R.Folded(recovery[i].evidence);
    AnchorIs(recovery, shown, rows[k]);
    assert Anchor(recovery, shown, rows[k]) == Some(i);
    NewestHere(rows, recovery[i], k);
    BlockOfMember(rows, recovery, k, i);
    StateGrows(rows, recovery, k, shown, emitted, i);
    EmittedIffFolded(rows, recovery, k, shown, emitted, i);
    RowWithIs(rows, rows[k].sequence);
    assert rows[k].sequence in emitted + Loaded(rows, failures) <==> IsFolded(recovery, rows[k]);
  }

  lemma NewestHere(rows: seq<Event>, group: R.Group, k: nat)
    requires k < |rows| && Belongs(group, rows[k]) && Newest(rows, group, |rows|) <= k + 1
    ensures Newest(rows, group, |rows|) == k + 1
  {
    NewestIs(rows, group, |rows|, k);
  }

  lemma EmittedIffFolded(rows: seq<Event>, recovery: seq<R.Group>, k: nat, shown: set<nat>, emitted: set<nat>, i: nat)
    requires k < |rows| && OneGroupEach(rows, recovery) && UpTo(rows, recovery, k + 1, shown, emitted)
    requires i < |recovery| && Belongs(recovery[i], rows[k])
    ensures rows[k].sequence in emitted <==> i in shown && rows[k].sequence in R.Folded(recovery[i].evidence)
  {
    if j :| j in shown && j < |recovery| && rows[k].sequence in R.Folded(recovery[j].evidence) {
      assert Belongs(recovery[j], rows[k]);
    }
  }

  lemma TurnOfLoner(rows: seq<Event>, recovery: seq<R.Group>, k: nat, shown: set<nat>, emitted: set<nat>)
    requires k < |rows| && UpTo(rows, recovery, k + 1, shown, emitted)
    requires forall i: nat | i < |recovery| :: !Belongs(recovery[i], rows[k])
    ensures TurnAt(rows, recovery, k, shown, emitted) == Turn(Block(rows, recovery, k), shown, emitted)
    ensures UpTo(rows, recovery, k, shown, emitted)
  {
    AnchorIs(recovery, shown, rows[k]);
    BlockOfLoner(rows, recovery, k);
    StateKept(rows, recovery, k, shown, emitted);
    assert !FoldedByShown(recovery, shown, rows[k].sequence);
  }

  lemma TurnIsBlock(rows: seq<Event>, recovery: seq<R.Group>, k: nat, shown: set<nat>, emitted: set<nat>, turn: Turn)
    requires k < |rows| && OneGroupEach(rows, recovery) && UpTo(rows, recovery, k + 1, shown, emitted)
    requires turn == TurnAt(rows, recovery, k, shown, emitted)
    ensures turn.added == Block(rows, recovery, k) && UpTo(rows, recovery, k, turn.shown, turn.emitted)
  {
    if i: nat :| i < |recovery| && Belongs(recovery[i], rows[k]) {
      if i in shown {
        TurnOfShown(rows, recovery, k, shown, emitted, i);
      } else {
        TurnOfHead(rows, recovery, k, shown, emitted, i);
      }
    } else {
      TurnOfLoner(rows, recovery, k, shown, emitted);
    }
  }

  lemma {:induction false} TurnsAreBlocks(rows: seq<Event>, recovery: seq<R.Group>, n: nat, last: Turn)
    requires n <= |rows| && OneGroupEach(rows, recovery) && last == LastTurn(rows, recovery, n)
    ensures UpTo(rows, recovery, n, last.shown, last.emitted)
    ensures n < |rows| ==> last.added == Block(rows, recovery, n)
    decreases |rows| - n
  {
    if n < |rows| {
      var before := LastTurn(rows, recovery, n + 1);
      TurnsAreBlocks(rows, recovery, n + 1, before);
      TurnIsBlock(rows, recovery, n, before.shown, before.emitted, last);
    }
  }

  /** When no row belongs to two groups, the loop shows exactly the reference. */
  lemma LoopIsReference(rows: seq<Event>, recovery: seq<R.Group>)
    requires OneGroupEach(rows, recovery)
    ensures Listed(rows, recovery) == Stacked(Blocks(rows, recovery))
  {
    forall k | 0 <= k < |rows|
      ensures Turns(rows, recovery)[k] == Blocks(rows, recovery)[k]
    {
      TurnsAreBlocks(rows, recovery, k, LastTurn(rows, recovery, k));
    }
    assert Turns(rows, recovery) == Blocks(rows, recovery);
  }

  // What the list shows: every loaded row once, each group once, the unfolded rows newest first.

  ghost predicate Answerable(recovery: seq<R.Group>) {
    forall group | group in recovery :: R.Distinct(group.evidence)
  }

  ghost predicate NoRepeat(failures: seq<nat>) {
    forall i, j | 0 <= i < j < |failures| :: failures[i] != failures[j]
  }

  lemma NoRepeatLonger(failures: seq<nat>, last: nat)
    requires NoRepeat(failures) && last !in failures
    ensures NoRepeat(failures + [last])
  {
    var longer := failures + [last];
    forall i, j | 0 <= i < j < |longer|
      ensures longer[i] != longer[j]
    {
      assert longer[i] in failures;
    }
  }

  lemma {:induction false} FoldedNoRepeat(evidence: seq<R.Evidence>)
    requires R.Distinct(evidence)
    ensures NoRepeat(R.Folded(evidence))
    ensures forall failure | failure in R.Folded(evidence) :: exists i :: 0 <= i < |evidence| && evidence[i].failure == failure
  {
    if evidence != [] {
      var last, rest := evidence[|evidence| - 1], evidence[..|evidence| - 1];
      FoldedNoRepeat(rest);
      forall failure | failure in R.Folded(rest)
        ensures exists i :: 0 <= i < |evidence| - 1 && evidence[i].failure == failure
      {
        var i :| 0 <= i < |rest| && rest[i].failure == failure;
        assert evidence[i].failure == failure;
      }
      assert last.failure !in R.Folded(rest);
      NoRepeatLonger(R.Folded(rest), last.failure);
      assert R.Folded(rest) + [] == R.Folded(rest);
      assert evidence[|evidence| - 1].failure == last.failure;
    }
  }

  lemma RowOfItsSequence(rows: seq<Event>, k: nat)
    requires Ordered(rows) && k < |rows|
    ensures RowWith(rows, rows[k].sequence) == Some(rows[k])
  {
    RowWithIs(rows, rows[k].sequence);
  }

  lemma {:induction false} FoldedRowsHold(rows: seq<Event>, failures: seq<nat>, k: nat)
    requires Ordered(rows) && NoRepeat(failures) && k < |rows|
    ensures multiset(FoldedRows(rows, failures))[Shown(rows[k], true)] == if rows[k].sequence in failures then 1 else 0
    ensures forall row | row in FoldedRows(rows, failures) :: row.Shown? && row.folded && row.event in rows
  {
    if failures != [] {
      var last, rest := failures[|failures| - 1], failures[..|failures| - 1];
      assert failures == rest + [last];
      FoldedRowsHold(rows, rest, k);
      RowWithIs(rows, last);
      RowOfItsSequence(rows, k);
    }
  }

  /** A row that one block holds once, and no other, is listed once. */
  lemma {:induction false} CountStacked(blocks: seq<seq<Row>>, row: Row, at: int)
    requires forall j | 0 <= j < |blocks| :: multiset(blocks[j])[row] == if j == at then 1 else 0
    ensures multiset(Stacked(blocks))[row] == if 0 <= at < |blocks| then 1 else 0
  {
    if blocks != [] {
      CountStacked(blocks[1..], row, at - 1);
      assert multiset(blocks[0])[row] == if at == 0 then 1 else 0;
    }
  }

  lemma UnfoldedInBlock(rows: seq<Event>, recovery: seq<R.Group>, n: nat, k: nat)
    requires Ordered(rows) && Answerable(recovery) && n < |rows| && k < |rows|
    ensures multiset(Block(rows, recovery, n))[Shown(rows[k], false)]
         == if n == k && !IsFolded(recovery, rows[k]) then 1 else 0
  {
    var head := HeadedBy(rows, recovery, n, 0);
    if head.Some? {
      FoldedNoRepeat(recovery[head.value].evidence);
      FoldedRowsHold(rows, R.Folded(recovery[head.value].evidence), k);
    }
    assert rows[n] == rows[k] <==> n == k;
  }

  lemma NeverFoldedInBlock(rows: seq<Event>, recovery: seq<R.Group>, n: nat, k: nat)
    requires Ordered(rows) && Answerable(recovery) && n < |rows| && k < |rows|
    requires !IsFolded(recovery, rows[k])
    ensures multiset(Block(rows, recovery, n))[Shown(rows[k], true)] == 0
  {
    var head := HeadedBy(rows, recovery, n, 0);
    if head.Some? {
      FoldedNoRepeat(recovery[head.value].evidence);
      FoldedRowsHold(rows, R.Folded(recovery[head.value].evidence), k);
    }
  }

  lemma FoldedInBlock(rows: seq<Event>, recovery: seq<R.Group>, n: nat, k: nat, i: nat)
    requires Ordered(rows) && Answerable(recovery) && OneGroupEach(rows, recovery) && n < |rows| && k < |rows|
    requires i < |recovery| && rows[k].sequence in R.Folded(recovery[i].evidence)
    ensures multiset(Block(rows, recovery, n))[Shown(rows[k], true)] == if Heads(rows, recovery, n, i) then 1 else 0
  {
    var head := HeadedBy(rows, recovery, n, 0);
    if Heads(rows, recovery, n, i) {
      NewestIs(rows, recovery[i], |rows|, n);
      BlockOfMember(rows, recovery, n, i);
    }
    if head.Some? {
      var failures := R.Folded(recovery[head.value].evidence);
      FoldedNoRepeat(recovery[head.value].evidence);
      FoldedRowsHold(rows, failures, k);
      assert rows[k].sequence in failures ==> Belongs(recovery[head.value], rows[k]);
      assert Belongs(recovery[i], rows[k]);
    }
  }

  lemma {:induction false} NoHeaders(rows: seq<Event>, failures: seq<nat>, i: nat)
    ensures Header(i) !in FoldedRows(rows, failures)
  {
    if failures != [] {
      NoHeaders(rows, failures[..|failures| - 1], i);
    }
  }

  lemma HeaderInBlock(rows: seq<Event>, recovery: seq<R.Group>, n: nat, i: nat)
    requires OneGroupEach(rows, recovery) && n < |rows| && i < |recovery|
    ensures multiset(Block(rows, recovery, n))[Header(i)] == if Heads(rows, recovery, n, i) then 1 else 0
  {
    var head := HeadedBy(rows, recovery, n, 0);
    if Heads(rows, recovery, n, i) {
      NewestIs(rows, recovery[i], |rows|, n);
      BlockOfMember(rows, recovery, n, i);
    }
    if head.Some? {
      NoHeaders(rows, R.Folded(recovery[head.value].evidence), i);
    }
  }

  lemma UnfoldedOnce(rows: seq<Event>, recovery: seq<R.Group>, k: nat)
    requires Ordered(rows) && Answerable(recovery) && k < |rows|
    ensures multiset(Stacked(Blocks(rows, recovery)))[Shown(rows[k], false)]
         == if IsFolded(recovery, rows[k]) then 0 else 1
  {
    var blocks, at := Blocks(rows, recovery), if IsFolded(recovery, rows[k]) then |rows| else k;
    forall j | 0 <= j < |blocks|
      ensures multiset(blocks[j])[Shown(rows[k], false)] == if j == at then 1 else 0
    {
      UnfoldedInBlock(rows, recovery, j, k);
    }
    CountStacked(blocks, Shown(rows[k], false), at);
  }

  lemma FoldedOnce(rows: seq<Event>, recovery: seq<R.Group>, k: nat, i: nat)
    requires Ordered(rows) && Answerable(recovery) && OneGroupEach(rows, recovery) && k < |rows|
    requires i < |recovery| && rows[k].sequence in R.Folded(recovery[i].evidence)
    ensures multiset(Stacked(Blocks(rows, recovery)))[Shown(rows[k], true)] == 1
  {
    NewestIs(rows, recovery[i], |rows|, k);
    var blocks, at := Blocks(rows, recovery), Newest(rows, recovery[i], |rows|) - 1;
    forall j | 0 <= j < |blocks|
      ensures multiset(blocks[j])[Shown(rows[k], true)] == if j == at then 1 else 0
    {
      FoldedInBlock(rows, recovery, j, k, i);
    }
    CountStacked(blocks, Shown(rows[k], true), at);
  }

  lemma NeverFolded(rows: seq<Event>, recovery: seq<R.Group>, k: nat)
    requires Ordered(rows) && Answerable(recovery) && k < |rows| && !IsFolded(recovery, rows[k])
    ensures multiset(Stacked(Blocks(rows, recovery)))[Shown(rows[k], true)] == 0
  {
    var blocks := Blocks(rows, recovery);
    forall j | 0 <= j < |blocks|
      ensures multiset(blocks[j])[Shown(rows[k], true)] == 0
    {
      NeverFoldedInBlock(rows, recovery, j, k);
    }
    CountStacked(blocks, Shown(rows[k], true), |rows|);
  }

  /** Every loaded row is shown exactly once: folded if its group answers it, else in its own place. */
  lemma EachRowOnce(rows: seq<Event>, recovery: seq<R.Group>, k: nat)
    requires Ordered(rows) && Answerable(recovery) && OneGroupEach(rows, recovery) && k < |rows|
    ensures multiset(Listed(rows, recovery))[Shown(rows[k], true)] == if IsFolded(recovery, rows[k]) then 1 else 0
    ensures multiset(Listed(rows, recovery))[Shown(rows[k], false)] == if IsFolded(recovery, rows[k]) then 0 else 1
  {
    LoopIsReference(rows, recovery);
    UnfoldedOnce(rows, recovery, k);
    if IsFolded(recovery, rows[k]) {
      var i :| 0 <= i < |recovery| && rows[k].sequence in R.Folded(recovery[i].evidence);
      FoldedOnce(rows, recovery, k, i);
    } else {
      NeverFolded(rows, recovery, k);
    }
  }

  /** One header for each group with a loaded row, and none for the others. */
  lemma EachGroupOnce(rows: seq<Event>, recovery: seq<R.Group>, i: nat)
    requires OneGroupEach(rows, recovery) && i < |recovery|
    ensures multiset(Listed(rows, recovery))[Header(i)]
         == if exists k :: 0 <= k < |rows| && Belongs(recovery[i], rows[k]) then 1 else 0
  {
    LoopIsReference(rows, recovery);
    var newest := Newest(rows, recovery[i], |rows|);
    var blocks, at := Blocks(rows, recovery), if newest > 0 then newest - 1 else |rows|;
    forall j | 0 <= j < |blocks|
      ensures multiset(blocks[j])[Header(i)] == if j == at then 1 else 0
    {
      HeaderInBlock(rows, recovery, j, i);
    }
    CountStacked(blocks, Header(i), at);
    if newest > 0 {
      NewestIs(rows, recovery[i], |rows|, newest - 1);
    } else if k :| 0 <= k < |rows| && Belongs(recovery[i], rows[k]) {
      NewestIs(rows, recovery[i], |rows|, k);
    }
  }

  /** The sequences of the rows shown in their own place. */
  ghost function OwnPlaces(display: seq<Row>): seq<nat> {
    if display == [] then []
    else
      var last := display[|display| - 1];
      OwnPlaces(display[..|display| - 1]) + if last.Shown? && !last.folded then [last.event.sequence] else []
  }

  lemma {:induction false} OwnPlacesJoin(a: seq<Row>, b: seq<Row>)
    ensures OwnPlaces(a + b) == OwnPlaces(a) + OwnPlaces(b)
  {
    if b == [] {
      assert a + b == a;
    } else {
      OwnPlacesJoin(a, b[..|b| - 1]);
      assert (a + b)[..|a + b| - 1] == a + b[..|b| - 1];
    }
  }

  lemma {:induction false} NoOwnPlace(rows: seq<Event>, failures: seq<nat>)
    ensures OwnPlaces(FoldedRows(rows, failures)) == []
  {
    if failures != [] {
      var row := RowWith(rows, failures[|failures| - 1]);
      var first: seq<Row> := if row.Some? then [Shown(row.value, true)] else [];
      NoOwnPlace(rows, failures[..|failures| - 1]);
      OwnPlacesJoin(first, FoldedRows(rows, failures[..|failures| - 1]));
    }
  }

  lemma OwnPlaceOfBlock(rows: seq<Event>, recovery: seq<R.Group>, n: nat)
    requires n < |rows|
    ensures OwnPlaces(Block(rows, recovery, n)) == if IsFolded(recovery, rows[n]) then [] else [rows[n].sequence]
  {
    var head := HeadedBy(rows, recovery, n, 0);
    var own: seq<Row> := if IsFolded(recovery, rows[n]) then [] else [Shown(rows[n], false)];
    if head.Some? {
      var folded := FoldedRows(rows, R.Folded(recovery[head.value].evidence));
      NoOwnPlace(rows, R.Folded(recovery[head.value].evidence));
      OwnPlacesJoin([Header(head.value)], folded);
      OwnPlacesJoin([Header(head.value)] + folded, own);
    } else {
      assert Block(rows, recovery, n) == own;
    }
  }

  ghost predicate Descending(places: seq<nat>) {
    forall a, b | 0 <= a < b < |places| :: places[a] > places[b]
  }

  lemma {:induction false} PlacesDescend(rows: seq<Event>, blocks: seq<seq<Row>>)
    requires Ordered(rows) && |blocks| == |rows|
    requires forall j | 0 <= j < |rows| :: OwnPlaces(blocks[j]) == [] || OwnPlaces(blocks[j]) == [rows[j].sequence]
    ensures Descending(OwnPlaces(Stacked(blocks)))
    ensures rows != [] ==> forall place | place in OwnPlaces(Stacked(blocks)) :: place >= rows[0].sequence
    ensures rows == [] ==> OwnPlaces(Stacked(blocks)) == []
  {
    if rows != [] {
      var above, own := OwnPlaces(Stacked(blocks[1..])), OwnPlaces(blocks[0]);
      PlacesDescend(rows[1..], blocks[1..]);
      OwnPlacesJoin(Stacked(blocks[1..]), blocks[0]);
      assert OwnPlaces(Stacked(blocks)) == above + own;
      if |rows| > 1 {
        assert rows[1..][0].sequence > rows[0].sequence;
      }
      OneMoreBelow(above, own, rows[0].sequence);
    }
  }

  lemma OneMoreBelow(above: seq<nat>, own: seq<nat>, place: nat)
    requires Descending(above) && (own == [] || own == [place])
    requires forall other | other in above :: other > place
    ensures Descending(above + own) && forall other | other in above + own :: other >= place
  {
    var places := above + own;
    forall a, b | 0 <= a < b < |places|
      ensures places[a] > places[b]
    {
      assert places[a] in above;
    }
  }

  ghost predicate Ascends(failures: seq<nat>) {
    forall i, j | 0 <= i < j < |failures| :: failures[i] < failures[j]
  }

  lemma {:induction false} FoldedAscends(evidence: seq<R.Evidence>)
    requires R.StrictlySorted(evidence)
    ensures Ascends(R.Folded(evidence))
    ensures forall failure | failure in R.Folded(evidence) ::
              exists i :: 0 <= i < |evidence| && evidence[i].failure == failure
  {
    if evidence != [] {
      var front := evidence[..|evidence| - 1];
      FoldedAscends(front);
      forall failure | failure in R.Folded(front)
        ensures failure < evidence[|front|].failure
        ensures exists i :: 0 <= i < |evidence| && evidence[i].failure == failure
      {
        var i :| 0 <= i < |front| && front[i].failure == failure;
        assert evidence[i].failure == failure;
      }
      var folded := R.Folded(front);
      forall i | 0 <= i < |folded|
        ensures folded[i] < evidence[|front|].failure
      {
        assert folded[i] in folded;
      }
    }
  }

  /** Folded rows, newest first. */
  ghost predicate FoldedDown(list: seq<Row>) {
    && (forall i | 0 <= i < |list| :: list[i].Shown? && list[i].folded)
    && forall i, j | 0 <= i < j < |list| :: Above(list[i], list[j])
  }

  predicate Above(one: Row, other: Row) {
    one.Shown? && other.Shown? && one.event.sequence > other.event.sequence
  }

  /** The rows folded under one header come newest first, each an answered failure. */
  lemma {:induction false} FoldedNewestFirst(rows: seq<Event>, failures: seq<nat>)
    requires Ascends(failures)
    ensures FoldedDown(FoldedRows(rows, failures))
    ensures forall row | row in FoldedRows(rows, failures) :: row.Shown? && row.event.sequence in failures
  {
    if failures != [] {
      var front, last := failures[..|failures| - 1], failures[|failures| - 1];
      FoldedNewestFirst(rows, front);
      RowWithIs(rows, last);
      var rest := FoldedRows(rows, front);
      forall row | row in rest
        ensures row.Shown? && row.event.sequence in failures && row.event.sequence < last
      {
        assert row.event.sequence in front;
        var k :| 0 <= k < |front| && front[k] == row.event.sequence;
        assert failures[k] == front[k];
      }
      assert forall i | 0 <= i < |rest| :: rest[i] in rest;
    }
  }

  /** So under a group's header: its evidence is sorted by failure. */
  lemma HeaderFoldsNewestFirst(rows: seq<Event>, group: R.Group)
    requires R.Tidy(group)
    ensures FoldedDown(FoldedRows(rows, R.Folded(group.evidence)))
  {
    FoldedAscends(group.evidence);
    FoldedNewestFirst(rows, R.Folded(group.evidence));
  }

  /** The rows not folded come newest first. */
  lemma NewestFirst(rows: seq<Event>, recovery: seq<R.Group>)
    requires Ordered(rows) && OneGroupEach(rows, recovery)
    ensures Descending(OwnPlaces(Listed(rows, recovery)))
  {
    LoopIsReference(rows, recovery);
    var blocks := Blocks(rows, recovery);
    forall j | 0 <= j < |rows|
      ensures OwnPlaces(blocks[j]) == [] || OwnPlaces(blocks[j]) == [rows[j].sequence]
    {
      OwnPlaceOfBlock(rows, recovery, j);
    }
    PlacesDescend(rows, blocks);
  }
}
