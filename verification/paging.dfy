/** What any run of backward windows, pin moves and forward windows shows of an append-only ledger,
    and how many backward windows it takes to read down to position 1. */
module Paging {
  import opened Outcomes
  import opened LedgerView

  // Slices of an ordered ledger.

  lemma {:induction false} SliceOutside(ledger: seq<Event>, matches: Event -> bool, low: nat, high: nat)
    requires forall event | event in ledger :: event.sequence < low || high < event.sequence
    ensures Slice(ledger, matches, low, high) == []
  {
    if ledger != [] {
      SliceOutside(ledger[..|ledger| - 1], matches, low, high);
      assert ledger[|ledger| - 1] in ledger;
    }
  }

  lemma {:induction false} SliceSplits(
    ledger: seq<Event>, matches: Event -> bool, low: nat, middle: nat, high: nat)
    requires Ordered(ledger) && low <= middle + 1 && middle <= high
    ensures Slice(ledger, matches, low, high)
            == Slice(ledger, matches, low, middle) + Slice(ledger, matches, middle + 1, high)
  {
    if ledger != [] {
      var front := ledger[..|ledger| - 1];
      SliceSplits(front, matches, low, middle, high);
      if ledger[|ledger| - 1].sequence <= middle {
        SliceOutside(front, matches, middle + 1, high);
      }
    }
  }

  /** What is appended behind a window does not change it. */
  lemma {:induction false} SliceStays(
    ledger: seq<Event>, more: seq<Event>, matches: Event -> bool, low: nat, high: nat)
    requires forall event | event in more :: high < event.sequence
    ensures Slice(ledger + more, matches, low, high) == Slice(ledger, matches, low, high)
  {
    if more == [] {
      assert ledger + more == ledger;
    } else {
      var front := more[..|more| - 1];
      assert (ledger + more)[..|ledger + more| - 1] == ledger + front;
      assert more[|more| - 1] in more;
      SliceStays(ledger, front, matches, low, high);
    }
  }

  lemma {:induction false} SliceHolds(
    ledger: seq<Event>, matches: Event -> bool, low: nat, high: nat, event: Event)
    ensures event in Slice(ledger, matches, low, high) <==>
              event in ledger && low <= event.sequence <= high && matches(event)
  {
    if ledger != [] {
      assert ledger == ledger[..|ledger| - 1] + [ledger[|ledger| - 1]];
      SliceHolds(ledger[..|ledger| - 1], matches, low, high, event);
    }
  }

  lemma {:induction false} SliceOrdered(ledger: seq<Event>, matches: Event -> bool, low: nat, high: nat)
    requires Ordered(ledger)
    ensures Ordered(Slice(ledger, matches, low, high))
  {
    if ledger != [] {
      var front := ledger[..|ledger| - 1];
      SliceOrdered(front, matches, low, high);
      var slice := Slice(front, matches, low, high);
      forall i | 0 <= i < |slice|
        ensures slice[i].sequence < ledger[|ledger| - 1].sequence
      {
        assert slice[i] in slice;
        SliceHolds(front, matches, low, high, slice[i]);
      }
    }
  }

  lemma {:induction false} VisibleJoins(hiding: bool, one: seq<Event>, two: seq<Event>)
    ensures Visible(hiding, one + two) == Visible(hiding, one) + Visible(hiding, two)
    ensures Dropped(hiding, one + two) == Dropped(hiding, one) + Dropped(hiding, two)
  {
    if two == [] {
      assert one + two == one;
    } else {
      assert (one + two)[..|one + two| - 1] == one + two[..|two| - 1];
      VisibleJoins(hiding, one, two[..|two| - 1]);
    }
  }

  lemma {:induction false} VisibleHolds(hiding: bool, events: seq<Event>, event: Event)
    ensures event in Visible(hiding, events) <==> event in events && !(hiding && Routine(event))
    ensures |Visible(hiding, events)| + Dropped(hiding, events) == |events|
  {
    if events != [] {
      assert events == events[..|events| - 1] + [events[|events| - 1]];
      VisibleHolds(hiding, events[..|events| - 1], event);
    }
  }

  lemma {:induction false} VisibleOrdered(hiding: bool, events: seq<Event>)
    requires Ordered(events)
    ensures Ordered(Visible(hiding, events))
  {
    if events != [] {
      var front := events[..|events| - 1];
      VisibleOrdered(hiding, front);
      var kept := Visible(hiding, front);
      forall i | 0 <= i < |kept|
        ensures kept[i].sequence < events[|events| - 1].sequence
      {
        assert kept[i] in kept;
        VisibleHolds(hiding, front, kept[i]);
      }
    }
  }

  // Runs: the filters stay as they were at `Begin`.

  /** What one run of the view fixes: the ledger's filter, whether the routine performance events are
      hidden, and whether a time bound is set. */
  datatype Filter = Filter(matches: Event -> bool, hiding: bool, timeBound: bool)

  datatype Session = Session(view: View, ledger: seq<Event>, latest: nat, pin: nat)

  datatype Op = Earlier(complete: bool) | Newer(complete: bool) | Grow(more: seq<Event>) | Repin(position: nat)

  predicate WidthOk(width: nat) {
    width in {WINDOW, WINDOW * 2, WINDOW * 4, WINDOW * 8, MAX_WIDTH}
  }

  ghost predicate Allowed(session: Session, op: Op) {
    match op
    case Grow(more) => Ordered(more) && forall event | event in more :: session.latest < event.sequence
    case Repin(position) => session.pin <= position <= session.latest
    case _ => true
  }

  ghost function Step(filter: Filter, session: Session, op: Op): Session
    requires session.view.lowest.Some? ==> session.view.lowest.value >= 1
    requires session.view.width >= 1
  {
    var view := session.view;
    match op
    case Earlier(complete) =>
      var window := NextWindow(view);
      if window.None? then session
      else
        var events := Slice(session.ledger, filter.matches, window.value.0, window.value.1);
        session.(view := WindowApplied(view, window.value, filter.hiding, events, complete))
    case Newer(complete) =>
      var window := NextNewerWindow(view, session.pin, filter.timeBound);
      if window.None? then session
      else
        var events := Slice(session.ledger, filter.matches, window.value.0, window.value.1);
        session.(view := NewerApplied(view, window.value, filter.hiding, events, complete))
    case Grow(more) =>
      session.(ledger := session.ledger + more,
               latest := if more == [] then session.latest else more[|more| - 1].sequence)
    case Repin(position) => session.(pin := position)
  }

  /** The rows are the interval read, no event more or less. */
  ghost predicate Reflects(filter: Filter, session: Session) {
    var view := session.view;
    && Ordered(session.ledger)
    && (forall event | event in session.ledger :: event.sequence <= session.latest)
    && view.upper <= session.pin <= session.latest && WidthOk(view.width)
    && match view.lowest
       case None => view.rows == [] && view.hidden == 0 && view.range == None
       case Some(lowest) =>
         var slice := Slice(session.ledger, filter.matches, lowest, view.upper);
         && 1 <= lowest <= view.upper && view.range == Some((lowest, view.upper))
         && view.rows == Visible(filter.hiding, slice) && view.hidden == Dropped(filter.hiding, slice)
  }

  lemma WidthStaysOk(width: nat, read: nat)
    requires WidthOk(width)
    ensures WidthOk(NextWidth(width, read))
  {
  }

  /** A window put below an interval read is the longer interval read. */
  lemma IntervalGrows(filter: Filter, ledger: seq<Event>, low: nat, middle: nat, high: nat)
    requires Ordered(ledger) && low <= middle + 1 && middle <= high
    ensures var one := Slice(ledger, filter.matches, low, middle);
            var two := Slice(ledger, filter.matches, middle + 1, high);
            var all := Slice(ledger, filter.matches, low, high);
            && Visible(filter.hiding, all) == Visible(filter.hiding, one) + Visible(filter.hiding, two)
            && Dropped(filter.hiding, all) == Dropped(filter.hiding, one) + Dropped(filter.hiding, two)
  {
    SliceSplits(ledger, filter.matches, low, middle, high);
    VisibleJoins(filter.hiding, Slice(ledger, filter.matches, low, middle),
                 Slice(ledger, filter.matches, middle + 1, high));
  }

  /** The first window: nothing was read before it. */
  lemma FirstReflects(filter: Filter, session: Session, window: (nat, nat), complete: bool)
    requires Reflects(filter, session) && session.view.lowest.None? && NextWindow(session.view) == Some(window)
    ensures var events := Slice(session.ledger, filter.matches, window.0, window.1);
            Reflects(filter, session.(view := WindowApplied(session.view, window, filter.hiding, events, complete)))
  {
    var events := Slice(session.ledger, filter.matches, window.0, window.1);
    WidthStaysOk(session.view.width, |events|);
    assert Visible(filter.hiding, events) + [] == Visible(filter.hiding, events);
  }

  /** A view whose rows and count are those of the interval it now states. */
  lemma StatesInterval(filter: Filter, session: Session, after: View, slice: seq<Event>)
    requires Reflects(filter, session) && after.lowest.Some? && WidthOk(after.width)
    requires 1 <= after.lowest.value <= after.upper <= session.pin
    requires after.range == Some((after.lowest.value, after.upper))
    requires slice == Slice(session.ledger, filter.matches, after.lowest.value, after.upper)
    requires after.rows == Visible(filter.hiding, slice) && after.hidden == Dropped(filter.hiding, slice)
    ensures Reflects(filter, session.(view := after))
  {
  }

  /** A later one, put right below what is loaded. */
  lemma BelowReflects(filter: Filter, session: Session, window: (nat, nat), complete: bool)
    requires Reflects(filter, session) && session.view.lowest.Some? && NextWindow(session.view) == Some(window)
    ensures var events := Slice(session.ledger, filter.matches, window.0, window.1);
            Reflects(filter, session.(view := WindowApplied(session.view, window, filter.hiding, events, complete)))
  {
    var view, events := session.view, Slice(session.ledger, filter.matches, window.0, window.1);
    var after := WindowApplied(view, window, filter.hiding, events, complete);
    WidthStaysOk(view.width, |events|);
    IntervalGrows(filter, session.ledger, window.0, window.1, view.upper);
    assert window.1 + 1 == view.lowest.value;
    StatesInterval(
      filter, session, after, Slice(session.ledger, filter.matches, window.0, view.upper));
  }

  lemma EarlierReflects(filter: Filter, session: Session, complete: bool)
    requires Reflects(filter, session)
    ensures Reflects(filter, Step(filter, session, Earlier(complete)))
  {
    var window := NextWindow(session.view);
    if window.Some? {
      if session.view.lowest.Some? {
        BelowReflects(filter, session, window.value, complete);
      } else {
        FirstReflects(filter, session, window.value, complete);
      }
    }
  }

  lemma NewerReflects(filter: Filter, session: Session, complete: bool)
    requires Reflects(filter, session)
    ensures Reflects(filter, Step(filter, session, Newer(complete)))
  {
    var view := session.view;
    var window := NextNewerWindow(view, session.pin, filter.timeBound);
    if window.Some? && view.lowest.Some? {
      var (low, high) := window.value;
      IntervalGrows(filter, session.ledger, view.lowest.value, view.upper, high);
    }
  }

  lemma GrowReflects(filter: Filter, session: Session, more: seq<Event>)
    requires Reflects(filter, session) && Allowed(session, Grow(more))
    ensures Reflects(filter, Step(filter, session, Grow(more)))
  {
    var longer := session.ledger + more;
    forall i, j | 0 <= i < j < |longer|
      ensures longer[i].sequence < longer[j].sequence
    {
      if i < |session.ledger| <= j {
        assert session.ledger[i] in session.ledger && more[j - |session.ledger|] in more;
      }
    }
    forall event | event in longer
      ensures event.sequence <= Step(filter, session, Grow(more)).latest
    {
      if event in more {
        var i :| 0 <= i < |more| && more[i] == event;
      } else if more != [] {
        assert more[|more| - 1] in more;
      }
    }
    if session.view.lowest.Some? {
      SliceStays(session.ledger, more, filter.matches, session.view.lowest.value, session.view.upper);
    }
    if more != [] {
      assert more[|more| - 1] in more;
    }
  }

  ghost predicate Run(filter: Filter, sessions: seq<Session>, ops: seq<Op>) {
    && |sessions| == |ops| + 1
    && Reflects(filter, sessions[0])
    && forall i {:trigger ops[i]} | 0 <= i < |ops| ::
         && Allowed(sessions[i], ops[i])
         && (sessions[i].view.lowest.Some? ==> sessions[i].view.lowest.value >= 1) && sessions[i].view.width >= 1
         && sessions[i + 1] == Step(filter, sessions[i], ops[i])
  }

  /** A view just begun at a position the pin covers. */
  lemma BegunReflects(filter: Filter, ledger: seq<Event>, latest: nat, pin: nat, upper: nat)
    requires Ordered(ledger) && (forall event | event in ledger :: event.sequence <= latest)
    requires upper <= pin <= latest
    ensures Reflects(filter, Session(Begun(upper), ledger, latest, pin))
  {
  }

  lemma {:induction false} RunReflects(filter: Filter, sessions: seq<Session>, ops: seq<Op>, i: nat)
    requires Run(filter, sessions, ops) && i < |sessions|
    ensures Reflects(filter, sessions[i])
  {
    if i > 0 {
      RunReflects(filter, sessions, ops, i - 1);
      var op := ops[i - 1];
      assert sessions[i - 1 + 1] == Step(filter, sessions[i - 1], op);
      match op
      case Earlier(complete) => EarlierReflects(filter, sessions[i - 1], complete);
      case Newer(complete) => NewerReflects(filter, sessions[i - 1], complete);
      case Grow(more) => GrowReflects(filter, sessions[i - 1], more);
      case Repin(position) =>
    }
  }

  /** At every moment of every run: the rows are strictly increasing, hold exactly the matching events
      of the interval read that are not hidden, and the hidden count is what was dropped of them. */
  lemma RowsAreTheInterval(filter: Filter, sessions: seq<Session>, ops: seq<Op>, i: nat, event: Event)
    requires Run(filter, sessions, ops) && i < |sessions|
    ensures var session := sessions[i];
            && Ordered(session.view.rows)
            && match session.view.lowest
               case None => session.view.rows == [] && session.view.range == None && session.view.hidden == 0
               case Some(lowest) =>
                 && session.view.range == Some((lowest, session.view.upper))
                 && |session.view.rows| + session.view.hidden
                    == |Slice(session.ledger, filter.matches, lowest, session.view.upper)|
                 && (event in session.view.rows <==>
                       && event in session.ledger && lowest <= event.sequence <= session.view.upper
                       && filter.matches(event) && !(filter.hiding && Routine(event)))
  {
    RunReflects(filter, sessions, ops, i);
    var session := sessions[i];
    if session.view.lowest.Some? {
      var slice := Slice(session.ledger, filter.matches, session.view.lowest.value, session.view.upper);
      SliceOrdered(session.ledger, filter.matches, session.view.lowest.value, session.view.upper);
      VisibleOrdered(filter.hiding, slice);
      VisibleHolds(filter.hiding, slice, event);
      SliceHolds(session.ledger, filter.matches, session.view.lowest.value, session.view.upper, event);
    }
  }

  /** Each window lies against what is read, below or above, and is as wide as the state says. */
  lemma WindowsNeverGapOrOverlap(filter: Filter, session: Session)
    requires Reflects(filter, session)
    ensures var view := session.view;
            var earlier, newer := NextWindow(view), NextNewerWindow(view, session.pin, filter.timeBound);
            && (earlier.Some? ==>
                  && 1 <= earlier.value.0 <= earlier.value.1
                  && earlier.value.1 == (if view.lowest.Some? then view.lowest.value - 1 else view.upper)
                  && earlier.value.1 - earlier.value.0 + 1
                     == if view.width <= earlier.value.1 then view.width else earlier.value.1)
            && (earlier.None? <==> view.lowest == Some(1) || (view.lowest.None? && view.upper == 0))
            && (newer.Some? ==>
                  && newer.value.0 == view.upper + 1 && newer.value.0 <= newer.value.1 <= session.pin
                  && newer.value.1 - newer.value.0 < WINDOW)
            && (newer.None? <==> filter.timeBound || view.upper == session.pin)
  {
  }

  // How many backward windows it takes.

  /** The windows read from `high` down to 1, starting at a width, over what the ledger returns. */
  function Windows(ledger: seq<Event>, matches: Event -> bool, high: nat, width: nat): nat
    requires width >= 1
    decreases high
  {
    if high == 0 then 0
    else
      var low := if high <= width then 1 else high - (width - 1);
      var read := |Slice(ledger, matches, low, high)|;
      1 + Windows(ledger, matches, low - 1, NextWidth(width, read))
  }

  /** Doublings of the width so far. */
  function Level(width: nat): nat {
    if width < WINDOW * 2 then 0
    else if width < WINDOW * 4 then 1
    else if width < WINDOW * 8 then 2
    else if width < MAX_WIDTH then 3
    else 4
  }

  /** What one full window pays for, in units of 1/524288 (4096 * 128): its positions, its events and
      the width's level. */
  lemma WindowPays(width: nat, read: nat)
    requires WidthOk(width)
    ensures 524288 + 524288 * Level(width) <= 128 * width + 20480 * read + 524288 * Level(NextWidth(width, read))
  {
  }

  /** At most U/4096 + 5E/128 + 5 - level windows, where E events come back: a window at the full
      width pays with its 4096 positions, one that resets the width with its 128 events, one that
      keeps it with its 64, and one that doubles it with the level. */
  lemma {:induction false} WindowCount(ledger: seq<Event>, matches: Event -> bool, high: nat, width: nat)
    requires Ordered(ledger) && WidthOk(width)
    ensures 524288 * Windows(ledger, matches, high, width)
            <= 128 * high + 20480 * |Slice(ledger, matches, 1, high)| + 524288 * (5 - Level(width))
    decreases high
  {
    if high > width {
      var low := high - (width - 1);
      var read := |Slice(ledger, matches, low, high)|;
      SliceSplits(ledger, matches, 1, low - 1, high);
      WidthStaysOk(width, read);
      WindowPays(width, read);
      WindowCount(ledger, matches, low - 1, NextWidth(width, read));
    }
  }

  /** From a view just begun at U: at most U/4096 + 5E/128 + 5 windows read everything below it, where
      E is all that matches there. */
  lemma ReadingDownIsCheap(ledger: seq<Event>, matches: Event -> bool, upper: nat)
    requires Ordered(ledger)
    ensures 524288 * Windows(ledger, matches, upper, WINDOW)
            <= 128 * upper + 20480 * |Slice(ledger, matches, 1, upper)| + 5 * 524288
  {
    WindowCount(ledger, matches, upper, WINDOW);
  }

  function Below(view: View): nat
    requires view.lowest.Some? ==> view.lowest.value >= 1
  {
    if view.lowest.Some? then view.lowest.value - 1 else view.upper
  }

  ghost function EarlierTimes(filter: Filter, session: Session, count: nat): (after: Session)
    requires Reflects(filter, session)
    ensures Reflects(filter, after)
    decreases count
  {
    if count == 0 then session
    else
      EarlierReflects(filter, session, true);
      EarlierTimes(filter, Step(filter, session, Earlier(true)), count - 1)
  }

  lemma OneWindowLess(filter: Filter, session: Session)
    requires Reflects(filter, session)
    ensures var after := Step(filter, session, Earlier(true));
            && Reflects(filter, after) && after.ledger == session.ledger
            && var needed := Windows(session.ledger, filter.matches, Below(session.view), session.view.width);
               Windows(after.ledger, filter.matches, Below(after.view), after.view.width)
               == if needed == 0 then 0 else needed - 1
  {
    EarlierReflects(filter, session, true);
  }

  lemma NoneMeansNoWindows(filter: Filter, session: Session)
    requires Reflects(filter, session)
    ensures NextWindow(session.view).None? <==>
              Windows(session.ledger, filter.matches, Below(session.view), session.view.width) == 0
  {
  }

  /** That many windows are exactly what it takes: then position 1 is read, and not before. */
  lemma {:induction false} ReadsDownToOne(filter: Filter, session: Session, count: nat)
    requires Reflects(filter, session)
    ensures var needed := Windows(session.ledger, filter.matches, Below(session.view), session.view.width);
            NextWindow(EarlierTimes(filter, session, count).view).None? <==> needed <= count
    decreases count
  {
    if count == 0 {
      NoneMeansNoWindows(filter, session);
    } else {
      OneWindowLess(filter, session);
      var after := Step(filter, session, Earlier(true));
      ReadsDownToOne(filter, after, count - 1);
      assert EarlierTimes(filter, session, count) == EarlierTimes(filter, after, count - 1);
    }
  }
}
