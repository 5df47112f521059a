/** The ledger window's view model: backward windows of adaptive width down from a position, forward
    windows up to a moving pin, and the routine performance events dropped and counted. */
module LedgerView {
  import opened Outcomes
  import R = Recovery

  /** Positions one backward window spans at first: one page's event limit. */
  const WINDOW: nat := 256
  const MAX_WIDTH: nat := WINDOW * 16

  datatype Severity = Debug | Success | Info | Warning | Error | Fatal

  datatype Event = Event(sequence: nat, severity: Severity, performanceMonitor: bool, run: Option<string>)

  /** One page of a window, as the ledger answers it. */
  datatype Page = Page(events: seq<Event>, complete: bool, recovery: seq<R.Statement>)

  predicate Routine(event: Event) {
    (event.severity.Debug? || event.severity.Info?) && event.performanceMonitor
  }

  /** The events a view shows: the routine performance ones dropped while they are hidden. */
  function Visible(hiding: bool, events: seq<Event>): seq<Event> {
    if events == [] then []
    else
      var last := events[|events| - 1];
      Visible(hiding, events[..|events| - 1]) + if hiding && Routine(last) then [] else [last]
  }

  /** What the ledger answers for one window: its matching events in it, in order. */
  function Slice(ledger: seq<Event>, matches: Event -> bool, low: nat, high: nat): seq<Event> {
    if ledger == [] then []
    else
      var last := ledger[|ledger| - 1];
      Slice(ledger[..|ledger| - 1], matches, low, high)
      + if low <= last.sequence <= high && matches(last) then [last] else []
  }

  function EventsOf(pages: seq<Page>): seq<Event> {
    if pages == [] then [] else EventsOf(pages[..|pages| - 1]) + pages[|pages| - 1].events
  }

  function StatementsOf(pages: seq<Page>): seq<R.Statement> {
    if pages == [] then [] else StatementsOf(pages[..|pages| - 1]) + pages[|pages| - 1].recovery
  }

  ghost predicate Ordered(events: seq<Event>) {
    forall i, j | 0 <= i < j < |events| :: events[i].sequence < events[j].sequence
  }

  predicate AllComplete(pages: seq<Page>) {
    forall page | page in pages :: page.complete
  }

  // The paging state and its steps.

  datatype View = View(
    rows: seq<Event>, upper: nat, lowest: Option<nat>, width: nat, hidden: nat, range: Option<(nat, nat)>,
    complete: bool)

  function Begun(upper: nat): View {
    View([], upper, None, WINDOW, 0, None, true)
  }

  /** The next window down, or none once position 1 is read. */
  function NextWindow(view: View): Option<(nat, nat)>
    requires view.lowest.Some? ==> view.lowest.value >= 1
    requires view.width >= 1
  {
    var high := if view.lowest.Some? then view.lowest.value - 1 else view.upper;
    var low := if high <= view.width then 1 else high - (view.width - 1);
    if high == 0 then None else Some((low, high))
  }

  function NextWidth(width: nat, read: nat): nat {
    if read < WINDOW / 4 then (if width * 2 <= MAX_WIDTH then width * 2 else MAX_WIDTH)
    else if read >= WINDOW / 2 then WINDOW
    else width
  }

  function WindowApplied(view: View, window: (nat, nat), hiding: bool, events: seq<Event>, complete: bool): View {
    var kept := Visible(hiding, events);
    var top := if view.range.Some? then view.range.value.1 else window.1;
    View(kept + view.rows, view.upper, Some(window.0), NextWidth(view.width, |events|),
         view.hidden + Dropped(hiding, events),
         Some((window.0, top)),
         view.complete && complete)
  }

  function Dropped(hiding: bool, events: seq<Event>): nat {
    if events == [] then 0
    else Dropped(hiding, events[..|events| - 1]) + if hiding && Routine(events[|events| - 1]) then 1 else 0
  }

  /** The next window above what is loaded, up to the pin; never under a time bound. */
  function NextNewerWindow(view: View, pin: nat, timeBound: bool): Option<(nat, nat)> {
    var from := view.upper + 1;
    var high := if from + WINDOW - 1 <= pin then from + WINDOW - 1 else pin;
    if timeBound || from > pin then None else Some((from, high))
  }

  function NewerApplied(view: View, window: (nat, nat), hiding: bool, events: seq<Event>, complete: bool): View {
    var bottom := if view.range.Some? then view.range.value.0 else window.0;
    view.(rows := view.rows + Visible(hiding, events),
          upper := window.1,
          lowest := if view.lowest.Some? then view.lowest else Some(window.0),
          hidden := view.hidden + Dropped(hiding, events),
          range := Some((bottom, window.1)),
          complete := view.complete && complete)
  }

  class ViewModel {
    var showPerformance: bool
    var performanceMonitorPicked: bool
    var healthTab: bool
    var timeBound: bool
    var rows: seq<Event>
    var recovery: seq<R.Group>
    var upper: nat
    var lowestRead: Option<nat>
    var width: nat
    var hiddenPerformance: nat
    var range: Option<(nat, nat)>
    var readComplete: bool
    var snapshotPosition: nat
    /** The recovery statements taken in since `Begin`, and the groups after each; for proofs only. */
    ghost var stated: seq<R.Statement>
    ghost var views: seq<seq<R.Group>>

    constructor (snapshotPosition: nat)
      ensures Paging() == Begun(snapshotPosition) && this.snapshotPosition == snapshotPosition
      ensures Valid() && stated == []
      ensures HidesPerformance() && !timeBound
    {
      showPerformance, performanceMonitorPicked, healthTab, timeBound := false, false, false, false;
      rows, recovery := [], [];
      upper, lowestRead, width := snapshotPosition, None, WINDOW;
      hiddenPerformance, range, readComplete := 0, None, true;
      this.snapshotPosition := snapshotPosition;
      stated, views := [], [[]];
    }

    /** The groups are what the statements since `Begin` merge to. */
    ghost predicate Valid()
      reads this`recovery, this`stated, this`views
    {
      R.Reading(views, stated) && views[|stated|] == recovery
    }

    function Paging(): View
      reads this
    {
      View(rows, upper, lowestRead, width, hiddenPerformance, range, readComplete)
    }

    predicate HidesPerformance()
      reads this
    {
      !showPerformance && !performanceMonitorPicked && !healthTab
    }

    /** Starts the view over, reading down from `upper`. */
    method Begin(upper: nat)
      modifies this`rows, this`recovery, this`upper, this`lowestRead, this`width, this`hiddenPerformance
      modifies this`range, this`readComplete, this`stated, this`views
      ensures Paging() == Begun(upper)
      ensures Valid() && stated == []
    {
      rows, recovery := [], [];
      this.upper := upper;
      lowestRead, width := None, WINDOW;
      hiddenPerformance, range, readComplete := 0, None, true;
      stated, views := [], [[]];
    }

    method SetPin(snapshotPosition: nat)
      modifies this`snapshotPosition
      ensures this.snapshotPosition == snapshotPosition
    {
      this.snapshotPosition := snapshotPosition;
    }

    /** One page's statements, each into its run's group. */
    method TakeStatements(statements: seq<R.Statement>)
      requires Valid()
      modifies this`recovery, this`stated, this`views
      ensures Valid() && stated == old(stated) + statements
    {
      assert old(stated) + statements[..0] == old(stated);
      for i := 0 to |statements|
        invariant Valid() && stated == old(stated) + statements[..i]
      {
        ghost var held := recovery;
        recovery := R.AbsorbRecovery(recovery, statements[i]);
        R.ReadingMore(views, stated, statements[i], recovery);
        assert old(stated) + statements[..i + 1] == stated + [statements[i]];
        stated, views := stated + [statements[i]], views + [recovery];
      }
      assert statements[..|statements|] == statements;
    }

    /** One page's events behind those of the pages before it. */
    method TakeEvents(events: seq<Event>, page: Page, ghost before: seq<Event>) returns (longer: seq<Event>)
      requires events == Visible(HidesPerformance(), before)
      modifies this`hiddenPerformance
      ensures longer == Visible(HidesPerformance(), before + page.events)
      ensures hiddenPerformance - old(hiddenPerformance)
              == Dropped(HidesPerformance(), before + page.events) - Dropped(HidesPerformance(), before)
    {
      var hiding := HidesPerformance();
      longer := events;
      assert before + page.events[..0] == before;
      for i := 0 to |page.events|
        invariant longer == Visible(hiding, before + page.events[..i])
        invariant hiddenPerformance - old(hiddenPerformance)
                  == Dropped(hiding, before + page.events[..i]) - Dropped(hiding, before)
      {
        var event := page.events[i];
        ghost var more := before + page.events[..i + 1];
        assert more[..|more| - 1] == before + page.events[..i] && more[|more| - 1] == event;
        if hiding && Routine(event) {
          hiddenPerformance := hiddenPerformance + 1;
        } else {
          longer := longer + [event];
        }
      }
      assert page.events[..|page.events|] == page.events;
    }

    /** What the pages so far come to, from these counts and statements on. */
    ghost predicate Gathered(
      pages: seq<Page>, events: seq<Event>, complete: bool, read: nat, counted: nat, said: seq<R.Statement>)
      reads this
    {
      && events == Visible(HidesPerformance(), EventsOf(pages)) && read == |EventsOf(pages)|
      && complete == AllComplete(pages)
      && hiddenPerformance == counted + Dropped(HidesPerformance(), EventsOf(pages))
      && Valid() && stated == said + StatementsOf(pages)
    }

    /** One page of a window, behind those before it. */
    method TakePage(page: Page, held: seq<Event>, complete: bool, read: nat, ghost before: seq<Page>,
                    ghost counted: nat, ghost said: seq<R.Statement>)
      returns (events: seq<Event>, whole: bool, count: nat)
      requires Gathered(before, held, complete, read, counted, said)
      modifies this`hiddenPerformance, this`recovery, this`stated, this`views
      ensures Gathered(before + [page], events, whole, count, counted, said)
    {
      assert (before + [page])[..|before|] == before;
      count := read + |page.events|;
      events := TakeEvents(held, page, EventsOf(before));
      whole := complete && page.complete;
      TakeStatements(page.recovery);
      assert said + (StatementsOf(before) + page.recovery) == said + StatementsOf(before) + page.recovery;
    }

    /** A window's events in order, the hidden ones dropped and counted, its recovery statements
        merged; whether every page read its range completely; and how many events came. */
    method TakeWindow(pages: seq<Page>) returns (events: seq<Event>, complete: bool, read: nat)
      requires Valid()
      modifies this`hiddenPerformance, this`recovery, this`stated, this`views
      ensures events == Visible(HidesPerformance(), EventsOf(pages))
      ensures complete == AllComplete(pages)
      ensures read == |EventsOf(pages)|
      ensures hiddenPerformance == old(hiddenPerformance) + Dropped(HidesPerformance(), EventsOf(pages))
      ensures Valid() && stated == old(stated) + StatementsOf(pages)
    {
      events, complete, read := [], true, 0;
      ghost var before: seq<Page> := [];
      for at := 0 to |pages|
        invariant before == pages[..at]
        invariant Gathered(before, events, complete, read, old(hiddenPerformance), old(stated))
      {
        events, complete, read :=
          TakePage(pages[at], events, complete, read, before, old(hiddenPerformance), old(stated));
        before := before + [pages[at]];
      }
      assert before == pages;
    }

    method PutBelow(window: (nat, nat), events: seq<Event>, complete: bool, read: nat)
      modifies this`rows, this`lowestRead, this`width, this`range, this`readComplete
      ensures rows == events + old(rows) && width == NextWidth(old(width), read)
      ensures lowestRead == Some(window.0) && readComplete == (old(readComplete) && complete)
      ensures range == Some((window.0, if old(range).Some? then old(range).value.1 else window.1))
    {
      if read < WINDOW / 4 {
        width := if width * 2 <= MAX_WIDTH then width * 2 else MAX_WIDTH;
      } else if read >= WINDOW / 2 {
        width := WINDOW;
      }
      rows := events + rows;
      lowestRead := Some(window.0);
      range := Some((window.0, if range.Some? then range.value.1 else window.1));
      readComplete := readComplete && complete;
    }

    /** One window read whole, put below the rows already loaded. */
    method ApplyWindow(window: (nat, nat), pages: seq<Page>)
      requires Valid()
      modifies this`rows, this`recovery, this`lowestRead, this`width, this`hiddenPerformance
      modifies this`range, this`readComplete, this`stated, this`views
      ensures Paging() == WindowApplied(old(Paging()), window, HidesPerformance(), EventsOf(pages), AllComplete(pages))
      ensures Valid() && stated == old(stated) + StatementsOf(pages)
    {
      var events, complete, read := TakeWindow(pages);
      PutBelow(window, events, complete, read);
    }

    method PutAbove(window: (nat, nat), events: seq<Event>, complete: bool)
      modifies this`rows, this`upper, this`lowestRead, this`range, this`readComplete
      ensures rows == old(rows) + events && upper == window.1
      ensures lowestRead == (if old(lowestRead).Some? then old(lowestRead) else Some(window.0))
      ensures range == Some((if old(range).Some? then old(range).value.0 else window.0, window.1))
      ensures readComplete == (old(readComplete) && complete)
    {
      rows := rows + events;
      upper := window.1;
      if lowestRead.None? {
        lowestRead := Some(window.0);
      }
      range := Some((if range.Some? then range.value.0 else window.0, window.1));
      readComplete := readComplete && complete;
    }

    /** One newer window read whole, put above the rows already loaded; with none below read yet, it
        is also where reading earlier goes on from. */
    method ApplyNewerWindow(window: (nat, nat), pages: seq<Page>)
      requires Valid()
      modifies this`rows, this`recovery, this`upper, this`lowestRead, this`hiddenPerformance
      modifies this`range, this`readComplete, this`stated, this`views
      ensures Paging() == NewerApplied(old(Paging()), window, HidesPerformance(), EventsOf(pages), AllComplete(pages))
      ensures Valid() && stated == old(stated) + StatementsOf(pages)
    {
      var events, complete, read := TakeWindow(pages);
      PutAbove(window, events, complete);
    }
  }
}
