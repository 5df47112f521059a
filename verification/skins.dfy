/** The windows' looks, held in place: each operation changes one window's native side, look, timers and
    reports, as `Skin` says of that window, and nothing of any other. */
module Skins {
  import opened Outcomes
  import opened Skin

  datatype Key = Workbench | Ledger(id: nat)

  class Skins {
    /** Whether this platform can draw a frame of ours. */
    const works: bool
    var theme: Theme
    var windows: map<Key, Window>
    /** The look of each window that is open. */
    var looks: map<Key, Look>
    var timers: map<Key, seq<Timer>>
    var log: map<Key, seq<Step>>
    var attached: set<Key>

    constructor (works: bool, theme: Theme)
      ensures this.works == works && this.theme == theme
      ensures forall key :: Of(key) == UNOPENED && Kept(Of(key))
    {
      this.works, this.theme := works, theme;
      windows, looks, timers, log, attached := map[], map[], map[], map[], {};
    }

    ghost function Of(key: Key): Pane
      reads this
    {
      Pane(if key in windows then Some(windows[key]) else None,
           if key in looks then Some(looks[key]) else None,
           if key in timers then timers[key] else [],
           if key in log then log[key] else [],
           key in attached)
    }

    twostate predicate Others(key: Key)
      reads this
    {
      forall other | other != key :: Of(other) == old(Of(other))
    }

    // The fields, as they are set.

    method SetWindow(key: Key, window: Window)
      modifies this`windows
      ensures Of(key) == old(Of(key)).(window := Some(window)) && Others(key)
      ensures windows == old(windows)[key := window]
    {
      windows := windows[key := window];
    }

    method DropWindow(key: Key)
      modifies this`windows
      ensures Of(key) == old(Of(key)).(window := None) && Others(key)
    {
      windows := windows - {key};
    }

    method SetLook(key: Key, look: Look)
      modifies this`looks
      ensures Of(key) == old(Of(key)).(look := Some(look)) && Others(key)
    {
      looks := looks[key := look];
    }

    method DropLook(key: Key)
      modifies this`looks
      ensures Of(key) == old(Of(key)).(look := None) && Others(key)
    {
      looks := looks - {key};
    }

    method Post(key: Key, timer: Timer)
      modifies this`timers
      ensures Of(key) == old(Of(key)).(timers := old(Of(key)).timers + [timer]) && Others(key)
    {
      timers := timers[key := (if key in timers then timers[key] else []) + [timer]];
    }

    method TakeDue(key: Key, at: nat) returns (timer: Timer)
      requires at < |Of(key).timers|
      modifies this`timers
      ensures timer == old(Of(key)).timers[at]
      ensures Of(key) == old(Of(key)).(timers := Without(old(Of(key)).timers, at)) && Others(key)
    {
      timer := timers[key][at];
      timers := timers[key := Without(timers[key], at)];
    }

    method Log(key: Key, step: Step)
      modifies this`log
      ensures Of(key) == old(Of(key)).(log := old(Of(key)).log + [step]) && Others(key)
    {
      log := log[key := (if key in log then log[key] else []) + [step]];
    }

    // A failure, and what it costs the window.

    method Fail(key: Key, step: Step)
      modifies this`windows, this`looks, this`log
      ensures Of(key) == Failed(old(Of(key)), step) && Others(key)
    {
      var level: Option<Level> := None;
      if key in windows {
        var window := windows[key];
        if step in window.reported {
          return;
        }
        SetWindow(key, window.(reported := window.reported + [step]));
        if !window.closing {
          level := Some(window.level);
        }
      }
      Log(key, step);
      if level.None? || level.value.Flat? {
      } else if BreaksFrame(step) {
        FallToSystemFrame(key);
      } else if !step.Destroy? && level.value.AeroGlass? {
        FallToSolidGlass(key);
      }
    }

    /** The glass goes, and the hit test goes off before the window asks for the system's frame back. */
    method FallToSystemFrame(key: Key)
      requires key in windows
      modifies this`windows, this`looks
      ensures Of(key) == FallenToSystemFrame(old(Of(key))) && Others(key)
    {
      Fall(key, AeroSystemFrame, ChromeFailed);
      if key in looks {
        SetLook(key, looks[key].(glass := false, chrome := false));
        SetLook(key, looks[key].(failure := Some(ChromeFailed)));
      }
    }

    method FallToSolidGlass(key: Key)
      requires key in windows
      modifies this`windows, this`looks
      ensures Of(key) == FallenToSolidGlass(old(Of(key))) && Others(key)
    {
      Fall(key, AeroChromeSolid, GlassFailed);
      if key in looks {
        SetLook(key, looks[key].(glass := false));
        SetLook(key, looks[key].(failure := Some(GlassFailed)));
      }
    }

    method Fall(key: Key, level: Level, failure: Failure)
      requires key in windows
      modifies this`windows
      ensures Of(key) == old(Of(key)).(window := Some(Fell(old(windows[key]), level, failure))) && Others(key)
    {
      var window := windows[key].(level := level, failure := Some(failure));
      if window.frame.Some? && level.AeroSystemFrame? {
        window := window.(frame := Some(Frame(false)));
      }
      SetWindow(key, window);
    }

    // The frame and the glass.

    method PutFrame(key: Key, native: Native) returns (error: Option<Step>)
      requires key in windows
      modifies this`windows, this`attached
      ensures (Of(key), error) == FramePut(old(Of(key)), native) && Others(key)
    {
      var held := windows[key].frame;
      SetWindow(key, windows[key].(frame := None));
      if held.None? || !native.sameWindow {
        if native.attach.Some? {
          return native.attach;
        }
        attached := attached + {key};
      }
      SetWindow(key, windows[key].(frame := Some(Frame(true))));
      error := None;
    }

    /** Only a glass that stands makes the frame's glass area clear. */
    method PutGlass(key: Key, native: Native)
      requires key in windows && key in looks
      modifies this`windows, this`looks, this`log
      ensures Of(key) == GlassPut(old(Of(key)), native) && Others(key)
    {
      if !windows[key].level.AeroGlass? || windows[key].frame.None? {
        return;
      }
      match native.glass {
        case None => SetLook(key, looks[key].(glass := true));
        case Some(step) => Fail(key, step);
      }
    }

    method ComeIntoSight(key: Key)
      modifies this`looks
      ensures Of(key) == InSight(old(Of(key))) && Others(key)
    {
      if key in looks {
        SetLook(key, looks[key].(appear := true));
      }
    }

    method TryAttach(key: Key, retries: nat, showing: Showing, native: Native)
      modifies this`windows, this`looks, this`timers, this`log, this`attached
      ensures Of(key) == Attached(old(Of(key)), retries, showing, native) && Others(key)
    {
      if key !in windows || windows[key].closing || !HasOwnFrame(windows[key].level) || key !in looks {
        return;
      }
      var error := PutFrame(key, native);
      if error.None? {
        PutGlass(key, native);
        ComeIntoSight(key);
      } else if error.value.WindowHandle? && retries > 0 {
        Post(key, Attach(retries - 1, showing));
      } else {
        Fail(key, error.value);
        ComeIntoSight(key);
      }
    }

    // Opening, switching and closing.

    method ApplyBeforeShow(key: Key)
      modifies this`windows, this`looks
      ensures Of(key) == Opened(old(Of(key)), works, theme) && Others(key)
    {
      var wanted := theme.AeroTheme? && works;
      SetLook(key, Look(theme, false, wanted, !wanted, None));
      SetWindow(key, Window(None, LevelOf(theme, wanted), false, None, []));
    }

    method AfterShow(key: Key)
      modifies this`timers
      ensures Of(key) == ShownAfter(old(Of(key))) && Others(key)
    {
      if key in windows && !windows[key].closing && HasOwnFrame(windows[key].level) {
        Post(key, Attach(ATTACH_RETRIES, Opening));
      }
    }

    method SwitchWindow(key: Key, theme: Theme, hiding: Option<Step>, native: Native)
      modifies this`windows, this`looks, this`timers, this`log, this`attached
      ensures Of(key) == Switched(old(Of(key)), works, theme, hiding, native) && Others(key)
    {
      if key !in windows || windows[key].closing {
        return;
      }
      var wanted := theme.AeroTheme? && works;
      var frame := windows[key].frame;
      var given := frame.Some? && !wanted;
      SetWindow(key, Window(if given then Some(Frame(false)) else frame, LevelOf(theme, wanted), false, None, []));
      if given && hiding.Some? {
        Fail(key, hiding.value);
      }
      if key in looks {
        SetLook(key, Look(theme, false, wanted, true, None));
      }
      if wanted {
        TryAttach(key, ATTACH_RETRIES, AtOnce, native);
      }
    }

    method BeginClose(key: Key, fade: Option<Step>) returns (closing: Closing)
      modifies this`windows, this`looks, this`log
      ensures (closing, Of(key)) == CloseBegun(old(Of(key)), fade) && Others(key)
    {
      if key !in windows {
        return GoNow;
      }
      if windows[key].closing {
        return Underway;
      }
      if !HasOwnFrame(windows[key].level) {
        return GoNow;
      }
      SetWindow(key, windows[key].(closing := true));
      if key !in looks {
        return GoNow;
      }
      SetLook(key, looks[key].(appear := false));
      if windows[key].frame.Some? && fade.Some? {
        Fail(key, fade.value);
      }
      closing := FadingFor;
    }

    method CloseCalledOff(key: Key, hiding: Option<Step>, native: Native)
      modifies this`windows, this`looks, this`timers, this`log, this`attached
      ensures Of(key) == CalledOff(old(Of(key)), works, theme, hiding, native) && Others(key)
    {
      if key in windows {
        SetWindow(key, windows[key].(closing := false));
      }
      SwitchWindow(key, theme, hiding, native);
    }

    // The turns of the event loop.

    /** A new window: its look, then shown, or gone as it came. */
    method OpenTurn(key: Key, shown: bool)
      requires Of(key) == UNOPENED
      modifies this`windows, this`looks, this`timers
      ensures Of(key) == After(old(Of(key)), works, Open(theme, shown)) && Others(key)
      ensures Kept(Of(key))
    {
      TurnKeeps(Of(key), works, Open(theme, shown));
      ApplyBeforeShow(key);
      if shown {
        AfterShow(key);
      } else {
        DropWindow(key);
        DropLook(key);
      }
    }

    method AttachTurn(key: Key, at: nat, native: Native)
      requires Can(Of(key), AttachDue(at, native))
      modifies this`windows, this`looks, this`timers, this`log, this`attached
      ensures Of(key) == After(old(Of(key)), works, AttachDue(at, native)) && Others(key)
      ensures Kept(old(Of(key))) ==> Kept(Of(key))
    {
      if Kept(Of(key)) {
        TurnKeeps(Of(key), works, AttachDue(at, native));
      }
      var due := TakeDue(key, at);
      TryAttach(key, due.retries, due.showing, native);
    }

    /** A close asked for: with nothing to fade the native frame comes off now. */
    method CloseTurn(key: Key, fade: Option<Step>)
      requires Can(Of(key), AskClose(fade))
      modifies this`windows, this`looks, this`timers, this`log
      ensures Of(key) == After(old(Of(key)), works, AskClose(fade)) && Others(key)
      ensures Kept(old(Of(key))) ==> Kept(Of(key))
    {
      if Kept(Of(key)) {
        TurnKeeps(Of(key), works, AskClose(fade));
      }
      var closing := BeginClose(key, fade);
      match closing {
        case GoNow =>
          DropWindow(key);
          Post(key, Leave);
        case FadingFor => Post(key, FadeOver);
        case Underway =>
      }
    }

    /** The fade has run out: the window goes, or stays when its close must not end after all. */
    method FadeTurn(key: Key, at: nat, calledOff: bool, hiding: Option<Step>, native: Native)
      requires Can(Of(key), FadeEnds(at, calledOff, theme, hiding, native))
      modifies this`windows, this`looks, this`timers, this`log, this`attached
      ensures Of(key) == After(old(Of(key)), works, FadeEnds(at, calledOff, theme, hiding, native)) && Others(key)
      ensures Kept(old(Of(key))) ==> Kept(Of(key))
    {
      if Kept(Of(key)) {
        TurnKeeps(Of(key), works, FadeEnds(at, calledOff, theme, hiding, native));
      }
      var due := TakeDue(key, at);
      if calledOff {
        CloseCalledOff(key, hiding, native);
      } else {
        DropWindow(key);
        DropLook(key);
      }
    }

    /** A report of the native layer, back on the event loop. */
    method ReportTurn(key: Key, step: Step)
      requires Can(Of(key), Report(step))
      modifies this`windows, this`looks, this`log
      ensures Of(key) == After(old(Of(key)), works, Report(step)) && Others(key)
      ensures Kept(old(Of(key))) ==> Kept(Of(key))
    {
      if Kept(Of(key)) {
        TurnKeeps(Of(key), works, Report(step));
      }
      Fail(key, step);
    }

    /** A window that closed at once leaves the registry when its close has been handled. */
    method LeaveTurn(key: Key, at: nat)
      requires Can(Of(key), LeaveDue(at))
      modifies this`looks, this`timers
      ensures Of(key) == After(old(Of(key)), works, LeaveDue(at)) && Others(key)
      ensures Kept(old(Of(key))) ==> Kept(Of(key))
    {
      if Kept(Of(key)) {
        TurnKeeps(Of(key), works, LeaveDue(at));
      }
      var due := TakeDue(key, at);
      DropLook(key);
    }

    /** Something the window's own frame asked for did not happen. */
    method SayFailure(key: Key, failure: Failure)
      modifies this`windows, this`looks
      ensures Of(key) == After(old(Of(key)), works, Say(failure)) && Others(key)
      ensures Kept(old(Of(key))) ==> Kept(Of(key))
    {
      if Kept(Of(key)) {
        TurnKeeps(Of(key), works, Say(failure));
      }
      if key in windows {
        SetWindow(key, windows[key].(failure := Some(failure)));
      }
      if key in looks {
        SetLook(key, looks[key].(failure := Some(failure)));
      }
    }

    /** A theme picked: the look of every open window changes, one window after the other, each with its
        own answers of the native layer. */
    method SetTheme(theme: Theme, hiding: Key -> Option<Step>, native: Key -> Native)
      modifies this`theme, this`windows, this`looks, this`timers, this`log, this`attached
      ensures this.theme == theme
      ensures forall key | key in old(looks) ::
                Of(key) == Switched(old(Of(key)), works, theme, hiding(key), native(key))
      ensures forall key | key !in old(looks) :: Of(key) == old(Of(key))
    {
      this.theme := theme;
      var pending := looks.Keys;
      while pending != {}
        invariant this.theme == theme && pending <= old(looks).Keys
        invariant forall key | key in old(looks) && key !in pending ::
                    Of(key) == Switched(old(Of(key)), works, theme, hiding(key), native(key))
        invariant forall key | key !in old(looks) || key in pending :: Of(key) == old(Of(key))
        decreases pending
      {
        var key :| key in pending;
        SwitchWindow(key, theme, hiding(key), native(key));
        pending := pending - {key};
      }
    }

    /** Picking a theme keeps every window as `Kept` says, and every window that is not closing is in
        sight. */
    method PickTheme(theme: Theme, hiding: Key -> Option<Step>, native: Key -> Native)
      requires forall key :: Kept(Of(key))
      modifies this`theme, this`windows, this`looks, this`timers, this`log, this`attached
      ensures forall key :: Kept(Of(key))
      ensures forall key | old(Of(key)).window.Some? && !old(Of(key)).window.value.closing ::
                Of(key).look.Some? && Of(key).look.value.appear
    {
      SetTheme(theme, hiding, native);
      forall key
        ensures Kept(Of(key))
        ensures old(Of(key)).window.Some? && !old(Of(key)).window.value.closing ==>
                  Of(key).look.Some? && Of(key).look.value.appear
      {
        SwitchedKeeps(old(Of(key)), works, theme, hiding(key), native(key));
        SwitchedShows(old(Of(key)), works, theme, hiding(key), native(key));
      }
    }
  }
}
