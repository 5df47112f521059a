/** What each turn comes to for a window, told from the window before it and what the native layer
    answers alone. */
module SkinOutcomes {
  import opened Outcomes
  import opened Skin

  /** The frame is on once it was tried: the held one is of the same window, or a new one attaches. */
  predicate GoesOn(window: Window, native: Native) {
    (window.frame.Some? && native.sameWindow) || native.attach.None?
  }

  /** The first step that fails while the frame and then the glass are put on. */
  function Trouble(window: Window, native: Native): Option<Step> {
    if GoesOn(window, native) then native.glass else native.attach
  }

  /** Where a failure leaves a window that wanted glass. */
  function Reached(trouble: Option<Step>): Level {
    if trouble.None? || trouble.value.Destroy? then AeroGlass
    else if BreaksFrame(trouble.value) then AeroSystemFrame
    else AeroChromeSolid
  }

  function Told(level: Level): Option<Failure> {
    match level
    case AeroSystemFrame => Some(ChromeFailed)
    case AeroChromeSolid => Some(GlassFailed)
    case _ => None
  }

  function Hits(window: Window): Option<bool> {
    if window.frame.None? then None else Some(window.frame.value.hitTest)
  }

  /** What one try at the frame and the glass comes to, at the glass level. */
  ghost predicate Attempted(pane: Pane, retries: nat, showing: Showing, native: Native, after: Pane)
    requires pane.window.Some? && pane.look.Some?
  {
    var window, look := pane.window.value, pane.look.value;
    var on, trouble := GoesOn(window, native), Trouble(window, native);
    var waits := !on && trouble == Some(WindowHandle) && retries > 0;
    var quiet := trouble.None? || waits || trouble.value in window.reported;
    && after.window.Some? && after.look.Some? && !after.window.value.closing
    && (after.look.value.appear <==> look.appear || !waits)
    && after.look.value.skin == look.skin
    && after.window.value.level == (if quiet then AeroGlass else Reached(trouble))
    && (after.look.value.glass <==> (on && native.glass.None?) || (look.glass && after.window.value.level.AeroGlass?))
    && (after.look.value.chrome <==> HasOwnFrame(after.window.value.level))
    && Hits(after.window.value) == (if on then Some(HasOwnFrame(after.window.value.level)) else None)
    && after.timers == pane.timers + (if waits then [Attach(retries - 1, showing)] else [])
    && after.window.value.reported == window.reported + (if quiet then [] else [trouble.value])
    && after.log == pane.log + (if quiet then [] else [trouble.value])
    && (if after.window.value.level.AeroGlass?
        then after.window.value.failure == window.failure && after.look.value.failure == look.failure
        else after.window.value.failure == after.look.value.failure == Told(after.window.value.level))
  }

  /** What one failure comes to, at the glass level. */
  ghost predicate Broke(pane: Pane, step: Step, after: Pane)
    requires pane.window.Some? && pane.look.Some?
  {
    var window, look, quiet := pane.window.value, pane.look.value, step in pane.window.value.reported;
    && after.window.Some? && after.look.Some? && !after.window.value.closing
    && after.look.value.appear == look.appear && after.look.value.skin == look.skin && after.timers == pane.timers
    && after.window.value.level == (if quiet then AeroGlass else Reached(Some(step)))
    && (after.look.value.glass <==> look.glass && after.window.value.level.AeroGlass?)
    && (after.look.value.chrome <==> HasOwnFrame(after.window.value.level))
    && Hits(after.window.value)
       == (if window.frame.None? then None else Some(HasOwnFrame(after.window.value.level)))
    && after.window.value.reported == window.reported + (if quiet then [] else [step])
    && after.log == pane.log + (if quiet then [] else [step])
    && (if after.window.value.level.AeroGlass?
        then after.window.value.failure == window.failure && after.look.value.failure == look.failure
        else after.window.value.failure == after.look.value.failure == Told(after.window.value.level))
  }

  predicate AtGlass(pane: Pane) {
    HasChromeLevel(pane) && pane.window.value.level.AeroGlass? && pane.look.Some? && pane.look.value.chrome
  }

  lemma RepeatBreaks(pane: Pane, step: Step)
    requires AtGlass(pane) && (pane.window.value.frame.Some? ==> pane.window.value.frame.value.hitTest)
    requires step in pane.window.value.reported
    ensures Broke(pane, step, Failed(pane, step))
  {
    assert pane.log + [] == pane.log && pane.window.value.reported + [] == pane.window.value.reported;
  }

  lemma FrameBreaks(pane: Pane, step: Step)
    requires AtGlass(pane) && (pane.window.value.frame.Some? ==> pane.window.value.frame.value.hitTest)
    requires step !in pane.window.value.reported && BreaksFrame(step)
    ensures Broke(pane, step, Failed(pane, step))
  {
  }

  lemma GlassBreaks(pane: Pane, step: Step)
    requires AtGlass(pane) && (pane.window.value.frame.Some? ==> pane.window.value.frame.value.hitTest)
    requires step !in pane.window.value.reported && !BreaksFrame(step)
    ensures Broke(pane, step, Failed(pane, step))
  {
  }

  lemma BreaksAsTold(pane: Pane, step: Step)
    requires AtGlass(pane) && (pane.window.value.frame.Some? ==> pane.window.value.frame.value.hitTest)
    ensures Broke(pane, step, Failed(pane, step))
  {
    if step in pane.window.value.reported {
      RepeatBreaks(pane, step);
    } else if BreaksFrame(step) {
      FrameBreaks(pane, step);
    } else {
      GlassBreaks(pane, step);
    }
  }

  lemma ShownComesTo(pane: Pane, retries: nat, showing: Showing, native: Native)
    requires AtGlass(pane) && GoesOn(pane.window.value, native) && native.glass.None?
    ensures Attempted(pane, retries, showing, native, Attached(pane, retries, showing, native))
  {
  }

  lemma NotShownComesTo(pane: Pane, retries: nat, showing: Showing, native: Native)
    requires AtGlass(pane) && GoesOn(pane.window.value, native) && native.glass.Some?
    ensures Attempted(pane, retries, showing, native, Attached(pane, retries, showing, native))
  {
    var put := FramePut(pane, native).0;
    BreaksAsTold(put, native.glass.value);
    assert Attached(pane, retries, showing, native) == InSight(Failed(put, native.glass.value));
  }

  lemma OffComesTo(pane: Pane, retries: nat, showing: Showing, native: Native)
    requires AtGlass(pane) && !GoesOn(pane.window.value, native)
    ensures Attempted(pane, retries, showing, native, Attached(pane, retries, showing, native))
  {
    var put := FramePut(pane, native).0;
    BreaksAsTold(put, native.attach.value);
  }

  lemma AttemptComesTo(pane: Pane, retries: nat, showing: Showing, native: Native)
    requires AtGlass(pane)
    ensures Attempted(pane, retries, showing, native, Attached(pane, retries, showing, native))
  {
    if !GoesOn(pane.window.value, native) {
      OffComesTo(pane, retries, showing, native);
    } else if native.glass.None? {
      ShownComesTo(pane, retries, showing, native);
    } else {
      NotShownComesTo(pane, retries, showing, native);
    }
  }

  /** The Aero theme picked, where frames of ours can be drawn. The glass is up if and only if the frame
      went on and the native layer showed it; a window without a handle yet is looked at again, and any
      other failure leaves exactly the level it breaks to, said on the window. */
  lemma AeroComesTo(pane: Pane, hiding: Option<Step>, native: Native)
    requires Kept(pane) && pane.window.Some? && !pane.window.value.closing
    requires Can(pane, Switch(AeroTheme, hiding, native))
    ensures var window, after := pane.window.value, After(pane, true, Switch(AeroTheme, hiding, native));
            var on, trouble := GoesOn(window, native), Trouble(window, native);
            var waits := !on && trouble == Some(WindowHandle);
            && after.window.Some? && after.look.Some? && !after.window.value.closing
            && after.look.value.appear && after.look.value.skin == AeroTheme
            && (after.look.value.glass <==> on && native.glass.None?)
            && after.window.value.level == (if waits then AeroGlass else Reached(trouble))
            && (after.look.value.chrome <==> HasOwnFrame(after.window.value.level))
            && Hits(after.window.value) == (if on then Some(HasOwnFrame(after.window.value.level)) else None)
            && after.window.value.failure == after.look.value.failure == Told(after.window.value.level)
            && after.timers == pane.timers + (if waits then [Attach(ATTACH_RETRIES - 1, AtOnce)] else [])
            && after.window.value.reported == (if trouble.None? || waits then [] else [trouble.value])
            && after.log == pane.log + after.window.value.reported
  {
    var painted := Asked(pane);
    SwitchAsks(pane, hiding, native);
    AttemptComesTo(painted, ATTACH_RETRIES, AtOnce, native);
  }

  /** A window asked for the Aero theme, before its frame is tried. */
  function Asked(pane: Pane): Pane
    requires pane.window.Some?
  {
    pane.(window := Some(Window(pane.window.value.frame, AeroGlass, false, None, [])),
          look := Some(Look(AeroTheme, false, true, true, None)))
  }

  lemma SwitchAsks(pane: Pane, hiding: Option<Step>, native: Native)
    requires Kept(pane) && pane.window.Some? && !pane.window.value.closing
    requires Can(pane, Switch(AeroTheme, hiding, native))
    ensures After(pane, true, Switch(AeroTheme, hiding, native))
         == Attached(Asked(pane), ATTACH_RETRIES, AtOnce, native)
  {
  }

  /** A theme with no frame of ours: the flat skin, or the system's frame where none can be drawn. What was
      held stays, its hit test off; nothing is waited for. */
  lemma PlainComesTo(pane: Pane, works: bool, theme: Theme, hiding: Option<Step>, native: Native)
    requires Kept(pane) && pane.window.Some? && !pane.window.value.closing
    requires Can(pane, Switch(theme, hiding, native)) && (theme.FlatTheme? || !works)
    ensures var window, after := pane.window.value, After(pane, works, Switch(theme, hiding, native));
            && after.window.Some? && !after.window.value.closing
            && after.look == Some(Look(theme, false, false, true, None))
            && after.window.value.level == (if theme.FlatTheme? then Flat else AeroSystemFrame)
            && Hits(after.window.value) == (if window.frame.Some? then Some(false) else None)
            && after.timers == pane.timers
            && after.log == pane.log + (if window.frame.Some? && hiding.Some? then [hiding.value] else [])
  {
  }

  /** An attach that comes due at the glass level. The glass comes up if the frame goes on and the native
      layer shows it, and is left up only by a failure already told or one of taking something down. */
  lemma AttachComesTo(pane: Pane, works: bool, at: nat, native: Native)
    requires Kept(pane) && Can(pane, AttachDue(at, native))
    requires pane.window.Some? && !pane.window.value.closing && pane.window.value.level.AeroGlass?
    ensures var taken := pane.(timers := Without(pane.timers, at));
            && pane.look.Some?
            && Attempted(taken, pane.timers[at].retries, pane.timers[at].showing, native,
                         After(pane, works, AttachDue(at, native)))
  {
    var taken := pane.(timers := Without(pane.timers, at));
    AttemptComesTo(taken, pane.timers[at].retries, pane.timers[at].showing, native);
  }

  /** At solid glass the frame goes on as ever, and the glass stays down until a theme is picked. */
  lemma SolidStaysSolid(pane: Pane, works: bool, at: nat, native: Native)
    requires Kept(pane) && Can(pane, AttachDue(at, native))
    requires pane.window.Some? && !pane.window.value.closing && pane.window.value.level.AeroChromeSolid?
    ensures var window, after := pane.window.value, After(pane, works, AttachDue(at, native));
            var on := GoesOn(window, native);
            && after.window.Some? && after.look.Some? && !after.look.value.glass
            && (on ==> Hits(after.window.value) == Some(true) && after.look.value.appear
                       && after.window.value.level == AeroChromeSolid && after.log == pane.log)
            && (!on ==> Hits(after.window.value) == None)
            && (after.window.value.level == AeroSystemFrame <==>
                  && !on && BreaksFrame(native.attach.value) && native.attach.value !in window.reported
                  && (native.attach.value.WindowHandle? ==> pane.timers[at].retries == 0))
  {
  }

  /** An attach that comes due for a window that wants no frame of its own any more changes nothing. */
  lemma AttachForNothing(pane: Pane, works: bool, at: nat, native: Native)
    requires Can(pane, AttachDue(at, native)) && !HasChromeLevel(pane)
    ensures After(pane, works, AttachDue(at, native)) == pane.(timers := Without(pane.timers, at))
  {
  }

  /** A report of the native layer for an open window: told once, and taken as far as the step breaks. */
  lemma ReportComesTo(pane: Pane, works: bool, step: Step)
    requires Kept(pane) && Can(pane, Report(step)) && pane.window.Some?
    ensures var window, after := pane.window.value, After(pane, works, Report(step));
            && (step in window.reported ==> after == pane)
            && (step !in window.reported ==>
                  && after.log == pane.log + [step] && after.timers == pane.timers
                  && after.window.Some? && after.window.value.reported == window.reported + [step]
                  && after.look.Some? && after.look.value.appear == pane.look.value.appear
                  && (window.closing || window.level.Flat? || (step.Destroy? && !BreaksFrame(step))
                      || (!BreaksFrame(step) && !window.level.AeroGlass?) ==>
                        after.window.value.level == window.level && after.look == pane.look
                        && after.window.value.frame == window.frame && after.window.value.failure == window.failure)
                  && (!window.closing && !window.level.Flat? && (BreaksFrame(step) || (window.level.AeroGlass? && !step.Destroy?)) ==>
                        && after.window.value.level == Reached(Some(step)) && !after.look.value.glass
                        && (after.look.value.chrome <==> HasOwnFrame(after.window.value.level))
                        && after.window.value.failure == after.look.value.failure == Told(after.window.value.level)
                        && (BreaksFrame(step) && window.frame.Some? ==> Hits(after.window.value) == Some(false))
                        && (!BreaksFrame(step) ==> after.window.value.frame == window.frame)))
  {
  }

  /** A report for a window that is gone is logged, and nothing else. */
  lemma ReportOfNone(pane: Pane, works: bool, step: Step)
    requires Can(pane, Report(step)) && pane.window.None?
    ensures After(pane, works, Report(step)) == pane.(log := pane.log + [step])
  {
  }

  /** A failure said on a window is what it tells from then on, and nothing else. */
  lemma SayComesTo(pane: Pane, works: bool, failure: Failure)
    requires Can(pane, Say(failure)) && pane.window.Some? && pane.look.Some?
    ensures var after := After(pane, works, Say(failure));
            && after.window == Some(pane.window.value.(failure := Some(failure)))
            && after.look == Some(pane.look.value.(failure := Some(failure)))
            && after.timers == pane.timers && after.log == pane.log && after.attached == pane.attached
  {
  }

  /** A close asked for: fades exactly when the window has a frame of its own and is not closing yet. */
  lemma AskComesTo(pane: Pane, works: bool, fade: Option<Step>)
    requires Kept(pane) && Can(pane, AskClose(fade))
    ensures var after := After(pane, works, AskClose(fade));
            if HasChromeLevel(pane) then
              && CloseBegun(pane, fade).0 == FadingFor && after.timers == pane.timers + [FadeOver]
              && IsClosing(after) && after.look.Some? && !after.look.value.appear
              && after.look.value.(appear := pane.look.value.appear) == pane.look.value
              && after.log == pane.log + (if pane.window.value.frame.Some? && fade.Some?
                                             && fade.value !in pane.window.value.reported then [fade.value] else [])
            else if IsClosing(pane) then CloseBegun(pane, fade).0 == Underway && after == pane
            else CloseBegun(pane, fade).0 == GoNow && after == pane.(window := None, timers := pane.timers + [Leave])
  {
  }

  /** A fade that ends without being called off, and a close at once handled: the window is gone. */
  lemma EndsComeTo(pane: Pane, works: bool, at: nat, theme: Theme, hiding: Option<Step>, native: Native)
    requires Kept(pane)
    ensures Can(pane, FadeEnds(at, false, theme, hiding, native)) ==>
              After(pane, works, FadeEnds(at, false, theme, hiding, native))
              == pane.(window := None, look := None, timers := Without(pane.timers, at))
    ensures Can(pane, LeaveDue(at)) ==>
              After(pane, works, LeaveDue(at)) == pane.(window := None, look := None, timers := Without(pane.timers, at))
  {
  }

  /** A close called off is a theme picked for the window as if it had never begun to close. */
  lemma CalledOffComesTo(
    pane: Pane, works: bool, at: nat, theme: Theme, hiding: Option<Step>, native: Native)
    requires Kept(pane) && Can(pane, FadeEnds(at, true, theme, hiding, native))
    ensures pane.window.Some? && pane.look.Some?
    ensures var stays := pane.(timers := Without(pane.timers, at), window := Some(pane.window.value.(closing := false)));
            After(pane, works, FadeEnds(at, true, theme, hiding, native))
            == After(stays, works, Switch(theme, hiding, native))
  {
    FadeIsOfAClosing(pane, at);
  }

  /** A window just opened: it asks for its own frame exactly in the Aero theme where one can be drawn, is
      then out of sight with the first attach pending, and is in sight otherwise. */
  lemma OpenComesTo(works: bool, theme: Theme, shown: bool)
    ensures var after := After(UNOPENED, works, Open(theme, shown));
            var wanted := theme.AeroTheme? && works;
            if !shown then after == UNOPENED
            else
              && after.window == Some(Window(None, if wanted then AeroGlass else if theme.FlatTheme? then Flat else AeroSystemFrame,
                                             false, None, []))
              && after.look == Some(Look(theme, false, wanted, !wanted, None))
              && after.timers == (if wanted then [Attach(10, Opening)] else [])
              && after.log == [] && !after.attached
  {
  }
}
