/** One window's look and its native half: the level its frame has fallen to, the timers that bring it
    into sight and end its close, and everything that can fail meanwhile. */
module Skin {
  import opened Outcomes

  /** How often a window without a native handle yet is looked at again. */
  const ATTACH_RETRIES: nat := 10

  datatype Theme = FlatTheme | AeroTheme

  datatype Step =
    | Unsupported | WindowHandle | Subclass | Composition | UnderlayWindow | TargetStep | Brush | Place | Animate
    | Destroy

  datatype Level = AeroGlass | AeroChromeSolid | AeroSystemFrame | Flat

  datatype Failure = ChromeFailed | GlassFailed | CloseFailed

  datatype Showing = Opening | AtOnce

  datatype Closing = GoNow | FadingFor | Underway

  /** The native frame held for a window, and whether its hit test is on. */
  datatype Frame = Frame(hitTest: bool)

  datatype Window = Window(
    frame: Option<Frame>, level: Level, closing: bool, failure: Option<Failure>, reported: seq<Step>)

  datatype Look = Look(skin: Theme, glass: bool, chrome: bool, appear: bool, failure: Option<Failure>)

  datatype Timer = Attach(retries: nat, showing: Showing) | FadeOver | Leave

  /** What the native layer answers while a frame is put on. */
  datatype Native = Native(sameWindow: bool, attach: Option<Step>, glass: Option<Step>)

  /** Everything about one window: its native side, its look while it is open, its pending timers, the
      failures reported for it, and whether a frame was ever attached to it. */
  datatype Pane = Pane(
    window: Option<Window>, look: Option<Look>, timers: seq<Timer>, log: seq<Step>, attached: bool)

  predicate HasOwnFrame(level: Level) {
    level.AeroGlass? || level.AeroChromeSolid?
  }

  function LevelOf(theme: Theme, wanted: bool): Level {
    if theme.FlatTheme? then Flat else if wanted then AeroGlass else AeroSystemFrame
  }

  predicate BreaksFrame(step: Step) {
    step.Unsupported? || step.WindowHandle? || step.Subclass?
  }

  predicate HasChromeLevel(pane: Pane) {
    pane.window.Some? && !pane.window.value.closing && HasOwnFrame(pane.window.value.level)
  }

  // One operation's effect on its window.

  function Repaint(pane: Pane, look: Look): Pane {
    if pane.look.Some? then pane.(look := Some(look)) else pane
  }

  function Fell(window: Window, level: Level, failure: Failure): Window {
    window.(level := level, failure := Some(failure),
            frame := if level.AeroSystemFrame? && window.frame.Some? then Some(Frame(false)) else window.frame)
  }

  function FallenToSystemFrame(pane: Pane): Pane
    requires pane.window.Some?
  {
    var fallen := pane.(window := Some(Fell(pane.window.value, AeroSystemFrame, ChromeFailed)));
    if pane.look.Some?
    then fallen.(look := Some(pane.look.value.(glass := false, chrome := false, failure := Some(ChromeFailed))))
    else fallen
  }

  function FallenToSolidGlass(pane: Pane): Pane
    requires pane.window.Some?
  {
    var fallen := pane.(window := Some(Fell(pane.window.value, AeroChromeSolid, GlassFailed)));
    if pane.look.Some?
    then fallen.(look := Some(pane.look.value.(glass := false, failure := Some(GlassFailed))))
    else fallen
  }

  function Failed(pane: Pane, step: Step): Pane {
    if pane.window.None? then pane.(log := pane.log + [step])
    else
      var window := pane.window.value;
      if step in window.reported then pane
      else
        var told :=
          pane.(window := Some(window.(reported := window.reported + [step])), log := pane.log + [step]);
        if window.closing || window.level.Flat? then told
        else if BreaksFrame(step) then FallenToSystemFrame(told)
        else if step.Destroy? || !window.level.AeroGlass? then told
        else FallenToSolidGlass(told)
  }

  function FramePut(pane: Pane, native: Native): (Pane, Option<Step>)
    requires pane.window.Some?
  {
    var window := pane.window.value;
    if window.frame.Some? && native.sameWindow then
      (pane.(window := Some(window.(frame := Some(Frame(true))))), None)
    else if native.attach.Some? then
      (pane.(window := Some(window.(frame := None))), native.attach)
    else
      (pane.(window := Some(window.(frame := Some(Frame(true)))), attached := true), None)
  }

  function GlassPut(pane: Pane, native: Native): Pane
    requires pane.window.Some? && pane.look.Some?
  {
    if !pane.window.value.level.AeroGlass? || pane.window.value.frame.None? then pane
    else if native.glass.Some? then Failed(pane, native.glass.value)
    else pane.(look := Some(pane.look.value.(glass := true)))
  }

  function InSight(pane: Pane): Pane {
    if pane.look.Some? then pane.(look := Some(pane.look.value.(appear := true))) else pane
  }

  function Attached(pane: Pane, retries: nat, showing: Showing, native: Native): Pane {
    if !HasChromeLevel(pane) || pane.look.None? then pane
    else
      var put := FramePut(pane, native);
      if put.1.None? then InSight(GlassPut(put.0, native))
      else if put.1.value.WindowHandle? && retries > 0 then
        put.0.(timers := put.0.timers + [Attach(retries - 1, showing)])
      else InSight(Failed(put.0, put.1.value))
  }

  function Switched(pane: Pane, works: bool, theme: Theme, hiding: Option<Step>, native: Native): Pane {
    if pane.window.None? || pane.window.value.closing then pane
    else
      var wanted := theme.AeroTheme? && works;
      var window := pane.window.value;
      var given := window.frame.Some? && !wanted;
      var frame := if given then Some(Frame(false)) else window.frame;
      var reset := pane.(window := Some(Window(frame, LevelOf(theme, wanted), false, None, [])));
      var told := if given && hiding.Some? then Failed(reset, hiding.value) else reset;
      var painted := Repaint(told, Look(theme, false, wanted, true, None));
      if wanted then Attached(painted, ATTACH_RETRIES, AtOnce, native) else painted
  }

  function CloseBegun(pane: Pane, fade: Option<Step>): (Closing, Pane) {
    if pane.window.None? then (GoNow, pane)
    else if pane.window.value.closing then (Underway, pane)
    else if !HasOwnFrame(pane.window.value.level) then (GoNow, pane)
    else
      var begun := pane.(window := Some(pane.window.value.(closing := true)));
      if pane.look.None? then (GoNow, begun)
      else
        var gone := begun.(look := Some(pane.look.value.(appear := false)));
        var faded := if pane.window.value.frame.Some? && fade.Some? then Failed(gone, fade.value) else gone;
        (FadingFor, faded)
  }

  function CalledOff(pane: Pane, works: bool, theme: Theme, hiding: Option<Step>, native: Native): Pane {
    var stays :=
      if pane.window.Some? then pane.(window := Some(pane.window.value.(closing := false))) else pane;
    Switched(stays, works, theme, hiding, native)
  }

  function Opened(pane: Pane, works: bool, theme: Theme): Pane {
    var wanted := theme.AeroTheme? && works;
    pane.(window := Some(Window(None, LevelOf(theme, wanted), false, None, [])),
          look := Some(Look(theme, false, wanted, !wanted, None)))
  }

  function Said(pane: Pane, failure: Failure): Pane {
    var window :=
      if pane.window.Some? then Some(pane.window.value.(failure := Some(failure))) else None;
    var look := if pane.look.Some? then Some(pane.look.value.(failure := Some(failure))) else None;
    pane.(window := window, look := look)
  }

  function ShownAfter(pane: Pane): Pane {
    if HasChromeLevel(pane) then pane.(timers := pane.timers + [Attach(ATTACH_RETRIES, Opening)]) else pane
  }

  // The turns of the event loop, as one window sees them.

  datatype Turn =
    | Open(theme: Theme, shown: bool)
    | AttachDue(at: nat, native: Native)
    | Switch(theme: Theme, hiding: Option<Step>, native: Native)
    | Report(step: Step)
    | AskClose(fade: Option<Step>)
    | FadeEnds(at: nat, calledOff: bool, theme: Theme, hiding: Option<Step>, native: Native)
    | LeaveDue(at: nat)
    | Say(failure: Failure)

  function Without(timers: seq<Timer>, at: nat): seq<Timer>
    requires at < |timers|
  {
    timers[..at] + timers[at + 1..]
  }

  /** A window is opened once; a timer that is due is pending; the native layer reports only from a
      frame that was attached. */
  predicate Can(pane: Pane, turn: Turn) {
    match turn
    case Open(_, _) => pane == UNOPENED
    case AttachDue(at, _) => at < |pane.timers| && pane.timers[at].Attach?
    case Switch(_, _, _) => pane.look.Some?
    case Report(_) => pane.attached
    case AskClose(_) => pane.look.Some?
    case FadeEnds(at, _, _, _, _) => at < |pane.timers| && pane.timers[at].FadeOver?
    case LeaveDue(at) => at < |pane.timers| && pane.timers[at].Leave?
    case _ => true
  }

  function After(pane: Pane, works: bool, turn: Turn): Pane
    requires Can(pane, turn)
  {
    match turn
    case Open(theme, shown) =>
      if shown then ShownAfter(Opened(pane, works, theme)) else Opened(pane, works, theme).(window := None, look := None)
    case AttachDue(at, native) =>
      var due := pane.timers[at];
      Attached(pane.(timers := Without(pane.timers, at)), due.retries, due.showing, native)
    case Switch(theme, hiding, native) => Switched(pane, works, theme, hiding, native)
    case Report(step) => Failed(pane, step)
    case AskClose(fade) =>
      var begun := CloseBegun(pane, fade);
      (match begun.0
       case GoNow => begun.1.(window := None, timers := begun.1.timers + [Leave])
       case FadingFor => begun.1.(timers := begun.1.timers + [FadeOver])
       case Underway => begun.1)
    case FadeEnds(at, calledOff, theme, hiding, native) =>
      var due := pane.(timers := Without(pane.timers, at));
      if calledOff then CalledOff(due, works, theme, hiding, native) else due.(window := None, look := None)
    case LeaveDue(at) => pane.(look := None, timers := Without(pane.timers, at))
    case Say(failure) =>
      Said(pane, failure)
  }

  // What every turn keeps.

  ghost predicate NoRepeat(steps: seq<Step>) {
    forall i, j | 0 <= i < j < |steps| :: steps[i] != steps[j]
  }

  function Fades(timers: seq<Timer>): nat {
    multiset(timers)[FadeOver]
  }

  /** An attach is pending. */
  ghost predicate Waits(pane: Pane) {
    exists at :: 0 <= at < |pane.timers| && pane.timers[at].Attach?
  }

  /** The frame asked for, the frame painted and the native hit test agree with the level. */
  ghost predicate Agrees(window: Window, look: Look) {
    && (HasOwnFrame(window.level) <==> look.chrome)
    && (look.glass ==> window.level.AeroGlass?)
    && (window.frame.Some? && window.frame.value.hitTest ==> HasOwnFrame(window.level))
  }

  ghost predicate Steady(pane: Pane) {
    pane.window.Some? ==>
      var window := pane.window.value;
      && pane.look.Some? && Agrees(window, pane.look.value) && NoRepeat(window.reported)
      && (window.frame.Some? ==> pane.attached)
      && (window.closing ==> HasOwnFrame(window.level) && !pane.look.value.appear)
  }

  /** A window out of sight and not closing never had a frame, still wants one, and waits for it. */
  ghost predicate Awaited(pane: Pane) {
    pane.window.Some? && pane.look.Some? && !pane.window.value.closing && !pane.look.value.appear ==>
      !pane.attached && HasOwnFrame(pane.window.value.level) && Waits(pane)
  }

  /** One fade is pending while the window closes, and none otherwise. */
  ghost predicate OneFade(pane: Pane) {
    Fades(pane.timers) == if pane.window.Some? && pane.window.value.closing then 1 else 0
  }

  /** Pending timers of the kinds that end a close are as they must be. */
  ghost predicate Orderly(pane: Pane) {
    OneFade(pane) && (Leave in pane.timers ==> pane.window.None?)
  }

  ghost predicate Kept(pane: Pane) {
    Steady(pane) && Awaited(pane) && Orderly(pane)
  }

  lemma NoRepeatLonger(steps: seq<Step>, step: Step)
    requires NoRepeat(steps) && step !in steps
    ensures NoRepeat(steps + [step])
  {
    forall i, j | 0 <= i < j < |steps| + 1
      ensures (steps + [step])[i] != (steps + [step])[j]
    {
      assert steps[i] in steps;
    }
  }

  /** A failure changes neither what is pending nor whether the window is in sight or closing. */
  ghost predicate SameElse(a: Pane, b: Pane) {
    && a.timers == b.timers && a.attached == b.attached
    && a.window.Some? == b.window.Some? && a.look.Some? == b.look.Some?
    && (a.look.Some? ==> a.look.value.appear == b.look.value.appear)
    && (a.window.Some? ==> a.window.value.closing == b.window.value.closing)
    && (a.window.Some? && a.window.value.closing ==> a.window.value.level == b.window.value.level)
    && (a.window.Some? && a.window.value.frame.Some? ==> b.window.value.frame.Some?)
  }

  lemma FallsKeep(pane: Pane)
    requires Steady(pane) && pane.window.Some? && !pane.window.value.closing
    ensures Steady(FallenToSystemFrame(pane)) && SameElse(pane, FallenToSystemFrame(pane))
    ensures pane.window.value.level.AeroGlass? ==>
              Steady(FallenToSolidGlass(pane)) && SameElse(pane, FallenToSolidGlass(pane))
  {
  }

  lemma ToldKeeps(pane: Pane, step: Step)
    requires Steady(pane) && pane.window.Some? && step !in pane.window.value.reported
    ensures var told := pane.(window := Some(pane.window.value.(reported := pane.window.value.reported + [step])),
                              log := pane.log + [step]);
            Steady(told) && SameElse(pane, told)
  {
    NoRepeatLonger(pane.window.value.reported, step);
  }

  lemma FailedKeeps(pane: Pane, step: Step)
    requires Steady(pane)
    ensures Steady(Failed(pane, step)) && SameElse(pane, Failed(pane, step))
  {
    if pane.window.Some? && step !in pane.window.value.reported {
      var window := pane.window.value;
      var told := pane.(window := Some(window.(reported := window.reported + [step])), log := pane.log + [step]);
      ToldKeeps(pane, step);
      if !window.closing {
        FallsKeep(told);
      }
    }
  }

  lemma InSightKeeps(before: Pane, pane: Pane)
    requires Steady(pane) && SameElse(before, pane) && Orderly(before)
    requires pane.window.Some? && !pane.window.value.closing
    ensures Kept(InSight(pane))
  {
  }

  lemma FramePutKeeps(pane: Pane, native: Native)
    requires Steady(pane) && HasChromeLevel(pane)
    ensures var put := FramePut(pane, native).0;
            && Steady(put) && put.timers == pane.timers && put.look == pane.look && HasChromeLevel(put)
            && (FramePut(pane, native).1.Some? ==> put.attached == pane.attached)
  {
  }

  lemma GlassPutKeeps(pane: Pane, native: Native)
    requires Steady(pane) && pane.window.Some? && pane.look.Some? && !pane.window.value.closing
    ensures Steady(GlassPut(pane, native)) && SameElse(pane, GlassPut(pane, native))
  {
    if native.glass.Some? {
      FailedKeeps(pane, native.glass.value);
    }
  }

  lemma RetryKeeps(pane: Pane, timer: Timer)
    requires Steady(pane) && Orderly(pane) && timer.Attach?
    requires pane.window.Some? && !pane.window.value.closing && !pane.look.value.appear ==>
               !pane.attached && HasOwnFrame(pane.window.value.level)
    ensures Kept(pane.(timers := pane.timers + [timer]))
  {
    var after := pane.(timers := pane.timers + [timer]);
    assert after.timers[|pane.timers|] == timer;
  }

  lemma AttachedKeeps(pane: Pane, retries: nat, showing: Showing, native: Native)
    requires Steady(pane) && Orderly(pane)
    requires pane.window.Some? && !pane.window.value.closing && !pane.look.value.appear ==>
               !pane.attached && HasOwnFrame(pane.window.value.level)
    ensures Kept(Attached(pane, retries, showing, native))
    ensures HasChromeLevel(pane) && pane.look.value.appear ==>
              Attached(pane, retries, showing, native).look.value.appear
    ensures HasChromeLevel(pane) ==>
              && Attached(pane, retries, showing, native).window.Some?
              && !Attached(pane, retries, showing, native).window.value.closing
  {
    if HasChromeLevel(pane) {
      var put := FramePut(pane, native);
      FramePutKeeps(pane, native);
      if put.1.None? {
        GlassPutKeeps(put.0, native);
        InSightKeeps(put.0, GlassPut(put.0, native));
      } else if put.1.value.WindowHandle? && retries > 0 {
        RetryKeeps(put.0, Attach(retries - 1, showing));
      } else {
        FailedKeeps(put.0, put.1.value);
        InSightKeeps(put.0, Failed(put.0, put.1.value));
      }
    }
  }

  lemma SwitchedKeeps(pane: Pane, works: bool, theme: Theme, hiding: Option<Step>, native: Native)
    requires Kept(pane)
    ensures Kept(Switched(pane, works, theme, hiding, native))
  {
    SwitchedShows(pane, works, theme, hiding, native);
  }

  /** A switch of theme brings a window that is not closing into sight, whatever fails. */
  lemma SwitchedShows(pane: Pane, works: bool, theme: Theme, hiding: Option<Step>, native: Native)
    requires Steady(pane) && Orderly(pane)
    ensures var after := Switched(pane, works, theme, hiding, native);
            && (pane.window.Some? && !pane.window.value.closing ==>
                  Kept(after) && after.window.Some? && !after.window.value.closing && after.look.value.appear)
            && (pane.window.None? || pane.window.value.closing ==> after == pane)
  {
    if pane.window.Some? && !pane.window.value.closing {
      var wanted := theme.AeroTheme? && works;
      var window := pane.window.value;
      var frame := if window.frame.Some? && !wanted then Some(Frame(false)) else window.frame;
      var reset := pane.(window := Some(Window(frame, LevelOf(theme, wanted), false, None, [])));
      if wanted {
        var painted := Repaint(reset, Look(theme, false, wanted, true, None));
        AttachedKeeps(painted, ATTACH_RETRIES, AtOnce, native);
      } else if window.frame.Some? && hiding.Some? {
        NoRepeatLonger([], hiding.value);
      }
    }
  }

  lemma CloseKeeps(pane: Pane, fade: Option<Step>)
    requires Kept(pane) && pane.look.Some?
    ensures var begun := CloseBegun(pane, fade);
            && Steady(begun.1) && begun.1.timers == pane.timers
            && (begun.0.GoNow? ==> begun.1 == pane && (pane.window.Some? ==> !pane.window.value.closing))
            && (begun.0.FadingFor? ==>
                  && HasChromeLevel(pane) && begun.1.window.Some? && begun.1.window.value.closing)
            && (begun.0.Underway? ==> begun.1 == pane && pane.window.Some? && pane.window.value.closing)
  {
    if HasChromeLevel(pane) {
      var begun := pane.(window := Some(pane.window.value.(closing := true)));
      var gone := begun.(look := Some(pane.look.value.(appear := false)));
      assert Steady(gone);
      if fade.Some? {
        FailedKeeps(gone, fade.value);
      }
    }
  }

  lemma WithoutCounts(timers: seq<Timer>, at: nat)
    requires at < |timers|
    ensures Fades(Without(timers, at)) == Fades(timers) - if timers[at].FadeOver? then 1 else 0
    ensures forall i | 0 <= i < |timers| && i != at :: timers[i] in Without(timers, at)
  {
    assert timers == timers[..at] + [timers[at]] + timers[at + 1..];
    forall i | 0 <= i < |timers| && i != at
      ensures timers[i] in Without(timers, at)
    {
      assert Without(timers, at)[if i < at then i else i - 1] == timers[i];
    }
  }

  lemma MoreTimers(timers: seq<Timer>, timer: Timer)
    ensures Fades(timers + [timer]) == Fades(timers) + if timer.FadeOver? then 1 else 0
    ensures forall i | 0 <= i < |timers| :: (timers + [timer])[i] == timers[i]
  {
  }

  lemma CloseTurnKeeps(pane: Pane, works: bool, fade: Option<Step>)
    requires Kept(pane) && pane.look.Some?
    ensures Kept(After(pane, works, AskClose(fade)))
  {
    CloseKeeps(pane, fade);
    MoreTimers(CloseBegun(pane, fade).1.timers, FadeOver);
    MoreTimers(pane.timers, Leave);
  }

  lemma FadeIsOfAClosing(pane: Pane, at: nat)
    requires Kept(pane) && at < |pane.timers| && pane.timers[at].FadeOver?
    ensures pane.window.Some? && pane.window.value.closing
    ensures Fades(Without(pane.timers, at)) == 0 && (Leave !in Without(pane.timers, at))
  {
    assert pane.timers[at] in multiset(pane.timers);
    WithoutCounts(pane.timers, at);
  }

  lemma FadeTurnKeeps(
    pane: Pane, works: bool, at: nat, calledOff: bool, theme: Theme, hiding: Option<Step>, native: Native)
    requires Kept(pane) && at < |pane.timers| && pane.timers[at].FadeOver?
    ensures var after := After(pane, works, FadeEnds(at, calledOff, theme, hiding, native));
            && Kept(after) && (calledOff ==> after.window.Some? && !after.window.value.closing && after.look.value.appear)
  {
    FadeIsOfAClosing(pane, at);
    if calledOff {
      var stays := pane.(timers := Without(pane.timers, at), window := Some(pane.window.value.(closing := false)));
      CalledOffIsSwitch(pane, works, at, theme, hiding, native);
      SwitchedShows(stays, works, theme, hiding, native);
    }
  }

  lemma CalledOffIsSwitch(pane: Pane, works: bool, at: nat, theme: Theme, hiding: Option<Step>, native: Native)
    requires Kept(pane) && at < |pane.timers| && pane.timers[at].FadeOver? && pane.window.Some?
    ensures var stays :=
              pane.(timers := Without(pane.timers, at), window := Some(pane.window.value.(closing := false)));
            After(pane, works, FadeEnds(at, true, theme, hiding, native)) == Switched(stays, works, theme, hiding, native)
  {
  }

  /** Every turn keeps it. */
  lemma TurnKeeps(pane: Pane, works: bool, turn: Turn)
    requires Kept(pane) && Can(pane, turn)
    ensures Kept(After(pane, works, turn))
  {
    match turn
    case Open(theme, shown) =>
      MoreTimers([], Attach(ATTACH_RETRIES, Opening));
      assert Waits(After(pane, works, turn)) <== shown && HasChromeLevel(Opened(pane, works, theme)) by {
        var after := After(pane, works, turn);
        assert shown && HasChromeLevel(Opened(pane, works, theme)) ==> after.timers[0].Attach?;
      }
    case AttachDue(at, native) =>
      WithoutCounts(pane.timers, at);
      var due := pane.timers[at];
      AttachedKeeps(pane.(timers := Without(pane.timers, at)), due.retries, due.showing, native);
    case Switch(theme, hiding, native) => SwitchedKeeps(pane, works, theme, hiding, native);
    case Report(step) => FailedKeeps(pane, step);
    case AskClose(fade) => CloseTurnKeeps(pane, works, fade);
    case FadeEnds(at, calledOff, theme, hiding, native) =>
      FadeTurnKeeps(pane, works, at, calledOff, theme, hiding, native);
    case LeaveDue(at) => WithoutCounts(pane.timers, at);
    case Say(failure) =>
  }

  // Whole runs of one window.

  const UNOPENED := Pane(None, None, [], [], false)

  ghost predicate Steps(panes: seq<Pane>, works: bool, turns: seq<Turn>) {
    && |panes| == |turns| + 1
    && forall i | 0 <= i < |turns| :: Can(panes[i], turns[i]) && panes[i + 1] == After(panes[i], works, turns[i])
  }

  lemma {:induction false} AlwaysKept(panes: seq<Pane>, works: bool, turns: seq<Turn>, n: nat)
    requires Steps(panes, works, turns) && panes[0] == UNOPENED && n < |panes|
    ensures Kept(panes[n])
  {
    if n > 0 {
      AlwaysKept(panes, works, turns, n - 1);
      TurnKeeps(panes[n - 1], works, turns[n - 1]);
    }
  }

  /** A theme given to the window: picked, or taken up again by a close called off. */
  predicate GivesTheme(turn: Turn) {
    turn.Switch? || turn.Open? || (turn.FadeEnds? && turn.calledOff)
  }

  function Rank(level: Level): nat {
    match level
    case Flat => 0
    case AeroSystemFrame => 1
    case AeroChromeSolid => 2
    case AeroGlass => 3
  }

  ghost predicate NoHigher(before: Level, after: Level) {
    Rank(after) <= Rank(before) && (after.Flat? <==> before.Flat?)
  }

  function Counted(log: seq<Step>, step: Step): nat {
    if log == [] then 0
    else Counted(log[..|log| - 1], step) + if log[|log| - 1] == step then 1 else 0
  }

  function Once(window: Window, step: Step): nat {
    if step in window.reported then 1 else 0
  }

  /** What became of the level and of the reports of one step. */
  ghost predicate Descends(before: Pane, after: Pane, step: Step)
    requires before.window.Some?
  {
    && after.window.Some? && NoHigher(before.window.value.level, after.window.value.level)
    && Counted(after.log, step) + Once(before.window.value, step)
       == Counted(before.log, step) + Once(after.window.value, step)
  }

  lemma CountedMore(log: seq<Step>, step: Step, other: Step)
    ensures Counted(log + [step], other) == Counted(log, other) + if step == other then 1 else 0
    ensures other in log + [step] <==> other in log || step == other
  {
    assert (log + [step])[..|log + [step]| - 1] == log;
  }

  /** A failure either leaves both lists as they are or puts the step at the end of both. */
  lemma FailedAdds(pane: Pane, step: Step)
    requires pane.window.Some?
    ensures var after := Failed(pane, step);
            && after.window.Some? && NoHigher(pane.window.value.level, after.window.value.level)
            && if step in pane.window.value.reported then after == pane else
               && after.log == pane.log + [step]
               && after.window.value.reported == pane.window.value.reported + [step]
  {
  }

  lemma FailedDescends(pane: Pane, step: Step, other: Step)
    requires pane.window.Some?
    ensures Descends(pane, Failed(pane, step), other)
  {
    FailedAdds(pane, step);
    CountedMore(pane.log, step, other);
    CountedMore(pane.window.value.reported, step, other);
  }

  /** Nothing told, and at the same level. */
  ghost predicate Untold(a: Pane, b: Pane) {
    && a.log == b.log && a.window.Some? && b.window.Some?
    && a.window.value.level == b.window.value.level && a.window.value.reported == b.window.value.reported
  }

  lemma DescendsBetween(a: Pane, b: Pane, c: Pane, d: Pane, step: Step)
    requires Untold(a, b) && Untold(c, d) && Descends(b, c, step)
    ensures Descends(a, d, step)
  {
  }

  lemma AttachDescends(pane: Pane, retries: nat, showing: Showing, native: Native, step: Step)
    requires Steady(pane) && pane.window.Some?
    ensures Descends(pane, Attached(pane, retries, showing, native), step)
  {
    if HasChromeLevel(pane) {
      var put, after := FramePut(pane, native), Attached(pane, retries, showing, native);
      FramePutUntold(pane, native);
      if put.1.None? {
        GlassDescends(put.0, native, step);
        DescendsBetween(pane, put.0, GlassPut(put.0, native), after, step);
      } else if put.1.value.WindowHandle? && retries > 0 {
      } else {
        FailedDescends(put.0, put.1.value, step);
        DescendsBetween(pane, put.0, Failed(put.0, put.1.value), after, step);
      }
    }
  }

  lemma FramePutUntold(pane: Pane, native: Native)
    requires pane.window.Some?
    ensures Untold(pane, FramePut(pane, native).0) && FramePut(pane, native).0.look == pane.look
  {
  }

  lemma GlassDescends(pane: Pane, native: Native, step: Step)
    requires pane.window.Some? && pane.look.Some?
    ensures Descends(pane, GlassPut(pane, native), step)
  {
    if native.glass.Some? {
      FailedDescends(pane, native.glass.value, step);
    }
  }

  lemma CloseDescends(pane: Pane, fade: Option<Step>, step: Step)
    requires Steady(pane) && pane.window.Some?
    ensures Descends(pane, CloseBegun(pane, fade).1, step)
  {
    if HasChromeLevel(pane) && fade.Some? {
      var begun := pane.(window := Some(pane.window.value.(closing := true)));
      FailedDescends(begun.(look := Some(pane.look.value.(appear := false))), fade.value, step);
    }
  }

  /** Between two themes a window's level only descends, never to the flat skin, and each step is
      reported exactly when it first fails. */
  lemma TurnDescends(pane: Pane, works: bool, turn: Turn, step: Step)
    requires Kept(pane) && Can(pane, turn) && !GivesTheme(turn)
    requires pane.window.Some? && After(pane, works, turn).window.Some?
    ensures Descends(pane, After(pane, works, turn), step)
  {
    match turn
    case AttachDue(at, native) =>
      var due := pane.timers[at];
      AttachDescends(pane.(timers := Without(pane.timers, at)), due.retries, due.showing, native, step);
    case Report(failed) => FailedDescends(pane, failed, step);
    case AskClose(fade) => CloseDescends(pane, fade, step);
    case LeaveDue(at) =>
    case Say(failure) =>
    case FadeEnds(_, _, _, _, _) =>
  }

  lemma GoneStaysGone(pane: Pane, works: bool, turn: Turn)
    requires Kept(pane) && Can(pane, turn) && !turn.Open? && pane.window.None?
    ensures After(pane, works, turn).window.None?
  {
    if turn.FadeEnds? {
      FadeIsOfAClosing(pane, turn.at);
    }
  }

  lemma {:induction false} DescendsAndReportsOnce(
    panes: seq<Pane>, works: bool, turns: seq<Turn>, start: nat, n: nat, step: Step)
    requires Steps(panes, works, turns) && panes[0] == UNOPENED && start <= n < |panes|
    requires forall i | start <= i < n :: !GivesTheme(turns[i])
    requires panes[n].window.Some?
    ensures panes[start].window.Some? && NoHigher(panes[start].window.value.level, panes[n].window.value.level)
    ensures Counted(panes[n].log, step) + Once(panes[start].window.value, step)
         == Counted(panes[start].log, step) + Once(panes[n].window.value, step)
    ensures Counted(panes[n].log, step) <= Counted(panes[start].log, step) + 1
    decreases n
  {
    if start < n {
      AlwaysKept(panes, works, turns, n - 1);
      if panes[n - 1].window.None? {
        GoneStaysGone(panes[n - 1], works, turns[n - 1]);
      }
      TurnDescends(panes[n - 1], works, turns[n - 1], step);
      DescendsAndReportsOnce(panes, works, turns, start, n - 1, step);
    }
  }

  // Coming into sight, and going.

  /** How many more attaches the pending ones can come to. */
  function Tries(timers: seq<Timer>): nat {
    if timers == [] then 0
    else (if timers[0].Attach? then timers[0].retries + 1 else 0) + Tries(timers[1..])
  }

  lemma {:induction false} TriesJoin(a: seq<Timer>, b: seq<Timer>)
    ensures Tries(a + b) == Tries(a) + Tries(b)
  {
    if a == [] {
      assert a + b == b;
    } else {
      TriesJoin(a[1..], b);
      assert (a + b)[1..] == a[1..] + b;
    }
  }

  function TriesOf(timer: Timer): nat {
    if timer.Attach? then timer.retries + 1 else 0
  }

  lemma TriesMore(timers: seq<Timer>, timer: Timer)
    ensures Tries(timers + [timer]) == Tries(timers) + TriesOf(timer)
  {
    TriesJoin(timers, [timer]);
    assert [timer][1..] == [];
  }

  lemma TriesLess(timers: seq<Timer>, at: nat)
    requires at < |timers|
    ensures Tries(Without(timers, at)) + TriesOf(timers[at]) == Tries(timers)
  {
    var front, back := timers[..at], timers[at + 1..];
    assert timers == (front + [timers[at]]) + back;
    TriesJoin(front + [timers[at]], back);
    TriesMore(front, timers[at]);
    TriesJoin(front, back);
  }

  lemma AttachUsesATry(pane: Pane, works: bool, at: nat, native: Native)
    requires Kept(pane) && Can(pane, AttachDue(at, native))
    ensures Tries(After(pane, works, AttachDue(at, native)).timers) < Tries(pane.timers)
  {
    var due := pane.timers[at];
    TriesLess(pane.timers, at);
    var before := pane.(timers := Without(pane.timers, at));
    if HasChromeLevel(before) {
      var put := FramePut(before, native);
      FramePutKeeps(before, native);
      if put.1.None? {
        GlassPutKeeps(put.0, native);
      } else if put.1.value.WindowHandle? && due.retries > 0 {
        TriesMore(before.timers, Attach(due.retries - 1, due.showing));
      } else {
        FailedKeeps(put.0, put.1.value);
      }
    }
  }

  function Attaches(turn: Turn): nat {
    if turn.AttachDue? then 1 else 0
  }

  /** Only a theme given adds attaches, and one that comes due uses one up, whatever it finds. */
  lemma TurnUsesTries(pane: Pane, works: bool, turn: Turn)
    requires Kept(pane) && Can(pane, turn) && !GivesTheme(turn)
    ensures Attaches(turn) + Tries(After(pane, works, turn).timers) <= Tries(pane.timers)
  {
    match turn
    case AttachDue(at, native) => AttachUsesATry(pane, works, at, native);
    case Report(step) => FailedKeeps(pane, step);
    case AskClose(fade) =>
      CloseKeeps(pane, fade);
      TriesMore(CloseBegun(pane, fade).1.timers, FadeOver);
      TriesMore(CloseBegun(pane, fade).1.timers, Leave);
    case FadeEnds(at, _, _, _, _) => TriesLess(pane.timers, at);
    case LeaveDue(at) => TriesLess(pane.timers, at);
    case Say(failure) =>
  }

  /** How many attaches come due from turn `start` up to turn `n`. */
  function AttachesIn(turns: seq<Turn>, start: nat, n: nat): nat
    requires start <= n <= |turns|
  {
    if start == n then 0 else AttachesIn(turns, start, n - 1) + Attaches(turns[n - 1])
  }

  /** However the native layer answers, and however closes, reports and other turns come between,
      between two themes no more attaches come due than were pending with their retries. */
  lemma {:induction false} AttachesEnd(panes: seq<Pane>, works: bool, turns: seq<Turn>, start: nat, n: nat)
    requires Steps(panes, works, turns) && panes[0] == UNOPENED && start <= n <= |turns|
    requires forall i | start <= i < n :: !GivesTheme(turns[i])
    ensures AttachesIn(turns, start, n) + Tries(panes[n].timers) <= Tries(panes[start].timers)
    decreases n
  {
    if start < n {
      AttachesEnd(panes, works, turns, start, n - 1);
      AlwaysKept(panes, works, turns, n - 1);
      TurnUsesTries(panes[n - 1], works, turns[n - 1]);
    }
  }

  ghost predicate OutOfSight(pane: Pane) {
    pane.window.Some? && !pane.window.value.closing && pane.look.Some? && !pane.look.value.appear
  }

  lemma {:induction false} SomeTries(timers: seq<Timer>, at: nat)
    requires at < |timers| && timers[at].Attach?
    ensures Tries(timers) > 0
  {
    if at > 0 {
      SomeTries(timers[1..], at - 1);
    }
  }

  lemma OpenTurnTries(pane: Pane, works: bool, turn: Turn)
    requires pane == UNOPENED && turn.Open? && OutOfSight(After(pane, works, turn))
    ensures turn.shown && Tries(After(pane, works, turn).timers) <= ATTACH_RETRIES + 1
  {
    TriesMore([], Attach(ATTACH_RETRIES, Opening));
  }

  /** Of the turns after the opening, only those that give no theme leave a window out of sight, and
      only one that was so already. */
  lemma OutOfSightBefore(pane: Pane, works: bool, turn: Turn)
    requires Kept(pane) && Can(pane, turn) && OutOfSight(After(pane, works, turn)) && !turn.Open?
    ensures !GivesTheme(turn) && OutOfSight(pane)
  {
    match turn
    case AttachDue(at, native) =>
      var due := pane.timers[at];
      var before := pane.(timers := Without(pane.timers, at));
      WithoutCounts(pane.timers, at);
      if HasChromeLevel(before) {
        FramePutKeeps(before, native);
      }
    case Switch(theme, hiding, native) =>
      if pane.window.Some? && !pane.window.value.closing {
        SwitchedShows(pane, works, theme, hiding, native);
      }
    case Report(step) => FailedKeeps(pane, step);
    case AskClose(fade) => CloseKeeps(pane, fade);
    case FadeEnds(at, calledOff, theme, hiding, native) =>
      FadeTurnKeeps(pane, works, at, calledOff, theme, hiding, native);
    case LeaveDue(at) =>
    case Say(failure) =>
  }

  /** A window opened in turn `start` was given no other theme up to turn `n`, and of its tries these
      many at most are left. */
  ghost predicate OnlyOpened(turns: seq<Turn>, start: nat, n: nat, tries: nat) {
    && start < n <= |turns| && turns[start].Open?
    && (forall i | start < i < n :: !GivesTheme(turns[i]))
    && AttachesIn(turns, start + 1, n) + tries <= ATTACH_RETRIES + 1
  }

  lemma OnlyOpenedLonger(turns: seq<Turn>, start: nat, n: nat, tries: nat, left: nat)
    requires OnlyOpened(turns, start, n, tries) && n < |turns| && !GivesTheme(turns[n])
    requires Attaches(turns[n]) + left <= tries
    ensures OnlyOpened(turns, start, n + 1, left)
  {
  }

  /** A window is out of sight, and not closing, only since it was opened and before any other theme
      was given; an attach is pending for it, and fewer than its tries have come due. */
  lemma {:induction false} OutOfSightSinceOpened(panes: seq<Pane>, works: bool, turns: seq<Turn>, n: nat)
    returns (start: nat)
    requires Steps(panes, works, turns) && panes[0] == UNOPENED && n <= |turns| && OutOfSight(panes[n])
    ensures OnlyOpened(turns, start, n, Tries(panes[n].timers)) && Waits(panes[n])
  {
    var last := n - 1;
    AlwaysKept(panes, works, turns, n);
    AlwaysKept(panes, works, turns, last);
    if turns[last].Open? {
      OpenTurnTries(panes[last], works, turns[last]);
      start := last;
    } else {
      OutOfSightBefore(panes[last], works, turns[last]);
      TurnUsesTries(panes[last], works, turns[last]);
      start := OutOfSightSinceOpened(panes, works, turns, last);
      OnlyOpenedLonger(turns, start, last, Tries(panes[last].timers), Tries(panes[n].timers));
    }
  }

  /** Whatever fails, and however theme switches, reports, closes called off and timers interleave: an
      open window that is not closing is in sight once another theme was given since it was opened, or
      once its first attach and ten retries have come due. */
  lemma ComesIntoSight(panes: seq<Pane>, works: bool, turns: seq<Turn>, start: nat, n: nat)
    requires Steps(panes, works, turns) && panes[0] == UNOPENED && start < n <= |turns|
    requires turns[start].Open? && forall i | start < i < n :: !turns[i].Open?
    requires panes[n].window.Some? && !panes[n].window.value.closing
    requires || (exists i | start < i < n :: GivesTheme(turns[i]))
             || AttachesIn(turns, start + 1, n) > ATTACH_RETRIES
    ensures panes[n].look.Some? && panes[n].look.value.appear
  {
    AlwaysKept(panes, works, turns, n);
    if OutOfSight(panes[n]) {
      var since := OutOfSightSinceOpened(panes, works, turns, n);
      assert GivesTheme(turns[start]);
      assert since == start;
      WaitsHasTries(panes[n]);
      assert false;
    }
  }

  lemma WaitsHasTries(pane: Pane)
    requires Waits(pane)
    ensures Tries(pane.timers) > 0
  {
    var at :| 0 <= at < |pane.timers| && pane.timers[at].Attach?;
    SomeTries(pane.timers, at);
  }

  /** An attach that comes due neither closes a window nor takes it away. */
  lemma AttachSameWindow(pane: Pane, works: bool, at: nat, native: Native)
    requires Kept(pane) && Can(pane, AttachDue(at, native))
    ensures var after := After(pane, works, AttachDue(at, native));
            after.window.Some? == pane.window.Some? && IsClosing(after) == IsClosing(pane)
  {
    var before := pane.(timers := Without(pane.timers, at));
    if HasChromeLevel(before) {
      var put := FramePut(before, native);
      FramePutKeeps(before, native);
      if put.1.None? {
        GlassPutKeeps(put.0, native);
      } else {
        FailedKeeps(put.0, put.1.value);
      }
    }
  }

  predicate IsClosing(pane: Pane) {
    pane.window.Some? && pane.window.value.closing
  }

  lemma ClosingTurn(pane: Pane, works: bool, turn: Turn)
    requires Kept(pane) && Can(pane, turn) && !turn.FadeEnds? && IsClosing(pane)
    ensures IsClosing(After(pane, works, turn))
  {
    if turn.Report? {
      FailedKeeps(pane, turn.step);
    }
    assert turn.LeaveDue? ==> Leave in pane.timers;
  }

  lemma {:induction false} StaysClosing(panes: seq<Pane>, works: bool, turns: seq<Turn>, start: nat, n: nat)
    requires Steps(panes, works, turns) && panes[0] == UNOPENED && start <= n <= |turns| && IsClosing(panes[start])
    requires forall i | start <= i < n :: !turns[i].FadeEnds?
    ensures IsClosing(panes[n])
    decreases n
  {
    if start < n {
      StaysClosing(panes, works, turns, start, n - 1);
      AlwaysKept(panes, works, turns, n - 1);
      ClosingTurn(panes[n - 1], works, turns[n - 1]);
    }
  }

  lemma ClosingMeans(pane: Pane, works: bool, fade: Option<Step>)
    requires Kept(pane) && IsClosing(pane)
    ensures Fades(pane.timers) == 1 && pane.look.Some? && !pane.look.value.appear
    ensures CloseBegun(pane, fade).0 == Underway && After(pane, works, AskClose(fade)) == pane
  {
  }

  /** A close begun lasts until its fade ends, whatever else happens: out of sight, with one fade
      pending, and every repeat answered as under way and changing nothing. */
  lemma ClosingLasts(
    panes: seq<Pane>, works: bool, turns: seq<Turn>, start: nat, n: nat, fade: Option<Step>)
    requires Steps(panes, works, turns) && panes[0] == UNOPENED && start <= n <= |turns| && IsClosing(panes[start])
    requires forall i | start <= i < n :: !turns[i].FadeEnds?
    ensures IsClosing(panes[n]) && Fades(panes[n].timers) == 1
    ensures panes[n].look.Some? && !panes[n].look.value.appear
    ensures CloseBegun(panes[n], fade).0 == Underway && After(panes[n], works, AskClose(fade)) == panes[n]
  {
    StaysClosing(panes, works, turns, start, n);
    AlwaysKept(panes, works, turns, n);
    ClosingMeans(panes[n], works, fade);
  }

  /** A close called off leaves the window in sight in the theme of now, with no fade pending. */
  lemma CalledOffStays(pane: Pane, works: bool, at: nat, theme: Theme, hiding: Option<Step>, native: Native)
    requires Kept(pane) && Can(pane, FadeEnds(at, true, theme, hiding, native))
    ensures var after := After(pane, works, FadeEnds(at, true, theme, hiding, native));
            && Kept(after) && Fades(after.timers) == 0
            && after.window.Some? && !after.window.value.closing && after.look.value.appear
            && after.look.value.skin == theme
  {
    FadeTurnKeeps(pane, works, at, true, theme, hiding, native);
    FadeIsOfAClosing(pane, at);
    CalledOffIsSwitch(pane, works, at, theme, hiding, native);
    var stays := pane.(timers := Without(pane.timers, at), window := Some(pane.window.value.(closing := false)));
    SwitchedSkin(stays, works, theme, hiding, native);
  }

  lemma SwitchedSkin(pane: Pane, works: bool, theme: Theme, hiding: Option<Step>, native: Native)
    requires pane.window.Some? && !pane.window.value.closing && pane.look.Some?
    ensures var after := Switched(pane, works, theme, hiding, native);
            after.look.Some? && after.look.value.skin == theme
  {
  }

  /** Why only a frame that was attached may report: a report that broke the frame of a window still
      waiting for it would leave the window out of sight with nothing pending. */
  lemma AnEarlierReportWouldHideForGood(pane: Pane, works: bool, step: Step, native: Native)
    requires Kept(pane) && HasChromeLevel(pane) && !pane.look.value.appear
    requires |pane.timers| == 1 && BreaksFrame(step) && step !in pane.window.value.reported
    ensures Can(Failed(pane, step), AttachDue(0, native))
    ensures var after := After(Failed(pane, step), works, AttachDue(0, native));
            && after.window.Some? && !after.window.value.closing && !after.look.value.appear && after.timers == []
  {
  }
}
