/** The workbench's close, over both machines it runs on: the window that fades, and the launcher whose
    unlock must not be cut off. What `Launchers` leaves open, whether the window has a frame to fade, is
    the skin's own answer here; what `Skin` leaves open, whether a fade that ends is called off, is the
    launcher's. */
module CloseProtocol {
  import opened Outcomes
  import L = Launchers
  import S = Skin

  datatype Bench = Bench(pane: S.Pane, machine: L.Machine)

  /** A turn of the window's or of the launcher's alone, or one of the close's. What a launcher's turn
      says of closing is not used. */
  datatype Turn =
    | OfWindow(window: S.Turn)
    | OfLauncher(launcher: L.Turn)
    | AskClose(fade: Option<S.Step>)
    | FadeEnds(at: nat, theme: S.Theme, hiding: Option<S.Step>, native: S.Native)

  predicate Can(bench: Bench, turn: Turn) {
    && !bench.machine.phase.Ended?
    && match turn
       case OfWindow(window) =>
         (window.AttachDue? || window.Switch? || window.Report? || window.Say?) && S.Can(bench.pane, window)
       case OfLauncher(launcher) => !launcher.AskClose? && !launcher.FadeEnds? && L.Can(bench.machine, launcher)
       case AskClose(fade) => bench.pane.look.Some?
       case FadeEnds(at, theme, hiding, native) =>
         S.Can(bench.pane, S.FadeEnds(at, bench.machine.unlocking, theme, hiding, native))
  }

  /** A close asked for during an unlock is refused before the window hears of it. */
  function After(bench: Bench, works: bool, turn: Turn): Bench
    requires Can(bench, turn)
  {
    match turn
    case OfWindow(window) => bench.(pane := S.After(bench.pane, works, window))
    case OfLauncher(launcher) => bench.(machine := L.After(bench.machine, launcher))
    case AskClose(fade) =>
      if bench.machine.unlocking then bench.(machine := L.CloseAsked(bench.machine, false))
      else Bench(S.After(bench.pane, works, S.AskClose(fade)),
                 L.CloseAsked(bench.machine, S.CloseBegun(bench.pane, fade).0.FadingFor?))
    case FadeEnds(at, theme, hiding, native) =>
      Bench(S.After(bench.pane, works, S.FadeEnds(at, bench.machine.unlocking, theme, hiding, native)),
            L.FadeOver(bench.machine))
  }

  /** The launcher's account of the close is the window's: fading while it closes, ended when gone. */
  ghost predicate Joined(bench: Bench) {
    && S.Kept(bench.pane) && L.Kept(bench.machine)
    && (bench.machine.phase.Fading? <==> S.IsClosing(bench.pane))
    && (bench.machine.phase.Ended? <==> bench.pane.window.None?)
  }

  lemma WindowTurnJoins(bench: Bench, works: bool, window: S.Turn)
    requires Joined(bench) && Can(bench, OfWindow(window))
    ensures Joined(After(bench, works, OfWindow(window)))
  {
    S.TurnKeeps(bench.pane, works, window);
    match window
    case AttachDue(at, native) =>
      var before := bench.pane.(timers := S.Without(bench.pane.timers, at));
      if S.HasChromeLevel(before) {
        S.AttachSameWindow(bench.pane, works, at, native);
      }
    case Switch(theme, hiding, native) => S.SwitchedShows(bench.pane, works, theme, hiding, native);
    case Report(step) => S.FailedKeeps(bench.pane, step);
    case Say(failure) =>
  }

  lemma AskJoins(bench: Bench, works: bool, fade: Option<S.Step>)
    requires Joined(bench) && Can(bench, AskClose(fade))
    ensures Joined(After(bench, works, AskClose(fade)))
  {
    S.TurnKeeps(bench.pane, works, S.AskClose(fade));
    S.CloseKeeps(bench.pane, fade);
    var after := After(bench, works, AskClose(fade)).machine;
    assert L.Counted(bench.machine);
    L.SameFlight(bench.machine, after);
  }

  lemma FadeJoins(
    bench: Bench, works: bool, at: nat, theme: S.Theme, hiding: Option<S.Step>, native: S.Native)
    requires Joined(bench) && Can(bench, FadeEnds(at, theme, hiding, native))
    ensures Joined(After(bench, works, FadeEnds(at, theme, hiding, native)))
    ensures bench.machine.unlocking ==> Back(After(bench, works, FadeEnds(at, theme, hiding, native)), theme)
  {
    var unlocking := bench.machine.unlocking;
    S.TurnKeeps(bench.pane, works, S.FadeEnds(at, unlocking, theme, hiding, native));
    if unlocking {
      S.CalledOffStays(bench.pane, works, at, theme, hiding, native);
    }
    assert L.Counted(bench.machine);
    L.SameFlight(bench.machine, L.FadeOver(bench.machine));
  }

  /** The workbench is back: open, in sight in this theme, its refusal said, and no fade pending. */
  ghost predicate Back(bench: Bench, theme: S.Theme) {
    && bench.machine.phase.Open? && bench.machine.closeRefused
    && bench.pane.window.Some? && !bench.pane.window.value.closing && S.Fades(bench.pane.timers) == 0
    && bench.pane.look.Some? && bench.pane.look.value.appear && bench.pane.look.value.skin == theme
  }

  lemma LauncherTurnJoins(bench: Bench, works: bool, launcher: L.Turn)
    requires Joined(bench) && Can(bench, OfLauncher(launcher))
    ensures Joined(After(bench, works, OfLauncher(launcher)))
  {
    L.TurnKeeps(bench.machine, launcher);
    L.PhaseStays(bench.machine, launcher);
  }

  lemma TurnJoins(bench: Bench, works: bool, turn: Turn)
    requires Joined(bench) && Can(bench, turn)
    ensures Joined(After(bench, works, turn))
  {
    match turn
    case OfWindow(window) => WindowTurnJoins(bench, works, window);
    case OfLauncher(launcher) => LauncherTurnJoins(bench, works, launcher);
    case AskClose(fade) => AskJoins(bench, works, fade);
    case FadeEnds(at, theme, hiding, native) => FadeJoins(bench, works, at, theme, hiding, native);
  }

  /** From a workbench just opened in a theme, and a launcher at rest. */
  ghost predicate Run(benches: seq<Bench>, works: bool, theme: S.Theme, turns: seq<Turn>) {
    && |benches| == |turns| + 1
    && benches[0] == Bench(S.After(S.UNOPENED, works, S.Open(theme, true)), L.AT_REST)
    && forall i | 0 <= i < |turns| :: Can(benches[i], turns[i]) && benches[i + 1] == After(benches[i], works, turns[i])
  }

  lemma {:induction false} AlwaysJoined(benches: seq<Bench>, works: bool, theme: S.Theme, turns: seq<Turn>, n: nat)
    requires Run(benches, works, theme, turns) && n < |benches|
    ensures Joined(benches[n])
  {
    if n > 0 {
      AlwaysJoined(benches, works, theme, turns, n - 1);
      TurnJoins(benches[n - 1], works, turns[n - 1]);
    } else {
      S.TurnKeeps(S.UNOPENED, works, S.Open(theme, true));
    }
  }

  /** While an unlock runs, the workbench's window is there and the loop goes on. */
  lemma AnUnlockKeepsTheWindow(benches: seq<Bench>, works: bool, theme: S.Theme, turns: seq<Turn>, n: nat)
    requires Run(benches, works, theme, turns) && n < |benches| && benches[n].machine.unlocking
    ensures benches[n].pane.window.Some? && !benches[n].machine.phase.Ended?
  {
    AlwaysJoined(benches, works, theme, turns, n);
  }

  lemma {:induction false} FadesUntil(
    benches: seq<Bench>, works: bool, theme: S.Theme, turns: seq<Turn>, start: nat, n: nat)
    requires Run(benches, works, theme, turns) && start <= n <= |turns|
    requires S.IsClosing(benches[start].pane) && forall i | start <= i < n :: !turns[i].FadeEnds?
    ensures S.IsClosing(benches[n].pane)
    decreases n
  {
    if start < n {
      FadesUntil(benches, works, theme, turns, start, n - 1);
      AlwaysJoined(benches, works, theme, turns, n - 1);
      var bench := benches[n - 1];
      match turns[n - 1] {
        case OfWindow(window) => S.ClosingTurn(bench.pane, works, window);
        case AskClose(fade) => S.ClosingMeans(bench.pane, works, fade);
        case _ =>
      }
    }
  }

  /** What a close comes to. Asked for while no unlock runs, it ends the workbench in that turn, or fades
      until turn `n` ends its fade, with nothing else able to end it and exactly one fade pending: then
      the workbench ends, unless an unlock began meanwhile, and then it is back in sight. */
  lemma WhatACloseComesTo(
    benches: seq<Bench>, works: bool, theme: S.Theme, turns: seq<Turn>, asked: nat, n: nat)
    requires Run(benches, works, theme, turns) && asked < n < |turns|
    requires turns[asked].AskClose? && !benches[asked].machine.unlocking
    requires turns[n].FadeEnds? && forall i | asked < i < n :: !turns[i].FadeEnds?
    ensures S.IsClosing(benches[asked + 1].pane) && benches[asked + 1].machine.phase.Fading?
    ensures S.IsClosing(benches[n].pane) && S.Fades(benches[n].pane.timers) == 1
    ensures if benches[n].machine.unlocking then Back(benches[n + 1], turns[n].theme)
            else benches[n + 1].machine.phase.Ended? && benches[n + 1].pane.window.None?
  {
    AlwaysJoined(benches, works, theme, turns, asked);
    AlwaysJoined(benches, works, theme, turns, asked + 1);
    AlwaysJoined(benches, works, theme, turns, n);
    AlwaysJoined(benches, works, theme, turns, n + 1);
    assert Can(benches[asked + 1], turns[asked + 1]);
    FadesUntil(benches, works, theme, turns, asked + 1, n);
    var bench, turn := benches[n], turns[n];
    FadeJoins(bench, works, turn.at, turn.theme, turn.hiding, turn.native);
  }

  /** Asked for while an unlock runs, a close changes nothing but that its refusal is said. */
  lemma AnUnlockRefusesAClose(
    benches: seq<Bench>, works: bool, theme: S.Theme, turns: seq<Turn>, asked: nat)
    requires Run(benches, works, theme, turns) && asked < |turns|
    requires turns[asked].AskClose? && benches[asked].machine.unlocking
    ensures benches[asked + 1] == benches[asked].(machine := benches[asked].machine.(closeRefused := true))
    ensures benches[asked + 1].pane.window.Some?
  {
    AlwaysJoined(benches, works, theme, turns, asked);
  }
}
