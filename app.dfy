/**
 * The application (src/lib.rs and the states of src/menu.rs and src/game/): the four
 * screens as one closed type of states, their hooks for the state manager, and the
 * navigation between them proved through the stack procedures.
 *
 * `create` of the game and every `render` only draw, so here they leave the state alone;
 * the game's `resume` and every screen's `update` are the functions of their modules.
 */
module App {
  import opened StateStack
  import Keyboard
  import PopMessages
  import Game
  import Menu
  import Popup
  import GameOver

  /** The screens: the menu, a game, the leave popup and the game-over screen. */
  datatype Screen =
    | MenuScreen
    | GameScreen(game: Game.GameData)
    | PopupScreen(popup: Popup.PopupState)
    | GameOverScreen(over: GameOver.GameOverState)

  type Msg = PopMessages.PopMessage

  /** The screen of a state the game pushes or replaces itself with. */
  function ChildScreen(ch: Game.Child): Screen
  {
    match ch
    case Over(o) => GameOverScreen(o)
    case Leave(p) => PopupScreen(p)
  }

  /** A game's action, with its child states as screens. */
  function FromGame(a: StackAction<Game.Child, Msg>): (r: StackAction<Screen, Msg>)
    ensures a.Pop? <==> r.Pop?
    ensures a.Pop? ==> r == Pop(a.msg)
    ensures a.Push? ==> r == Push(ChildScreen(a.state))
    ensures a.Replace? ==> r == Replace(ChildScreen(a.state))
    ensures a.Nop? <==> r.Nop?
  {
    match a
    case Pop(m) => Pop(m)
    case Push(ch) => Push(ChildScreen(ch))
    case Replace(ch) => Replace(ChildScreen(ch))
    case Nop => Nop
  }

  /** The menu's action, with the game it starts as a screen. */
  function FromMenu(a: StackAction<Game.GameData, Msg>): (r: StackAction<Screen, Msg>)
    ensures a.Pop? <==> r.Pop?
    ensures a.Pop? ==> r == Pop(a.msg)
    ensures a.Push? ==> r == Push(GameScreen(a.state))
    ensures a.Replace? ==> r == Replace(GameScreen(a.state))
    ensures a.Nop? <==> r.Nop?
  {
    match a
    case Pop(m) => Pop(m)
    case Push(g) => Push(GameScreen(g))
    case Replace(g) => Replace(GameScreen(g))
    case Nop => Nop
  }

  /** `update` of each screen. */
  function ScreenUpdate(sqrt: real -> real, s: Screen, e: Keyboard.KeyEdges): (Screen, StackAction<Screen, Msg>)
  {
    match s
    case MenuScreen => (s, FromMenu(Menu.MenuUpdate(e)))
    case GameScreen(g) =>
      var r := Game.GameStep(g, Game.ControlsOf(e), sqrt);
      (GameScreen(r.0), FromGame(r.1))
    case PopupScreen(_) => (s, Popup.PopupUpdate(e))
    case GameOverScreen(o) =>
      var r := GameOver.GameOverUpdate(o, e);
      (GameOverScreen(r.0), r.1)
  }

  /** `resume` of each screen: the game's own, the default `Nop` elsewhere. */
  function ScreenResume(s: Screen, m: Msg): (Screen, StackAction<Screen, Msg>)
  {
    match s
    case GameScreen(_) => (s, FromGame(Game.Resume(m)))
    case _ => (s, Nop)
  }

  /** The hooks of the application's screens, with `sqrtf` as the parameter `sqrt`. */
  function AppHooks(sqrt: real -> real): Hooks<Screen, Msg>
  {
    Hooks(s => (s, Nop), s => (s, Nop), (s, m) => ScreenResume(s, m), s => (s, Nop),
          (s, e) => ScreenUpdate(sqrt, s, e), s => s)
  }

  /** `main` runs the state manager at 60 frames per second. */
  const Fps: nat := 60

  /** The frame interval of the application: 16 ms. */
  lemma AppFrameInterval()
    ensures FrameInterval(Fps) == 16
  {
  }

  /**
   * What the lifecycle hooks of the screens do: `create`, `pause` and `quit` leave the
   * screen as it is and ask for nothing, and so does `resume` except on a game, which
   * pops itself when resumed with a yes from its popup.
   */
  ghost predicate Quiet(h: Hooks<Screen, Msg>)
  {
    (forall s :: h.create(s) == (s, Nop))
    && (forall s :: h.pause(s) == (s, Nop))
    && (forall s :: h.quit(s) == (s, Nop))
    && (forall s: Screen, m: Msg :: !s.GameScreen? ==> h.resume(s, m) == (s, Nop))
    && (forall s: Screen :: s.GameScreen? ==> h.resume(s, PopMessages.OkBackPopupIsOk(true)) == (s, Pop(PopMessages.None)))
  }

  /** The application's hooks behave as `Quiet` says. */
  lemma AppHooksQuiet(sqrt: real -> real)
    ensures Quiet(AppHooks(sqrt))
  {
    var h := AppHooks(sqrt);
    forall s: Screen | s.GameScreen?
      ensures h.resume(s, PopMessages.OkBackPopupIsOk(true)) == (s, Pop(PopMessages.None))
    {
      assert Game.Resume(PopMessages.OkBackPopupIsOk(true)) == Pop(PopMessages.None);
    }
  }

  /** Pushing a screen pauses the top screen and creates the new one on top. */
  lemma PushScreen(h: Hooks<Screen, Msg>, fuel: nat, c: Config<Screen, Msg>, s: Screen)
    requires Quiet(h) && |c.stack| > 0
    ensures AfterPush(h, fuel, c, s)
      == Config(c.stack + [s], c.calls + [Pause(Top(c.stack)), Create(s)], c.exhausted)
  {
    assert h.pause(Top(c.stack)) == (Top(c.stack), Nop);
    assert SetTop(c.stack, Top(c.stack)) == c.stack;
    assert h.create(s) == (s, Nop);
  }

  /** Quitting the top screen removes it and logs `quit`. */
  lemma QuitScreen(h: Hooks<Screen, Msg>, fuel: nat, c: Config<Screen, Msg>)
    requires Quiet(h) && |c.stack| > 0
    ensures AfterQuit(h, fuel, c)
      == Config(c.stack[..|c.stack| - 1], c.calls + [Quit(Top(c.stack))], c.exhausted)
  {
    assert h.quit(Top(c.stack)) == (Top(c.stack), Nop);
  }

  /** Replacing the top screen quits it and creates the new one in its place. */
  lemma ReplaceScreen(h: Hooks<Screen, Msg>, fuel: nat, c: Config<Screen, Msg>, s: Screen)
    requires Quiet(h) && |c.stack| > 0
    ensures AfterReplace(h, fuel, c, s).0
      == Config(c.stack[..|c.stack| - 1] + [s], c.calls + [Quit(Top(c.stack)), Create(s)], c.exhausted)
  {
    QuitScreen(h, fuel, c);
    assert h.create(s) == (s, Nop);
  }

  /** Resuming a screen other than a game leaves it as it was. */
  lemma ResumeScreen(h: Hooks<Screen, Msg>, fuel: nat, c: Config<Screen, Msg>, m: Msg)
    requires Quiet(h) && |c.stack| > 0 && !Top(c.stack).GameScreen?
    ensures AfterResume(h, fuel, c, m)
      == Config(c.stack, c.calls + [Resume(Top(c.stack), m)], c.exhausted)
  {
    assert h.resume(Top(c.stack), m) == (Top(c.stack), Nop);
    assert SetTop(c.stack, Top(c.stack)) == c.stack;
  }

  /** A game resumed with a yes from its popup pops itself. */
  lemma ResumeGameOnYes(h: Hooks<Screen, Msg>, fuel: nat, c: Config<Screen, Msg>)
    requires Quiet(h) && |c.stack| > 0 && Top(c.stack).GameScreen? && fuel >= 1
    ensures var yes := PopMessages.OkBackPopupIsOk(true);
      AfterResume(h, fuel, c, yes)
      == AfterPop(h, fuel - 1, c.(calls := c.calls + [Resume(Top(c.stack), yes)]), PopMessages.None).0
  {
    assert h.resume(Top(c.stack), PopMessages.OkBackPopupIsOk(true)) == (Top(c.stack), Pop(PopMessages.None));
    assert SetTop(c.stack, Top(c.stack)) == c.stack;
  }

  /** A frame whose `update` asks to push screen `t`: the updated top screen is paused under `t`. */
  lemma PushFrame(h: Hooks<Screen, Msg>, fuel: nat, interval: nat, c: Config<Screen, Msg>, e: Keyboard.KeyEdges, elapsed: nat,
                  s: Screen, t: Screen)
    requires Quiet(h) && fuel >= 1 && |c.stack| > 0 && h.update(Top(c.stack), e) == (s, Push(t))
    ensures var r := AfterFrame(h, fuel, interval, c, e, elapsed);
      r.stack == SetTop(c.stack, s) + [t] && r.exhausted == c.exhausted
  {
    var updated := Config(SetTop(c.stack, s), c.calls + [Update(Top(c.stack), e)], c.exhausted);
    assert AfterFrame(h, fuel, interval, c, e, elapsed) == AfterPush(h, fuel - 1, updated, t);
    PushScreen(h, fuel - 1, updated, t);
  }

  /** A frame whose `update` asks to be replaced by screen `t`: `t` takes the top screen's place. */
  lemma ReplaceFrame(h: Hooks<Screen, Msg>, fuel: nat, interval: nat, c: Config<Screen, Msg>, e: Keyboard.KeyEdges, elapsed: nat,
                     s: Screen, t: Screen)
    requires Quiet(h) && fuel >= 1 && |c.stack| > 0 && h.update(Top(c.stack), e) == (s, Replace(t))
    ensures var r := AfterFrame(h, fuel, interval, c, e, elapsed);
      r.stack == c.stack[..|c.stack| - 1] + [t] && r.exhausted == c.exhausted
  {
    var updated := Config(SetTop(c.stack, s), c.calls + [Update(Top(c.stack), e)], c.exhausted);
    assert AfterFrame(h, fuel, interval, c, e, elapsed) == AfterReplace(h, fuel - 1, updated, t).0;
    ReplaceScreen(h, fuel - 1, updated, t);
    assert updated.stack[..|c.stack| - 1] == c.stack[..|c.stack| - 1];
  }

  /** A frame whose `update` asks to pop with `m`, over a screen other than a game: that screen resumes on top. */
  lemma PopFrame(h: Hooks<Screen, Msg>, fuel: nat, interval: nat, c: Config<Screen, Msg>, e: Keyboard.KeyEdges, elapsed: nat,
                 s: Screen, m: Msg)
    requires Quiet(h) && fuel >= 1 && |c.stack| >= 2 && !c.stack[|c.stack| - 2].GameScreen?
    requires h.update(Top(c.stack), e) == (s, Pop(m))
    ensures var r := AfterFrame(h, fuel, interval, c, e, elapsed);
      r.stack == c.stack[..|c.stack| - 1] && r.exhausted == c.exhausted
  {
    var updated := Config(SetTop(c.stack, s), c.calls + [Update(Top(c.stack), e)], c.exhausted);
    assert AfterFrame(h, fuel, interval, c, e, elapsed) == AfterPop(h, fuel - 1, updated, m).0;
    QuitScreen(h, fuel - 1, updated);
    var quitted := AfterQuit(h, fuel - 1, updated);
    assert quitted.stack == c.stack[..|c.stack| - 1];
    ResumeScreen(h, fuel - 1, quitted, m);
  }

  /** The popup's yes, popped onto a game: the game pops itself too, and the screen below it resumes on top. */
  lemma PopupYesLeaves(h: Hooks<Screen, Msg>, fuel: nat, interval: nat, c: Config<Screen, Msg>, e: Keyboard.KeyEdges, elapsed: nat)
    requires Quiet(h) && fuel >= 2 && |c.stack| >= 3
    requires c.stack[|c.stack| - 2].GameScreen? && !c.stack[|c.stack| - 3].GameScreen?
    requires h.update(Top(c.stack), e) == (Top(c.stack), Pop(PopMessages.OkBackPopupIsOk(true)))
    ensures var r := AfterFrame(h, fuel, interval, c, e, elapsed);
      r.stack == c.stack[..|c.stack| - 2] && r.exhausted == c.exhausted
  {
    var yes := PopMessages.OkBackPopupIsOk(true);
    var updated := c.(calls := c.calls + [Update(Top(c.stack), e)]);
    assert SetTop(c.stack, Top(c.stack)) == c.stack;
    assert AfterFrame(h, fuel, interval, c, e, elapsed) == AfterPop(h, fuel - 1, updated, yes).0;
    QuitScreen(h, fuel - 1, updated);
    var quitted := AfterQuit(h, fuel - 1, updated);
    assert quitted.stack == c.stack[..|c.stack| - 1];
    ResumeGameOnYes(h, fuel - 1, quitted);
    var resumedLog := quitted.(calls := quitted.calls + [Resume(Top(quitted.stack), yes)]);
    QuitScreen(h, fuel - 2, resumedLog);
    var quitted2 := AfterQuit(h, fuel - 2, resumedLog);
    assert quitted2.stack == c.stack[..|c.stack| - 2];
    ResumeScreen(h, fuel - 2, quitted2, PopMessages.None);
  }

  /** On the menu, OK or EXE asks to push the course's first game. */
  lemma MenuOkStarts(sqrt: real -> real, e: Keyboard.KeyEdges)
    requires Keyboard.IsKeyJustPressed(e, Keyboard.RawKey.Ok) || Keyboard.IsKeyJustPressed(e, Keyboard.RawKey.Exe)
    ensures AppHooks(sqrt).update(MenuScreen, e) == (MenuScreen, Push(GameScreen(Menu.FirstGame)))
  {
  }

  /** In a game that is not won, Back asks to push the leave popup. */
  lemma GameBackAsks(sqrt: real -> real, g: Game.GameData, e: Keyboard.KeyEdges)
    requires Game.Collect(Game.Reports(g.modules, g.ball.pos)) != Game.Won
    requires Keyboard.IsKeyJustPressed(e, Keyboard.RawKey.Back)
    ensures AppHooks(sqrt).update(GameScreen(g), e)
      == (GameScreen(Game.GameStep(g, Game.ControlsOf(e), sqrt).0), Push(PopupScreen(Popup.PopupState(Game.LeaveText))))
  {
    Game.GameStepStages(g, Game.ControlsOf(e), sqrt);
  }

  /** In a game where the ball reaches the hole, the game asks to be replaced by the game-over screen. */
  lemma GameWinAsks(sqrt: real -> real, g: Game.GameData, e: Keyboard.KeyEdges)
    requires Game.Collect(Game.Reports(g.modules, g.ball.pos)) == Game.Won
    ensures AppHooks(sqrt).update(GameScreen(g), e)
      == (GameScreen(Game.GameStep(g, Game.ControlsOf(e), sqrt).0), Replace(GameOverScreen(GameOver.GameOverState(g.attempts))))
  {
    Game.GameStepStages(g, Game.ControlsOf(e), sqrt);
  }

  /** On the popup, OK without Back answers yes. */
  lemma PopupOkAnswers(sqrt: real -> real, p: Popup.PopupState, e: Keyboard.KeyEdges)
    requires Keyboard.IsKeyJustPressed(e, Keyboard.RawKey.Ok) && !Keyboard.IsKeyJustPressed(e, Keyboard.RawKey.Back)
    ensures AppHooks(sqrt).update(PopupScreen(p), e) == (PopupScreen(p), Pop(PopMessages.OkBackPopupIsOk(true)))
  {
  }

  /** On the game-over screen, OK, EXE or Back asks to pop. */
  lemma GameOverLeaves(sqrt: real -> real, o: GameOver.GameOverState, e: Keyboard.KeyEdges)
    requires Keyboard.IsKeyJustPressed(e, Keyboard.RawKey.Ok) || Keyboard.IsKeyJustPressed(e, Keyboard.RawKey.Exe)
             || Keyboard.IsKeyJustPressed(e, Keyboard.RawKey.Back)
    ensures AppHooks(sqrt).update(GameOverScreen(o), e) == (GameOverScreen(o), Pop(PopMessages.None))
  {
  }

  /** On the menu, OK or EXE opens the course on top of the menu (with fuel left for one action). */
  lemma MenuStartsGame(sqrt: real -> real, fuel: nat, interval: nat, calls: seq<Call<Screen, Msg>>,
                       e: Keyboard.KeyEdges, elapsed: nat)
    requires fuel >= 1
    requires Keyboard.IsKeyJustPressed(e, Keyboard.RawKey.Ok) || Keyboard.IsKeyJustPressed(e, Keyboard.RawKey.Exe)
    ensures var r := AfterFrame(AppHooks(sqrt), fuel, interval, Config([MenuScreen], calls, false), e, elapsed);
      r.stack == [MenuScreen, GameScreen(Menu.FirstGame)] && !r.exhausted
  {
    AppHooksQuiet(sqrt);
    MenuOkStarts(sqrt, e);
    PushFrame(AppHooks(sqrt), fuel, interval, Config([MenuScreen], calls, false), e, elapsed, MenuScreen, GameScreen(Menu.FirstGame));
    assert SetTop([MenuScreen], MenuScreen) == [MenuScreen];
  }

  /** In a game that is not won, Back opens the leave popup over the game as this frame left it. */
  lemma BackOpensPopup(sqrt: real -> real, fuel: nat, interval: nat, calls: seq<Call<Screen, Msg>>,
                       g: Game.GameData, e: Keyboard.KeyEdges, elapsed: nat)
    requires fuel >= 1
    requires Game.Collect(Game.Reports(g.modules, g.ball.pos)) != Game.Won
    requires Keyboard.IsKeyJustPressed(e, Keyboard.RawKey.Back)
    ensures var c1 := AfterFrame(AppHooks(sqrt), fuel, interval, Config([MenuScreen, GameScreen(g)], calls, false), e, elapsed);
      c1.stack == [MenuScreen, GameScreen(Game.GameStep(g, Game.ControlsOf(e), sqrt).0),
                   PopupScreen(Popup.PopupState(Game.LeaveText))]
      && !c1.exhausted
  {
    AppHooksQuiet(sqrt);
    var played := GameScreen(Game.GameStep(g, Game.ControlsOf(e), sqrt).0);
    GameBackAsks(sqrt, g, e);
    var c := Config([MenuScreen, GameScreen(g)], calls, false);
    PushFrame(AppHooks(sqrt), fuel, interval, c, e, elapsed, played, PopupScreen(Popup.PopupState(Game.LeaveText)));
    assert SetTop(c.stack, played) == [MenuScreen, played];
  }

  /**
   * In a game that is not won, Back opens the leave popup; OK on the popup answers yes,
   * the game pops itself on that answer, and the menu is on top again (with fuel left
   * for two nested actions).
   */
  lemma LeaveThroughPopup(sqrt: real -> real, fuel: nat, interval: nat, calls: seq<Call<Screen, Msg>>,
                          g: Game.GameData, e1: Keyboard.KeyEdges, elapsed1: nat, e2: Keyboard.KeyEdges, elapsed2: nat)
    requires fuel >= 2
    requires Game.Collect(Game.Reports(g.modules, g.ball.pos)) != Game.Won
    requires Keyboard.IsKeyJustPressed(e1, Keyboard.RawKey.Back)
    requires Keyboard.IsKeyJustPressed(e2, Keyboard.RawKey.Ok) && !Keyboard.IsKeyJustPressed(e2, Keyboard.RawKey.Back)
    ensures var h := AppHooks(sqrt);
      var c1 := AfterFrame(h, fuel, interval, Config([MenuScreen, GameScreen(g)], calls, false), e1, elapsed1);
      |c1.stack| == 3
      && var c2 := AfterFrame(h, fuel, interval, c1, e2, elapsed2);
      c2.stack == [MenuScreen] && !c2.exhausted
  {
    var h := AppHooks(sqrt);
    BackOpensPopup(sqrt, fuel, interval, calls, g, e1, elapsed1);
    var c1 := AfterFrame(h, fuel, interval, Config([MenuScreen, GameScreen(g)], calls, false), e1, elapsed1);
    AppHooksQuiet(sqrt);
    PopupOkAnswers(sqrt, Popup.PopupState(Game.LeaveText), e2);
    PopupYesLeaves(h, fuel, interval, c1, e2, elapsed2);
    assert c1.stack[..1] == [MenuScreen];
  }

  /**
   * In a game where the ball reaches the hole, the game is replaced by the game-over
   * screen with its attempts; OK, EXE or Back there brings the menu back on top.
   */
  lemma WinThenBackToMenu(sqrt: real -> real, fuel: nat, interval: nat, calls: seq<Call<Screen, Msg>>,
                          g: Game.GameData, e1: Keyboard.KeyEdges, elapsed1: nat, e2: Keyboard.KeyEdges, elapsed2: nat)
    requires fuel >= 1
    requires Game.Collect(Game.Reports(g.modules, g.ball.pos)) == Game.Won
    requires Keyboard.IsKeyJustPressed(e2, Keyboard.RawKey.Ok) || Keyboard.IsKeyJustPressed(e2, Keyboard.RawKey.Exe)
             || Keyboard.IsKeyJustPressed(e2, Keyboard.RawKey.Back)
    ensures var h := AppHooks(sqrt);
      var c1 := AfterFrame(h, fuel, interval, Config([MenuScreen, GameScreen(g)], calls, false), e1, elapsed1);
      c1.stack == [MenuScreen, GameOverScreen(GameOver.GameOverState(g.attempts))]
      && var c2 := AfterFrame(h, fuel, interval, c1, e2, elapsed2);
      c2.stack == [MenuScreen] && !c2.exhausted
  {
    var h := AppHooks(sqrt);
    AppHooksQuiet(sqrt);
    var state := GameOver.GameOverState(g.attempts);
    GameWinAsks(sqrt, g, e1);
    var c := Config([MenuScreen, GameScreen(g)], calls, false);
    ReplaceFrame(h, fuel, interval, c, e1, elapsed1, GameScreen(Game.GameStep(g, Game.ControlsOf(e1), sqrt).0), GameOverScreen(state));
    var c1 := AfterFrame(h, fuel, interval, c, e1, elapsed1);
    assert c1.stack == [MenuScreen, GameOverScreen(state)];
    GameOverLeaves(sqrt, state, e2);
    PopFrame(h, fuel, interval, c1, e2, elapsed2, GameOverScreen(state), PopMessages.None);
  }

  /**
   * `main`: a new state manager runs the menu at 60 frames per second on the key scans and
   * elapsed times supplied, until the stack is empty; returns the frames run.
   */
  method RunApplication(sqrt: real -> real, scan0: bv64, scan1: bv64, frames: seq<FrameInput>, fuel: nat) returns (count: nat)
    ensures count == AfterRun(AppHooks(sqrt), fuel, Fps, Config([], [], false), MenuScreen, scan0, scan1, frames).1
    ensures count <= |frames|
  {
    var manager := new StateManager(AppHooks(sqrt));
    count := manager.Run(MenuScreen, Fps, scan0, scan1, frames, fuel);
  }
}
