/**
 * The main menu (src/menu.rs): OK or EXE starts the one course the game has, Back leaves
 * the application. The menu keeps no data and overrides none of the lifecycle hooks.
 */
module Menu {
  import opened Vec
  import Keyboard
  import opened StateStack
  import PopMessages
  import opened GolfModule
  import GolfBall
  import Game

  /** The course: two grass rectangles and the finish square. */
  const Course: seq<Module> :=
    [NewRect(IVec2(-8, -8), 8, 4), NewRect(IVec2(24, -8), 2, 7), New4x4(IVec2(20, 20))]

  /** The game OK or EXE starts: the course, with a new ball at the origin. */
  const FirstGame: Game.GameData := Game.NewGame(Course, GolfBall.AtRest(Vec2(0.0, 0.0)))

  /**
   * `MainMenuState::update`: OK or EXE pushes a new game, and wins over Back; otherwise
   * Back pops the menu with no message; with neither the menu stays.
   */
  function MenuUpdate(e: Keyboard.KeyEdges): (a: StackAction<Game.GameData, PopMessages.PopMessage>)
    ensures a.Push? <==> Keyboard.IsKeyJustPressed(e, Keyboard.RawKey.Ok) || Keyboard.IsKeyJustPressed(e, Keyboard.RawKey.Exe)
    ensures a.Push? ==> a.state == FirstGame
    ensures a == Pop(PopMessages.None) <==>
      !(Keyboard.IsKeyJustPressed(e, Keyboard.RawKey.Ok) || Keyboard.IsKeyJustPressed(e, Keyboard.RawKey.Exe))
      && Keyboard.IsKeyJustPressed(e, Keyboard.RawKey.Back)
    ensures a.Nop? <==>
      !Keyboard.IsKeyJustPressed(e, Keyboard.RawKey.Ok) && !Keyboard.IsKeyJustPressed(e, Keyboard.RawKey.Exe)
      && !Keyboard.IsKeyJustPressed(e, Keyboard.RawKey.Back)
    ensures !a.Replace?
  {
    if Keyboard.IsKeyJustPressed(e, Keyboard.RawKey.Ok) || Keyboard.IsKeyJustPressed(e, Keyboard.RawKey.Exe) then
      Push(FirstGame)
    else if Keyboard.IsKeyJustPressed(e, Keyboard.RawKey.Back) then
      Pop(PopMessages.None)
    else
      Nop
  }

  /**
   * The new ball lies on the first grass rectangle only: the first frame neither wins nor
   * resets, it rolls the ball with the grass drag.
   */
  lemma FirstGameStartsOnGrass()
    ensures Game.Collect(Game.Reports(FirstGame.modules, FirstGame.ball.pos)) == Game.Drags([ModuleDrag])
  {
    var p := FirstGame.ball.pos;
    var rs := Game.Reports(Course, p);
    assert p == Vec2(0.0, 0.0);
    assert rs[0] == In(ModuleDrag);
    assert rs[1] == Out;
    assert rs[2] == Out;
    assert rs[2..][1..] == [];
    assert Game.Collect(rs[2..]) == Game.Drags([]);
    assert rs[1..][1..] == rs[2..];
    assert Game.Collect(rs[1..]) == Game.Drags([]);
  }
}
