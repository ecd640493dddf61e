/**
 * The screen shown after the ball drops in the hole (src/game/game_over.rs). It holds the
 * number of attempts, which nothing changes, and pops on Back, OK or EXE.
 */
module GameOver {
  import opened Wrappers
  import Keyboard
  import opened StateStack
  import opened PopMessages

  /** `GameOverState`: the attempts the game took. */
  datatype GameOverState = GameOverState(attempts: u8)

  /**
   * `GameOverState::update`: pops with no message when Back, OK or EXE was just pressed,
   * otherwise stays; it never pushes or replaces. The state is left as it was.
   */
  function GameOverUpdate<S>(g: GameOverState, e: Keyboard.KeyEdges): (r: (GameOverState, StackAction<S, PopMessage>))
    ensures r.0 == g
    ensures r.1 == Pop(PopMessage.None) <==>
      Keyboard.IsKeyJustPressed(e, Keyboard.RawKey.Back) || Keyboard.IsKeyJustPressed(e, Keyboard.RawKey.Ok)
      || Keyboard.IsKeyJustPressed(e, Keyboard.RawKey.Exe)
    ensures r.1.Pop? || r.1.Nop?
  {
    if Keyboard.IsKeyJustPressed(e, Keyboard.RawKey.Back) || Keyboard.IsKeyJustPressed(e, Keyboard.RawKey.Ok)
       || Keyboard.IsKeyJustPressed(e, Keyboard.RawKey.Exe)
    then (g, Pop(PopMessage.None))
    else (g, Nop)
  }
}
