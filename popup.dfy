/**
 * The OK/Back confirmation popup (src/game/popup.rs). Its `update` is a decision table
 * from key edges to a pop with the user's answer; it never pushes or replaces, so the
 * action is generic in the type of the states around it.
 */
module Popup {
  import Keyboard
  import opened StateStack
  import opened PopMessages

  /** `PopupState`: the question shown. */
  datatype PopupState = PopupState(text: string)

  /**
   * `PopupState::update`: Back answers no, OK or EXE answers yes, Back winning when both
   * were just pressed; with neither the popup stays.
   */
  function PopupUpdate<S>(e: Keyboard.KeyEdges): (a: StackAction<S, PopMessage>)
    ensures a.Pop? || a.Nop?
    ensures a == Pop(OkBackPopupIsOk(false)) <==> Keyboard.IsKeyJustPressed(e, Keyboard.RawKey.Back)
    ensures a == Pop(OkBackPopupIsOk(true)) <==>
      !Keyboard.IsKeyJustPressed(e, Keyboard.RawKey.Back)
      && (Keyboard.IsKeyJustPressed(e, Keyboard.RawKey.Ok) || Keyboard.IsKeyJustPressed(e, Keyboard.RawKey.Exe))
    ensures a.Pop? ==> a.msg.OkBackPopupIsOk?
  {
    if Keyboard.IsKeyJustPressed(e, Keyboard.RawKey.Back) then Pop(OkBackPopupIsOk(false))
    else if Keyboard.IsKeyJustPressed(e, Keyboard.RawKey.Ok) || Keyboard.IsKeyJustPressed(e, Keyboard.RawKey.Exe) then
      Pop(OkBackPopupIsOk(true))
    else Nop
  }
}
