/** The shared declarations of the small UI toolkit (src/escher/mod.rs). */
module Escher {
  import opened Wrappers

  /** `IDLE_COLOR` and `SELECT_COLOR`: the box colour of an unselected and a selected child. */
  const IdleColor: bv16 := 57083
  const SelectColor: bv16 := 48631

  /** `UiEvent`: the signals a component receives and hands back to its parent. */
  datatype UiEvent = None | Ok | Up | Down | Left | Right | Back | Number(n: u8) | Backspace

  /** `Vec2i` as used for sizes and offsets: a pair of (signed) integers. */
  datatype Size = Size(x: int, y: int)
}
