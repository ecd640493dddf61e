/**
 * The box container of the small UI toolkit (src/escher/components.rs): a child component
 * with a margin or an `Extend` on each side.
 *
 * Components are a closed tree here: a leaf is a text label and an inner node a box
 * container. The container's `&mut dyn Component` child becomes a child value, and the
 * mutating `set_selected` a function returning the updated tree.
 */
module Components {
  import opened Wrappers
  import Escher
  import Text
  import Eadk

  const ScreenWidth: nat := 320
  const ScreenHeight: nat := 240

  /** `MarginType`: a fixed margin, or stretch to the screen size. */
  datatype MarginType = Margin(m: u16) | Extend

  datatype Component =
    | Leaf(content: Text.Label)
    | BoxContainer(child: Component, marginTop: MarginType, marginBottom: MarginType,
                   marginLeft: MarginType, marginRight: MarginType)

  /**
   * The extent `requested_size` asks for along one axis: the child plus both margins when
   * both sides have one, otherwise the whole screen.
   */
  function AxisRequest(before: MarginType, after: MarginType, child: int, screen: nat): int
  {
    if before.Margin? && after.Margin? then child + before.m as int + after.m as int else screen
  }

  /**
   * `requested_size`: a label asks for its text, a box for its child plus margins, or
   * the whole screen width or height along an axis with an `Extend`.
   */
  function RequestedSize(c: Component): (s: Escher.Size)
    ensures s.x >= 0 && s.y >= 10
    ensures c.Leaf? ==> s == Text.LabelRequestedSize(c.content)
    ensures c.BoxContainer? && c.marginLeft.Margin? && c.marginRight.Margin? ==>
      s.x >= RequestedSize(c.child).x
    ensures c.BoxContainer? && c.marginLeft.Margin? && c.marginRight.Margin? ==>
      s.x == RequestedSize(c.child).x + c.marginLeft.m as int + c.marginRight.m as int
    ensures c.BoxContainer? && c.marginTop.Margin? && c.marginBottom.Margin? ==>
      s.y == RequestedSize(c.child).y + c.marginTop.m as int + c.marginBottom.m as int
    ensures c.BoxContainer? && !(c.marginLeft.Margin? && c.marginRight.Margin?) ==> s.x == ScreenWidth
    ensures c.BoxContainer? && !(c.marginTop.Margin? && c.marginBottom.Margin?) ==> s.y == ScreenHeight
  {
    match c
    case Leaf(l) => Text.LabelRequestedSize(l)
    case BoxContainer(child, top, bottom, left, right) =>
      var inner := RequestedSize(child);
      Escher.Size(AxisRequest(left, right, inner.x, ScreenWidth),
                  AxisRequest(top, bottom, inner.y, ScreenHeight))
  }

  /** `update`: a label hands the signal back; a box forwards it to its child. */
  function Update(c: Component, signal: Escher.UiEvent): (Component, Escher.UiEvent)
  {
    match c
    case Leaf(l) =>
      var (l', s) := Text.LabelUpdate(l, signal);
      (Leaf(l'), s)
    case BoxContainer(child, _, _, _, _) =>
      var (child', s) := Update(child, signal);
      (c.(child := child'), s)
  }

  /** No component handles an event: every tree hands the signal back and stays as it was. */
  lemma {:induction false} UpdateHandsBack(c: Component, signal: Escher.UiEvent)
    ensures Update(c, signal) == (c, signal)
  {
    match c
    case Leaf(_) =>
    case BoxContainer(child, _, _, _, _) =>
      UpdateHandsBack(child, signal);
  }

  /** `set_selected`: a box forwards the flag to its child, down to the label. */
  function SetSelected(c: Component, selected: bool): Component
  {
    match c
    case Leaf(l) => Leaf(Text.LabelSetSelected(l, selected))
    case BoxContainer(child, _, _, _, _) => c.(child := SetSelected(child, selected))
  }

  /** `get_selected`: a box reports its child's flag. */
  function GetSelected(c: Component): bool
  {
    match c
    case Leaf(l) => Text.LabelGetSelected(l)
    case BoxContainer(child, _, _, _, _) => GetSelected(child)
  }

  /** The flag read back is the flag set, through any number of boxes. */
  lemma {:induction false} GetSelectedAfterSet(c: Component, selected: bool)
    ensures GetSelected(SetSelected(c, selected)) == selected
  {
    match c
    case Leaf(_) =>
    case BoxContainer(child, _, _, _, _) =>
      GetSelectedAfterSet(child, selected);
  }

  /** Selecting changes no size: the text and the margins stay. */
  lemma {:induction false} SetSelectedKeepsSize(c: Component, selected: bool)
    ensures RequestedSize(SetSelected(c, selected)) == RequestedSize(c)
  {
    match c
    case Leaf(_) =>
    case BoxContainer(child, _, _, _, _) =>
      SetSelectedKeepsSize(child, selected);
  }

  /**
   * `i32` division, which truncates toward zero: the remainder `a - q * b` has the sign
   * of `a` and is smaller than `b` in magnitude.
   */
  function DivTrunc(a: int, b: int): (q: int)
    requires b > 0
    ensures a >= 0 ==> q == a / b
    ensures a < 0 ==> q == -((-a) / b)
    ensures a >= 0 ==> 0 <= a - q * b < b
    ensures a < 0 ==> -b < a - q * b <= 0
  {
    if a >= 0 then a / b else -((-a) / b)
  }

  /** Where `render` puts a box along one axis: the size it draws and the child's offset. */
  datatype Placement = Placement(size: u16, offset: int)

  /** The `u16` size of the `Margin`/`Margin` case (child cast to `u16`, plus both margins) must not overflow. */
  predicate AxisFits(before: MarginType, after: MarginType, child: int)
  {
    before.Margin? && after.Margin? ==> WrapU16(child) + before.m as int + after.m as int <= 0xFFFF
  }

  /**
   * One axis of the layout `render` computes, with `extent` the screen size it stretches to:
   * a `Margin` before the child puts it at that margin; `Extend`/`Margin` puts its far edge
   * at the margin from the screen edge; `Extend`/`Extend` centres it.
   */
  function Axis(before: MarginType, after: MarginType, child: int, extent: nat): (p: Placement)
    requires extent <= 0xFFFF
    requires AxisFits(before, after, child)
    ensures 0 <= child <= 0xFFFF ==> p.size as int == AxisRequest(before, after, child, extent)
    ensures before.Margin? ==> p.offset == before.m as int
    ensures before.Extend? && after.Margin? ==> p.offset + child + after.m as int == extent
    ensures before.Extend? && after.Extend? && 0 <= child <= extent ==>
      2 * p.offset + child <= extent <= 2 * p.offset + child + 1
  {
    match (before, after)
    case (Margin(b), Margin(a)) => Placement(WrapU16(child) + b + a, b as int)
    case (Margin(b), Extend) => Placement(extent, b as int)
    case (Extend, Margin(a)) => Placement(extent, extent - a as int - child)
    case (Extend, Extend) => Placement(extent, DivTrunc(extent - child, 2))
  }

  /** The layout of a box: its size along both axes and the child's offset inside it. */
  datatype Layout = Layout(horizontal: Placement, vertical: Placement)

  predicate LayoutFits(c: Component)
  {
    c.BoxContainer?
    && AxisFits(c.marginLeft, c.marginRight, RequestedSize(c.child).x)
    && AxisFits(c.marginTop, c.marginBottom, RequestedSize(c.child).y)
  }

  /**
   * The layout `BoxContainer::render` computes as written: the vertical `Extend` cases
   * stretch to the screen WIDTH, 320.
   */
  function LayoutAsWritten(c: Component): Layout
    requires LayoutFits(c)
  {
    var inner := RequestedSize(c.child);
    Layout(Axis(c.marginLeft, c.marginRight, inner.x, ScreenWidth),
           Axis(c.marginTop, c.marginBottom, inner.y, ScreenWidth))
  }

  /** An empty label in a box that extends to the top and bottom of the screen. */
  const ExtendedLabelBox: Component :=
    BoxContainer(Leaf(Text.Label([], false)), Extend, Extend, Margin(0), Margin(0))

  /**
   * With an `Extend` on top and bottom, the box drawn is 320 pixels high while the box
   * requests 240, and a 10 pixel label lands at 155, not at the screen's centre 115.
   */
  lemma VerticalExtendAsWritten()
    ensures LayoutFits(ExtendedLabelBox)
    ensures LayoutAsWritten(ExtendedLabelBox).vertical == Placement(320, 155)
    ensures RequestedSize(ExtendedLabelBox).y == 240
  {
    assert RequestedSize(ExtendedLabelBox.child) == Escher.Size(0, 10);
    assert RequestedSize(ExtendedLabelBox).y == 240;
    assert LayoutFits(ExtendedLabelBox);
    assert Axis(Extend, Extend, 10, ScreenWidth) == Placement(320, 155);
  }

  /** The layout of a box, with the vertical `Extend` cases stretching to the screen height. */
  function RenderLayout(c: Component): Layout
    requires LayoutFits(c)
  {
    var inner := RequestedSize(c.child);
    Layout(Axis(c.marginLeft, c.marginRight, inner.x, ScreenWidth),
           Axis(c.marginTop, c.marginBottom, inner.y, ScreenHeight))
  }

  /**
   * The box drawn is the box requested, on both axes; a child between `Extend` sides that
   * fits the screen is centred on it.
   */
  lemma LayoutMatchesRequest(c: Component)
    requires LayoutFits(c)
    requires 0 <= RequestedSize(c.child).x <= 0xFFFF && RequestedSize(c.child).y <= 0xFFFF
    ensures RenderLayout(c).horizontal.size as int == RequestedSize(c).x
    ensures RenderLayout(c).vertical.size as int == RequestedSize(c).y
    ensures c.marginTop.Extend? && c.marginBottom.Extend? && RequestedSize(c.child).y <= ScreenHeight ==>
      var o := RenderLayout(c).vertical.offset;
      2 * o + RequestedSize(c.child).y <= ScreenHeight <= 2 * o + RequestedSize(c.child).y + 1
  {
  }

  /** The colour of the box `render` fills: the selection colour when its child is selected. */
  function BoxColor(c: Component): (color: Eadk.Color)
    requires c.BoxContainer?
    ensures color.rgb565 == Escher.SelectColor <==> GetSelected(c)
  {
    Eadk.Color(if GetSelected(c.child) then Escher.SelectColor else Escher.IdleColor)
  }
}
