/**
 * Colours, rectangles and strings of the display interface (libnw/src/display.rs).
 * Drawing itself is foreign code and is not modelled.
 */
module Display {
  import opened Wrappers

  const ScreenWidth: nat := 320
  const ScreenHeight: nat := 240

  /** An RGB 5-6-5 colour: red in bits 15..11, green in bits 10..5, blue in bits 4..0. */
  datatype Color = Color(rgb565: bv16)

  /** The three 8-bit channels `separate_rgb` returns. */
  datatype Rgb = Rgb(r: bv8, g: bv8, b: bv8)

  /** `Color::from_rgb`: keeps the top 5, 6 and 5 bits of the channels. */
  function FromRgb(r: bv8, g: bv8, b: bv8): Color
  {
    Color(Pack565(r, g, b))
  }

  function Pack565(r: bv8, g: bv8, b: bv8): bv16
  {
    (((r & 0xF8) as bv16) << 8) | (((g & 0xFC) as bv16) << 3) | ((b as bv16) >> 3)
  }

  /**
   * `Color::separate_rgb`: widens each channel back to 8 bits, copying its top bits into
   * the low bits so that a full channel gives 255.
   */
  function SeparateRgb(c: Color): Rgb
  {
    Rgb(RedChannel(c.rgb565), GreenChannel(c.rgb565), BlueChannel(c.rgb565))
  }

  function RedChannel(v: bv16): bv8
  {
    var r := ((v >> 8) & 0xF8) as bv8;
    r | (r >> 5)
  }

  function GreenChannel(v: bv16): bv8
  {
    var g := ((v >> 3) & 0xFC) as bv8;
    g | (g >> 6)
  }

  function BlueChannel(v: bv16): bv8
  {
    var b := ((v & 0x1F) << 3) as bv8;
    b | (b >> 5)
  }

  /** Packing the separated channels gives back every 16-bit colour. */
  lemma FromSeparateRgb(c: Color)
    ensures FromRgb(SeparateRgb(c).r, SeparateRgb(c).g, SeparateRgb(c).b) == c
  {
    PackChannels(c.rgb565);
  }

  lemma PackChannels(v: bv16)
    ensures Pack565(RedChannel(v), GreenChannel(v), BlueChannel(v)) == v
  {
  }

  /** Separating a packed colour keeps the bits `from_rgb` kept: 5 of red, 6 of green, 5 of blue. */
  lemma SeparateFromRgb(r: bv8, g: bv8, b: bv8)
    ensures SeparateRgb(FromRgb(r, g, b)).r & 0xF8 == r & 0xF8
    ensures SeparateRgb(FromRgb(r, g, b)).g & 0xFC == g & 0xFC
    ensures SeparateRgb(FromRgb(r, g, b)).b & 0xF8 == b & 0xF8
  {
    ChannelsOfPack(r, g, b);
  }

  lemma ChannelsOfPack(r: bv8, g: bv8, b: bv8)
    ensures RedChannel(Pack565(r, g, b)) & 0xF8 == r & 0xF8
    ensures GreenChannel(Pack565(r, g, b)) & 0xFC == g & 0xFC
    ensures BlueChannel(Pack565(r, g, b)) & 0xF8 == b & 0xF8
  {
  }

  const Black: Color := Color(0x0)
  const White: Color := Color(0xFFFF)
  const Red: Color := Color(0xF800)
  const Green: Color := Color(0x7E0)
  const Blue: Color := Color(0x1F)

  /** The named colours separate to the channel values their documentation gives. */
  lemma ColorConstants()
    ensures SeparateRgb(Black) == Rgb(0, 0, 0)
    ensures SeparateRgb(White) == Rgb(255, 255, 255)
    ensures SeparateRgb(Red) == Rgb(255, 0, 0)
    ensures SeparateRgb(Green) == Rgb(0, 255, 0)
    ensures SeparateRgb(Blue) == Rgb(0, 0, 255)
  {
  }

  /** A rectangle on the screen, in unsigned 16-bit coordinates. */
  datatype Rect = Rect(x: u16, y: u16, width: u16, height: u16)

  /** `Rect::new_square`. */
  function NewSquare(x: u16, y: u16, width: u16): (r: Rect)
    ensures r.width == r.height == width
    ensures r.x == x && r.y == y
  {
    Rect(x, y, width, width)
  }

  /** `Rect::new_pixel`: the square of side 1. */
  function NewPixel(x: u16, y: u16): (r: Rect)
    ensures Area(r) == 1
    ensures r.x == x && r.y == y
  {
    NewSquare(x, y, 1)
  }

  /** `Rect::area`: computed in `u32`, where the product of two `u16` values always fits. */
  function Area(r: Rect): (a: u32)
  {
    ProductOfU16Fits(r.width, r.height);
    r.width * r.height
  }

  /** The product of two `u16` values is at most `0xFFFF * 0xFFFF`, below `2^32`. */
  lemma ProductOfU16Fits(a: u16, b: u16)
    ensures a * b <= 0xFFFF * 0xFFFF < 0x1_0000_0000
  {
    calc {
      a * b;
    <= { MulMonotone(a, b, 0xFFFF); }
      0xFFFF * b;
    <= { MulMonotone(b, 0xFFFF, 0xFFFF); }
      0xFFFF * 0xFFFF;
    }
  }

  lemma MulMonotone(a: nat, b: nat, c: nat)
    requires a <= c
    ensures a * b <= c * b
  {
  }

  /** A rectangle covers no pixel exactly when one of its sides is zero. */
  lemma AreaZero(r: Rect)
    ensures Area(r) == 0 <==> r.width == 0 || r.height == 0
  {
    if r.width != 0 && r.height != 0 {
      MulMonotone(1, r.height, r.width);
    }
  }

  /**
   * `Rect::screen_space_clipping`: clamps the corner to the screen and cuts the far edges at
   * the screen border. `x + width` and `y + height` are `u16` additions, which must not overflow.
   */
  function ScreenSpaceClipping(x: i32, y: i32, width: u16, height: u16): (r: Rect)
    requires Clamp(x, 0, ScreenWidth) + width <= 0xFFFF
    requires Clamp(y, 0, ScreenHeight) + height <= 0xFFFF
    ensures r.x <= ScreenWidth && r.y <= ScreenHeight
    ensures r.x + r.width <= ScreenWidth && r.y + r.height <= ScreenHeight
    ensures r.width <= width && r.height <= height
    ensures 0 <= x && x + width <= ScreenWidth ==> r.x == x && r.width == width
    ensures 0 <= y && y + height <= ScreenHeight ==> r.y == y && r.height == height
  {
    var cx := Clamp(x, 0, ScreenWidth);
    var cy := Clamp(y, 0, ScreenHeight);
    var ex := Clamp(cx + width, 0, ScreenWidth);
    var ey := Clamp(cy + height, 0, ScreenHeight);
    Rect(cx, cy, ex - cx, ey - cy)
  }

  /**
   * `Rect::center`: moves the rectangle to the middle of the screen. The `u16` subtractions
   * need the rectangle to fit on the screen.
   */
  function Center(r: Rect): (c: Rect)
    requires r.width <= ScreenWidth && r.height <= ScreenHeight
    ensures c.width == r.width && c.height == r.height
    ensures c.x + c.width + c.x <= ScreenWidth <= c.x + c.width + c.x + 1
    ensures c.y + c.height + c.y <= ScreenHeight <= c.y + c.height + c.y + 1
  {
    r.(x := (ScreenWidth - r.width) / 2, y := (ScreenHeight - r.height) / 2)
  }

  /** Centring is idempotent: a centred rectangle stays where it is. */
  lemma CenterIdempotent(r: Rect)
    requires r.width <= ScreenWidth && r.height <= ScreenHeight
    ensures Center(Center(r)) == Center(r)
  {
  }

  const Nul: char := '\0'

  /** `terminate_str`: the string with a NUL byte appended unless it already ends with one. */
  function TerminateStr(s: string): (r: string)
    ensures |r| > 0 && r[|r| - 1] == Nul
    ensures |r| >= |s| && r[..|s|] == s
    ensures |r| == if |s| > 0 && s[|s| - 1] == Nul then |s| else |s| + 1
  {
    if |s| > 0 && s[|s| - 1] == Nul then s else s + [Nul]
  }

  /** Terminating twice is terminating once. */
  lemma TerminateStrIdempotent(s: string)
    ensures TerminateStr(TerminateStr(s)) == TerminateStr(s)
  {
  }
}
