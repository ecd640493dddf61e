/**
 * The application's own device bindings (src/eadk.rs): raw colour channels, rectangle
 * culling, input events and the decimal formatting used by the panic handler.
 */
module Eadk {
  import opened Wrappers
  import Keyboard

  const ScreenWidth: int := 320
  const ScreenHeight: int := 240

  /** An RGB 5-6-5 colour, with channel accessors on its raw bits. */
  datatype Color = Color(rgb565: bv16)

  /** `get_red_raw`: bits 15..11. */
  function GetRedRaw(c: Color): (r: bv16)
    ensures r < 32
  {
    (c.rgb565 >> 11) & 0x1F
  }

  /** `get_green_raw`: bits 10..5. */
  function GetGreenRaw(c: Color): (g: bv16)
    ensures g < 64
  {
    (c.rgb565 >> 5) & 0x3F
  }

  /** `get_blue_raw`: bits 4..0. */
  function GetBlueRaw(c: Color): (b: bv16)
    ensures b < 32
  {
    c.rgb565 & 0x1F
  }

  /** `set_red_raw`: replaces bits 15..11 by the low 5 bits of `red`. */
  function SetRedRaw(c: Color, red: bv16): Color
  {
    Color(WithRed(c.rgb565, red))
  }

  /** `set_green_raw`: replaces bits 10..5 by the low 6 bits of `green`. */
  function SetGreenRaw(c: Color, green: bv16): Color
  {
    Color(WithGreen(c.rgb565, green))
  }

  /** `set_blue_raw`: replaces bits 4..0 by the low 5 bits of `blue`. */
  function SetBlueRaw(c: Color, blue: bv16): Color
  {
    Color(WithBlue(c.rgb565, blue))
  }

  function WithRed(v: bv16, red: bv16): bv16
  {
    (v & 0x07FF) | ((red & 0x1F) << 11)
  }

  function WithGreen(v: bv16, green: bv16): bv16
  {
    (v & 0xF81F) | ((green & 0x3F) << 5)
  }

  function WithBlue(v: bv16, blue: bv16): bv16
  {
    (v & 0xFFE0) | (blue & 0x1F)
  }

  /** Setting red stores its low 5 bits and leaves green and blue as they were. */
  lemma SetRedRawGet(c: Color, red: bv16)
    ensures GetRedRaw(SetRedRaw(c, red)) == red & 0x1F
    ensures GetGreenRaw(SetRedRaw(c, red)) == GetGreenRaw(c)
    ensures GetBlueRaw(SetRedRaw(c, red)) == GetBlueRaw(c)
  {
    RedBits(c.rgb565, red);
  }

  /** Setting green stores its low 6 bits and leaves red and blue as they were. */
  lemma SetGreenRawGet(c: Color, green: bv16)
    ensures GetGreenRaw(SetGreenRaw(c, green)) == green & 0x3F
    ensures GetRedRaw(SetGreenRaw(c, green)) == GetRedRaw(c)
    ensures GetBlueRaw(SetGreenRaw(c, green)) == GetBlueRaw(c)
  {
    GreenBits(c.rgb565, green);
  }

  /** Setting blue stores its low 5 bits and leaves red and green as they were. */
  lemma SetBlueRawGet(c: Color, blue: bv16)
    ensures GetBlueRaw(SetBlueRaw(c, blue)) == blue & 0x1F
    ensures GetRedRaw(SetBlueRaw(c, blue)) == GetRedRaw(c)
    ensures GetGreenRaw(SetBlueRaw(c, blue)) == GetGreenRaw(c)
  {
    BlueBits(c.rgb565, blue);
  }

  /** The three channels determine the colour: setting each to its own value changes nothing. */
  lemma SetOwnChannels(c: Color)
    ensures SetRedRaw(SetGreenRaw(SetBlueRaw(c, GetBlueRaw(c)), GetGreenRaw(c)), GetRedRaw(c)) == c
  {
    OwnChannelBits(c.rgb565);
  }

  lemma RedBits(v: bv16, red: bv16)
    ensures (WithRed(v, red) >> 11) & 0x1F == red & 0x1F
    ensures (WithRed(v, red) >> 5) & 0x3F == (v >> 5) & 0x3F
    ensures WithRed(v, red) & 0x1F == v & 0x1F
  {
  }

  lemma GreenBits(v: bv16, green: bv16)
    ensures (WithGreen(v, green) >> 5) & 0x3F == green & 0x3F
    ensures (WithGreen(v, green) >> 11) & 0x1F == (v >> 11) & 0x1F
    ensures WithGreen(v, green) & 0x1F == v & 0x1F
  {
  }

  lemma BlueBits(v: bv16, blue: bv16)
    ensures WithBlue(v, blue) & 0x1F == blue & 0x1F
    ensures (WithBlue(v, blue) >> 11) & 0x1F == (v >> 11) & 0x1F
    ensures (WithBlue(v, blue) >> 5) & 0x3F == (v >> 5) & 0x3F
  {
  }

  lemma OwnChannelBits(v: bv16)
    ensures WithRed(WithGreen(WithBlue(v, v & 0x1F), (v >> 5) & 0x3F), (v >> 11) & 0x1F) == v
  {
  }

  /** A rectangle in `u16` screen coordinates. */
  datatype Rect = Rect(x: u16, y: u16, width: u16, height: u16)

  /**
   * `Rect::screen_space_culling`: clamps the corner to the last pixel row and column and
   * the far edge likewise; the widths are `i32` differences cast to `u16`, which wrap when
   * negative. `x + width` and `y + height` are `i32` additions, which must not overflow.
   */
  function ScreenSpaceCulling(x: i32, y: i32, width: i32, height: i32): (r: Rect)
    requires -0x8000_0000 <= x + width < 0x8000_0000
    requires -0x8000_0000 <= y + height < 0x8000_0000
    ensures r.x == Clamp(x, 0, ScreenWidth - 1) && r.y == Clamp(y, 0, ScreenHeight - 1)
    ensures width >= 0 ==> r.x + r.width == Clamp(x + width, 0, ScreenWidth - 1)
    ensures height >= 0 ==> r.y + r.height == Clamp(y + height, 0, ScreenHeight - 1)
  {
    var cx := Clamp(x, 0, ScreenWidth - 1);
    var cy := Clamp(y, 0, ScreenHeight - 1);
    Rect(cx, cy,
         WrapU16(Clamp(x + width, 0, ScreenWidth - 1) - cx),
         WrapU16(Clamp(y + height, 0, ScreenHeight - 1) - cy))
  }

  /** For a non-negative size the culled rectangle lies on the screen, corner and far edge. */
  lemma CullingOnScreen(x: i32, y: i32, width: i32, height: i32)
    requires -0x8000_0000 <= x + width < 0x8000_0000
    requires -0x8000_0000 <= y + height < 0x8000_0000
    requires width >= 0 && height >= 0
    ensures var r := ScreenSpaceCulling(x, y, width, height);
      r.x <= ScreenWidth - 1 && r.y <= ScreenHeight - 1
      && r.x + r.width <= ScreenWidth - 1 && r.y + r.height <= ScreenHeight - 1
  {
  }

  /** A negative width wraps around to a huge `u16` when its far edge falls left of the corner. */
  lemma CullingNegativeWidthWraps()
    ensures ScreenSpaceCulling(10, 0, -5, 0).width == 0xFFFB
  {
  }

  /** `input::Key` has exactly the variants and codes of the hardware keys. */
  type InputKey = Keyboard.RawKey

  /** `KeyboardState::key_down`: the same bit test as `keyboard_key_down`. */
  predicate KeyDown(state: bv64, k: InputKey)
  {
    Keyboard.KeyboardKeyDown(state, k)
  }

  /** A scan in which only key `k` is held reports `k` down and every other key up. */
  lemma KeyDownSingleKey(k: InputKey, other: InputKey)
    ensures KeyDown(1 << Keyboard.Code(k), other) <==> other == k
  {
    Keyboard.SingleBit(Keyboard.Code(k), Keyboard.Code(other));
    Keyboard.CodeInjective(k, other);
  }

  /** `input::Event`: the variants and codes of the key-press events, without `None`. */
  type Event = k: Keyboard.Key | k != Keyboard.Key.None witness Keyboard.Key.Left

  /** `Event::is_digit`: all ten digit keys, `Eight` included. */
  predicate IsDigit(e: Event)
  {
    e in {Keyboard.Key.Zero, Keyboard.Key.One, Keyboard.Key.Two, Keyboard.Key.Three, Keyboard.Key.Four,
          Keyboard.Key.Five, Keyboard.Key.Six, Keyboard.Key.Seven, Keyboard.Key.Eight, Keyboard.Key.Nine}
  }

  /** `Event::to_digit`: the same table as the key conversion of the keyboard library. */
  function ToDigit(e: Event): Option<u8>
  {
    Keyboard.ToDigit(e)
  }

  /** Here `is_digit` holds exactly for the events `to_digit` converts. */
  lemma IsDigitIffToDigit(e: Event)
    ensures IsDigit(e) <==> ToDigit(e).Some?
  {
    Keyboard.IsDigitIffToDigit(e);
  }

  /** The ASCII decimal digits of `n`, most significant first, with no leading zero. */
  function Digits(n: nat): (d: seq<u8>)
    ensures 1 <= |d|
    ensures forall i :: 0 <= i < |d| ==> '0' as u8 <= d[i] <= '9' as u8
  {
    if n < 10 then ['0' as u8 + n] else Digits(n / 10) + ['0' as u8 + n % 10]
  }

  /** The number a string of ASCII decimal digits spells. */
  function Value(d: seq<u8>): nat
    requires forall i :: 0 <= i < |d| ==> '0' as u8 <= d[i] <= '9' as u8
  {
    if d == [] then 0 else 10 * Value(d[..|d| - 1]) + (d[|d| - 1] - '0' as u8)
  }

  /** Reading back the digits gives the number. */
  lemma {:induction false} DigitsValue(n: nat)
    ensures Value(Digits(n)) == n
  {
    var d := Digits(n);
    if n >= 10 {
      DigitsValue(n / 10);
      assert d[..|d| - 1] == Digits(n / 10);
    }
  }

  function Pow10(k: nat): (p: nat)
    ensures p >= 1
  {
    if k == 0 then 1 else 10 * Pow10(k - 1)
  }

  /** `n` has at most `k` digits exactly when `n < 10^k`. */
  lemma {:induction false} DigitsLength(n: nat, k: nat)
    requires k >= 1
    ensures |Digits(n)| <= k <==> n < Pow10(k)
  {
    Pow10AtLeastTen(k);
    if k > 1 && n >= 10 {
      DigitsLength(n / 10, k - 1);
      assert n / 10 < Pow10(k - 1) <==> n < 10 * Pow10(k - 1);
    }
  }

  lemma {:induction false} Pow10AtLeastTen(k: nat)
    requires k >= 1
    ensures Pow10(k) >= 10
  {
    if k > 1 {
      Pow10AtLeastTen(k - 1);
    }
  }

  /**
   * `int_to_str`: writes the decimal digits of `n` into `s`, right-aligned so that the last
   * digit lands at index 19, and leaves every other byte alone. The position is a `usize`
   * that is decremented after each digit, so a twentieth digit would underflow it.
   */
  method IntToStr(n: nat, s: array<u8>)
    requires s.Length >= 20
    requires |Digits(n)| <= 19
    modifies s
    ensures s[20 - |Digits(n)|..20] == Digits(n)
    ensures forall i :: 0 <= i < s.Length && !(20 - |Digits(n)| <= i < 20) ==> s[i] == old(s[i])
  {
    var num := n;
    var pos: nat := 19;
    while true
      invariant pos <= 19
      invariant pos == 19 ==> num == n
      invariant pos < 19 ==> num > 0 && Digits(n) == Digits(num) + s[pos + 1..20]
      invariant forall i :: 0 <= i < s.Length && !(pos < i < 20) ==> s[i] == old(s[i])
      decreases num
    {
      if pos < 19 {
        assert |Digits(n)| == |Digits(num)| + 19 - pos;
      }
      ghost var before := s[pos + 1..20];
      s[pos] := '0' as u8 + num % 10;
      assert s[pos..20] == [s[pos]] + before;
      pos := pos - 1;
      num := num / 10;
      if num == 0 {
        break;
      }
    }
  }
}
