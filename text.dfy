/**
 * The bitmap font and the text label of the small UI toolkit (src/escher/text.rs).
 *
 * The glyph table holds 44 glyphs of 5 x 10 pixels; its bitmap contents are data and are
 * taken as a parameter. Pushing pixels to the screen is foreign code: the debug-text
 * routine here returns the rectangles and glyphs it would push.
 */
module Text {
  import opened Wrappers
  import Eadk
  import Escher

  const CharsCount: nat := 44
  /** Pixels per glyph: 5 wide, 10 high. */
  const CharSize: nat := 5 * 10
  const TableSize: nat := CharsCount * CharSize

  /** `CHAR_COLORKEY`: the transparent colour of a glyph when drawn by a label. */
  const CharColorKey: Eadk.Color := Eadk.Color(0xFFFF)

  predicate IsLower(c: u8) { 'a' as u8 <= c <= 'z' as u8 }
  predicate IsUpper(c: u8) { 'A' as u8 <= c <= 'Z' as u8 }
  predicate IsDigitChar(c: u8) { '0' as u8 <= c <= '9' as u8 }

  /** The bytes the font has a glyph for: letters of both cases, digits and ` .:()/_`. */
  predicate HasGlyph(c: u8)
  {
    IsLower(c) || IsUpper(c) || IsDigitChar(c)
    || c == ' ' as u8 || c == '.' as u8 || c == ':' as u8
    || c == '(' as u8 || c == ')' as u8 || c == '/' as u8 || c == '_' as u8
  }

  /**
   * The glyph index `get_char_data` selects: 1..26 for the letters of either case,
   * 27..29 for space, dot and colon, 30..39 for the digits, 40..43 for `()/_`, and the
   * placeholder glyph 0 for every other byte.
   */
  function GlyphIndex(c: u8): (i: nat)
    ensures i < CharsCount
    ensures i == 0 <==> !HasGlyph(c)
  {
    if IsLower(c) then (c - 'a' as u8) as nat + 1
    else if IsUpper(c) then (c - 'A' as u8) as nat + 1
    else if c == ' ' as u8 then 27
    else if c == '.' as u8 then 28
    else if c == ':' as u8 then 29
    else if IsDigitChar(c) then (c - '0' as u8) as nat + 30
    else if c == '(' as u8 then 40
    else if c == ')' as u8 then 41
    else if c == '/' as u8 then 42
    else if c == '_' as u8 then 43
    else 0
  }

  /** The byte with the case of a letter folded to lower case; other bytes are unchanged. */
  function FoldCase(c: u8): u8
  {
    if IsUpper(c) then c + 32 else c
  }

  /** An upper-case letter and its lower-case form share a glyph. */
  lemma GlyphCaseInsensitive(c: u8)
    requires IsUpper(c)
    ensures GlyphIndex(c) == GlyphIndex(c + 32)
  {
  }

  /** Two bytes share a real glyph only when they are the same character up to case. */
  lemma GlyphIndexInjective(a: u8, b: u8)
    requires HasGlyph(a) && HasGlyph(b)
    ensures GlyphIndex(a) == GlyphIndex(b) <==> FoldCase(a) == FoldCase(b)
  {
  }

  /**
   * `get_char_data`: the 50 colours of the glyph of byte `c`, the slice of the glyph
   * table that starts at its index times 50.
   */
  function GetCharData(table: seq<Eadk.Color>, c: u8): (data: seq<Eadk.Color>)
    requires |table| == TableSize
    ensures |data| == CharSize
    ensures forall k :: 0 <= k < CharSize ==> data[k] == table[GlyphIndex(c) * CharSize + k]
  {
    var i := GlyphIndex(c);
    table[i * CharSize..(i + 1) * CharSize]
  }

  /**
   * `build_colors`: the glyph table as colours, each raw `u16` becoming the `rgb565`
   * of the colour at the same index.
   */
  method BuildColors(data: array<bv16>) returns (colors: array<Eadk.Color>)
    requires data.Length == TableSize
    ensures fresh(colors)
    ensures colors.Length == data.Length
    ensures forall i :: 0 <= i < colors.Length ==> colors[i] == Eadk.Color(data[i])
  {
    colors := new Eadk.Color[TableSize](_ => Eadk.Color(0));
    var i := 0;
    while i < data.Length
      invariant 0 <= i <= data.Length
      invariant forall j :: 0 <= j < i ==> colors[j] == Eadk.Color(data[j])
    {
      colors[i] := Eadk.Color(data[i]);
      i := i + 1;
    }
  }

  /** The cursor of `draw_debug_text`, in `u16` screen coordinates. */
  datatype Cursor = Cursor(x: u16, y: u16)

  /** One character drawn by `draw_debug_text`: its 5 x 10 rectangle and its glyph. */
  datatype Draw = Draw(rect: Eadk.Rect, glyph: nat)

  /** The last column the cursor may stay at before it wraps to the next line. */
  const LastColumn: nat := 314

  /**
   * The cursor after one character: six pixels to the right, or the start of the next
   * line (eleven pixels down) once it passes column 314. `u16` additions wrap.
   */
  function Advance(c: Cursor): (n: Cursor)
    ensures n.x <= LastColumn
    ensures c.x + 6 <= LastColumn ==> n == Cursor(c.x + 6, c.y)
    ensures LastColumn < c.x + 6 <= 0xFFFF ==> n == Cursor(0, WrapU16(c.y + 11))
  {
    var x := WrapU16(c.x + 6);
    if x > LastColumn then Cursor(0, WrapU16(c.y + 11)) else Cursor(x, c.y)
  }

  /** The cursor after `n` characters. */
  function AdvanceN(c: Cursor, n: nat): Cursor
    decreases n
  {
    if n == 0 then c else AdvanceN(Advance(c), n - 1)
  }

  /** The rectangles and glyphs of the characters `txt`, drawn from cursor `c` on. */
  function Draws(txt: string, c: Cursor): seq<Draw>
  {
    if txt == [] then []
    else [Draw(Eadk.Rect(c.x, c.y, 5, 10), GlyphIndex(WrapU8(txt[0] as int)))]
         + Draws(txt[1..], Advance(c))
  }

  /**
   * `draw_debug_text`: draws each character of `txt` (a `char` cast to `u8` keeps its low
   * byte) at the cursor, then advances it; returns the final cursor. The pixels pushed are
   * left to the caller: `draws` lists the rectangle and glyph of each character.
   */
  method DrawDebugText(txt: string, offset: Cursor) returns (cursor: Cursor, draws: seq<Draw>)
    ensures cursor == AdvanceN(offset, |txt|)
    ensures draws == Draws(txt, offset)
  {
    var x: u16, y: u16 := offset.x, offset.y;
    draws := [];
    for i := 0 to |txt|
      invariant AdvanceN(offset, |txt|) == AdvanceN(Cursor(x, y), |txt| - i)
      invariant Draws(txt, offset) == draws + Draws(txt[i..], Cursor(x, y))
    {
      var c := WrapU8(txt[i] as int);
      draws := draws + [Draw(Eadk.Rect(x, y, 5, 10), GlyphIndex(c))];
      assert txt[i..][1..] == txt[i + 1..];
      x := WrapU16(x + 6);
      if x > LastColumn {
        x := 0;
        y := WrapU16(y + 11);
      }
    }
    cursor := Cursor(x, y);
  }

  /** A cursor that starts at or left of column 314 stays there after every character. */
  lemma {:induction false} CursorStaysOnScreen(c: Cursor, n: nat)
    requires c.x <= LastColumn
    ensures AdvanceN(c, n).x <= LastColumn
    decreases n
  {
    if n > 0 {
      CursorStaysOnScreen(Advance(c), n - 1);
    }
  }

  /** Characters per line from column 0: columns 0, 6, ..., 312. */
  const LineLength: nat := 53

  /**
   * From the start of a line the cursor after `n` characters is at column `6 * (n % 53)`,
   * `11 * (n / 53)` pixels further down, as long as `y` does not wrap.
   */
  lemma {:induction false} AdvanceFromLineStart(y: u16, n: nat)
    requires y + 11 * (n / LineLength) <= 0xFFFF
    ensures AdvanceN(Cursor(0, y), n) == Cursor(6 * (n % LineLength), y + 11 * (n / LineLength))
  {
    if n > 0 {
      var m := n - 1;
      AdvanceNLast(Cursor(0, y), m);
      assert m / LineLength <= n / LineLength;
      AdvanceFromLineStart(y, m);
      if m % LineLength == LineLength - 1 {
        assert n % LineLength == 0 && n / LineLength == m / LineLength + 1;
      } else {
        assert n % LineLength == m % LineLength + 1 && n / LineLength == m / LineLength;
      }
    }
  }

  /** Advancing `n + 1` times is advancing `n` times and then once more. */
  lemma {:induction false} AdvanceNLast(c: Cursor, n: nat)
    ensures AdvanceN(c, n + 1) == Advance(AdvanceN(c, n))
    decreases n
  {
    if n > 0 {
      AdvanceNLast(Advance(c), n - 1);
    }
  }

  /** `draw_debug_text` draws one glyph per character, each a 5 x 10 rectangle. */
  lemma {:induction false} DrawsShape(txt: string, c: Cursor)
    ensures |Draws(txt, c)| == |txt|
    ensures forall i :: 0 <= i < |txt| ==>
      Draws(txt, c)[i].rect.width == 5 && Draws(txt, c)[i].rect.height == 10
      && Draws(txt, c)[i].glyph == GlyphIndex(WrapU8(txt[i] as int))
  {
    if txt != [] {
      DrawsShape(txt[1..], Advance(c));
    }
  }

  /** `Label`: a line of text and its selection flag. */
  datatype Label = Label(text: seq<u8>, selected: bool)

  /** `Label::update`: a label handles no event; it hands the signal back unchanged. */
  function LabelUpdate(l: Label, signal: Escher.UiEvent): (r: (Label, Escher.UiEvent))
    ensures r.0 == l && r.1 == signal
  {
    (l, signal)
  }

  /** `Label::requested_size`: five pixels per byte of text, ten pixels high. */
  function LabelRequestedSize(l: Label): (s: Escher.Size)
    ensures s.y == 10
    ensures s.x == 5 * |l.text|
  {
    Escher.Size(|l.text| * 5, 10)
  }

  /** `Label::set_selected`. */
  function LabelSetSelected(l: Label, selected: bool): (r: Label)
    ensures r.text == l.text
    ensures LabelGetSelected(r) == selected
  {
    l.(selected := selected)
  }

  /** `Label::get_selected`. */
  function LabelGetSelected(l: Label): bool
  {
    l.selected
  }
}
