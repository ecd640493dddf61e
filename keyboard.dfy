/**
 * Keyboard state and key edges (libnw/src/keyboard.rs).
 *
 * A keyboard scan is a 64-bit mask with one bit per hardware key. The scan itself
 * (`eadk_keyboard_scan`) and the event source (`eadk_event_get`) are foreign calls:
 * here their results are parameters.
 */
module Keyboard {
  import opened Wrappers

  /** A hardware key; `Code` is its `#[repr(u8)]` discriminant, the bit it occupies in a scan. */
  datatype RawKey =
    | Left | Up | Down | Right | Ok | Back | Home | OnOff
    | Shift | Alpha | Xnt | Var | Toolbox | Backspace
    | Exp | Ln | Log | Imaginary | Comma | Power
    | Sine | Cosine | Tangent | Pi | Sqrt | Square
    | Seven | Eight | Nine | LeftParenthesis | RightParenthesis
    | Four | Five | Six | Multiplication | Division
    | One | Two | Three | Plus | Minus
    | Zero | Dot | Ee | Ans | Exe

  /** Every key code fits in a 64-bit scan (the largest is `Exe = 52`). */
  function Code(k: RawKey): (r: bv64)
    ensures r <= 52
  {
    match k
    case Left => 0
    case Up => 1
    case Down => 2
    case Right => 3
    case Ok => 4
    case Back => 5
    case Home => 6
    case OnOff => 8
    case Shift => 12
    case Alpha => 13
    case Xnt => 14
    case Var => 15
    case Toolbox => 16
    case Backspace => 17
    case Exp => 18
    case Ln => 19
    case Log => 20
    case Imaginary => 21
    case Comma => 22
    case Power => 23
    case Sine => 24
    case Cosine => 25
    case Tangent => 26
    case Pi => 27
    case Sqrt => 28
    case Square => 29
    case Seven => 30
    case Eight => 31
    case Nine => 32
    case LeftParenthesis => 33
    case RightParenthesis => 34
    case Four => 36
    case Five => 37
    case Six => 38
    case Multiplication => 39
    case Division => 40
    case One => 42
    case Two => 43
    case Three => 44
    case Plus => 45
    case Minus => 46
    case Zero => 48
    case Dot => 49
    case Ee => 50
    case Ans => 51
    case Exe => 52
  }

  /** The key of a bit of a scan, for the bits that are keys. */
  function KeyOfCode(code: int): (r: Option<RawKey>)
  {
    if code == 0 then Some(RawKey.Left) else if code == 1 then Some(RawKey.Up)
    else if code == 2 then Some(RawKey.Down) else if code == 3 then Some(RawKey.Right)
    else if code == 4 then Some(RawKey.Ok) else if code == 5 then Some(RawKey.Back)
    else if code == 6 then Some(RawKey.Home) else if code == 8 then Some(RawKey.OnOff)
    else if code == 12 then Some(RawKey.Shift) else if code == 13 then Some(RawKey.Alpha)
    else if code == 14 then Some(RawKey.Xnt) else if code == 15 then Some(RawKey.Var)
    else if code == 16 then Some(RawKey.Toolbox) else if code == 17 then Some(RawKey.Backspace)
    else if code == 18 then Some(RawKey.Exp) else if code == 19 then Some(RawKey.Ln)
    else if code == 20 then Some(RawKey.Log) else if code == 21 then Some(RawKey.Imaginary)
    else if code == 22 then Some(RawKey.Comma) else if code == 23 then Some(RawKey.Power)
    else if code == 24 then Some(RawKey.Sine) else if code == 25 then Some(RawKey.Cosine)
    else if code == 26 then Some(RawKey.Tangent) else if code == 27 then Some(RawKey.Pi)
    else if code == 28 then Some(RawKey.Sqrt) else if code == 29 then Some(RawKey.Square)
    else if code == 30 then Some(RawKey.Seven) else if code == 31 then Some(RawKey.Eight)
    else if code == 32 then Some(RawKey.Nine) else if code == 33 then Some(RawKey.LeftParenthesis)
    else if code == 34 then Some(RawKey.RightParenthesis) else if code == 36 then Some(RawKey.Four)
    else if code == 37 then Some(RawKey.Five) else if code == 38 then Some(RawKey.Six)
    else if code == 39 then Some(RawKey.Multiplication) else if code == 40 then Some(RawKey.Division)
    else if code == 42 then Some(RawKey.One) else if code == 43 then Some(RawKey.Two)
    else if code == 44 then Some(RawKey.Three) else if code == 45 then Some(RawKey.Plus)
    else if code == 46 then Some(RawKey.Minus) else if code == 48 then Some(RawKey.Zero)
    else if code == 49 then Some(RawKey.Dot) else if code == 50 then Some(RawKey.Ee)
    else if code == 51 then Some(RawKey.Ans) else if code == 52 then Some(RawKey.Exe)
    else Option.None
  }

  /** Every key is found back from its bit. */
  lemma CodeRoundTrip(k: RawKey)
    ensures KeyOfCode(Code(k) as int) == Some(k)
  {
    match k
    case Left => case Up => case Down => case Right => case Ok => case Back => case Home => case OnOff =>
    case Shift => case Alpha => case Xnt => case Var => case Toolbox => case Backspace =>
    case Exp => case Ln => case Log => case Imaginary => case Comma => case Power =>
    case Sine => case Cosine => case Tangent => case Pi => case Sqrt => case Square =>
    case Seven => case Eight => case Nine => case LeftParenthesis => case RightParenthesis =>
    case Four => case Five => case Six => case Multiplication => case Division =>
    case One => case Two => case Three => case Plus => case Minus =>
    case Zero => case Dot => case Ee => case Ans => case Exe =>
  }

  /** Distinct keys occupy distinct bits of a scan. */
  lemma CodeInjective(a: RawKey, b: RawKey)
    ensures Code(a) == Code(b) <==> a == b
  {
    if Code(a) == Code(b) {
      var code := Code(a) as int;
      CodeRoundTrip(a);
      CodeRoundTrip(b);
      assert Some(a) == KeyOfCode(code) == Some(b);
    }
  }

  /** Bit `n` of a scan. */
  predicate BitSet(state: bv64, n: bv64)
    requires n < 64
  {
    (state >> n) & 1 != 0
  }

  /** `eadk::keyboard_key_down`: bit `Code(k)` of the scan. */
  predicate KeyboardKeyDown(state: bv64, k: RawKey)
  {
    BitSet(state, Code(k))
  }

  /** The bit of a key in `!a & b` is set exactly when it is set in `b` and clear in `a`. */
  lemma KeyDownAndNot(a: bv64, b: bv64, k: RawKey)
    ensures KeyboardKeyDown(!a & b, k) <==> KeyboardKeyDown(b, k) && !KeyboardKeyDown(a, k)
  {
    BitAndNot(a, b, Code(k));
  }

  /** A mask with only bit `a` set has bit `b` set exactly when `b` is `a`. */
  lemma SingleBit(a: bv64, b: bv64)
    requires a < 64 && b < 64
    ensures BitSet(1 << a, b) <==> a == b
  {
  }

  lemma BitAndNot(a: bv64, b: bv64, n: bv64)
    requires n < 64
    ensures BitSet(!a & b, n) <==> BitSet(b, n) && !BitSet(a, n)
  {
  }

  /** A key press event (`#[repr(u16)]`); `None` is what the event source gives when no key was pressed. */
  datatype Key =
    | Left | Up | Down | Right | Ok | Back
    | Shift | Alpha | Xnt | Var | Toolbox | Backspace
    | Exp | Ln | Log | Imaginary | Comma | Power
    | Sine | Cosine | Tangent | Pi | Sqrt | Square
    | Seven | Eight | Nine | LeftParenthesis | RightParenthesis
    | Four | Five | Six | Multiplication | Division
    | One | Two | Three | Plus | Minus
    | Zero | Dot | Ee | Ans | Exe
    | ShiftLeft | ShiftUp | ShiftDown | ShiftRight
    | AlphaLock | Cut | Copy | Paste | Clear
    | LeftBracket | RightBracket | LeftBrace | RightBrace | Underscore
    | Sto | Arcsine | Arccosine | Arctangent | Equal | Lower | Greater
    | Colon | Semicolon | DoubleQuotes | Percent
    | LowerA | LowerB | LowerC | LowerD | LowerE | LowerF | LowerG
    | LowerH | LowerI | LowerJ | LowerK | LowerL | LowerM | LowerN
    | LowerO | LowerP | LowerQ | LowerR | LowerS | LowerT | LowerU
    | LowerV | LowerW | LowerX | LowerY | LowerZ
    | Space | Question | Exclamation
    | UpperA | UpperB | UpperC | UpperD | UpperE | UpperF | UpperG
    | UpperH | UpperI | UpperJ | UpperK | UpperL | UpperM | UpperN
    | UpperO | UpperP | UpperQ | UpperR | UpperS | UpperT | UpperU
    | UpperV | UpperW | UpperX | UpperY | UpperZ
    | None

  /** The ten digit keys, each at the index of the digit it stands for. */
  const DigitKeys: seq<Key> :=
    [Key.Zero, Key.One, Key.Two, Key.Three, Key.Four, Key.Five, Key.Six, Key.Seven, Key.Eight, Key.Nine]

  /**
   * `Key::to_digit`: the digit a key stands for, for exactly the ten digit keys; the
   * digit is the key's index in `DigitKeys`.
   */
  function ToDigit(k: Key): (r: Option<u8>)
    ensures r.Some? ==> r.value <= 9
    ensures r.Some? <==> k in DigitKeys
    ensures r.Some? ==> DigitKeys[r.value] == k
  {
    match k
    case Zero => Some(0)
    case One => Some(1)
    case Two => Some(2)
    case Three => Some(3)
    case Four => Some(4)
    case Five => Some(5)
    case Six => Some(6)
    case Seven => Some(7)
    case Eight => Some(8)
    case Nine => Some(9)
    case _ => Option.None
  }

  /** The digit key at index `n` converts to the digit `n`. */
  lemma DigitKeysConvert(n: nat)
    requires n < 10
    ensures ToDigit(DigitKeys[n]) == Some(n)
  {
  }

  /** Each digit 0..9 has exactly one key, so `ToDigit` is injective where it is defined. */
  lemma ToDigitInjective(a: Key, b: Key)
    requires ToDigit(a).Some? && ToDigit(a) == ToDigit(b)
    ensures a == b
  {
  }

  /** `Key::is_digit` as written: the list of digit keys leaves out `Eight`. */
  predicate IsDigitAsWritten(k: Key)
  {
    k in {Key.One, Key.Two, Key.Three, Key.Four, Key.Five, Key.Six, Key.Seven, Key.Nine, Key.Zero}
  }

  /** The discrepancy: `Eight` converts to the digit 8 but is not reported as a digit. */
  lemma IsDigitMissesEight()
    ensures ToDigit(Key.Eight) == Some(8)
    ensures !IsDigitAsWritten(Key.Eight)
  {
  }

  /** Everywhere else the written `is_digit` agrees with `to_digit`. */
  lemma IsDigitAsWrittenElsewhere(k: Key)
    requires k != Key.Eight
    ensures IsDigitAsWritten(k) <==> ToDigit(k).Some?
  {
  }

  /** `Key::is_digit` as intended: all ten digit keys. */
  predicate IsDigit(k: Key)
  {
    k in {Key.Zero, Key.One, Key.Two, Key.Three, Key.Four, Key.Five, Key.Six, Key.Seven, Key.Eight, Key.Nine}
  }

  /** The corrected `is_digit` holds exactly for the keys that `to_digit` converts. */
  lemma IsDigitIffToDigit(k: Key)
    ensures IsDigit(k) <==> ToDigit(k).Some?
  {
  }

  /** The mapping inside `wait_for_input`: the event `None` becomes "no key". */
  function WaitForInput(event: Key): (r: Option<Key>)
    ensures r == Option.None <==> event == Key.None
    ensures r.Some? ==> r.value == event
  {
    match event
    case None => Option.None
    case _ => Some(event)
  }

  /**
   * A snapshot of `KeyboardTimedState`: the current scan and the masks of keys that went
   * down (`pressing`) and up (`releasing`) since the previous scan.
   */
  datatype KeyEdges = KeyEdges(current: bv64, pressing: bv64, releasing: bv64)

  /** Keys down in `scan` that were up in `previous`. */
  function Pressing(previous: bv64, scan: bv64): bv64
  {
    !previous & scan
  }

  /** Keys up in `scan` that were down in `previous`. */
  function Releasing(previous: bv64, scan: bv64): bv64
  {
    previous & !scan
  }

  /** The state `fetch` leaves when it reads `scan` and the previous scan was `previous`. */
  function EdgesAfter(previous: bv64, scan: bv64): KeyEdges
  {
    KeyEdges(scan, Pressing(previous, scan), Releasing(previous, scan))
  }

  /** `is_key_pressed`. */
  predicate IsKeyPressed(e: KeyEdges, k: RawKey)
  {
    KeyboardKeyDown(e.current, k)
  }

  /** `is_key_just_pressed`. */
  predicate IsKeyJustPressed(e: KeyEdges, k: RawKey)
  {
    KeyboardKeyDown(e.pressing, k)
  }

  /** `is_key_just_released`. */
  predicate IsKeyJustReleased(e: KeyEdges, k: RawKey)
  {
    KeyboardKeyDown(e.releasing, k)
  }

  /** After a fetch, a key is just pressed exactly when it is down now and was up before. */
  lemma JustPressedAfterFetch(previous: bv64, scan: bv64, k: RawKey)
    ensures IsKeyJustPressed(EdgesAfter(previous, scan), k)
        <==> KeyboardKeyDown(scan, k) && !KeyboardKeyDown(previous, k)
  {
    KeyDownAndNot(previous, scan, k);
  }

  /** After a fetch, a key is just released exactly when it is up now and was down before. */
  lemma JustReleasedAfterFetch(previous: bv64, scan: bv64, k: RawKey)
    ensures IsKeyJustReleased(EdgesAfter(previous, scan), k)
        <==> !KeyboardKeyDown(scan, k) && KeyboardKeyDown(previous, k)
  {
    assert Releasing(previous, scan) == !scan & previous;
    KeyDownAndNot(scan, previous, k);
  }

  /**
   * In every state a fetch leaves, just-pressed keys are pressed, just-released keys are
   * not, and no key is both.
   */
  lemma EdgesConsistent(previous: bv64, scan: bv64, k: RawKey)
    ensures IsKeyJustPressed(EdgesAfter(previous, scan), k) ==> IsKeyPressed(EdgesAfter(previous, scan), k)
    ensures IsKeyJustReleased(EdgesAfter(previous, scan), k) ==> !IsKeyPressed(EdgesAfter(previous, scan), k)
    ensures !(IsKeyJustPressed(EdgesAfter(previous, scan), k) && IsKeyJustReleased(EdgesAfter(previous, scan), k))
  {
    JustPressedAfterFetch(previous, scan, k);
    JustReleasedAfterFetch(previous, scan, k);
  }

  /** The two edge masks never share a bit. */
  lemma MasksDisjoint(previous: bv64, scan: bv64)
    ensures Pressing(previous, scan) & Releasing(previous, scan) == 0
  {
  }

  /** When the two start-up scans agree, `new` reports no edge at all, whatever is held down. */
  lemma StartUpNoEdges(scan: bv64, k: RawKey)
    ensures !IsKeyJustPressed(EdgesAfter(scan, scan), k)
    ensures !IsKeyJustReleased(EdgesAfter(scan, scan), k)
    ensures IsKeyPressed(EdgesAfter(scan, scan), k) <==> KeyboardKeyDown(scan, k)
  {
    JustPressedAfterFetch(scan, scan, k);
    JustReleasedAfterFetch(scan, scan, k);
  }

  /** `KeyboardTimedState`: its three masks are updated in place by `fetch`. */
  class KeyboardTimedState {
    var current: bv64
    var pressing: bv64
    var releasing: bv64

    /** The value that `update` hooks receive by shared reference. */
    function Snapshot(): KeyEdges
      reads this
    {
      KeyEdges(current, pressing, releasing)
    }

    /**
     * `new`: starts from all-zero masks and fetches twice, so the edges of the first scan
     * are discarded and only the change between `scan0` and `scan1` is reported.
     */
    constructor (scan0: bv64, scan1: bv64)
      ensures Snapshot() == EdgesAfter(scan0, scan1)
    {
      current, pressing, releasing := 0, 0, 0;
      new;
      Fetch(scan0);
      Fetch(scan1);
    }

    /** `fetch`: `scan` becomes current and the edge masks compare it with the previous scan. */
    method Fetch(scan: bv64)
      modifies this
      ensures Snapshot() == EdgesAfter(old(current), scan)
    {
      var previous := current;
      current, pressing, releasing := scan, Pressing(previous, scan), Releasing(previous, scan);
    }
  }
}
