# golf — a Dafny model of the state stack, the golf game and its utilities

This project models the core of *golf*, a small golf game written in Rust for
the NumWorks calculator. The model covers the following parts.

- **State stack** (`graphmgr`): a stack of screens. Each screen reacts to
  lifecycle hooks (`create`, `pause`, `resume`, `quit`) and to a per-frame
  `update` by returning a `StackAction`: `Push`, `Pop`, `Replace` or `Nop`.
  The manager resolves these actions at once and recursively, then runs the
  frame loop (update, render, sleep) until the stack is empty.
  - `StateStack` holds the specification functions: `AfterPush`, `AfterPop`,
    `AfterReplace`, `AfterFrame`, `AfterFrames` and `AfterRun`.
  - Its class `StateStack.StateManager` has the imperative methods proved
    against them.
  - Every call to a hook is recorded in a log, so lemmas can state which
    hooks fire and in what order.
- **Screens**: the main menu, the in-game "Leave ???" popup, the game-over
  screen and the golf game itself (`Menu`, `Popup`, `GameOver`, `Game`).
  - The golf game's per-frame step is `Game.GameStep`. The class
    `Game.GameState` runs it imperatively.
  - `App` puts these screens on the state stack. It proves end-to-end
    navigation: menu → game → Back → popup OK → menu, and win → game over →
    menu.
- **Golf physics**: the ball (`GolfBall`), the field modules and how they
  interact with the ball (`GolfModule`), and 2-D vectors over the reals
  (`Vec`).
- **Keyboard**: edge detection over consecutive 64-bit key scans, key codes,
  and the digit keys (`Keyboard`).
- **Display and device utilities**: RGB565 colours, rectangles, clipping,
  culling, NUL termination, and decimal `int_to_str` into a buffer
  (`Display`, `Eadk`).
- **UI toolkit**: the debug-text glyph lookup and cursor, the label, and the
  box-container layout (`Text`, `Components`).

Fixed-width integers are subset types of `int` (`u8`, `u16`, `u32`, `i32`
in `Wrappers`), with explicit wrap-around functions where the source's
arithmetic can wrap. Colours are `bv16` and key scans are `bv64`. The single-precision floats of the game are modelled as
`real`. The square root from libm is a function parameter `sqrt`. Lemmas that
need it assume `Vec.IsSqrt(sqrt)`.

## Model

| member | source | states |
|---|---|---|
| StateStack.SetTop | graphmgr/src/lib.rs:146-148 | storing back the top that `update` or a hook changed in place keeps the length and every state below the top, and puts the new value on top |
| StateStack.ExtendsTransitive | graphmgr/src/lib.rs:40-135 | "the hook log of a stack configuration only grows and exhaustion is never undone" composes over consecutive operations |
| StateStack.Log | graphmgr/src/lib.rs:40-135 | recording a lifecycle hook call only appends to the log |
| StateStack.AfterAction | graphmgr/src/lib.rs:55-66 | resolving any `StackAction` only appends to the hook log; `Nop` changes nothing |
| StateStack.AfterPush | graphmgr/src/lib.rs:40-68 | after `push_to_stack(s)` the stack is non-empty and its top is `s` (as left by its `create` hook), whatever nested actions the hooks triggered |
| StateStack.AfterPause | graphmgr/src/lib.rs:41-54 | pausing the top and resolving its action only appends to the hook log |
| StateStack.AfterQuit | graphmgr/src/lib.rs:71-84 | quitting the removed state and resolving its action only appends to the hook log |
| StateStack.AfterResume | graphmgr/src/lib.rs:87-100 | resuming the new top and resolving its action only appends to the hook log |
| StateStack.AfterPop | graphmgr/src/lib.rs:70-102 | `pop_from_stack` returns no state exactly when the stack was empty, and otherwise returns the removed top as its `quit` hook left it |
| StateStack.AfterReplace | graphmgr/src/lib.rs:104-135 | after `replace_top_stack(s)` the top is `s`; it returns the removed top, or no state when the stack was empty |
| StateStack.PopEmpty | graphmgr/src/lib.rs:70-86 | popping an empty stack returns no state, calls no hook and leaves the stack unchanged |
| StateStack.PopQuitsThenResumes | graphmgr/src/lib.rs:70-101 | popping calls `quit` on the removed top first; when a state remains after the quit has been resolved, the whole log of that quit is a prefix of the pop's log and the very next entry is `resume(msg)` on the new top |
| StateStack.PushPausesThenCreates | graphmgr/src/lib.rs:40-66 | pushing calls `pause` on the old top first, if there is one; when there is, the whole log of that resolved pause is a prefix of the push's log and the very next entry is `create(s)` |
| StateStack.ReplaceQuitsAndCreates | graphmgr/src/lib.rs:104-135 | with quiet hooks, replace logs exactly quit(top), if any, then create(s), and never pause or resume; the stack is the old stack without its top, plus `s` |
| StateStack.ReplaceOnEmpty | graphmgr/src/lib.rs:104-135 | replace on an empty stack still calls `create` and pushes the new state, returning no popped state |
| StateStack.NopPushGrows | graphmgr/src/lib.rs:40-68 | with every lifecycle hook returning `Nop`, push grows the stack by exactly one and keeps the states below |
| StateStack.NopPopShrinks | graphmgr/src/lib.rs:70-102 | with every lifecycle hook returning `Nop`, pop on a non-empty stack shrinks it by exactly one, and the resumed state becomes the top |
| StateStack.NopReplaceKeepsLength | graphmgr/src/lib.rs:104-135 | with every lifecycle hook returning `Nop`, replace on a non-empty stack keeps its length and changes only the top |
| StateStack.DefaultHooks | graphmgr/src/lib.rs:174-197 | a state that overrides only `update` and `render` keeps them as given |
| StateStack.DefaultHooksNop | graphmgr/src/lib.rs:174-197 | every default lifecycle hook returns `Nop` and leaves the state unchanged |
| StateStack.FrameInterval | graphmgr/src/lib.rs:142 | the frame interval is `1000 / fps` rounded down: the largest `ms` with `ms * fps <= 1000` |
| StateStack.SleepAmount | graphmgr/src/lib.rs:164-168 | the loop sleeps exactly when the frame took less than the interval, by a positive amount that completes the interval |
| StateStack.FrameLog | graphmgr/src/lib.rs:146-169 | a frame keeps the log so far and calls `update` on the top; render follows (then only sleeps) exactly after a `Nop` update; otherwise only lifecycle hooks follow |
| StateStack.AfterFrames | graphmgr/src/lib.rs:146-170 | the frame loop consumes at most the given input and stops early only when the stack has become empty |
| StateStack.FrameRendersAfterNop | graphmgr/src/lib.rs:148-163 | one frame preserves "every render call directly follows an update that returned `Nop`" |
| StateStack.FramesRenderAfterNop | graphmgr/src/lib.rs:146-170 | the whole frame loop preserves that render only follows a `Nop` update |
| StateStack.FramesUnroll | graphmgr/src/lib.rs:146-170 | on a non-empty stack the loop runs one frame on the first scan, then continues on the rest of the input |
| StateStack.FramesDone | graphmgr/src/lib.rs:146 | the loop does nothing once the stack is empty or the input is exhausted |
| StateStack.FramesStep | graphmgr/src/lib.rs:146-170 | the loop invariant of `run` advances by one frame |
| StateStack.RunRendersAfterNop | graphmgr/src/lib.rs:141-171 | in a whole `run` from an empty manager, render is only ever called right after an update that returned `Nop` |
| StateStack.StateManager.constructor | graphmgr/src/lib.rs:34-36 | a new manager has an empty stack and an empty log |
| StateStack.StateManager.Apply | graphmgr/src/lib.rs:55-66 | the in-place resolution of an action leaves the manager in the state `AfterAction` specifies |
| StateStack.StateManager.PushToStack | graphmgr/src/lib.rs:40-68 | the in-place `push_to_stack` leaves the stack and the log as `AfterPush` specifies |
| StateStack.StateManager.PopFromStack | graphmgr/src/lib.rs:70-102 | the in-place `pop_from_stack` returns the state and leaves the stack that `AfterPop` specifies |
| StateStack.StateManager.ReplaceTopStack | graphmgr/src/lib.rs:104-135 | the in-place `replace_top_stack` returns the state and leaves the stack that `AfterReplace` specifies |
| StateStack.StateManager.Frame | graphmgr/src/lib.rs:147-169 | one iteration of the `run` loop updates the stack as `AfterFrame` specifies |
| StateStack.StateManager.RunFrames | graphmgr/src/lib.rs:146-170 | the `while let` loop of `run`, driven by the input scans, ends in the state and frame count `AfterFrames` specifies |
| StateStack.StateManager.Run | graphmgr/src/lib.rs:141-171 | `run` pushes the initial state and loops until the stack is empty: if it stops before the input is used up the stack is empty, and while the stack is non-empty every frame is consumed |
| Keyboard.CodeRoundTrip | libnw/src/keyboard.rs:11-57 | every raw key's code decodes back to that key |
| Keyboard.CodeInjective | libnw/src/keyboard.rs:11-57 | two raw keys have the same bit index exactly when they are the same key |
| Keyboard.KeyDownAndNot | libnw/src/keyboard.rs:344-346 | key k is down in `!a & b` exactly when it is down in `b` and up in `a` |
| Keyboard.ToDigit | libnw/src/keyboard.rs:212-226 | a key has a digit value exactly when it is one of the ten digit keys `Zero`…`Nine`, and then the value is that key's position in the list |
| Keyboard.DigitKeysConvert | libnw/src/keyboard.rs:212-226 | the digit key for n (n < 10) converts to `Some(n)` |
| Keyboard.ToDigitInjective | libnw/src/keyboard.rs:212-226 | distinct keys never map to the same digit |
| Keyboard.IsDigitMissesEight | libnw/src/keyboard.rs:196-209 | as written, `is_digit(Eight)` is false while `to_digit(Eight)` is `Some(8)` |
| Keyboard.IsDigitAsWrittenElsewhere | libnw/src/keyboard.rs:196-226 | apart from Eight, the as-written `is_digit` agrees with `to_digit` |
| Keyboard.IsDigitIffToDigit | libnw/src/keyboard.rs:196-226 | the corrected `is_digit` holds exactly when `to_digit` gives a digit |
| Keyboard.WaitForInput | libnw/src/keyboard.rs:253-258 | waiting yields no key exactly for the `None` event, and otherwise the event's own key |
| Keyboard.JustPressedAfterFetch | libnw/src/keyboard.rs:298-312 | after `fetch`, a key is just pressed exactly when it is down in the new scan and was up in the previous one |
| Keyboard.JustReleasedAfterFetch | libnw/src/keyboard.rs:298-317 | after `fetch`, a key is just released exactly when it is up in the new scan and was down in the previous one |
| Keyboard.EdgesConsistent | libnw/src/keyboard.rs:300-317 | just pressed implies pressed, just released implies not pressed, and no key is both |
| Keyboard.MasksDisjoint | libnw/src/keyboard.rs:300-301 | the pressing and releasing masks share no bit |
| Keyboard.StartUpNoEdges | libnw/src/keyboard.rs:285-294 | fetching the same scan twice leaves no just-pressed and no just-released key, and the pressed keys are those down in the scan |
| Keyboard.KeyboardTimedState.constructor | libnw/src/keyboard.rs:285-294 | `new` fetches twice, so its edges are those between the two scans |
| Keyboard.KeyboardTimedState.Fetch | libnw/src/keyboard.rs:298-302 | `fetch` makes the edges those between the old current scan and the new one |
| Vec.Add | src/utils/vec.rs:23-31 | addition is componentwise |
| Vec.Sub | src/utils/vec.rs:34-42 | subtraction is componentwise |
| Vec.Mul | src/utils/vec.rs:12-20 | scalar multiplication is componentwise |
| Vec.LerpTo | src/utils/vec.rs:46-49 | `lerp_to(o, t)` moves by `t * (o - self)`: `t = 0` keeps the vector, `t = 1` gives `o` |
| Vec.Scale | src/utils/vec.rs:58-61 | scaling is scalar multiplication; scaling by 1 is the identity and by 0 gives zero |
| Vec.NormSqd | src/utils/vec.rs:75-79 | the squared norm is never negative |
| Vec.AddSubCancel | src/utils/vec.rs:23-42 | `(a + b) - b == a` |
| Vec.NormSqdZero | src/utils/vec.rs:75-79 | the squared norm is zero exactly for the zero vector |
| Vec.DotSelf | src/utils/vec.rs:124-130 | `dot(v, v)` equals `norm_sqd(v)` |
| Vec.NormSqdMul | src/utils/vec.rs:12-20 | `norm_sqd(v * k) == k² · norm_sqd(v)` |
| Vec.NormAboveOne | src/utils/vec.rs:68-72 | the norm is non-negative and exceeds 1 exactly when the squared norm does |
| Vec.NormalizeUnit | src/utils/vec.rs:82-89 | normalising a non-zero vector gives squared norm 1 |
| GolfBall.AtRest | src/game/ball.rs:15-22 | a ball at rest is at the given position with height 0 and zero velocity and launch vector |
| GolfBall.Rolled | src/game/ball.rs:31-34 | `update(d)` first scales the velocity by `d`, then adds the new velocity to the position; height and launch vector are kept |
| GolfBall.RolledAtRest | src/game/ball.rs:31-34 | a ball with zero velocity does not move |
| GolfBall.RolledSlowsDown | src/game/ball.rs:31-34 | a drag in [0, 1] never increases the speed |
| GolfBall.Launched | src/game/ball.rs:4-39 | `launch` sets the velocity to the old launch vector times −1.2 and clears the launch vector; the position is kept |
| GolfBall.LaunchedSpeed | src/game/ball.rs:4-39 | the launch speed squared is 1.44 times the launch vector's squared norm |
| GolfBall.Aimed | src/game/ball.rs:41-46 | aiming changes neither the position nor the velocity |
| GolfBall.AimedBounded | src/game/ball.rs:41-46 | after aiming the launch vector has norm at most 1, and it is the plain sum when that sum is already within 1 |
| GolfBall.Ball.constructor | src/game/ball.rs:15-22 | `Ball::new(p)` is the ball at rest at `p` |
| GolfBall.Ball.Reset | src/game/ball.rs:24-29 | `reset(p)` puts the ball at rest at `p` |
| GolfBall.Ball.Update | src/game/ball.rs:31-34 | the in-place `update` rolls the ball as `Rolled` specifies |
| GolfBall.Ball.Launch | src/game/ball.rs:36-39 | the in-place `launch` gives the `Launched` ball |
| GolfBall.Ball.MoveLaunch | src/game/ball.rs:41-46 | the in-place `move_launch` gives the `Aimed` ball |
| GolfModule.EmptyUpdate | src/game/module.rs:44-53 | an empty module reports `Out` exactly when the ball centre is outside its tile rectangle widened by 1, and `In(0.98)` otherwise |
| GolfModule.SquareEndUpdate | src/game/module.rs:88-105 | the end module reports `Out` exactly outside [pos−1, pos+17] on either axis, `Win` exactly inside [pos+6, pos+10] on both, and `In(0.98)` otherwise |
| GolfModule.Interact | src/game/module.rs:42-105 | no module ever reports `Dead`; every `In` carries drag 0.98; only the end module can report `Win` |
| GolfModule.WinImpliesOver | src/game/module.rs:88-105 | a module reports something other than `Out` exactly when the ball is over it, so `Win` implies the ball is over the module |
| Game.NewGame | src/game/game.rs:35-45 | a new game is not moving, has 0 attempts and unit size 3, spawns at the ball's position, and has the camera offset from it |
| Game.Zoom | src/game/game.rs:68-70 | the unit size always ends in [1, 8]; from a size in range it is `clamp(size + plus − minus, 1, 8)` |
| Game.CollectFirstStop | src/game/game.rs:74-90 | the module scan wins exactly at a `Win` with no `Dead` before it, dies exactly at a `Dead` with no `Win` before it, and otherwise collects the `In` drags in order |
| Game.CollectWon | src/game/game.rs:74-78 | the scan ends in a win exactly when some module reports `Win` and no earlier module reports `Dead` |
| Game.CollectDied | src/game/game.rs:79-83 | the scan stops dead exactly when some module reports `Dead` and no earlier one reports `Win` |
| Game.CollectDrags | src/game/game.rs:84-90 | the scan runs to the end exactly when every report is `In` or `Out`, and then yields the `In` drags in module order |
| Game.DeadBeforeWin | src/game/game.rs:74-90 | in any report list where a `Dead` comes at some index before a `Win` and no `Win` comes earlier, the scan stops dead, not won |
| Game.CollectNeverDies | src/game/game.rs:74-90 | with the modules of this game the scan never stops dead |
| Game.SumConstant | src/game/game.rs:97-100 | summing equal drags gives their count times the drag |
| Game.MeanConstant | src/game/game.rs:97-101 | the mean of equal drags is that drag |
| Game.MeanIsModuleDrag | src/game/game.rs:95-103 | whenever the ball is on some module, the mean drag applied is 0.98 |
| Game.InDragsAll | src/game/game.rs:84-87 | when every `In` report carries the same drag, every collected drag is that drag |
| Game.StopWhenSlow | src/game/game.rs:111-117 | a moving ball slower than the threshold (squared speed < 0.01) stops: velocity zero, not moving, nothing else changes; otherwise nothing changes |
| Game.LaunchIff | src/game/game.rs:118-142 | a ball at rest is launched exactly when OK or EXE was just pressed and the aimed launch vector's squared norm exceeds 0.01; launching counts one attempt (mod 256), and otherwise attempts are kept |
| Game.AimStaysShort | src/game/game.rs:118-133 | after aiming, the launch vector's norm is at most 1 |
| Game.FrameKeepsCourse | src/game/game.rs:63-150 | a frame keeps the modules and the spawn position and leaves the unit size in [1, 8] |
| Game.WinReplaces | src/game/game.rs:74-78 | the frame replaces the game exactly when a module reports `Win` before any `Dead`, and then the ball and attempts are untouched |
| Game.BackOpensPopup | src/game/game.rs:145-149 | without a win, the frame pushes the "Leave ???" popup exactly when Back was just pressed, and answers `Nop` otherwise |
| Game.ResetWhenOutside | src/game/game.rs:91-94 | when no module is under the ball, the frame counts an attempt, puts the ball at rest on the spawn position and stops it |
| Game.NoInNoDrags | src/game/game.rs:84-90 | when every module reports `Out`, no drag is collected |
| Game.RollsOverGrass | src/game/game.rs:95-103 | when the scan runs to the end with the ball on some module, the ball rolls with drag 0.98 |
| Game.SomeInSomeDrag | src/game/game.rs:84-87 | an `In` report always yields a collected drag |
| Game.Resume | src/game/game.rs:54-61 | the game's `resume` pops it with `PopMessage::None` exactly on `OkBackPopupIsOk(true)`, and otherwise does nothing |
| Game.GameState.constructor | src/game/game.rs:35-45 | `GameState::new` builds the state `NewGame` specifies around the given ball |
| Game.GameState.ScanModules | src/game/game.rs:72-90 | the labelled module loop reports a win exactly when the scan wins, the reset path exactly when it dies or collects no drag, and otherwise the collected drags |
| Game.GameState.Settle | src/game/game.rs:91-103 | the reset or mean-drag branch updates the game as `AfterModules` specifies |
| Game.GameState.Move | src/game/game.rs:111-143 | the moving/aiming match updates the game as `Motion` specifies |
| Game.GameState.Halt | src/game/game.rs:113-116 | stopping the ball updates the game as `Halted` specifies |
| Game.GameState.Swing | src/game/game.rs:119-141 | aiming and launching update the game as `Swung` specifies |
| Game.GameState.Fire | src/game/game.rs:134-141 | the launch branch updates the game as `Fired` specifies |
| Game.GameState.FollowBall | src/game/game.rs:105-109 | the camera lerp updates the game as `CameraFollow` specifies |
| Game.GameState.ChangeZoom | src/game/game.rs:67-70 | only the unit size changes, to the clamped zoom |
| Game.GameState.Update | src/game/game.rs:63-150 | the in-place `update` leaves the game and returns the action exactly as `GameStep` specifies |
| Menu.MenuUpdate | src/menu.rs:19-36 | OK or EXE pushes the first game, and takes precedence over Back; Back alone pops with `None`; with no relevant edge the result is `Nop`; the menu never replaces |
| Menu.FirstGameStartsOnGrass | src/menu.rs:20-30 | in the first game the ball starts on exactly one module, so the first frame rolls it with drag 0.98 rather than resetting it |
| Popup.PopupUpdate | src/game/popup.rs:12-22 | Back pops with `OkBackPopupIsOk(false)`, and takes precedence; OK or EXE without Back pops with `OkBackPopupIsOk(true)`; otherwise `Nop`, never push or replace |
| GameOver.GameOverUpdate | src/game/game_over.rs:12-22 | Back, OK or EXE pops with `None`, otherwise `Nop`; the stored attempt count never changes |
| App.AppFrameInterval | src/lib.rs:26-30 | the application runs at 60 fps, a 16 ms frame interval |
| App.AppHooksQuiet | graphmgr/src/lib.rs:174-197 | every screen keeps the default `Nop` create, pause and quit hooks; only the game overrides `resume`, and it pops itself on a "yes" from the popup |
| App.PushScreen | graphmgr/src/lib.rs:40-68 | over a non-empty stack of quiet screens a push logs pause(top) then create(s) and appends `s` |
| App.QuitScreen | graphmgr/src/lib.rs:71-84 | quitting the top of quiet screens removes it and logs the quit |
| App.ReplaceScreen | graphmgr/src/lib.rs:104-135 | replacing the top of quiet screens logs quit(top) then create(s) and swaps the top for `s` |
| App.ResumeScreen | graphmgr/src/lib.rs:87-100 | resuming a screen that is not a game logs the resume and changes nothing else |
| App.ResumeGameOnYes | src/game/game.rs:54-61 | resuming a game with a "yes" answer pops the game as well |
| App.PushFrame | graphmgr/src/lib.rs:148-157 | a frame whose update pushes `t` stores the updated top and appends `t` |
| App.ReplaceFrame | graphmgr/src/lib.rs:148-162 | a frame whose update replaces with `t` swaps the top for `t` |
| App.PopFrame | graphmgr/src/lib.rs:148-162 | a frame whose update pops, over a screen that is not a game, removes the top |
| App.PopupYesLeaves | graphmgr/src/lib.rs:70-102 | a "yes" from the popup over a game removes both the popup and the game |
| App.MenuOkStarts | src/menu.rs:20-30 | on the menu, OK or EXE pushes the first game |
| App.GameBackAsks | src/game/game.rs:145-149 | in a game without a win, Back pushes the "Leave ???" popup |
| App.GameWinAsks | src/game/game.rs:74-78 | a won game replaces itself with the game-over screen carrying its attempt count |
| App.PopupOkAnswers | src/game/popup.rs:15-18 | OK in the popup, without Back, answers "yes" |
| App.GameOverLeaves | src/game/game_over.rs:14-18 | OK, EXE or Back on the game-over screen pops it |
| App.MenuStartsGame | src/menu.rs:20-30 | from the menu alone, an OK frame leaves the stack as [menu, first game] |
| App.BackOpensPopup | src/game/game.rs:145-149 | from [menu, game], a Back frame leaves [menu, game, popup] |
| App.LeaveThroughPopup | src/game/popup.rs:12-22 | menu → game → Back → popup OK brings the stack back to [menu] |
| App.WinThenBackToMenu | src/game/game_over.rs:12-22 | from [menu, game], a winning frame gives [menu, game over], and OK, EXE or Back then returns to [menu] |
| App.RunApplication | src/lib.rs:26-30 | `main` runs the state manager from the main menu at 60 fps; its frame count is the one `AfterRun` specifies, at most the number of input frames |
| Display.FromSeparateRgb | libnw/src/display.rs:137-153 | `from_rgb(separate_rgb(c)) == c` for every 16-bit colour |
| Display.PackChannels | libnw/src/display.rs:137-153 | packing the three channels of a 16-bit value gives that value back |
| Display.SeparateFromRgb | libnw/src/display.rs:137-153 | `separate_rgb(from_rgb(r, g, b))` keeps `r & 0xF8`, `g & 0xFC` and `b & 0xF8` |
| Display.ChannelsOfPack | libnw/src/display.rs:137-153 | unpacking a packed triple keeps the channel bits RGB565 can hold |
| Display.ColorConstants | libnw/src/display.rs:156-165 | BLACK, WHITE, RED, GREEN and BLUE separate to their 0/255 channel triples |
| Display.NewSquare | libnw/src/display.rs:68-71 | a square has equal sides at the given corner |
| Display.NewPixel | libnw/src/display.rs:73-76 | a pixel has area 1 at the given corner |
| Display.AreaZero | libnw/src/display.rs:78-80 | the area, computed in u32 without overflow, is zero exactly when one side is zero |
| Display.ScreenSpaceClipping | libnw/src/display.rs:54-65 | the clipped rectangle lies within the 320 × 240 screen and is never larger than asked; an on-screen rectangle is kept |
| Display.Center | libnw/src/display.rs:108-111 | centring keeps the size and leaves equal margins, up to one pixel, on both axes |
| Display.CenterIdempotent | libnw/src/display.rs:108-111 | centring twice is centring once |
| Display.TerminateStr | libnw/src/display.rs:228-237 | the result ends in NUL and starts with the input; one NUL is appended exactly when the input does not already end in one |
| Display.TerminateStrIdempotent | libnw/src/display.rs:228-237 | terminating a terminated string changes nothing |
| Eadk.GetRedRaw | src/eadk.rs:61-64 | the red channel is below 32 |
| Eadk.GetGreenRaw | src/eadk.rs:71-74 | the green channel is below 64 |
| Eadk.GetBlueRaw | src/eadk.rs:81-84 | the blue channel is below 32 |
| Eadk.SetRedRawGet | src/eadk.rs:61-69 | after `set_red_raw(r)` the red channel is `r & 0x1F`, and green and blue are unchanged |
| Eadk.SetGreenRawGet | src/eadk.rs:71-79 | after `set_green_raw(g)` the green channel is `g & 0x3F`, and red and blue are unchanged |
| Eadk.SetBlueRawGet | src/eadk.rs:81-89 | after `set_blue_raw(b)` the blue channel is `b & 0x1F`, and red and green are unchanged |
| Eadk.SetOwnChannels | src/eadk.rs:61-89 | writing back a colour's own three channels leaves the colour unchanged |
| Eadk.RedBits | src/eadk.rs:66-69 | the red write sets bits 11-15 and keeps bits 0-10 |
| Eadk.GreenBits | src/eadk.rs:76-79 | the green write sets bits 5-10 and keeps the others |
| Eadk.BlueBits | src/eadk.rs:86-89 | the blue write sets bits 0-4 and keeps bits 5-15 |
| Eadk.OwnChannelBits | src/eadk.rs:66-89 | the three channel writes of a value's own fields rebuild the value |
| Eadk.ScreenSpaceCulling | src/eadk.rs:122-131 | the corner is clamped into the screen, and for a non-negative size the far edge is clamped too |
| Eadk.CullingOnScreen | src/eadk.rs:122-131 | for a non-negative size the culled rectangle lies within [0, 319] × [0, 239] |
| Eadk.CullingNegativeWidthWraps | src/eadk.rs:122-131 | a negative width wraps around in the u16 cast, giving a huge width |
| Eadk.IsDigitIffToDigit | src/eadk.rs:426-456 | an event is a digit exactly when `to_digit` gives a value |
| Eadk.KeyDownSingleKey | src/eadk.rs:290-292 | in a scan where only key k is held, `key_down` reports k down and every other key up |
| Eadk.Digits | src/eadk.rs:468-480 | the decimal representation has at least one character, all of them digits |
| Eadk.DigitsValue | src/eadk.rs:468-480 | the decimal digits read back as the number |
| Eadk.DigitsLength | src/eadk.rs:468-480 | a number has at most k digits exactly when it is below 10^k |
| Eadk.IntToStr | src/eadk.rs:468-480 | the decimal digits are written right-aligned to end at index 19, and every other byte of the buffer is untouched |
| Text.GlyphIndex | src/escher/text.rs:515-562 | the glyph index is below 44, and it is 0 exactly for bytes the font has no glyph for |
| Text.GlyphCaseInsensitive | src/escher/text.rs:517-542 | an upper-case letter has the glyph of its lower-case letter |
| Text.GlyphIndexInjective | src/escher/text.rs:517-560 | two bytes with glyphs share one exactly when they are the same letter up to case |
| Text.GetCharData | src/escher/text.rs:515-562 | the glyph data is exactly the 50 colours of the byte's slot in the table |
| Text.BuildColors | src/escher/text.rs:505-513 | each raw 16-bit value becomes the colour at the same index |
| Text.Advance | src/escher/text.rs:579-583 | the cursor moves 6 to the right, or wraps to column 0 and 11 rows down past column 314; it never ends past 314 |
| Text.DrawDebugText | src/escher/text.rs:566-586 | the loop returns the cursor after one advance per character and draws one glyph per character at the successive cursors |
| Text.CursorStaysOnScreen | src/escher/text.rs:579-583 | a cursor starting at or left of column 314 stays there after any number of characters |
| Text.AdvanceFromLineStart | src/escher/text.rs:566-586 | from the start of a line, n characters land at column 6·(n mod 53) and n / 53 lines down |
| Text.AdvanceNLast | src/escher/text.rs:566-586 | advancing n + 1 times is advancing n times, then once more |
| Text.DrawsShape | src/escher/text.rs:566-586 | one 5 × 10 draw per character, each of the character's own glyph |
| Text.LabelUpdate | src/escher/text.rs:594-596 | a label's `update` returns its signal unchanged and changes nothing |
| Text.LabelRequestedSize | src/escher/text.rs:621-626 | a label asks for 5 pixels per character by 10 |
| Text.LabelSetSelected | src/escher/text.rs:628-634 | setting the selection keeps the text, and `get_selected` then returns the value set |
| Components.RequestedSize | src/escher/components.rs:43-58 | a label asks for its own size; a box's width is exactly the child's width plus both margins when both horizontal margins are `Margin`, and the screen width 320 otherwise; likewise the height with the vertical margins and 240 |
| Components.UpdateHandsBack | src/escher/components.rs:60-62 | `update` forwards to the child, and the tree gives the signal back unchanged |
| Components.GetSelectedAfterSet | src/escher/components.rs:118-126 | `get_selected` after `set_selected(b)` returns `b` |
| Components.SetSelectedKeepsSize | src/escher/components.rs:118-121 | selecting never changes a component's requested size |
| Components.DivTrunc | src/escher/components.rs:81-84 | for a positive divisor the remainder `a - q·b` has the sign of `a` and is smaller than `b` in magnitude, which is division truncated toward zero as Rust's `/` does |
| Components.Axis | src/escher/components.rs:68-102 | on one axis, the size is the requested size; a `Margin` before gives that offset; `Extend` then `Margin` puts the child against the far margin; `Extend`/`Extend` centres it |
| Components.VerticalExtendAsWritten | src/escher/components.rs:92-102 | as written, a vertically extended box is laid out 320 high and centred in 320, while it asks for 240 |
| Components.LayoutMatchesRequest | src/escher/components.rs:43-102 | the corrected layout has the size `requested_size` asks for on both axes, and centres vertically in the 240-pixel screen |
| Components.BoxColor | src/escher/components.rs:105-114 | the box is drawn in the selection colour exactly when it is selected |
| Wrappers.Clamp | src/game/game.rs:70 | `clamp` stays in bounds, keeps in-range values and maps out-of-range values to the nearer bound |
| Wrappers.WrapI8 | src/game/game.rs:70 | the `as i8` cast lands in [−128, 127] and agrees with the input mod 256 |
| Wrappers.WrapU8 | src/game/game.rs:92 | the u8 wrap agrees with the input mod 256 |
| Wrappers.WrapU16 | src/eadk.rs:122-131 | the u16 cast agrees with the input mod 65536 |

## Left out

- Rendering and display calls are not modelled. This covers every `render`/`erase` body, `push_rect`, `push_rect_uniform`, `draw_string`, `wait_for_vblank`, `get_rect`/`pull_rect`, `set_pixel` and `fill_with_buf`. The screen is hardware behind foreign calls. The frame loop records a `Render` entry in its log instead, and `draw_debug_text` yields a list of glyph draws.
- Time and the keyboard hardware are inputs to `run`. The monotonic clock, `msleep` and the key-scan call become a sequence of frame inputs: a 64-bit scan plus the elapsed milliseconds. Sleeping is recorded as a `Sleep` log entry.
- StateStack.AfterPush, StateStack.AfterPop, StateStack.AfterReplace, StateStack.AfterAction: nested resolution is bounded by a `fuel` argument, because hooks may push forever. Running out of fuel sets an `exhausted` flag, which stands for the device running out of call stack. Unbounded recursion is not modelled.
- Floating point: the `f32` physics is modelled over `real`, so rounding is not modelled. `sqrtf` from libm is a parameter; `Vec.IsSqrt` states what it must satisfy.
- `Color::lerp`, `rotate`/`rotated` and `Vec2::to_int` are not modelled: they are float and libm computations that the game core does not use.
- `Vec2`, `Rect`, `Color` and the key-edge snapshot are small `Copy` value types, so they are datatypes. Their `&mut self` methods become functions that return the updated value: `lerp_to`, `scale`, `normalize`, `center` and `set_*_raw`. The structs that hold them (`Ball`, `GameState`, `KeyboardTimedState`) are classes, and they assign the new value to their field.
- Game.GameState.Update: key queries go through a `Controls` record of the nine key facts the frame reads. The record is computed once from the key edges (`Game.ControlsOf`).
- GolfModule.EmptyUpdate, GolfModule.SquareEndUpdate: module positions and sizes are unbounded integers, so `i32` overflow of `pos + TILE_SIZE * size` is not modelled.
- Eadk.IntToStr: `usize` is unbounded here, and the requirement of at most 19 digits replaces the underflow of `pos` after index 0.
- `GameState::create` and the `render` hooks of every screen only draw, so each is the default that keeps the state.
- `Display for Key` (a `format!` wrapper) is not modelled. Neither is the glyph bitmap table, which stays an opaque sequence of 44 × 50 colours.
- `graphics::Buffer` and `Rect::half_screen_space_clipping` are not part of this model.
- The older `src/golf/*` generation, `src/main.rs`, `src/escher/mod.rs`, and the panic, allocation, backlight, timing and random bindings of `src/eadk.rs` are not part of this model.
- The module loop follows the code, not an idealised rule. The first `Win` returns at once, and the first `Dead` stops the loop and forces a reset, even after earlier `In` reports (src/game/game.rs:74-90).
- Game.GameState.Settle, Game.GameState.Fire, Game.AfterModules, Game.Fired: the `u8` attempt counter (src/game/game.rs:92 and :137) wraps from 255 to 0 as in a release build. A debug build would panic there instead, and that panic is not modelled.
- Text.Advance: `x += 6` and `y += 11` (src/escher/text.rs:579-582) wrap as `u16` in a release build; a debug build's panic is not modelled. The contract pins the next cursor only while `x + 6` stays within `u16`; past that it states only that the column ends at most 314.
- Eadk.ScreenSpaceCulling: the `i32` additions `x + width` and `y + height` must not overflow (a `requires`). The overflowing inputs, which wrap in a release build and panic in a debug build, are not modelled.
- Components.RequestedSize, Components.AxisRequest, Text.LabelRequestedSize: sizes are unbounded integers. The `i32` sums of child size and margins and the `len() as i32 * 5` cast (src/escher/text.rs:621-626) are not truncated, so sizes beyond `i32` are not modelled.
- Game.Zoom: for a stored unit size outside [1, 8] the contract states only the bound. Such sizes are never reached, because `NewGame` starts at 3 and every frame clamps.

## Findings

| source | as written | input that shows it | evidently intended | confidence | as-written member | corrected member |
|---|---|---|---|---|---|---|
| libnw/src/keyboard.rs:196-209 | `is_digit` lists Zero to Nine but leaves out Eight | `Key::Eight`: `is_digit` is false, yet `to_digit` gives `Some(8)` | `is_digit(k)` exactly when `to_digit(k)` is `Some` | high, not executed | Keyboard.IsDigitMissesEight | Keyboard.IsDigitIffToDigit |
| src/escher/components.rs:92-102 | the vertical `Extend` cases of `render` use `SCREEN_WIDTH` (320) for the height and the vertical offset | a box with both vertical margins `Extend` around an empty label (0 × 10): `render` lays it out 320 high at y = 155, while `requested_size` asks for 240 | the vertical axis uses `SCREEN_HEIGHT` (240), as `requested_size` does at line 55 | medium, not executed | Components.VerticalExtendAsWritten | Components.LayoutMatchesRequest |
