/**
 * The golf game screen (src/game/game.rs). `GameState` is a class whose `update` changes
 * its fields frame by frame; it is proved equal to `GameStep`, a function on `GameData`,
 * the value of those fields, and the properties of a frame are stated about `GameStep`
 * and its stages.
 */
module Game {
  import opened Wrappers
  import opened Vec
  import Keyboard
  import opened StateStack
  import PopMessages
  import opened GolfModule
  import opened GolfBall
  import Popup
  import GameOver

  /** `CAM_OFFSET`: half the screen, so that the camera centres on its target. */
  const CamOffset: Vec2 := Vec2(160.0, 120.0)
  /** `CAM_MOVE_SPEED`: the fraction of the way the camera moves toward the ball each frame. */
  const CamMoveSpeed: real := 0.04
  /** The squared speed below which a rolling ball stops, and the squared aim above which it may be launched. */
  const SpeedThreshold: real := 0.01
  /** The question of the popup Back opens. */
  const LeaveText: string := "Leave ???"

  /** The states the game screen pushes or replaces itself with. */
  datatype Child = Over(over: GameOver.GameOverState) | Leave(popup: Popup.PopupState)

  /** The fields of a `GameState`. */
  datatype GameData = GameData(isMoving: bool, modules: seq<Module>, camPos: Vec2, spawnPos: Vec2,
                               ball: BallData, attempts: u8, unitSize: u8)

  /**
   * `GameState::new`: a still ball that respawns where it starts, a camera centred on it,
   * no attempt yet and a zoom of 3.
   */
  function NewGame(modules: seq<Module>, ball: BallData): (g: GameData)
    ensures !g.isMoving && g.modules == modules && g.ball == ball
    ensures g.spawnPos == ball.pos && g.camPos == Sub(ball.pos, CamOffset)
    ensures g.attempts == 0 && g.unitSize == 3
  {
    GameData(false, modules, Sub(ball.pos, CamOffset), ball.pos, ball, 0, 3)
  }

  /**
   * The key queries `update` makes on the keyboard state: Plus and Minus just pressed
   * (zoom), Shift and the arrows held (aim), OK or EXE just pressed (shoot), Back just
   * pressed (leave).
   */
  datatype Controls = Controls(plus: bool, minus: bool, shift: bool, left: bool, right: bool,
                               up: bool, down: bool, shoot: bool, back: bool)

  /** The answers of the keyboard state `e` to those queries. */
  function ControlsOf(e: Keyboard.KeyEdges): Controls
  {
    Controls(Keyboard.IsKeyJustPressed(e, Keyboard.RawKey.Plus), Keyboard.IsKeyJustPressed(e, Keyboard.RawKey.Minus),
             Keyboard.IsKeyPressed(e, Keyboard.RawKey.Shift),
             Keyboard.IsKeyPressed(e, Keyboard.RawKey.Left), Keyboard.IsKeyPressed(e, Keyboard.RawKey.Right),
             Keyboard.IsKeyPressed(e, Keyboard.RawKey.Up), Keyboard.IsKeyPressed(e, Keyboard.RawKey.Down),
             Keyboard.IsKeyJustPressed(e, Keyboard.RawKey.Ok) || Keyboard.IsKeyJustPressed(e, Keyboard.RawKey.Exe),
             Keyboard.IsKeyJustPressed(e, Keyboard.RawKey.Back))
  }

  /** `b as i8` for a boolean. */
  function Flag(b: bool): int
  {
    if b then 1 else 0
  }

  /** The zoom change of a frame: +1 for a press of Plus, -1 for a press of Minus. */
  function ZoomDelta(c: Controls): int
  {
    Flag(c.plus) - Flag(c.minus)
  }

  /**
   * The zoom after a frame: the `u8` is read as an `i8`, the change added with `i8`
   * wrap-around, and the sum clamped to [1, 8]. From a zoom in [1, 8] it is just the
   * clamped sum; from any zoom it lands in [1, 8].
   */
  function Zoom(unitSize: u8, c: Controls): (r: u8)
    ensures 1 <= r <= 8
    ensures 1 <= unitSize <= 8 ==> r == Clamp(unitSize + ZoomDelta(c), 1, 8)
  {
    Clamp(WrapI8(WrapI8(unitSize) + ZoomDelta(c)), 1, 8)
  }

  /** What each module reports about the ball at `p`, in module order. */
  function Reports(ms: seq<Module>, p: Vec2): (rs: seq<BallInteraction>)
    ensures |rs| == |ms|
    ensures forall i :: 0 <= i < |ms| ==> rs[i] == Interact(ms[i], p)
  {
    seq(|ms|, i requires 0 <= i < |ms| => Interact(ms[i], p))
  }

  /** The result of the module loop: a win, a death, or the drags of the modules the ball is in. */
  datatype Outcome = Won | Died | Drags(ds: seq<real>)

  /** `ds` put in front of the drags of `o`; a win or a death is kept. */
  function Prefixed(ds: seq<real>, o: Outcome): Outcome
  {
    if o.Drags? then Drags(ds + o.ds) else o
  }

  lemma PrefixedAppend(ds: seq<real>, d: real, o: Outcome)
    ensures Prefixed(ds, Prefixed([d], o)) == Prefixed(ds + [d], o)
  {
    if o.Drags? {
      assert ds + ([d] + o.ds) == (ds + [d]) + o.ds;
    }
  }

  /**
   * The module loop of `update`, in module order: the first `Win` wins and the first
   * `Dead` stops the loop, whichever comes first; `In` adds its drag; `Out` is skipped.
   */
  function Collect(rs: seq<BallInteraction>): Outcome
  {
    if rs == [] then Drags([])
    else match rs[0]
      case Win => Won
      case Dead => Died
      case In(d) => Prefixed([d], Collect(rs[1..]))
      case Out => Collect(rs[1..])
  }

  /** The drags of the `In` reports, in order. */
  function InDrags(rs: seq<BallInteraction>): seq<real>
  {
    if rs == [] then [] else (if rs[0].In? then [rs[0].drag] else []) + InDrags(rs[1..])
  }

  /**
   * The loop ends in a win exactly when some module reports `Win` and no module before it
   * reports `Dead`, and in a death exactly when some module reports `Dead` and none before
   * it `Win`; otherwise it collects the drags of all `In` reports.
   */
  lemma CollectFirstStop(rs: seq<BallInteraction>)
    ensures Collect(rs) == Won <==>
      exists i :: 0 <= i < |rs| && rs[i] == Win && forall j :: 0 <= j < i ==> rs[j] != Dead
    ensures Collect(rs) == Died <==>
      exists i :: 0 <= i < |rs| && rs[i] == Dead && forall j :: 0 <= j < i ==> rs[j] != Win
    ensures Collect(rs).Drags? <==> forall i :: 0 <= i < |rs| ==> rs[i].Out? || rs[i].In?
    ensures Collect(rs).Drags? ==> Collect(rs).ds == InDrags(rs)
  {
    CollectWon(rs);
    CollectDied(rs);
    CollectDrags(rs);
  }

  lemma {:induction false} CollectWon(rs: seq<BallInteraction>)
    ensures Collect(rs) == Won <==>
      exists i :: 0 <= i < |rs| && rs[i] == Win && forall j :: 0 <= j < i ==> rs[j] != Dead
  {
    if rs != [] && rs[0] != Win && rs[0] != Dead {
      var rest := rs[1..];
      CollectWon(rest);
      if exists i :: 0 <= i < |rs| && rs[i] == Win && forall j :: 0 <= j < i ==> rs[j] != Dead {
        var i :| 0 <= i < |rs| && rs[i] == Win && forall j :: 0 <= j < i ==> rs[j] != Dead;
        assert rest[i - 1] == Win && forall j :: 0 <= j < i - 1 ==> rest[j] == rs[j + 1] != Dead;
      }
      if exists i :: 0 <= i < |rest| && rest[i] == Win && forall j :: 0 <= j < i ==> rest[j] != Dead {
        var i :| 0 <= i < |rest| && rest[i] == Win && forall j :: 0 <= j < i ==> rest[j] != Dead;
        assert rs[i + 1] == Win && forall j :: 0 <= j < i + 1 ==> rs[j] != Dead;
      }
    }
  }

  lemma {:induction false} CollectDied(rs: seq<BallInteraction>)
    ensures Collect(rs) == Died <==>
      exists i :: 0 <= i < |rs| && rs[i] == Dead && forall j :: 0 <= j < i ==> rs[j] != Win
  {
    if rs != [] && rs[0] != Win && rs[0] != Dead {
      var rest := rs[1..];
      CollectDied(rest);
      if exists i :: 0 <= i < |rs| && rs[i] == Dead && forall j :: 0 <= j < i ==> rs[j] != Win {
        var i :| 0 <= i < |rs| && rs[i] == Dead && forall j :: 0 <= j < i ==> rs[j] != Win;
        assert rest[i - 1] == Dead && forall j :: 0 <= j < i - 1 ==> rest[j] == rs[j + 1] != Win;
      }
      if exists i :: 0 <= i < |rest| && rest[i] == Dead && forall j :: 0 <= j < i ==> rest[j] != Win {
        var i :| 0 <= i < |rest| && rest[i] == Dead && forall j :: 0 <= j < i ==> rest[j] != Win;
        assert rs[i + 1] == Dead && forall j :: 0 <= j < i + 1 ==> rs[j] != Win;
      }
    }
  }

  lemma {:induction false} CollectDrags(rs: seq<BallInteraction>)
    ensures Collect(rs).Drags? <==> forall i :: 0 <= i < |rs| ==> rs[i].Out? || rs[i].In?
    ensures Collect(rs).Drags? ==> Collect(rs).ds == InDrags(rs)
  {
    if rs != [] {
      var rest := rs[1..];
      CollectDrags(rest);
      assert forall i :: 1 <= i < |rs| ==> rs[i] == rest[i - 1];
    }
  }

  /**
   * A `Dead` report listed before a `Win` report, with no `Win` ahead of it, stops the
   * loop: the game resets instead of being won (for instance `[Dead, Win]`).
   */
  lemma DeadBeforeWin(rs: seq<BallInteraction>, i: nat, j: nat)
    requires i < j < |rs| && rs[i] == Dead && rs[j] == Win
    requires forall k :: 0 <= k < i ==> rs[k] != Win
    ensures Collect(rs) == Died
  {
    CollectDied(rs);
  }

  /** The modules of this game never report `Dead`, so the loop never ends in a death. */
  lemma {:induction false} CollectNeverDies(ms: seq<Module>, p: Vec2)
    ensures Collect(Reports(ms, p)) != Died
  {
    CollectFirstStop(Reports(ms, p));
  }

  /** The sum of the drags, added from the first to the last. */
  function Sum(ds: seq<real>): real
  {
    if ds == [] then 0.0 else Sum(ds[..|ds| - 1]) + ds[|ds| - 1]
  }

  /** The mean drag: the sum divided by the number of drags. */
  function Mean(ds: seq<real>): real
    requires ds != []
  {
    Sum(ds) / |ds| as real
  }

  /** Drags that all equal `d` sum to `d` times their number. */
  lemma {:induction false} SumConstant(ds: seq<real>, d: real)
    requires forall i :: 0 <= i < |ds| ==> ds[i] == d
    ensures Sum(ds) == |ds| as real * d
  {
    if ds != [] {
      SumConstant(ds[..|ds| - 1], d);
    }
  }

  /** The mean of drags that all equal `d` is `d`. */
  lemma MeanConstant(ds: seq<real>, d: real)
    requires ds != []
    requires forall i :: 0 <= i < |ds| ==> ds[i] == d
    ensures Mean(ds) == d
  {
    SumConstant(ds, d);
  }

  /** Every drag the module loop collects is the grass drag, so their mean is the grass drag. */
  lemma MeanIsModuleDrag(ms: seq<Module>, p: Vec2)
    requires Collect(Reports(ms, p)).Drags? && Collect(Reports(ms, p)).ds != []
    ensures Mean(Collect(Reports(ms, p)).ds) == ModuleDrag
  {
    var rs := Reports(ms, p);
    CollectFirstStop(rs);
    InDragsAll(rs, ModuleDrag);
    MeanConstant(Collect(rs).ds, ModuleDrag);
  }

  lemma {:induction false} InDragsAll(rs: seq<BallInteraction>, d: real)
    requires forall i :: 0 <= i < |rs| && rs[i].In? ==> rs[i].drag == d
    ensures forall k :: 0 <= k < |InDrags(rs)| ==> InDrags(rs)[k] == d
  {
    if rs != [] {
      InDragsAll(rs[1..], d);
    }
  }

  /**
   * The ball after the module loop: with no `In` report (or a death) the attempt counts,
   * the ball is put back at rest at its spawn point and stops moving; otherwise the ball
   * rolls with the mean drag.
   */
  function AfterModules(g: GameData, o: Outcome): GameData
    requires !o.Won?
  {
    if o.Died? || o.ds == [] then
      g.(attempts := WrapU8(g.attempts + 1), ball := AtRest(g.spawnPos), isMoving := false)
    else
      g.(ball := Rolled(g.ball, Mean(o.ds)))
  }

  /** The camera moves 4% of the way toward the ball's position on screen, centred. */
  function CameraFollow(g: GameData): GameData
  {
    g.(camPos := LerpTo(g.camPos, Sub(Mul(g.ball.pos, g.unitSize as real), CamOffset), CamMoveSpeed))
  }

  /** The aim movement of a frame: the arrow keys held, times `speed`. */
  function AimMovement(c: Controls, speed: real): Vec2
  {
    Vec2((Flag(c.right) - Flag(c.left)) as real * speed,
         (Flag(c.down) - Flag(c.up)) as real * speed)
  }

  /** The aim speed: slower while Shift is held. */
  function AimSpeed(c: Controls): real
  {
    if c.shift then 0.015 else 0.03
  }

  /** The aimed ball of a frame in which the ball is still. */
  function AimedBall(g: GameData, c: Controls, sqrt: real -> real): BallData
  {
    Aimed(g.ball, AimMovement(c, AimSpeed(c)), sqrt)
  }

  /**
   * The end of a frame. A moving ball slower than the threshold is stopped. A still ball
   * is aimed with the arrow keys, and launched, costing an attempt, exactly when OK or
   * EXE was just pressed and the aim is longer than the threshold.
   */
  function Motion(g: GameData, c: Controls, sqrt: real -> real): GameData
  {
    if g.isMoving then Halted(g) else Swung(g, c, sqrt)
  }

  /** A moving ball: stopped when slower than the threshold. */
  function Halted(g: GameData): GameData
  {
    if NormSqd(g.ball.velocity) < SpeedThreshold then g.(ball := g.ball.(velocity := Zero), isMoving := false)
    else g
  }

  /** A still ball: aimed, then launched when OK or EXE was just pressed and the aim is long enough. */
  function Swung(g: GameData, c: Controls, sqrt: real -> real): GameData
  {
    Fired(g.(ball := AimedBall(g, c, sqrt)), c.shoot)
  }

  /** The launch of an aimed ball, costing an attempt, when `shoot` and the aim is long enough. */
  function Fired(g: GameData, shoot: bool): GameData
  {
    if shoot && NormSqd(g.ball.launchVec) > SpeedThreshold then
      g.(attempts := WrapU8(g.attempts + 1), ball := Launched(g.ball), isMoving := true)
    else
      g
  }

  /** A moving ball slower than the threshold stops where it is; a faster one is left alone. */
  lemma StopWhenSlow(g: GameData, c: Controls, sqrt: real -> real)
    requires g.isMoving
    ensures var r := Motion(g, c, sqrt);
      if NormSqd(g.ball.velocity) < SpeedThreshold then
        !r.isMoving && r.ball == g.ball.(velocity := Zero) && r.attempts == g.attempts && r.camPos == g.camPos
      else r == g
  {
  }

  /**
   * A still ball is launched, costing one attempt, exactly when OK or EXE was just pressed
   * and the aim is longer than the threshold; otherwise it is only aimed. The aim is then
   * at most of length 1 (with a true square root).
   */
  lemma LaunchIff(g: GameData, c: Controls, sqrt: real -> real)
    requires !g.isMoving
    ensures var r := Motion(g, c, sqrt);
      (r.isMoving <==> c.shoot && NormSqd(AimedBall(g, c, sqrt).launchVec) > SpeedThreshold)
      && (r.isMoving ==> r.ball == Launched(AimedBall(g, c, sqrt)) && r.attempts == WrapU8(g.attempts + 1))
      && (!r.isMoving ==> r.ball == AimedBall(g, c, sqrt) && r.attempts == g.attempts)
      && r.ball.pos == g.ball.pos
  {
  }

  /** With a true square root, the aim of a still ball never exceeds length 1 at the end of a frame. */
  lemma AimStaysShort(g: GameData, c: Controls, sqrt: real -> real)
    requires !g.isMoving && IsSqrt(sqrt)
    ensures NormSqd(Motion(g, c, sqrt).ball.launchVec) <= 1.0
  {
    AimedBounded(g.ball, AimMovement(c, AimSpeed(c)), sqrt);
  }

  /** The action of a frame that was not won: the leave popup when Back was just pressed. */
  function BackAction(c: Controls): StackAction<Child, PopMessages.PopMessage>
  {
    if c.back then Push(Leave(Popup.PopupState(LeaveText))) else Nop
  }

  /**
   * `GameState::update`, one frame: zoom; the module loop; on a win the game is replaced
   * by the game-over screen with the attempts so far and nothing else moves; otherwise the
   * ball resets or rolls, the camera follows, the ball stops or is aimed and launched, and
   * Back opens the leave popup.
   */
  function GameStep(g: GameData, c: Controls, sqrt: real -> real): (r: (GameData, StackAction<Child, PopMessages.PopMessage>))
  {
    var z := g.(unitSize := Zoom(g.unitSize, c));
    var o := Collect(Reports(z.modules, z.ball.pos));
    if o.Won? then (z, Replace(Over(GameOver.GameOverState(z.attempts))))
    else (Motion(CameraFollow(AfterModules(z, o)), c, sqrt), BackAction(c))
  }

  /** A frame in stages: zoom; the module loop; then a win, or reset or roll, camera, motion and the Back action. */
  lemma GameStepStages(g: GameData, c: Controls, sqrt: real -> real)
    ensures var z := g.(unitSize := Zoom(g.unitSize, c));
      var o := Collect(Reports(g.modules, g.ball.pos));
      (o.Won? ==> GameStep(g, c, sqrt) == (z, Replace(Over(GameOver.GameOverState(g.attempts)))))
      && (!o.Won? ==> GameStep(g, c, sqrt) == (Motion(CameraFollow(AfterModules(z, o)), c, sqrt), BackAction(c)))
  {
  }

  /** The zoom of every frame lands in [1, 8]; the modules and the spawn point never change. */
  lemma FrameKeepsCourse(g: GameData, c: Controls, sqrt: real -> real)
    ensures var r := GameStep(g, c, sqrt).0;
      r.unitSize == Zoom(g.unitSize, c) && 1 <= r.unitSize <= 8
      && r.modules == g.modules && r.spawnPos == g.spawnPos
  {
  }

  /**
   * The frame is won exactly when the module loop meets a `Win` before any `Dead`; it then
   * replaces the game by the game-over screen with the attempts so far, and the ball and
   * the attempts stay as they were.
   */
  lemma WinReplaces(g: GameData, c: Controls, sqrt: real -> real)
    ensures GameStep(g, c, sqrt).1.Replace? <==>
      exists i :: 0 <= i < |g.modules| && Interact(g.modules[i], g.ball.pos) == Win
                  && forall j :: 0 <= j < i ==> Interact(g.modules[j], g.ball.pos) != Dead
    ensures GameStep(g, c, sqrt).1.Replace? ==>
      GameStep(g, c, sqrt) == (g.(unitSize := Zoom(g.unitSize, c)), Replace(Over(GameOver.GameOverState(g.attempts))))
  {
    CollectWon(Reports(g.modules, g.ball.pos));
  }

  /** A frame that is not won opens the leave popup exactly when Back was just pressed, and asks for nothing otherwise. */
  lemma BackOpensPopup(g: GameData, c: Controls, sqrt: real -> real)
    requires !GameStep(g, c, sqrt).1.Replace?
    ensures GameStep(g, c, sqrt).1 == Push(Leave(Popup.PopupState(LeaveText))) <==>
      c.back
    ensures GameStep(g, c, sqrt).1 == Nop <==> !c.back
  {
  }

  /**
   * When no module reports `In` the frame resets the ball: the attempt counts, the ball is
   * at rest at the spawn point, then aimed as a still ball is.
   */
  lemma ResetWhenOutside(g: GameData, c: Controls, sqrt: real -> real)
    requires forall i :: 0 <= i < |g.modules| ==> Interact(g.modules[i], g.ball.pos) == Out
    ensures GameStep(g, c, sqrt).0 ==
      Swung(CameraFollow(g.(unitSize := Zoom(g.unitSize, c), attempts := WrapU8(g.attempts + 1),
                            ball := AtRest(g.spawnPos), isMoving := false)), c, sqrt)
  {
    var rs := Reports(g.modules, g.ball.pos);
    CollectDrags(rs);
    NoInNoDrags(rs);
    assert Collect(rs) == Drags([]);
    var z := g.(unitSize := Zoom(g.unitSize, c));
    var reset := g.(unitSize := Zoom(g.unitSize, c), attempts := WrapU8(g.attempts + 1),
                    ball := AtRest(g.spawnPos), isMoving := false);
    assert AfterModules(z, Drags([])) == reset;
    GameStepStages(g, c, sqrt);
  }


  lemma {:induction false} NoInNoDrags(rs: seq<BallInteraction>)
    requires forall i :: 0 <= i < |rs| ==> rs[i] == Out
    ensures InDrags(rs) == []
  {
    if rs != [] {
      NoInNoDrags(rs[1..]);
    }
  }

  /** When the ball is over some module and the hole is not reached, it rolls with the grass drag. */
  lemma RollsOverGrass(g: GameData, c: Controls, sqrt: real -> real)
    requires Collect(Reports(g.modules, g.ball.pos)).Drags?
    requires exists i :: 0 <= i < |g.modules| && Interact(g.modules[i], g.ball.pos).In?
    ensures GameStep(g, c, sqrt).0 ==
      Motion(CameraFollow(g.(unitSize := Zoom(g.unitSize, c), ball := Rolled(g.ball, ModuleDrag))), c, sqrt)
  {
    var rs := Reports(g.modules, g.ball.pos);
    var i :| 0 <= i < |g.modules| && Interact(g.modules[i], g.ball.pos).In?;
    CollectFirstStop(rs);
    SomeInSomeDrag(rs, i);
    MeanIsModuleDrag(g.modules, g.ball.pos);
  }

  lemma {:induction false} SomeInSomeDrag(rs: seq<BallInteraction>, i: nat)
    requires i < |rs| && rs[i].In?
    ensures InDrags(rs) != []
  {
    if i > 0 {
      SomeInSomeDrag(rs[1..], i - 1);
    }
  }

  /**
   * `GameState::resume`: pops the game with no message exactly when the popup below
   * answered yes; otherwise stays.
   */
  function Resume(m: PopMessages.PopMessage): (a: StackAction<Child, PopMessages.PopMessage>)
    ensures a == Pop(PopMessages.None) <==> m == PopMessages.OkBackPopupIsOk(true)
    ensures a.Pop? || a.Nop?
  {
    if m == PopMessages.OkBackPopupIsOk(true) then Pop(PopMessages.None) else Nop
  }

  /** `GameState`: the game whose fields `update` changes each frame. */
  class GameState {
    var isMoving: bool
    var modules: seq<Module>
    var camPos: Vec2
    var spawnPos: Vec2
    const ball: Ball
    var attempts: u8
    var unitSize: u8

    /** The game's fields, the ball's included, as a value. */
    function Data(): GameData
      reads this, ball
    {
      GameData(isMoving, modules, camPos, spawnPos, ball.Data(), attempts, unitSize)
    }

    /** `GameState::new(modules, ball)`. */
    constructor (modules: seq<Module>, ball: Ball)
      ensures this.ball == ball
      ensures Data() == NewGame(modules, ball.Data())
    {
      this.isMoving := false;
      this.modules := modules;
      this.camPos := Sub(ball.pos, CamOffset);
      this.spawnPos := ball.pos;
      this.ball := ball;
      this.attempts := 0;
      this.unitSize := 3;
    }

    /**
     * The module loop of `update`: stops at the first `Win` (reported as `won`) or the
     * first `Dead`; otherwise collects the drags of the `In` reports. `isOutside` stays set
     * when no module reported `In`, or when one reported `Dead`.
     */
    method ScanModules() returns (won: bool, isOutside: bool, drags: seq<real>)
      ensures var o := Collect(Reports(modules, ball.pos));
        (won <==> o.Won?)
        && (!won ==> (isOutside <==> o.Died? || o == Drags([])))
        && (!won && !isOutside ==> o == Drags(drags))
    {
      ghost var reports := Reports(modules, ball.pos);
      won := false;
      isOutside := true;
      drags := [];
      var i := 0;
      while i < |modules|
        invariant 0 <= i <= |modules|
        invariant !isOutside <==> drags != []
        invariant Collect(reports) == Prefixed(drags, Collect(reports[i..]))
      {
        assert reports[i..][1..] == reports[i + 1..];
        match Interact(modules[i], ball.pos) {
          case Win =>
            won := true;
            return;
          case Dead =>
            isOutside := true;
            break;
          case In(drag) =>
            PrefixedAppend(drags, drag, Collect(reports[i + 1..]));
            drags := drags + [drag];
            isOutside := false;
          case Out =>
        }
        i := i + 1;
      }
    }

    /** The reset (no module under the ball) or the roll with the mean drag, after the module loop. */
    method Settle(isOutside: bool, drags: seq<real>, ghost o: Outcome)
      requires !o.Won?
      requires isOutside <==> o.Died? || o == Drags([])
      requires !isOutside ==> o == Drags(drags)
      modifies this, ball
      ensures Data() == AfterModules(old(Data()), o)
    {
      if isOutside {
        attempts := WrapU8(attempts + 1);
        ball.Reset(spawnPos);
        isMoving := false;
      } else {
        var drag := 0.0;
        for j := 0 to |drags|
          invariant drag == Sum(drags[..j])
        {
          assert drags[..j + 1][..j] == drags[..j];
          drag := drag + drags[j];
        }
        assert drags[..|drags|] == drags;
        drag := drag / |drags| as real;
        ball.Update(drag);
      }
    }

    /** The end of a frame: stop a slow ball, or aim and maybe launch a still one. */
    method Move(c: Controls, sqrt: real -> real)
      modifies this, ball
      ensures Data() == Motion(old(Data()), c, sqrt)
    {
      if isMoving {
        Halt();
      } else {
        Swing(c, sqrt);
      }
    }

    /** A moving ball slower than the threshold stops. */
    method Halt()
      modifies this, ball
      ensures Data() == Halted(old(Data()))
    {
      ghost var g := Data();
      if NormSqd(ball.velocity) < SpeedThreshold {
        ball.velocity := Zero;
        isMoving := false;
        assert Data() == g.(ball := g.ball.(velocity := Zero), isMoving := false);
      }
    }

    /** A still ball is aimed with the arrow keys and launched on OK or EXE. */
    method Swing(c: Controls, sqrt: real -> real)
      modifies this, ball
      ensures Data() == Swung(old(Data()), c, sqrt)
    {
      var moveSpeed := if c.shift then 0.015 else 0.03;
      ball.MoveLaunch(AimMovement(c, moveSpeed), sqrt);
      Fire(c.shoot);
    }

    /** The launch of the aimed ball on OK or EXE, when the aim is long enough. */
    method Fire(shoot: bool)
      modifies this, ball
      ensures Data() == Fired(old(Data()), shoot)
    {
      if shoot && NormSqd(ball.launchVec) > SpeedThreshold {
        attempts := WrapU8(attempts + 1);
        ball.Launch();
        isMoving := true;
      }
    }

    /** The camera moves a fraction of the way toward the ball. */
    method FollowBall()
      modifies this
      ensures Data() == CameraFollow(old(Data()))
    {
      camPos := LerpTo(camPos, Sub(Mul(ball.pos, unitSize as real), CamOffset), CamMoveSpeed);
    }

    /** The zoom change at the start of a frame: Plus and Minus move it by one, within [1, 8]. */
    method ChangeZoom(c: Controls)
      modifies this
      ensures Data() == old(Data()).(unitSize := Zoom(old(unitSize), c))
    {
      var deltaZoom := Flag(c.plus) - Flag(c.minus);
      unitSize := Clamp(WrapI8(WrapI8(unitSize) + deltaZoom), 1, 8);
    }

    /** `GameState::update`: one frame of the game, as `GameStep` describes it. */
    method Update(e: Keyboard.KeyEdges, sqrt: real -> real) returns (action: StackAction<Child, PopMessages.PopMessage>)
      modifies this, ball
      ensures (Data(), action) == GameStep(old(Data()), ControlsOf(e), sqrt)
    {
      var c := ControlsOf(e);
      ghost var g0 := Data();
      ChangeZoom(c);
      ghost var outcome := Collect(Reports(modules, ball.pos));

      var won, isOutside, drags := ScanModules();
      if won {
        action := Replace(Over(GameOver.GameOverState(attempts)));
        GameStepStages(g0, c, sqrt);
        return;
      }
      Settle(isOutside, drags, outcome);
      FollowBall();
      Move(c, sqrt);

      if c.back {
        action := Push(Leave(Popup.PopupState(LeaveText)));
      } else {
        action := Nop;
      }
      assert action == BackAction(c);
      GameStepStages(g0, c, sqrt);
    }
  }
}
