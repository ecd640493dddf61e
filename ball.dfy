/**
 * The golf ball (src/game/ball.rs). `Ball` is a class whose methods overwrite its fields
 * in place; each method is specified by a function on `BallData`, the value of those
 * fields, and the properties of the ball's motion are lemmas about these functions.
 * Arithmetic is over the reals and `sqrtf` is a parameter (see `Vec.IsSqrt`).
 */
module GolfBall {
  import opened Vec

  /** `BALL_LAUNCH_SPEED`: the launch vector is reversed and stretched by 1.2. */
  const LaunchSpeed: real := -1.2

  /** The fields of a ball. */
  datatype BallData = BallData(pos: Vec2, height: real, velocity: Vec2, launchVec: Vec2)

  /** A ball at rest at `p`: on the ground, not moving, not aimed. What `new` and `reset` produce. */
  function AtRest(p: Vec2): (b: BallData)
    ensures b.pos == p && b.height == 0.0 && b.velocity == Zero && b.launchVec == Zero
  {
    BallData(p, 0.0, Zero, Zero)
  }

  /**
   * `update(drag)`: the velocity is first scaled by the drag, and the ball then moves by
   * the scaled velocity; nothing else changes.
   */
  function Rolled(b: BallData, drag: real): (r: BallData)
    ensures r.velocity == Mul(b.velocity, drag)
    ensures r.pos == Add(b.pos, r.velocity)
    ensures r.height == b.height && r.launchVec == b.launchVec
  {
    var v := Scale(b.velocity, drag);
    b.(velocity := v, pos := Add(b.pos, v))
  }

  /** A ball at rest does not move, whatever the drag. */
  lemma RolledAtRest(b: BallData, drag: real)
    requires b.velocity == Zero
    ensures Rolled(b, drag) == b
  {
  }

  /** A drag between 0 and 1 never speeds the ball up. */
  lemma RolledSlowsDown(b: BallData, drag: real)
    requires 0.0 <= drag <= 1.0
    ensures NormSqd(Rolled(b, drag).velocity) <= NormSqd(b.velocity)
  {
    NormSqdMul(b.velocity, drag);
    var n := NormSqd(b.velocity);
    assert drag * drag <= 1.0 by {
      assert drag * drag <= drag * 1.0;
    }
    calc {
      NormSqd(Rolled(b, drag).velocity);
      drag * drag * n;
    <= { assert (1.0 - drag * drag) * n >= 0.0; }
      n;
    }
  }

  /** `launch`: the velocity becomes the launch vector times -1.2 and the launch vector is cleared. */
  function Launched(b: BallData): (r: BallData)
    ensures r.velocity == Mul(b.launchVec, LaunchSpeed)
    ensures r.launchVec == Zero
    ensures r.pos == b.pos && r.height == b.height
  {
    b.(velocity := Mul(b.launchVec, LaunchSpeed), launchVec := Zero)
  }

  /** The launch speed is 1.2 times the length of the aim: squared, 1.44 times. */
  lemma LaunchedSpeed(b: BallData)
    ensures NormSqd(Launched(b).velocity) == 1.44 * NormSqd(b.launchVec)
  {
    NormSqdMul(b.launchVec, LaunchSpeed);
  }

  /**
   * `move_launch(movement)`: the movement is added to the launch vector, which is then
   * normalized when its length exceeds 1. Position, height and velocity stay.
   */
  function Aimed(b: BallData, movement: Vec2, sqrt: real -> real): (r: BallData)
    ensures r.pos == b.pos && r.height == b.height && r.velocity == b.velocity
  {
    var l := Add(b.launchVec, movement);
    b.(launchVec := if Norm(l, sqrt) > 1.0 then Normalize(l, sqrt) else l)
  }

  /**
   * With a true square root the launch vector is at most of length 1 after aiming, and it
   * is the plain sum when that sum is no longer than 1.
   */
  lemma AimedBounded(b: BallData, movement: Vec2, sqrt: real -> real)
    requires IsSqrt(sqrt)
    ensures NormSqd(Aimed(b, movement, sqrt).launchVec) <= 1.0
    ensures NormSqd(Add(b.launchVec, movement)) <= 1.0 ==>
      Aimed(b, movement, sqrt).launchVec == Add(b.launchVec, movement)
  {
    var l := Add(b.launchVec, movement);
    NormAboveOne(l, sqrt);
    if Norm(l, sqrt) > 1.0 {
      NormSqdZero(l);
      NormalizeUnit(l, sqrt);
    }
  }

  /** `Ball`: a ball whose fields its methods overwrite. */
  class Ball {
    var pos: Vec2
    var height: real
    var velocity: Vec2
    var launchVec: Vec2

    /** The ball's fields as a value. */
    function Data(): BallData
      reads this
    {
      BallData(pos, height, velocity, launchVec)
    }

    /** `Ball::new(pos)`: a ball at rest at `pos`. */
    constructor (p: Vec2)
      ensures Data() == AtRest(p)
    {
      pos := p;
      height := 0.0;
      velocity := Zero;
      launchVec := Zero;
    }

    /** `reset(pos)`: the ball is put back at rest at `pos`. */
    method Reset(p: Vec2)
      modifies this
      ensures Data() == AtRest(p)
    {
      pos := p;
      height := 0.0;
      velocity := Zero;
      launchVec := Zero;
    }

    /** `update(drag)`: scale the velocity, then move by it. */
    method Update(drag: real)
      modifies this
      ensures Data() == Rolled(old(Data()), drag)
    {
      velocity := Scale(velocity, drag);
      pos := Add(pos, velocity);
    }

    /** `launch`: shoot along the reversed launch vector and clear it. */
    method Launch()
      modifies this
      ensures Data() == Launched(old(Data()))
    {
      velocity := Mul(launchVec, LaunchSpeed);
      launchVec := Zero;
    }

    /** `move_launch(movement)`: move the aim, keeping it no longer than 1. */
    method MoveLaunch(movement: Vec2, sqrt: real -> real)
      modifies this
      ensures Data() == Aimed(old(Data()), movement, sqrt)
    {
      launchVec := Add(launchVec, movement);
      if Norm(launchVec, sqrt) > 1.0 {
        launchVec := Normalize(launchVec, sqrt);
      }
    }
  }
}
