/**
 * Two-dimensional vectors (src/utils/vec.rs), over real numbers instead of `f32`.
 * `Vec2` is a `Copy` struct; `lerp_to` and `scale`, which update `self` in place,
 * are functions returning the updated vector.
 */
module Vec {

  datatype Vec2 = Vec2(x: real, y: real)

  const Zero: Vec2 := Vec2(0.0, 0.0)

  /** `&a + &b`: componentwise addition. */
  function Add(a: Vec2, b: Vec2): (r: Vec2)
    ensures r.x == a.x + b.x && r.y == a.y + b.y
  {
    Vec2(a.x + b.x, a.y + b.y)
  }

  /** `&a - &b`: componentwise subtraction. */
  function Sub(a: Vec2, b: Vec2): (r: Vec2)
    ensures r.x == a.x - b.x && r.y == a.y - b.y
  {
    Vec2(a.x - b.x, a.y - b.y)
  }

  /** `&a * k`: multiplication of both components by a scalar. */
  function Mul(a: Vec2, k: real): (r: Vec2)
    ensures r.x == a.x * k && r.y == a.y * k
  {
    Vec2(a.x * k, a.y * k)
  }

  /** `self.lerp_to(other, t)`: the vector after moving the fraction `t` of the way to `other`. */
  function LerpTo(v: Vec2, other: Vec2, t: real): (r: Vec2)
    ensures t == 0.0 ==> r == v
    ensures t == 1.0 ==> r == other
    ensures r == Add(v, Mul(Sub(other, v), t))
  {
    Vec2(v.x + t * (other.x - v.x), v.y + t * (other.y - v.y))
  }

  /** `self.scale(f)`: both components multiplied by `f` in place. */
  function Scale(v: Vec2, f: real): (r: Vec2)
    ensures r == Mul(v, f)
    ensures f == 1.0 ==> r == v
    ensures f == 0.0 ==> r == Zero
  {
    Vec2(v.x * f, v.y * f)
  }

  /** `norm_sqd`: the squared length, never negative (see `NormSqdZero` for when it is zero). */
  function NormSqd(v: Vec2): (r: real)
    ensures r >= 0.0
  {
    NonNegSquare(v.x);
    NonNegSquare(v.y);
    v.x * v.x + v.y * v.y
  }

  /** `dot`: the dot product of two vectors. */
  function Dot(a: Vec2, b: Vec2): real
  {
    a.x * b.x + a.y * b.y
  }

  /** `sqrtf` from libm is foreign code: it is a parameter, and this is what is assumed of it. */
  ghost predicate IsSqrt(sqrt: real -> real)
  {
    forall x :: 0.0 <= x ==> 0.0 <= sqrt(x) && sqrt(x) * sqrt(x) == x
  }

  /** `norm`: the length, `sqrtf(x * x + y * y)`. */
  function Norm(v: Vec2, sqrt: real -> real): real
  {
    sqrt(NormSqd(v))
  }

  /**
   * `normalize`: both components multiplied by `1 / sqrtf(x * x + y * y)`. For the zero
   * vector the `f32` code yields NaN components; here it yields the zero vector. The
   * game only normalises a launch vector whose norm exceeds 1, so that case is never
   * reached.
   */
  function Normalize(v: Vec2, sqrt: real -> real): Vec2
  {
    var n := sqrt(NormSqd(v));
    var inv := if n == 0.0 then 0.0 else 1.0 / n;
    Vec2(v.x * inv, v.y * inv)
  }

  lemma NonNegSquare(a: real)
    ensures a * a >= 0.0
    ensures a != 0.0 ==> a * a > 0.0
  {
    if a < 0.0 {
      var b := -a;
      assert b > 0.0 && b * b > 0.0;
      assert a * a == b * b;
    }
  }

  /** Subtracting what was added gives back the original vector. */
  lemma AddSubCancel(a: Vec2, b: Vec2)
    ensures Sub(Add(a, b), b) == a
  {
  }

  /** A sum of two squares is positive as soon as one of the two numbers is not zero. */
  lemma SumOfSquaresPositive(a: real, b: real)
    requires a != 0.0 || b != 0.0
    ensures a * a + b * b > 0.0
  {
    NonNegSquare(a);
    NonNegSquare(b);
  }

  /** The squared length is zero exactly for the zero vector. */
  lemma NormSqdZero(v: Vec2)
    ensures NormSqd(v) == 0.0 <==> v == Zero
  {
    if v != Zero {
      calc {
        NormSqd(v);
        v.x * v.x + v.y * v.y;
      > { SumOfSquaresPositive(v.x, v.y); }
        0.0;
      }
    }
  }

  /** The dot product of a vector with itself is its squared length. */
  lemma DotSelf(v: Vec2)
    ensures Dot(v, v) == NormSqd(v)
  {
  }

  /** Scaling a vector by `k` scales its squared length by `k * k`. */
  lemma NormSqdMul(v: Vec2, k: real)
    ensures NormSqd(Mul(v, k)) == k * k * NormSqd(v)
  {
    var x, y := v.x, v.y;
    calc {
      NormSqd(Mul(v, k));
      (x * k) * (x * k) + (y * k) * (y * k);
      { SquareOfProduct(x, k); SquareOfProduct(y, k); }
      (k * k) * (x * x) + (k * k) * (y * y);
      (k * k) * (x * x + y * y);
    }
  }

  lemma SquareOfProduct(a: real, k: real)
    ensures (a * k) * (a * k) == (k * k) * (a * a)
  {
  }

  /** With a true square root, `norm` is non-negative and `norm > 1` exactly when `norm_sqd > 1`. */
  lemma NormAboveOne(v: Vec2, sqrt: real -> real)
    requires IsSqrt(sqrt)
    ensures Norm(v, sqrt) >= 0.0
    ensures Norm(v, sqrt) > 1.0 <==> NormSqd(v) > 1.0
  {
    var n := NormSqd(v);
    var s := sqrt(n);
    assert 0.0 <= s && s * s == n;
    if s > 1.0 {
      assert s * s > 1.0 * s;
    } else {
      assert s * s <= 1.0 * s;
    }
  }

  /** With a true square root, normalizing a non-zero vector gives a unit vector. */
  lemma NormalizeUnit(v: Vec2, sqrt: real -> real)
    requires IsSqrt(sqrt)
    requires v != Zero
    ensures NormSqd(Normalize(v, sqrt)) == 1.0
  {
    var n := NormSqd(v);
    var s := sqrt(n);
    assert 0.0 <= s && s * s == n;
    NormSqdZero(v);
    assert s != 0.0;
    var inv := 1.0 / s;
    calc {
      NormSqd(Normalize(v, sqrt));
      (v.x * inv) * (v.x * inv) + (v.y * inv) * (v.y * inv);
      n * (inv * inv);
      { assert inv * s == 1.0; }
      (s * inv) * (s * inv);
      1.0;
    }
  }
}
