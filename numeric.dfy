/** Exact-real stand-ins for the JavaScript number operations the simulation uses:
    the constant Math.PI, the remainder operator `%` (which truncates), and the
    Math.max/Math.min clamp. */
module Numeric {

  /** Math.PI, as the decimal the JavaScript engine prints for it. */
  const Pi: real := 3.141592653589793

  const TwoPi: real := 2.0 * Pi

  function Max(a: real, b: real): (r: real)
    ensures r >= a && r >= b && (r == a || r == b)
  {
    if a >= b then a else b
  }

  function Min(a: real, b: real): (r: real)
    ensures r <= a && r <= b && (r == a || r == b)
  {
    if a <= b then a else b
  }

  /** Rounds toward zero, as JavaScript's `%` does when it forms its quotient. */
  function Trunc(x: real): (t: int)
    ensures x >= 0.0 ==> 0 <= t && t as real <= x < t as real + 1.0
    ensures x < 0.0 ==> t <= 0 && t as real - 1.0 < x <= t as real
  {
    if x >= 0.0 then x.Floor else -((-x).Floor)
  }

  /** JavaScript's `a % b`: the remainder keeps the sign of the dividend `a`
      (unlike Dafny's Euclidean `%`, which is never negative). */
  function JsRem(a: real, b: real): real
    requires b != 0.0
  {
    a - b * Trunc(a / b) as real
  }

  /** `k` whole turns of the circle. */
  function Turns(k: int): real
  {
    k as real * TwoPi
  }

  /** `a % (2 * Math.PI)`, the only remainder the simulation takes: `a` less a
      whole number of turns, with the sign of `a`. A negative angle stays
      negative: nothing here brings it into [0, 2*Pi). */
  function RemTwoPi(a: real): (r: real)
    ensures exists k: int :: r == a - Turns(k)
    ensures a >= 0.0 ==> 0.0 <= r < TwoPi
    ensures a < 0.0 ==> -TwoPi < r <= 0.0
    ensures -TwoPi < a < TwoPi ==> r == a
    ensures TwoPi <= a < 2.0 * TwoPi ==> r == a - TwoPi
  {
    assert JsRem(a, TwoPi) == a - Turns(Trunc(a / TwoPi));
    JsRem(a, TwoPi)
  }

  /** Floored remainder by 2*Pi, always in [0, 2*Pi): the angle `a` brought
      onto one turn of the circle. A reference for what an angle test means;
      the game itself never computes it. */
  function Wrap(a: real): (r: real)
    ensures 0.0 <= r < TwoPi
    ensures 0.0 <= a < TwoPi ==> r == a
    ensures -TwoPi <= a < 0.0 ==> r == a + TwoPi
  {
    assert 0.0 <= a < TwoPi ==> 0.0 <= a / TwoPi < 1.0;
    a - TwoPi * (a / TwoPi).Floor as real
  }

  /** Math.max(-m, Math.min(m, v)). */
  function Clamp(m: real, v: real): (r: real)
    requires m >= 0.0
    ensures -m <= r <= m
    ensures -m <= v <= m ==> r == v
    ensures v > m ==> r == m
    ensures v < -m ==> r == -m
  {
    Max(-m, Min(m, v))
  }

  // Small facts of real arithmetic, each in its own lemma so that the solver
  // meets one product at a time.

  lemma ZeroFactor(a: real, q: real)
    requires q > 0.0 && a * q == 0.0
    ensures a == 0.0
  {
  }

  lemma ZeroFactorSquare(a: real, d: real)
    requires d > 0.0
    requires a * (d * d) == 0.0
    ensures a == 0.0
  {
    ZeroFactor(a * d, d);
    ZeroFactor(a, d);
  }

  lemma DivMul(x: real, d: real)
    requires d != 0.0
    ensures (x / d) * d == x
  {
  }

  /** A vector scaled down by its length `d` has length 1. */
  lemma UnitFromScaled(nx: real, ny: real, d: real, dx: real, dy: real)
    requires d > 0.0 && nx * d == dx && ny * d == dy && d * d == dx * dx + dy * dy
    ensures nx * nx + ny * ny == 1.0
  {
    assert (nx * nx + ny * ny - 1.0) * (d * d) == 0.0;
    ZeroFactorSquare(nx * nx + ny * ny - 1.0, d);
  }
}
