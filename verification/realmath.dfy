/**
 * Real arithmetic shared by the kinematics and trajectory modules.
 *
 * The transcendental functions are not computed: a `Math` value supplies
 * them, and `Sound` states the only facts the proofs rely on (the
 * Pythagorean identity and the defining property of the square root).
 */
module RealMath {
  /** The library functions the kinematics code calls. */
  datatype Math = Math(
    sin: real -> real,
    cos: real -> real,
    atan2: (real, real) -> real,  // atan2(y, x)
    acos: real -> real,
    asin: real -> real,
    sqrt: real -> real)

  /** cos² + sin² = 1, and `sqrt` is the non-negative square root on non-negative reals. */
  ghost predicate Sound(m: Math) {
    (forall t :: m.cos(t) * m.cos(t) + m.sin(t) * m.sin(t) == 1.0) &&
    (forall v :: v >= 0.0 ==> m.sqrt(v) >= 0.0 && m.sqrt(v) * m.sqrt(v) == v)
  }

  /** `math.pi`, the double nearest to π. */
  const PI: real := 3.141592653589793

  /** `math.radians`. */
  function Radians(degrees: real): real {
    degrees * PI / 180.0
  }

  /** `math.degrees`. */
  function Degrees(radians: real): real {
    radians * 180.0 / PI
  }

  /** The two conversions are inverse and additive. */
  lemma DegreesOfRadians(d: real, a: real, b: real)
    ensures Degrees(Radians(d)) == d
    ensures Degrees(a + b) == Degrees(a) + Degrees(b) && Degrees(-a) == -Degrees(a)
  {
  }

  function Abs(x: real): real {
    if x < 0.0 then -x else x
  }

  /** `max(-1, min(1, x))`: the argument handed to `acos` always lies in [-1, 1]. */
  function Clamp(x: real): (r: real)
    ensures -1.0 <= r <= 1.0
    ensures -1.0 <= x <= 1.0 ==> r == x
    ensures x > 1.0 ==> r == 1.0
    ensures x < -1.0 ==> r == -1.0
  {
    if 1.0 < x then 1.0 else if x < -1.0 then -1.0 else x
  }

  /** Element `i` of `np.linspace(a, b, n)`. */
  function LinspaceAt(a: real, b: real, n: nat, i: nat): real
    requires i < n
  {
    if n == 1 then a else a + (i as real) * ((b - a) / ((n - 1) as real))
  }

  lemma MulDivCancel(x: real, y: real)
    requires x != 0.0
    ensures x * (y / x) == y
  {
  }

  /**
   * `np.linspace` starts at `a`, ends at `b` when it has two points or more,
   * and its points are evenly spaced.
   */
  lemma LinspaceEnds(a: real, b: real, n: nat)
    requires n >= 1
    ensures LinspaceAt(a, b, n, 0) == a
    ensures n >= 2 ==> LinspaceAt(a, b, n, n - 1) == b
    ensures forall i :: 0 <= i < n - 1 ==>
      LinspaceAt(a, b, n, i + 1) - LinspaceAt(a, b, n, i) == (b - a) / ((n - 1) as real)
  {
    if n >= 2 {
      MulDivCancel((n - 1) as real, b - a);
    }
  }

  /** The product of two positive numbers is positive. */
  lemma MulPositive(a: real, b: real)
    requires a > 0.0 && b > 0.0
    ensures a * b > 0.0
  {
  }

  lemma MulNonNegative(a: real, b: real)
    requires a >= 0.0 && b >= 0.0
    ensures a * b >= 0.0
  {
  }

  /** For non-negative numbers, comparing squares is comparing the numbers. */
  lemma SquareCompare(s: real, k: real)
    requires s >= 0.0 && k >= 0.0
    ensures s > k <==> s * s > k * k
  {
    if s > k {
      MulPositive(s - k, s + k);
      assert s * s - k * k == (s - k) * (s + k);
    } else {
      MulNonNegative(k - s, k + s);
      assert k * k - s * s == (k - s) * (k + s);
    }
  }

  lemma SquareNonNegative(a: real)
    ensures a * a >= 0.0
  {
    if a < 0.0 {
      MulPositive(-a, -a);
    } else {
      MulNonNegative(a, a);
    }
  }

  /** Dividing by a positive number keeps the order. */
  lemma DivMonotone(a: real, b: real, v: real)
    requires v > 0.0 && a <= b
    ensures a / v <= b / v
  {
    assert b / v - a / v == (b - a) / v;
  }

  lemma DivAtMost(a: real, d: real, hi: real)
    requires d > 0.0
    ensures a / d <= hi <==> a <= hi * d
  {
    var q := a / d;
    assert q * d == a;
    assert (hi - q) * d == hi * d - a;
    if q <= hi {
      MulNonNegative(hi - q, d);
    } else {
      MulPositive(q - hi, d);
    }
  }

  lemma DivAtLeast(a: real, d: real, lo: real)
    requires d > 0.0
    ensures lo <= a / d <==> lo * d <= a
  {
    var q := a / d;
    assert q * d == a;
    assert (q - lo) * d == a - lo * d;
    if lo <= q {
      MulNonNegative(q - lo, d);
    } else {
      MulPositive(lo - q, d);
    }
  }

  /** `math.sqrt` / `Math.sqrt`. */
  function Sqrt(m: Math, v: real): real {
    m.sqrt(v)
  }

  /** `sqrt(a² + b²)`. */
  function Hypot(m: Math, a: real, b: real): real {
    Sqrt(m, a * a + b * b)
  }

  /**
   * With a sound `sqrt`, comparing the root of a non-negative quantity with a
   * non-negative bound is comparing the quantity with the squared bound.
   */
  lemma SqrtCompare(m: Math, v: real, k: real)
    requires Sound(m) && v >= 0.0 && k >= 0.0
    ensures Sqrt(m, v) > k <==> v > k * k
    ensures Sqrt(m, v) == 0.0 <==> v == 0.0
  {
    var s := Sqrt(m, v);
    assert s >= 0.0 && s * s == v;
    SquareCompare(s, k);
    SquareCompare(s, 0.0);
  }

  /** The hypotenuse squares back to the sum of squares and compares with a bound as that sum does. */
  lemma HypotCompare(m: Math, a: real, b: real, k: real)
    requires Sound(m) && k >= 0.0
    ensures Hypot(m, a, b) >= 0.0 && Hypot(m, a, b) * Hypot(m, a, b) == a * a + b * b
    ensures Hypot(m, a, b) > k <==> a * a + b * b > k * k
    ensures Hypot(m, a, b) == 0.0 <==> a * a + b * b == 0.0
  {
    SquareNonNegative(a);
    SquareNonNegative(b);
    SqrtCompare(m, a * a + b * b, k);
  }
}
