/**
 * Angle arithmetic and hit testing shared by every variant of the pie
 * (src/util.ts). Angles are exact reals; `TWO_PI` is the exact value of the
 * double `Math.PI * 2`, so `TWO_PI / 2.0` is `Math.PI` and `TWO_PI / 4.0` is
 * the quarter turn the drag logic compares against.
 */
module Util {

  datatype Option<T> = None | Some(value: T)

  const TWO_PI: real := 6.28318530717958623199592693708837032318115234375

  /** True when `a` is a normalised angle, in [0, 2π). */
  predicate IsAngle(a: real) {
    0.0 <= a < TWO_PI
  }

  /** Position of the first entry equal to `x`, or -1 (`findIndex` by id or uuid). */
  function IndexOf(xs: seq<string>, x: string): (r: int)
    ensures -1 <= r < |xs|
    ensures r >= 0 ==> xs[r] == x && forall k :: 0 <= k < r ==> xs[k] != x
    ensures r < 0 ==> forall k :: 0 <= k < |xs| ==> xs[k] != x
  {
    if |xs| == 0 then -1
    else if xs[0] == x then 0
    else
      var r := IndexOf(xs[1..], x);
      if r < 0 then -1 else r + 1
  }

  // ---------------------------------------------------------------------------
  // Remainders
  // ---------------------------------------------------------------------------

  /** Rounding toward zero, the rounding of JavaScript's `%` operator. */
  function Trunc(x: real): (k: int)
    ensures x >= 0.0 ==> k == x.Floor
    ensures x < 0.0 ==> k == -((-x).Floor)
    ensures x >= 0.0 ==> 0.0 <= x - k as real < 1.0
    ensures x < 0.0 ==> -1.0 < x - k as real <= 0.0
  {
    if x >= 0.0 then x.Floor else -((-x).Floor)
  }

  /**
   * JavaScript's `a % n` on numbers: `a` minus the multiple of `n` whose
   * quotient is `a / n` rounded toward zero, so the remainder keeps the sign
   * of `a`. Written as `n` times the part of `a / n` lost by that rounding.
   */
  function Rem(a: real, n: real): (r: real)
    requires n > 0.0
    ensures a >= 0.0 ==> 0.0 <= r < n
    ensures a < 0.0 ==> -n < r <= 0.0
    ensures r == n * (a / n - Trunc(a / n) as real)
  {
    var y := a / n;
    var f := y - Trunc(y) as real;
    var m := n * f;
    if a >= 0.0 then (ScaleUnitInterval(n, f, m); m) else (ScaleNegUnitInterval(n, f, m); m)
  }

  /**
   * `mod` of src/util.ts, `((a % n) + n) % n`: the floored modulo, `a` less
   * the whole number of `n`s in it, so that the result lies in [0, n).
   * `ModIsJsFormula` proves it equal to the source's expression over the
   * truncating remainder.
   */
  function Mod(a: real, n: real): (r: real)
    requires n > 0.0
    ensures 0.0 <= r < n
  {
    var f := a / n - (a / n).Floor as real;
    var m := n * f;
    ScaleUnitInterval(n, f, m); m
  }

  lemma ScaleUnitInterval(n: real, f: real, m: real)
    requires n > 0.0 && 0.0 <= f < 1.0 && m == n * f
    ensures 0.0 <= m < n
  {
    assert n - n * f == n * (1.0 - f);
  }

  lemma ScaleNegUnitInterval(n: real, f: real, m: real)
    requires n > 0.0 && -1.0 < f <= 0.0 && m == n * f
    ensures -n < m <= 0.0
  {
    assert n + n * f == n * (1.0 + f);
    assert n * f == -(n * -f);
  }

  lemma CancelFactor(n: real, z: real)
    requires n > 0.0
    ensures (n * z) / n == z
  {
  }

  lemma AddOneScaled(n: real, f: real, m: real)
    requires m == n * f
    ensures m + n == n * (f + 1.0)
  {
  }

  lemma ScaledDifference(a: real, n: real, y: real, k: real, m: real)
    requires n > 0.0 && y == a / n && m == n * (y - k)
    ensures m == a - n * k
  {
    assert n * y == a;
  }

  /** Shifting the truncated remainder up by `n` and reducing again leaves the fractional part. */
  lemma ShiftedRem(a: real, n: real)
    requires n > 0.0
    ensures Rem(Rem(a, n) + n, n) == n * (a / n - (a / n).Floor as real)
  {
    var y := a / n;
    var z := y - Trunc(y) as real + 1.0;
    QuotientOfShift(n, y - Trunc(y) as real, Rem(a, n));
    RemOfQuotient(Rem(a, n) + n, n, z);
    FractionOfShift(y);
    SameScale(n, z - Trunc(z) as real, y - y.Floor as real);
  }

  lemma SameScale(n: real, u: real, v: real)
    requires u == v
    ensures n * u == n * v
  {
  }

  lemma RemOfQuotient(b: real, n: real, z: real)
    requires n > 0.0 && b / n == z
    ensures Rem(b, n) == n * (z - Trunc(z) as real)
  {
  }

  lemma QuotientOfShift(n: real, f: real, m: real)
    requires n > 0.0 && m == n * f
    ensures (m + n) / n == f + 1.0
  {
    var g := f + 1.0;
    assert m + n == n * g;
    assert (n * g) / n == g;
  }

  /** Adding one to the part lost by truncation and truncating again leaves the floored fraction. */
  lemma FractionOfShift(y: real)
    ensures var z := y - Trunc(y) as real + 1.0; z - Trunc(z) as real == y - y.Floor as real
  {
    var z := y - Trunc(y) as real + 1.0;
    assert Trunc(z) == z.Floor == y.Floor - Trunc(y) + 1;
  }

  /** `mod` computes the source's `((a % n) + n) % n` with JavaScript's truncating `%`. */
  lemma ModIsJsFormula(a: real, n: real)
    requires n > 0.0
    ensures Mod(a, n) == Rem(Rem(a, n) + n, n)
  {
    ShiftedRem(a, n);
  }

  /** On a non-negative number JavaScript's `%` and `mod` agree. */
  lemma RemOfNonNeg(a: real, n: real)
    requires n > 0.0 && a >= 0.0
    ensures Rem(a, n) == Mod(a, n)
  {
    assert a / n >= 0.0;
  }

  /**
   * JavaScript's `a % n`, raised by `n` when it is negative (the start
   * computation of the size-based chart), is `mod`.
   */
  lemma RaisedRemIsMod(a: real, n: real)
    requires n > 0.0
    ensures (if Rem(a, n) < 0.0 then Rem(a, n) + n else Rem(a, n)) == Mod(a, n)
  {
    var y := a / n;
    if a >= 0.0 {
      RemOfNonNeg(a, n);
    } else if y == y.Floor as real {
      assert Trunc(y) == y.Floor;
    } else {
      assert (-y).Floor == -y.Floor - 1;
      assert Trunc(y) == y.Floor + 1;
    }
  }

  /** `mod` removes a whole number of turns from `a`. */
  lemma ModIsFloored(a: real, n: real)
    requires n > 0.0
    ensures Mod(a, n) == a - n * (a / n).Floor as real
  {
    ScaledDifference(a, n, a / n, (a / n).Floor as real, Mod(a, n));
  }

  // ---------------------------------------------------------------------------
  // Facts about Mod with the modulus 2π
  // ---------------------------------------------------------------------------

  lemma ModOfAngle(a: real)
    requires IsAngle(a)
    ensures Mod(a, TWO_PI) == a
  {
    ModIsFloored(a, TWO_PI);
    assert (a / TWO_PI).Floor == 0;
  }

  lemma ModShift(a: real, k: int)
    ensures Mod(a + k as real * TWO_PI, TWO_PI) == Mod(a, TWO_PI)
  {
    ModIsFloored(a, TWO_PI);
    ModIsFloored(a + k as real * TWO_PI, TWO_PI);
    assert (a + k as real * TWO_PI) / TWO_PI == a / TWO_PI + k as real;
    assert (a / TWO_PI + k as real).Floor == (a / TWO_PI).Floor + k;
  }

  /** Reducing a summand first does not change the result. */
  lemma ModAddMod(a: real, b: real)
    ensures Mod(Mod(a, TWO_PI) + b, TWO_PI) == Mod(a + b, TWO_PI)
  {
    var q := (a / TWO_PI).Floor;
    ModIsFloored(a, TWO_PI);
    assert Mod(a, TWO_PI) + b == (a + b) + (-q) as real * TWO_PI;
    ModShift(a + b, -q);
  }

  lemma ModOfShiftedAngle(a: real)
    requires TWO_PI <= a < 2.0 * TWO_PI
    ensures Mod(a, TWO_PI) == a - TWO_PI
  {
    ModIsFloored(a, TWO_PI);
    assert (a / TWO_PI).Floor == 1;
  }

  // ---------------------------------------------------------------------------
  // Angles
  // ---------------------------------------------------------------------------

  /** Left-to-right sum of a list of lengths. */
  function Sum(xs: seq<real>): real
  {
    if |xs| == 0 then 0.0 else Sum(xs[..|xs| - 1]) + xs[|xs| - 1]
  }

  /** `average` of src/util.ts: the sum divided by the count. */
  function Average(ns: seq<real>): (avg: real)
    requires |ns| > 0
    ensures avg * |ns| as real == Sum(ns)
    ensures Sum(ns) == 1.0 ==> avg == 1.0 / |ns| as real
  {
    Sum(ns) / |ns| as real
  }

  /**
   * Clockwise length from `alpha` to `beta` (src/util.ts). A zero difference
   * counts as a full turn, so a slice whose successor starts where it starts
   * spans the whole circle.
   */
  function ArcLength(alpha: real, beta: real): (len: real)
    ensures IsAngle(alpha) && IsAngle(beta) ==> 0.0 < len <= TWO_PI
    ensures IsAngle(alpha) && IsAngle(beta) ==> Mod(alpha + len, TWO_PI) == beta
    ensures alpha == beta ==> len == TWO_PI
  {
    var delta := beta - alpha;
    var length := if delta > 0.0 then delta else delta + TWO_PI;
    if IsAngle(alpha) && IsAngle(beta) then
      (ClockwiseStepLandsOnEnd(alpha, beta); length)
    else
      length
  }

  lemma ClockwiseStepLandsOnEnd(alpha: real, beta: real)
    requires IsAngle(alpha) && IsAngle(beta)
    ensures var delta := beta - alpha;
            var length := if delta > 0.0 then delta else delta + TWO_PI;
            0.0 < length <= TWO_PI && Mod(alpha + length, TWO_PI) == beta
  {
    if beta - alpha > 0.0 {
      ModOfAngle(beta);
    } else {
      ModOfShiftedAngle(beta + TWO_PI);
    }
  }

  /**
   * The clockwise length is the unique length in (0, 2π] that carries
   * `alpha` onto `beta`: stepping `d` from `alpha` and measuring back gives `d`.
   */
  lemma ArcLengthOfStep(alpha: real, d: real)
    requires IsAngle(alpha)
    requires 0.0 < d <= TWO_PI
    ensures ArcLength(alpha, Mod(alpha + d, TWO_PI)) == d
  {
    if alpha + d < TWO_PI {
      ModOfAngle(alpha + d);
    } else {
      ModOfShiftedAngle(alpha + d);
    }
  }

  /** Two steps of lengths in (0, 2π] that both lead from `alpha` to `beta` are equal. */
  lemma ArcLengthUnique(alpha: real, beta: real, d: real)
    requires IsAngle(alpha) && IsAngle(beta)
    requires 0.0 < d <= TWO_PI
    requires Mod(alpha + d, TWO_PI) == beta
    ensures ArcLength(alpha, beta) == d
  {
    ArcLengthOfStep(alpha, d);
  }

  /**
   * Midpoint of the clockwise arc from `alpha` to `beta` (src/util.ts): it is
   * normalised and splits the arc into two equal halves.
   */
  function AngleBetween(alpha: real, beta: real): (mid: real)
    ensures IsAngle(mid)
    ensures IsAngle(alpha) && IsAngle(beta) ==>
      ArcLength(alpha, mid) * 2.0 == ArcLength(alpha, beta) &&
      ArcLength(mid, beta) * 2.0 == ArcLength(alpha, beta)
  {
    var length := ArcLength(alpha, beta);
    var m := alpha + (length / 2.0);
    var norm := Mod(m, TWO_PI);
    if IsAngle(alpha) && IsAngle(beta) then
      (HalvesOfArc(alpha, beta); norm)
    else
      norm
  }

  lemma HalvesOfArc(alpha: real, beta: real)
    requires IsAngle(alpha) && IsAngle(beta)
    ensures var h := ArcLength(alpha, beta) / 2.0;
            ArcLength(alpha, Mod(alpha + h, TWO_PI)) == h &&
            ArcLength(Mod(alpha + h, TWO_PI), beta) == h
  {
    var len := ArcLength(alpha, beta);
    var h := len / 2.0;
    assert 0.0 < h <= TWO_PI;
    var mid := Mod(alpha + h, TWO_PI);
    ArcLengthOfStep(alpha, h);
    ModAddMod(alpha + h, h);
    assert alpha + h + h == alpha + len;
    assert Mod(mid + h, TWO_PI) == beta;
    ArcLengthUnique(mid, beta, h);
  }

  // ---------------------------------------------------------------------------
  // Hit testing
  // ---------------------------------------------------------------------------

  datatype Point = Point(x: real, y: real)

  datatype Shape =
    | Circle(o: Point, r: real)
    | Rect(o: Point, w: real, h: real)
    | Arc(o: Point, r: real, t1: real, t2: real)

  /** Squared Euclidean distance (src/util.ts). */
  function DistSq(a: Point, b: Point): (d: real)
    ensures d >= 0.0
  {
    var dx := a.x - b.x;
    var dy := a.y - b.y;
    assert dx * dx >= 0.0 && dy * dy >= 0.0;
    dx * dx + dy * dy
  }

  lemma DistSqSymmetric(a: Point, b: Point)
    ensures DistSq(a, b) == DistSq(b, a)
  {
    assert (a.x - b.x) * (a.x - b.x) == (b.x - a.x) * (b.x - a.x);
    assert (a.y - b.y) * (a.y - b.y) == (b.y - a.y) * (b.y - a.y);
  }

  /**
   * Angular membership of the sector test: a sector whose start is past its
   * end crosses the 0/2π seam and is the union of the two ends of the circle.
   */
  predicate BetweenAngles(theta: real, t1: real, t2: real) {
    if t1 > t2 then theta >= t1 || theta <= t2 else theta >= t1 && theta <= t2
  }

  /**
   * `pointIntersects` (src/util.ts). The angle of `p` about the shape's
   * centre is computed with atan2 in the source; here it is the argument
   * `pAngle`.
   */
  function PointIntersects(p: Point, pAngle: real, s: Shape): (hit: bool)
    ensures s.Circle? ==> (hit <==> DistSq(p, s.o) <= s.r * s.r)
    ensures s.Rect? ==>
      (hit <==> s.o.x - s.w * 0.5 <= p.x <= s.o.x + s.w * 0.5 &&
                s.o.y - s.h * 0.5 <= p.y <= s.o.y + s.h * 0.5)
    ensures s.Arc? ==> (hit <==> DistSq(p, s.o) <= s.r * s.r && BetweenAngles(pAngle, s.t1, s.t2))
  {
    match s
    case Circle(o, r) => DistSq(p, o) <= r * r
    case Rect(o, w, h) =>
      var minX := o.x - w * 0.5;
      var maxX := o.x + w * 0.5;
      var minY := o.y - h * 0.5;
      var maxY := o.y + h * 0.5;
      p.x >= minX && p.x <= maxX && p.y >= minY && p.y <= maxY
    case Arc(o, r, t1, t2) =>
      var withinRadius := DistSq(p, o) <= r * r;
      withinRadius && BetweenAngles(pAngle, t1, t2)
  }

  /**
   * For a sector with distinct normalised ends, the seam-aware test is exactly
   * "the angle lies on the clockwise sweep from t1 to t2".
   */
  lemma BetweenAnglesIsClockwiseSweep(theta: real, t1: real, t2: real)
    requires IsAngle(theta) && IsAngle(t1) && IsAngle(t2)
    requires t1 != t2
    ensures BetweenAngles(theta, t1, t2) <==> theta == t1 || ArcLength(t1, theta) <= ArcLength(t1, t2)
  {
  }

  /**
   * A sector whose two ends coincide (the single slice of a one-slice pie,
   * whose arc length is a full turn) only contains the points on the ray at
   * angle t1.
   */
  lemma DegenerateSectorIsRay(theta: real, t: real)
    ensures BetweenAngles(theta, t, t) <==> theta == t
  {
  }
}
