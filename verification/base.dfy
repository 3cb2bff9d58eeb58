/** Small shared vocabulary: optional values, real-number helpers and plane points. */
module Base {

  /** A value that may be absent, the model of JavaScript's `null`/`undefined`. */
  datatype Option<+T> = None | Some(value: T)

  /** `Math.PI` to double precision. */
  const Pi: real := 3.141592653589793

  function Abs(x: real): (r: real)
    ensures r >= 0.0
    ensures r == x || r == -x
  {
    if x < 0.0 then -x else x
  }

  /** `Math.max(a, b)` on reals. */
  function Max(a: real, b: real): (r: real)
    ensures r >= a && r >= b
    ensures r == a || r == b
  {
    if a >= b then a else b
  }

  /** `Math.max(lo, Math.min(hi, v))`: saturate `v` into `[lo, hi]`. */
  function Clamp(lo: real, hi: real, v: real): (r: real)
    requires lo <= hi
    ensures lo <= r <= hi
    ensures lo <= v <= hi ==> r == v
    ensures v < lo ==> r == lo
    ensures v > hi ==> r == hi
  {
    if v < lo then lo else if v > hi then hi else v
  }

  /** Linear interpolation from `a` (at `t = 0`) to `b` (at `t = 1`). */
  function Lerp(a: real, b: real, t: real): (r: real)
    ensures t == 0.0 ==> r == a
    ensures t == 1.0 ==> r == b
    ensures 0.0 <= t <= 1.0 && a >= b ==> b <= r <= a
    ensures 0.0 <= t <= 1.0 && a <= b ==> a <= r <= b
  {
    if 0.0 <= t <= 1.0 && a >= b then
      ProductNonNegative(a - b, t);
      ProductNonNegative(a - b, 1.0 - t);
      a + (b - a) * t
    else if 0.0 <= t <= 1.0 && a <= b then
      ProductNonNegative(b - a, t);
      ProductNonNegative(b - a, 1.0 - t);
      a + (b - a) * t
    else
      a + (b - a) * t
  }

  /** A point of the plane; the canvas y axis grows downwards. */
  datatype Point = Point(x: real, y: real)

  /** A directed segment: a ray from its origin to its far end, or a road border. */
  datatype Segment = Segment(start: Point, end: Point)

  /** `p` lies at Euclidean distance `d` from `c` (stated without a square root). */
  predicate AtDistance(p: Point, c: Point, d: real)
  {
    (p.x - c.x) * (p.x - c.x) + (p.y - c.y) * (p.y - c.y) == d * d
  }

  /** A closed polygon: the last point connects back to the first. */
  type Polygon = seq<Point>

  /** A ray offset: the fraction of the ray's length at which it meets an obstacle. */
  type Offset = r: real | 0.0 <= r <= 1.0

  /** The result of `getIntersection`: a meeting point and its offset along the first segment. */
  datatype Touch = Touch(at: Point, offset: Offset)


  lemma ProductNonNegative(x: real, y: real)
    requires x >= 0.0 && y >= 0.0
    ensures x * y >= 0.0
  {
  }

  /** A non-negative quotient by a positive divisor: 0 exactly for a zero dividend, at least 1 exactly when the dividend is at least the divisor. */
  lemma QuotientBounds(a: real, b: real)
    requires a >= 0.0 && b > 0.0
    ensures a / b >= 0.0
    ensures a / b == 0.0 <==> a == 0.0
    ensures a / b >= 1.0 <==> a >= b
  {
    var q := a / b;
    assert q * b == a;
    if q >= 1.0 { assert q * b >= 1.0 * b; }
    if q < 1.0 { assert q * b < 1.0 * b; }
  }

  /** Indexing into a concatenation. */
  lemma ConcatLeft<T>(a: seq<T>, b: seq<T>, i: nat)
    requires i < |a|
    ensures (a + b)[i] == a[i]
  {
  }

  lemma ConcatRight<T>(a: seq<T>, b: seq<T>, i: nat)
    requires |a| <= i < |a| + |b|
    ensures (a + b)[i] == b[i - |a|]
  {
  }
}
