/**
 * The collaborators the core calls but does not define: the `Math` library,
 * the segment/polygon intersection helpers, the keyboard/scripted `Controls`
 * class and the road's lane geometry. Each is a function-valued field, and a
 * subset type carries the one fact about it that the core relies on.
 */
module Externals {
  import opened Base

  type Positive = r: real | r > 0.0 witness 1.0
  type NonNegative = r: real | r >= 0.0

  /** The four pedals/steering inputs a car reads each tick. */
  datatype Controls = Controls(forward: bool, left: bool, right: bool, reverse: bool)

  /** The string tag the source passes to a car's constructor. */
  datatype ControlType = AI | Keys | Dummy

  datatype Host = Host(
    sin: real -> real,
    cos: real -> real,
    /** `Math.exp`: always positive. */
    exp: real -> Positive,
    /** `Math.sqrt` on a non-negative argument: never negative. */
    sqrt: real -> NonNegative,
    hypot: (real, real) -> real,
    atan2: (real, real) -> real,
    /** `getIntersection(A, B, C, D)`: where segment AB meets CD, offset along AB. */
    intersection: (Point, Point, Point, Point) -> Option<Touch>,
    /** `polysIntersect(p, q)`: whether any edge of `p` crosses any edge of `q`. */
    polysIntersect: (seq<Point>, seq<Point>) -> bool,
    /** The state `new Controls(type)` starts in. */
    initialControls: ControlType -> Controls,
    /** `road.getLaneCenter(i)`. */
    laneCenter: nat -> real
  )

  /** sin² + cos² = 1 everywhere: the only trigonometric fact some lemmas need. */
  ghost predicate Pythagorean(h: Host)
  {
    forall a :: h.sin(a) * h.sin(a) + h.cos(a) * h.cos(a) == 1.0
  }

  /** The logistic activation `1 / (1 + Math.exp(-x))`. */
  function Sigmoid(h: Host, x: real): (r: real)
    ensures 0.0 < r < 1.0
  {
    1.0 / (1.0 + h.exp(-x))
  }

  /** For (dx, dy) = rad·(sin a, cos a): dx² + dy² = rad². */
  lemma PolarDistance(h: Host, a: real, rad: real)
    requires Pythagorean(h)
    ensures (h.sin(a) * rad) * (h.sin(a) * rad) + (h.cos(a) * rad) * (h.cos(a) * rad) == rad * rad
  {
    var s, c := h.sin(a), h.cos(a);
    assert s * s + c * c == 1.0;
    calc {
      (s * rad) * (s * rad) + (c * rad) * (c * rad);
      (s * s + c * c) * (rad * rad);
      rad * rad;
    }
  }
}
