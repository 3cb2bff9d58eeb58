/**
 * The ray sensor of `enhanced-sensor.js`: a fan of forward rays plus a left,
 * a right and a rear ray, each reduced to the nearest obstacle it meets.
 */
module Sensor {
  import opened Base
  import opened Externals

  datatype Config = Config(rayCount: nat, rayLength: real, raySpread: real, sideRayLength: real, rearRayLength: real)

  /** The constants the sensor's constructor sets. */
  const Default: Config := Config(7, 200.0, Pi * 0.75, 100.0, 80.0)

  /** A ray from `origin` of the given length; heading 0 points towards decreasing y. */
  function RayAlong(h: Host, origin: Point, heading: real, length: real): (r: Segment)
    ensures r.start == origin
  {
    Segment(origin, Point(origin.x - h.sin(heading) * length, origin.y - h.cos(heading) * length))
  }

  /** Whenever sin² + cos² = 1, a ray's far end lies exactly `length` away from its origin. */
  lemma RayReachesLength(h: Host, origin: Point, heading: real, length: real)
    requires Pythagorean(h)
    ensures AtDistance(RayAlong(h, origin, heading, length).end, origin, length)
  {
    var r := RayAlong(h, origin, heading, length);
    assert r.end.x - r.start.x == -(h.sin(heading) * length);
    assert r.end.y - r.start.y == -(h.cos(heading) * length);
    PolarDistance(h, heading, length);
  }

  /** Where forward ray `i` sits across the fan: 0 at the left edge, 1 at the right edge. */
  function FanParameter(i: nat, rayCount: nat): (t: real)
    requires i < rayCount
    ensures 0.0 <= t <= 1.0
    ensures rayCount == 1 ==> t == 0.5
    ensures rayCount > 1 && i == 0 ==> t == 0.0
    ensures rayCount > 1 && i == rayCount - 1 ==> t == 1.0
  {
    if rayCount == 1 then 0.5
    else
      assert i as real <= (rayCount - 1) as real;
      i as real / (rayCount - 1) as real
  }

  /** The heading of forward ray `i`, interpolated from +spread/2 to −spread/2 around the car's heading. */
  function RayAngle(cfg: Config, i: nat, heading: real): (a: real)
    requires i < cfg.rayCount
  {
    Lerp(cfg.raySpread / 2.0, -cfg.raySpread / 2.0, FanParameter(i, cfg.rayCount)) + heading
  }

  /** Every forward ray lies within the fan; a lone ray points straight ahead; the fan's edges are hit exactly. */
  lemma RayAngleInFan(cfg: Config, i: nat, heading: real)
    requires i < cfg.rayCount && cfg.raySpread >= 0.0
    ensures heading - cfg.raySpread / 2.0 <= RayAngle(cfg, i, heading) <= heading + cfg.raySpread / 2.0
    ensures cfg.rayCount == 1 ==> RayAngle(cfg, i, heading) == heading
    ensures cfg.rayCount > 1 && i == 0 ==> RayAngle(cfg, i, heading) == heading + cfg.raySpread / 2.0
    ensures cfg.rayCount > 1 && i == cfg.rayCount - 1 ==> RayAngle(cfg, i, heading) == heading - cfg.raySpread / 2.0
  {
  }

  /** `castRays`: `rayCount` forward rays, all starting at the car. */
  function CastRays(h: Host, cfg: Config, origin: Point, heading: real): (rays: seq<Segment>)
    ensures |rays| == cfg.rayCount
    ensures forall i :: 0 <= i < |rays| ==> rays[i].start == origin
    ensures forall i :: 0 <= i < |rays| ==> rays[i] == RayAlong(h, origin, RayAngle(cfg, i, heading), cfg.rayLength)
  {
    seq(cfg.rayCount, i requires 0 <= i < cfg.rayCount => RayAlong(h, origin, RayAngle(cfg, i, heading), cfg.rayLength))
  }

  /** `createSideRay(angleOffset)`. */
  function SideRay(h: Host, cfg: Config, origin: Point, heading: real, angleOffset: real): (r: Segment)
    ensures r.start == origin
  {
    RayAlong(h, origin, heading + angleOffset, cfg.sideRayLength)
  }

  /** `createRearRay()`: pointing opposite to the heading. */
  function RearRay(h: Host, cfg: Config, origin: Point, heading: real): (r: Segment)
    ensures r.start == origin
  {
    RayAlong(h, origin, heading + Pi, cfg.rearRayLength)
  }

  /** Whenever sin² + cos² = 1, forward, side and rear rays reach exactly their configured lengths. */
  lemma RayLengths(h: Host, cfg: Config, origin: Point, heading: real, angleOffset: real)
    requires Pythagorean(h)
    ensures forall i :: 0 <= i < cfg.rayCount ==> AtDistance(CastRays(h, cfg, origin, heading)[i].end, origin, cfg.rayLength)
    ensures AtDistance(SideRay(h, cfg, origin, heading, angleOffset).end, origin, cfg.sideRayLength)
    ensures AtDistance(RearRay(h, cfg, origin, heading).end, origin, cfg.rearRayLength)
  {
    forall i | 0 <= i < cfg.rayCount
      ensures AtDistance(CastRays(h, cfg, origin, heading)[i].end, origin, cfg.rayLength)
    {
      RayReachesLength(h, origin, RayAngle(cfg, i, heading), cfg.rayLength);
    }
    RayReachesLength(h, origin, heading + angleOffset, cfg.sideRayLength);
    RayReachesLength(h, origin, heading + Pi, cfg.rearRayLength);
  }

  // ---------------------------------------------------------------------------
  // Reducing a ray to its nearest touch (`getReading`)

  /** The closed edge cycle of a polygon: consecutive points, then the last point back to the first. */
  function Edges(poly: Polygon): (es: seq<Segment>)
    ensures |es| == |poly|
    ensures forall j :: 0 <= j < |poly| - 1 ==> es[j] == Segment(poly[j], poly[j + 1])
    ensures |poly| > 0 ==> es[|poly| - 1] == Segment(poly[|poly| - 1], poly[0])
  {
    seq(|poly|, j requires 0 <= j < |poly| => Segment(poly[j], poly[Successor(j, |poly|)]))
  }

  /** `(j + 1) % n`: the next position around a cycle of length `n`. */
  function Successor(j: nat, n: nat): (r: nat)
    requires j < n
    ensures r < n
    ensures j + 1 < n ==> r == j + 1
    ensures j + 1 == n ==> r == 0
  {
    (j + 1) % n
  }

  /** Every edge of every traffic polygon, polygon by polygon. */
  function TrafficEdges(traffic: seq<Polygon>): seq<Segment>
  {
    if |traffic| == 0 then [] else Edges(traffic[0]) + TrafficEdges(traffic[1..])
  }

  /** What a ray is probed against, in the source's order: road borders, then traffic edges. */
  function Candidates(borders: seq<Segment>, traffic: seq<Polygon>): seq<Segment>
  {
    borders + TrafficEdges(traffic)
  }

  lemma {:induction false} TrafficEdgesCover(traffic: seq<Polygon>, p: nat, j: nat)
    requires p < |traffic| && j < |traffic[p]|
    ensures Edges(traffic[p])[j] in TrafficEdges(traffic)
    decreases |traffic|
  {
    if p > 0 {
      TrafficEdgesCover(traffic[1..], p - 1, j);
      assert traffic[1..][p - 1] == traffic[p];
    }
  }

  /** Every border, and every edge of every traffic polygon including its closing edge, is probed. */
  lemma CandidatesCover(borders: seq<Segment>, traffic: seq<Polygon>)
    ensures forall s :: s in borders ==> s in Candidates(borders, traffic)
    ensures forall p, j :: 0 <= p < |traffic| && 0 <= j < |traffic[p]| ==> Edges(traffic[p])[j] in Candidates(borders, traffic)
    ensures forall p :: 0 <= p < |traffic| && |traffic[p]| > 0 ==>
              Segment(traffic[p][|traffic[p]| - 1], traffic[p][0]) in Candidates(borders, traffic)
  {
    forall p, j | 0 <= p < |traffic| && 0 <= j < |traffic[p]|
      ensures Edges(traffic[p])[j] in Candidates(borders, traffic)
    {
      TrafficEdgesCover(traffic, p, j);
    }
    forall p | 0 <= p < |traffic| && |traffic[p]| > 0
      ensures Segment(traffic[p][|traffic[p]| - 1], traffic[p][0]) in Candidates(borders, traffic)
    {
      TrafficEdgesCover(traffic, p, |traffic[p]| - 1);
    }
  }

  /** `getIntersection(ray[0], ray[1], seg[0], seg[1])`. */
  function Probe(h: Host, ray: Segment, seg: Segment): Option<Touch>
  {
    h.intersection(ray.start, ray.end, seg.start, seg.end)
  }

  /** The touches found, in the order the segments are probed. */
  function Touches(h: Host, ray: Segment, segs: seq<Segment>): (ts: seq<Touch>)
    ensures forall t :: t in ts ==> exists i :: 0 <= i < |segs| && Probe(h, ray, segs[i]) == Some(t)
    ensures forall i :: 0 <= i < |segs| && Probe(h, ray, segs[i]).Some? ==> Probe(h, ray, segs[i]).value in ts
    ensures |ts| <= |segs|
    decreases |segs|
  {
    if |segs| == 0 then []
    else
      var rest := Touches(h, ray, segs[1..]);
      assert forall i :: 1 <= i < |segs| ==> segs[i] == segs[1..][i - 1];
      match Probe(h, ray, segs[0])
      case Some(t) => [t] + rest
      case None => rest
  }

  /**
   * `Touches` keeps the probing order: each touch comes from some segment
   * `i`, and every hit of a segment before `i` is an earlier touch.
   */
  predicate FoundInOrder(h: Host, ray: Segment, segs: seq<Segment>, ts: seq<Touch>, a: nat)
    requires a < |ts|
  {
    exists i :: 0 <= i < |segs| && FoundAt(h, ray, segs, ts, a, i)
  }

  /** Touch `a` is the hit of segment `i`, and every hit of an earlier segment is an earlier touch. */
  predicate FoundAt(h: Host, ray: Segment, segs: seq<Segment>, ts: seq<Touch>, a: nat, i: nat)
    requires a < |ts| && i < |segs|
  {
    Probe(h, ray, segs[i]) == Some(ts[a]) &&
      forall j :: 0 <= j < i && Probe(h, ray, segs[j]).Some? ==> Probe(h, ray, segs[j]).value in ts[..a]
  }

  lemma {:induction false} TouchesInOrder(h: Host, ray: Segment, segs: seq<Segment>)
    ensures forall a :: 0 <= a < |Touches(h, ray, segs)| ==> FoundInOrder(h, ray, segs, Touches(h, ray, segs), a)
    decreases |segs|
  {
    if |segs| > 0 {
      var ts := Touches(h, ray, segs);
      var rest := Touches(h, ray, segs[1..]);
      TouchesInOrder(h, ray, segs[1..]);
      if Probe(h, ray, segs[0]).Some? {
        assert ts == [Probe(h, ray, segs[0]).value] + rest;
        forall a | 0 <= a < |ts| ensures FoundInOrder(h, ray, segs, ts, a) {
          if a == 0 {
            assert FoundAt(h, ray, segs, ts, 0, 0);
          } else {
            LiftFound(h, ray, segs, ts, rest, 1, a);
          }
        }
      } else {
        assert ts == rest;
        forall a | 0 <= a < |ts| ensures FoundInOrder(h, ray, segs, ts, a) {
          LiftFound(h, ray, segs, ts, rest, 0, a);
        }
      }
    }
  }

  /** A touch found in order among the later segments is found in order among all of them. */
  lemma LiftFound(h: Host, ray: Segment, segs: seq<Segment>, ts: seq<Touch>, rest: seq<Touch>, shift: nat, a: nat)
    requires |segs| > 0 && shift <= a < |ts| && |ts| == |rest| + shift && shift <= 1
    requires shift == 0 ==> ts == rest && Probe(h, ray, segs[0]).None?
    requires shift == 1 ==> ts == [ts[0]] + rest && Probe(h, ray, segs[0]) == Some(ts[0])
    requires FoundInOrder(h, ray, segs[1..], rest, a - shift)
    ensures FoundInOrder(h, ray, segs, ts, a)
  {
    var tail := segs[1..];
    var i :| 0 <= i < |tail| && FoundAt(h, ray, tail, rest, a - shift, i);
    assert ts[a] == rest[a - shift];
    assert segs[i + 1] == tail[i];
    forall j | 0 <= j < i + 1 && Probe(h, ray, segs[j]).Some?
      ensures Probe(h, ray, segs[j]).value in ts[..a]
    {
      if j > 0 {
        assert segs[j] == tail[j - 1];
        var v := Probe(h, ray, tail[j - 1]).value;
        assert v in rest[..a - shift];
        var b :| 0 <= b < a - shift && rest[..a - shift][b] == v;
        assert ts[..a][b + shift] == v;
      } else {
        assert ts[..a][0] == ts[0];
      }
    }
    assert FoundAt(h, ray, segs, ts, a, i + 1);
  }

  /** `Math.min(...offsets)`. */
  function MinOffset(ts: seq<Touch>): (m: real)
    requires |ts| > 0
    ensures forall i :: 0 <= i < |ts| ==> m <= ts[i].offset
    ensures exists i :: 0 <= i < |ts| && ts[i].offset == m
    decreases |ts|
  {
    if |ts| == 1 then ts[0].offset
    else
      var rest := MinOffset(ts[1..]);
      assert forall i :: 1 <= i < |ts| ==> ts[i] == ts[1..][i - 1];
      if ts[0].offset <= rest then ts[0].offset else rest
  }

  /** `touches.find(e => e.offset === m)`: the first position holding offset `m`. */
  function FirstWithOffset(ts: seq<Touch>, m: real): (i: nat)
    requires exists i :: 0 <= i < |ts| && ts[i].offset == m
    ensures i < |ts| && ts[i].offset == m
    ensures forall j :: 0 <= j < i ==> ts[j].offset != m
    decreases |ts|
  {
    if ts[0].offset == m then 0
    else
      assert exists i :: 0 <= i < |ts[1..]| && ts[1..][i].offset == m by {
        var i :| 0 <= i < |ts| && ts[i].offset == m;
        assert ts[1..][i - 1] == ts[i];
      }
      1 + FirstWithOffset(ts[1..], m)
  }

  /** The first touch among those with the smallest offset. */
  function Nearest(ts: seq<Touch>): (t: Touch)
    requires |ts| > 0
    ensures t in ts
    ensures forall u :: u in ts ==> t.offset <= u.offset
    ensures exists i :: 0 <= i < |ts| && ts[i] == t && forall j :: 0 <= j < i ==> ts[j].offset > t.offset
  {
    var m := MinOffset(ts);
    ts[FirstWithOffset(ts, m)]
  }

  /**
   * `getReading(ray, roadBorders, traffic)`: `None` exactly when no border and
   * no traffic edge meets the ray; otherwise a touch nothing else undercuts.
   */
  function GetReading(h: Host, ray: Segment, borders: seq<Segment>, traffic: seq<Polygon>): (r: Option<Touch>)
    ensures r.None? <==> forall s :: s in Candidates(borders, traffic) ==> Probe(h, ray, s).None?
    ensures r.Some? ==> exists s :: s in Candidates(borders, traffic) && Probe(h, ray, s) == r
    ensures r.Some? ==> forall s :: s in Candidates(borders, traffic) && Probe(h, ray, s).Some? ==>
              r.value.offset <= Probe(h, ray, s).value.offset
    ensures r.Some? ==> FirstNearest(h, ray, Candidates(borders, traffic), r.value)
  {
    var segs := Candidates(borders, traffic);
    var ts := Touches(h, ray, segs);
    if |ts| == 0 then None
    else
      var t := Nearest(ts);
      NearestIsFirst(h, ray, segs);
      Some(t)
  }

  /**
   * `t` is the hit of some probed segment `i` whose offset no hit
   * undercuts, and every segment probed before `i` was missed or hit
   * strictly farther away: ties go to the segment probed first.
   */
  predicate FirstNearest(h: Host, ray: Segment, segs: seq<Segment>, t: Touch)
  {
    exists i :: 0 <= i < |segs| && NearestAt(h, ray, segs, t, i)
  }

  /** `t` is the hit of segment `i`, and every earlier segment was missed or hit strictly farther away. */
  predicate NearestAt(h: Host, ray: Segment, segs: seq<Segment>, t: Touch, i: nat)
    requires i < |segs|
  {
    Probe(h, ray, segs[i]) == Some(t) &&
      forall j :: 0 <= j < i && Probe(h, ray, segs[j]).Some? ==> Probe(h, ray, segs[j]).value.offset > t.offset
  }

  lemma NearestIsFirst(h: Host, ray: Segment, segs: seq<Segment>)
    requires |Touches(h, ray, segs)| > 0
    ensures FirstNearest(h, ray, segs, Nearest(Touches(h, ray, segs)))
  {
    var ts := Touches(h, ray, segs);
    var a := NearestPosition(ts);
    FoundInOrderAt(h, ray, segs, a);
    EarlierFartherAway(h, ray, segs, ts, a);
  }

  /** Where the nearest touch first occurs: every touch before it is strictly farther away. */
  lemma NearestPosition(ts: seq<Touch>) returns (a: nat)
    requires |ts| > 0
    ensures a < |ts| && ts[a] == Nearest(ts)
    ensures forall b :: 0 <= b < a ==> ts[b].offset > ts[a].offset
  {
    a :| 0 <= a < |ts| && ts[a] == Nearest(ts) && forall b :: 0 <= b < a ==> ts[b].offset > Nearest(ts).offset;
  }

  /** `TouchesInOrder` for the touch at position `a`. */
  lemma FoundInOrderAt(h: Host, ray: Segment, segs: seq<Segment>, a: nat)
    requires a < |Touches(h, ray, segs)|
    ensures FoundInOrder(h, ray, segs, Touches(h, ray, segs), a)
  {
    TouchesInOrder(h, ray, segs);
  }

  /** When every touch before position `a` is farther than touch `a`, so is every earlier hit. */
  lemma EarlierFartherAway(h: Host, ray: Segment, segs: seq<Segment>, ts: seq<Touch>, a: nat)
    requires a < |ts| && FoundInOrder(h, ray, segs, ts, a)
    requires forall b :: 0 <= b < a ==> ts[b].offset > ts[a].offset
    ensures FirstNearest(h, ray, segs, ts[a])
  {
    var i :| 0 <= i < |segs| && FoundAt(h, ray, segs, ts, a, i);
    forall j | 0 <= j < i && Probe(h, ray, segs[j]).Some?
      ensures Probe(h, ray, segs[j]).value.offset > ts[a].offset
    {
      var b :| 0 <= b < a && ts[..a][b] == Probe(h, ray, segs[j]).value;
      assert ts[b] == ts[..a][b];
    }
    assert NearestAt(h, ray, segs, ts[a], i);
  }

  /** `update`: the forward readings in ray order, then left side, right side, rear. */
  function Readings(h: Host, cfg: Config, origin: Point, heading: real, borders: seq<Segment>, traffic: seq<Polygon>)
    : (rs: seq<Option<Touch>>)
    ensures |rs| == cfg.rayCount + 3
    ensures forall i :: 0 <= i < cfg.rayCount ==>
              rs[i] == GetReading(h, CastRays(h, cfg, origin, heading)[i], borders, traffic)
    ensures rs[cfg.rayCount] == GetReading(h, SideRay(h, cfg, origin, heading, -Pi / 2.0), borders, traffic)
    ensures rs[cfg.rayCount + 1] == GetReading(h, SideRay(h, cfg, origin, heading, Pi / 2.0), borders, traffic)
    ensures rs[cfg.rayCount + 2] == GetReading(h, RearRay(h, cfg, origin, heading), borders, traffic)
  {
    var rays := CastRays(h, cfg, origin, heading);
    var forward := seq(|rays|, i requires 0 <= i < |rays| => GetReading(h, rays[i], borders, traffic));
    forward + [
      GetReading(h, SideRay(h, cfg, origin, heading, -Pi / 2.0), borders, traffic),
      GetReading(h, SideRay(h, cfg, origin, heading, Pi / 2.0), borders, traffic),
      GetReading(h, RearRay(h, cfg, origin, heading), borders, traffic)
    ]
  }
}
