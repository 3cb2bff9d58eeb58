/**
 * The car of `enhanced-car.js`: kinematics with speed clamping and friction,
 * a permanent damaged flag with a one-off collision penalty, per-tick
 * fitness metrics, and the decoding of network outputs into controls.
 */
module Car {
  import opened Base
  import opened Random
  import opened Externals
  import opened Network
  import Sensor

  const Acceleration: real := 0.15
  const Friction: real := 0.03
  const SteerStep: real := 0.025
  const CheckpointDistance: real := 150.0
  const BorderPenalty: nat := 1000
  const TrafficPenalty: nat := 500
  /** Every sensor-carrying car is built with a [9, 8, 4] network. */
  const BrainWidths: seq<nat> := [9, 8, 4]

  /** The quantities the fitness function reads, plus the previous-tick values they are measured against. */
  datatype Metrics = Metrics(
    distanceTraveled: real,
    timeAlive: nat,
    collisionPenalty: nat,
    laneKeepingScore: real,
    smoothDrivingScore: real,
    checkpointsReached: int,
    lastY: real,
    lastAngle: real,
    lastSpeed: real,
    consecutiveGoodFrames: nat)

  datatype Car = Car(
    x: real, y: real, width: real, height: real,
    angle: real, speed: real, maxSpeed: real,
    damaged: bool,
    fitness: real,
    metrics: Metrics,
    controlType: ControlType,
    controls: Controls,
    brain: Option<Network>,
    readings: seq<Option<Touch>>,
    polygon: Polygon)
  {
    /** Every car except a `"DUMMY"` one carries a sensor and a brain. */
    predicate HasSensor() { controlType != Dummy }
  }

  /** The metrics of a car that has not driven yet. */
  function InitialMetrics(y: real): (m: Metrics)
    ensures m.distanceTraveled == 0.0 && m.timeAlive == 0 && m.collisionPenalty == 0
    ensures m.laneKeepingScore == 0.0 && m.smoothDrivingScore == 0.0 && m.checkpointsReached == 0
  {
    Metrics(0.0, 0, 0, 0.0, 0.0, 0, y, 0.0, 0.0, 0)
  }

  // ---------------------------------------------------------------------------
  // Shape

  /** `createPolygon()`: four corners at radius hypot(w, h)/2, at ±atan2(w, h) around the heading and its reverse. */
  function CreatePolygon(h: Host, x: real, y: real, angle: real, width: real, height: real): (p: Polygon)
    ensures |p| == 4
  {
    var rad := h.hypot(width, height) / 2.0;
    var alpha := h.atan2(width, height);
    var centre := Point(x, y);
    [ Sensor.RayAlong(h, centre, angle - alpha, rad).end,
      Sensor.RayAlong(h, centre, angle + alpha, rad).end,
      Sensor.RayAlong(h, centre, Pi + angle - alpha, rad).end,
      Sensor.RayAlong(h, centre, Pi + angle + alpha, rad).end ]
  }

  /** Whenever sin² + cos² = 1, all four corners lie at distance hypot(w, h)/2 from the car's position. */
  lemma CornersOnCircle(h: Host, x: real, y: real, angle: real, width: real, height: real)
    requires Pythagorean(h)
    ensures var p := CreatePolygon(h, x, y, angle, width, height);
            var rad := h.hypot(width, height) / 2.0;
            forall i :: 0 <= i < 4 ==> AtDistance(p[i], Point(x, y), rad)
  {
    var rad := h.hypot(width, height) / 2.0;
    var alpha := h.atan2(width, height);
    var centre := Point(x, y);
    var p := CreatePolygon(h, x, y, angle, width, height);
    var headings := [angle - alpha, angle + alpha, Pi + angle - alpha, Pi + angle + alpha];
    forall i | 0 <= i < 4
      ensures AtDistance(p[i], centre, rad)
    {
      assert p[i] == Sensor.RayAlong(h, centre, headings[i], rad).end;
      Sensor.RayReachesLength(h, centre, headings[i], rad);
    }
  }

  // ---------------------------------------------------------------------------
  // Construction

  /**
   * `new EnhancedCar(x, y, width, height, controlType, maxSpeed)`. One draw
   * picks the (unmodelled) colour; a car with a sensor then draws a fresh
   * [9, 8, 4] brain.
   */
  function NewCar(h: Host, x: real, y: real, width: real, height: real, controlType: ControlType, maxSpeed: real,
                  rand: Oracle, k: nat): (d: Drawn<Car>)
    ensures d.value.x == x && d.value.y == y && d.value.angle == 0.0 && d.value.speed == 0.0
    ensures d.value.maxSpeed == maxSpeed && d.value.controlType == controlType
    ensures !d.value.damaged && d.value.metrics == InitialMetrics(y)
    ensures d.value.brain.Some? <==> controlType != Dummy
    ensures d.value.brain.Some? ==> WellFormed(d.value.brain.value) && Topology(d.value.brain.value) == BrainWidths
  {
    var afterColour := k + 1;
    var brain := NewNetwork(BrainWidths, h, rand, afterColour);
    var car := Car(x, y, width, height, 0.0, 0.0, maxSpeed, false, 0.0, InitialMetrics(y), controlType,
                   h.initialControls(controlType),
                   if controlType != Dummy then Some(brain.value) else None,
                   [], CreatePolygon(h, x, y, 0.0, width, height));
    Drawn(car, if controlType != Dummy then brain.next else afterColour)
  }

  // ---------------------------------------------------------------------------
  // Kinematics (`move`)

  /** The speed after one tick of pedals, clamping to [−maxSpeed/3, maxSpeed] and friction. */
  function NextSpeed(speed: real, maxSpeed: real, c: Controls): (s: real)
    ensures maxSpeed >= 0.0 ==> -maxSpeed / 3.0 <= s <= maxSpeed
    ensures s == 0.0 || Abs(s) >= Friction
  {
    var pushed := if c.forward then speed + Acceleration else speed;
    var pulled := if c.reverse then pushed - Acceleration * 0.5 else pushed;
    var capped := if pulled > maxSpeed then maxSpeed else pulled;
    var floored := if capped < -maxSpeed / 3.0 then -maxSpeed / 3.0 else capped;
    var braked := if floored > 0.0 then floored - Friction else floored;
    var rebounded := if braked < 0.0 then braked + Friction else braked;
    if Abs(rebounded) < Friction then 0.0 else rebounded
  }

  /** With neither pedal pressed a car never gets faster. */
  lemma CoastingNeverSpeedsUp(speed: real, maxSpeed: real, c: Controls)
    requires maxSpeed >= 0.0 && !c.forward && !c.reverse
    ensures Abs(NextSpeed(speed, maxSpeed, c)) <= Abs(speed)
  {
  }

  /** The heading after steering: only a moving car turns, with the step's sign flipped in reverse. */
  function NextAngle(angle: real, speed: real, c: Controls): (a: real)
    ensures speed == 0.0 ==> a == angle
    ensures a == angle || a == angle + SteerStep || a == angle - SteerStep
    ensures c.left && c.right ==> a == angle
    ensures speed != 0.0 && c.left != c.right ==>
              a == angle + (if c.left == (speed > 0.0) then SteerStep else -SteerStep)
  {
    if speed != 0.0 then
      var flip := if speed > 0.0 then 1.0 else -1.0;
      var turned := if c.left then angle + SteerStep * flip else angle;
      if c.right then turned - SteerStep * flip else turned
    else angle
  }

  /** `move()`: speed, then heading, then position along the new heading. */
  function Move(h: Host, car: Car): (r: Car)
    ensures r.speed == NextSpeed(car.speed, car.maxSpeed, car.controls)
    ensures r.angle == NextAngle(car.angle, r.speed, car.controls)
    ensures r.speed == 0.0 ==> r.x == car.x && r.y == car.y && r.angle == car.angle
    ensures r == car.(x := r.x, y := r.y, angle := r.angle, speed := r.speed)
  {
    var s := NextSpeed(car.speed, car.maxSpeed, car.controls);
    var a := NextAngle(car.angle, s, car.controls);
    car.(speed := s, angle := a, x := car.x - h.sin(a) * s, y := car.y - h.cos(a) * s)
  }

  /** Whenever sin² + cos² = 1, one tick carries the car exactly |speed| along its new heading. */
  lemma MoveStep(h: Host, car: Car)
    requires Pythagorean(h)
    ensures var r := Move(h, car);
            AtDistance(Point(r.x, r.y), Point(car.x, car.y), r.speed)
  {
    var r := Move(h, car);
    assert Point(r.x, r.y) == Sensor.RayAlong(h, Point(car.x, car.y), r.angle, r.speed).end;
    Sensor.RayReachesLength(h, Point(car.x, car.y), r.angle, r.speed);
  }

  // ---------------------------------------------------------------------------
  // Collisions (`assessDamage`)

  /** A road border seen as the two-point polygon `polysIntersect` receives. */
  function BorderPolygon(s: Segment): seq<Point>
  {
    [s.start, s.end]
  }

  /** The source's early-returning scan: does `poly` intersect any of `obstacles`? */
  function HitsAny(h: Host, poly: Polygon, obstacles: seq<seq<Point>>): (hit: bool)
    ensures hit <==> exists i :: 0 <= i < |obstacles| && h.polysIntersect(poly, obstacles[i])
    decreases |obstacles|
  {
    if |obstacles| == 0 then false
    else if h.polysIntersect(poly, obstacles[0]) then true
    else
      var rest := HitsAny(h, poly, obstacles[1..]);
      assert forall i :: 1 <= i < |obstacles| ==> obstacles[i] == obstacles[1..][i - 1];
      rest
  }

  function BorderPolygons(borders: seq<Segment>): (ps: seq<seq<Point>>)
    ensures |ps| == |borders|
    ensures forall i :: 0 <= i < |borders| ==> ps[i] == BorderPolygon(borders[i])
  {
    seq(|borders|, i requires 0 <= i < |borders| => BorderPolygon(borders[i]))
  }

  datatype Assessment = Assessment(damaged: bool, penalty: nat)

  /**
   * `assessDamage`: a border hit costs 1000, otherwise a traffic hit costs
   * 500, otherwise nothing; the verdict is "damaged" exactly when a penalty
   * was charged, and at most one penalty is charged per call.
   */
  function AssessDamage(h: Host, poly: Polygon, borders: seq<Segment>, traffic: seq<Polygon>): (a: Assessment)
    ensures a.damaged <==> a.penalty > 0
    ensures a.penalty == 0 || a.penalty == TrafficPenalty || a.penalty == BorderPenalty
    ensures a.penalty == BorderPenalty <==>
              exists i :: 0 <= i < |borders| && h.polysIntersect(poly, BorderPolygon(borders[i]))
    ensures a.penalty == TrafficPenalty <==>
              (forall i :: 0 <= i < |borders| ==> !h.polysIntersect(poly, BorderPolygon(borders[i])))
              && exists i :: 0 <= i < |traffic| && h.polysIntersect(poly, traffic[i])
  {
    var bs := BorderPolygons(borders);
    if HitsAny(h, poly, bs) then Assessment(true, BorderPenalty)
    else if HitsAny(h, poly, traffic) then Assessment(true, TrafficPenalty)
    else Assessment(false, 0)
  }

  // ---------------------------------------------------------------------------
  // Metrics (`updateMetrics`)

  /** The road's two borders exist and are at different x positions, so its width is positive. */
  predicate RoadShaped(borders: seq<Segment>)
  {
    |borders| >= 2 && borders[0].start.x != borders[1].start.x
  }

  /** This tick's lane-keeping reward: 1 on the road's centre line, falling to 0 a third of the road's width away. */
  function LaneKeepingReward(x: real, borders: seq<Segment>): (r: real)
    requires RoadShaped(borders)
    ensures 0.0 <= r <= 1.0
    ensures var centre := borders[0].start.x + (borders[1].start.x - borders[0].start.x) / 2.0;
            r == 1.0 <==> x == centre
    ensures var centre := borders[0].start.x + (borders[1].start.x - borders[0].start.x) / 2.0;
            r == 0.0 <==> Abs(x - centre) >= Abs(borders[1].start.x - borders[0].start.x) / 3.0
  {
    var left := borders[0].start.x;
    var right := borders[1].start.x;
    var centre := left + (right - left) / 2.0;
    var offCentre := Abs(x - centre);
    var scale := Abs(right - left) / 3.0;
    QuotientBounds(offCentre, scale);
    Max(0.0, 1.0 - offCentre / scale)
  }

  /** A tick with a small heading change (< 0.05) and a small speed change (< 0.1). */
  predicate SmoothTick(car: Car)
  {
    Abs(car.angle - car.metrics.lastAngle) < 0.05 && Abs(car.speed - car.metrics.lastSpeed) < 0.1
  }

  /** `Math.floor(distance / 150)`. */
  function CheckpointsFor(distance: real): int
  {
    (distance / CheckpointDistance).Floor
  }

  /**
   * `updateMetrics` on a car that has just moved. Time advances by one;
   * distance, lane keeping, smooth driving and checkpoints never decrease;
   * the good-tick streak grows on a smooth tick and restarts on any other.
   */
  function UpdateMetrics(car: Car, borders: seq<Segment>): (m: Metrics)
    requires RoadShaped(borders)
    ensures var old_ := car.metrics;
            && m.timeAlive == old_.timeAlive + 1
            && m.distanceTraveled >= old_.distanceTraveled
            && m.distanceTraveled == old_.distanceTraveled + Abs(car.y - old_.lastY)
            && m.checkpointsReached == (if CheckpointsFor(m.distanceTraveled) > old_.checkpointsReached
                                        then CheckpointsFor(m.distanceTraveled) else old_.checkpointsReached)
            && m.checkpointsReached >= old_.checkpointsReached
            && old_.laneKeepingScore <= m.laneKeepingScore <= old_.laneKeepingScore + 1.0
            && m.smoothDrivingScore >= old_.smoothDrivingScore
            && m.consecutiveGoodFrames == (if SmoothTick(car) then old_.consecutiveGoodFrames + 1 else 0)
            && m.collisionPenalty == old_.collisionPenalty
            && m.lastY == car.y && m.lastAngle == car.angle && m.lastSpeed == car.speed
  {
    var old_ := car.metrics;
    var distance := old_.distanceTraveled + Abs(car.y - old_.lastY);
    var lane := old_.laneKeepingScore + LaneKeepingReward(car.x, borders);
    var smooth := SmoothTick(car);
    var streak := if smooth then old_.consecutiveGoodFrames + 1 else 0;
    var smoothScore := if smooth then old_.smoothDrivingScore + streak as real * 0.1 else old_.smoothDrivingScore;
    var expected := CheckpointsFor(distance);
    var checkpoints := if expected > old_.checkpointsReached then expected else old_.checkpointsReached;
    var bonus := if car.speed > 1.0 && car.speed < car.maxSpeed * 0.8 then 0.5 else 0.0;
    Metrics(distance, old_.timeAlive + 1, old_.collisionPenalty, lane, smoothScore + bonus, checkpoints,
            car.y, car.angle, car.speed, streak)
  }

  // ---------------------------------------------------------------------------
  // Sensing and deciding

  /** `prepareSensorInputs()`: 1 − offset per reading (0 for none), then speed/maxSpeed and sin(angle). */
  function PrepareSensorInputs(h: Host, readings: seq<Option<Touch>>, speed: real, maxSpeed: real, angle: real)
    : (inputs: seq<real>)
    requires maxSpeed > 0.0
    ensures |inputs| == |readings| + 2
    ensures forall i :: 0 <= i < |readings| ==> 0.0 <= inputs[i] <= 1.0
    ensures forall i :: 0 <= i < |readings| ==> (readings[i].None? ==> inputs[i] == 0.0)
    ensures forall i :: 0 <= i < |readings| && readings[i].Some? ==> inputs[i] + readings[i].value.offset == 1.0
    ensures inputs[|readings|] * maxSpeed == speed
    ensures inputs[|readings| + 1] == h.sin(angle)
  {
    var sensed := seq(|readings|, i requires 0 <= i < |readings| =>
                        match readings[i] case None => 0.0 case Some(t) => 1.0 - t.offset);
    sensed + [speed / maxSpeed, h.sin(angle)]
  }

  /** Output `i` exists and exceeds `threshold` (a missing output compares false, as `undefined > t` does). */
  predicate Above(outputs: seq<real>, i: nat, threshold: real)
  {
    i < |outputs| && outputs[i] > threshold
  }

  /**
   * The AI decoding: forward above 0.6, left/right above 0.7, reverse above
   * 0.8; when both turns fire, the stronger one wins (right on a tie).
   */
  function DecodeControls(outputs: seq<real>): (c: Controls)
    ensures !(c.left && c.right)
    ensures c.forward <==> Above(outputs, 0, 0.6)
    ensures c.reverse <==> Above(outputs, 3, 0.8)
    ensures c.left || c.right <==> Above(outputs, 1, 0.7) || Above(outputs, 2, 0.7)
    ensures c.left ==> Above(outputs, 1, 0.7) && (Above(outputs, 2, 0.7) ==> outputs[1] > outputs[2])
    ensures c.right ==> Above(outputs, 2, 0.7) && (Above(outputs, 1, 0.7) ==> outputs[2] >= outputs[1])
  {
    var left := Above(outputs, 1, 0.7);
    var right := Above(outputs, 2, 0.7);
    if left && right then
      var preferLeft := outputs[1] > outputs[2];
      Controls(Above(outputs, 0, 0.6), preferLeft, !preferLeft, Above(outputs, 3, 0.8))
    else
      Controls(Above(outputs, 0, 0.6), left, right, Above(outputs, 3, 0.8))
  }

  // ---------------------------------------------------------------------------
  // One tick (`update`)

  /** What `update` needs of a car: a positive top speed and, with a sensor, a brain that reads at most its inputs. */
  predicate Drivable(car: Car)
  {
    && car.maxSpeed > 0.0
    && (car.HasSensor() ==>
          && car.brain.Some?
          && |car.brain.value.levels| >= 1
          && WellFormed(car.brain.value)
          && car.brain.value.levels[0].InputCount() <= Sensor.Default.rayCount + 5)
  }

  /**
   * The physical half of a tick: move, recompute the shape, check for damage,
   * score the tick. The metrics are those `UpdateMetrics` computes for the
   * moved car once the penalty has been charged.
   */
  function Drive(h: Host, car: Car, borders: seq<Segment>, traffic: seq<Polygon>): (r: Car)
    requires RoadShaped(borders)
    ensures var m := Move(h, car);
            r.x == m.x && r.y == m.y && r.angle == m.angle && r.speed == m.speed
    ensures r.width == car.width && r.height == car.height && r.fitness == car.fitness
    ensures r.polygon == CreatePolygon(h, r.x, r.y, r.angle, r.width, r.height)
    ensures r.metrics.collisionPenalty == car.metrics.collisionPenalty + AssessDamage(h, r.polygon, borders, traffic).penalty
    ensures r.metrics == UpdateMetrics(r.(metrics := car.metrics.(collisionPenalty := r.metrics.collisionPenalty)), borders)
    ensures r.metrics.timeAlive == car.metrics.timeAlive + 1 && r.metrics.lastY == r.y
    ensures r.damaged == AssessDamage(h, r.polygon, borders, traffic).damaged
    ensures r.brain == car.brain && r.maxSpeed == car.maxSpeed && r.controlType == car.controlType
    ensures r.controls == car.controls && r.readings == car.readings
  {
    var moved := Move(h, car);
    var poly := CreatePolygon(h, moved.x, moved.y, moved.angle, moved.width, moved.height);
    var verdict := AssessDamage(h, poly, borders, traffic);
    var hit := moved.(polygon := poly, damaged := verdict.damaged,
                      metrics := moved.metrics.(collisionPenalty := moved.metrics.collisionPenalty + verdict.penalty));
    hit.(metrics := UpdateMetrics(hit, borders))
  }

  /** The sensing half of a tick: read the sensor, run the brain, and (for an AI car) take its controls. */
  function Sense(h: Host, car: Car, borders: seq<Segment>, traffic: seq<Polygon>): (r: Car)
    requires Drivable(car)
    ensures r == car.(readings := r.readings, controls := r.controls)
    ensures car.controlType == AI ==> !(r.controls.left && r.controls.right)
    ensures car.controlType != AI ==> r.controls == car.controls
    ensures car.HasSensor() ==> |r.readings| == Sensor.Default.rayCount + 3
  {
    if car.HasSensor() then
      var readings := Sensor.Readings(h, Sensor.Default, Point(car.x, car.y), car.angle, borders, traffic);
      var inputs := PrepareSensorInputs(h, readings, car.speed, car.maxSpeed, car.angle);
      var outputs := FeedForward(inputs, car.brain.value, h);
      var controls := if car.controlType == AI then DecodeControls(outputs) else car.controls;
      car.(readings := readings, controls := controls)
    else car
  }

  /**
   * `update(roadBorders, traffic)`. A damaged car keeps its position, speed,
   * heading, shape and metrics (so its collision penalty is charged once);
   * an undamaged one is charged 0, 500 or 1000 and becomes damaged exactly
   * when charged. Sensing happens either way.
   */
  function Update(h: Host, car: Car, borders: seq<Segment>, traffic: seq<Polygon>): (r: Car)
    requires Drivable(car)
    requires car.damaged || RoadShaped(borders)
    ensures Drivable(r)
    ensures r.brain == car.brain && r.maxSpeed == car.maxSpeed && r.controlType == car.controlType
    ensures car.damaged ==> r.damaged
    ensures car.damaged ==> r.x == car.x && r.y == car.y && r.speed == car.speed && r.angle == car.angle
    ensures car.damaged ==> r.polygon == car.polygon && r.metrics == car.metrics
    ensures !car.damaged ==> var added := r.metrics.collisionPenalty - car.metrics.collisionPenalty;
              (added == 0 || added == TrafficPenalty || added == BorderPenalty) && (r.damaged <==> added > 0)
    ensures !car.damaged && car.maxSpeed >= 0.0 ==> -car.maxSpeed / 3.0 <= r.speed <= car.maxSpeed
    ensures car.controlType == AI ==> !(r.controls.left && r.controls.right)
  {
    var driven := if car.damaged then car else Drive(h, car, borders, traffic);
    Sense(h, driven, borders, traffic)
  }

  /** One tick's world: the road borders and the traffic cars' shapes. */
  datatype Tick = Tick(borders: seq<Segment>, traffic: seq<Polygon>)

  /** `Update` applied once per tick, in order. */
  function Run(h: Host, car: Car, ticks: seq<Tick>): (r: Car)
    requires Drivable(car)
    requires forall i :: 0 <= i < |ticks| ==> RoadShaped(ticks[i].borders)
    ensures Drivable(r)
    decreases |ticks|
  {
    if |ticks| == 0 then car
    else Run(h, Update(h, car, ticks[0].borders, ticks[0].traffic), ticks[1..])
  }

  /**
   * However many ticks a car lives through, its collision penalty grows by
   * at most one charge (none at all once it is damaged), and damage is never
   * undone.
   */
  lemma {:induction false} PenaltyChargedAtMostOnce(h: Host, car: Car, ticks: seq<Tick>)
    requires Drivable(car)
    requires forall i :: 0 <= i < |ticks| ==> RoadShaped(ticks[i].borders)
    ensures car.damaged ==> Run(h, car, ticks).damaged
    ensures car.damaged ==> Run(h, car, ticks).metrics == car.metrics
    ensures var added := Run(h, car, ticks).metrics.collisionPenalty - car.metrics.collisionPenalty;
            added == 0 || added == TrafficPenalty || added == BorderPenalty
    ensures !Run(h, car, ticks).damaged ==> Run(h, car, ticks).metrics.collisionPenalty == car.metrics.collisionPenalty
    decreases |ticks|
  {
    if |ticks| > 0 {
      var next := Update(h, car, ticks[0].borders, ticks[0].traffic);
      assert forall i :: 0 <= i < |ticks[1..]| ==> ticks[1..][i] == ticks[i + 1];
      PenaltyChargedAtMostOnce(h, next, ticks[1..]);
      assert Run(h, car, ticks) == Run(h, next, ticks[1..]);
    }
  }

  /**
   * The first level of a car's brain is 9 wide but the inputs are 12: the
   * seven forward readings and the two side readings are read, and the rear
   * reading, the speed and the heading are ignored.
   */
  lemma BrainIgnoresRearSpeedAndHeading(h: Host, brain: Network, r1: seq<Option<Touch>>, r2: seq<Option<Touch>>,
                                        speed1: real, speed2: real, maxSpeed: real, angle1: real, angle2: real)
    requires |brain.levels| >= 1 && WellFormed(brain) && Topology(brain)[0] == 9
    requires |r1| == |r2| == Sensor.Default.rayCount + 3 && r1[..9] == r2[..9]
    requires maxSpeed > 0.0
    ensures FeedForward(PrepareSensorInputs(h, r1, speed1, maxSpeed, angle1), brain, h)
         == FeedForward(PrepareSensorInputs(h, r2, speed2, maxSpeed, angle2), brain, h)
  {
    var a := PrepareSensorInputs(h, r1, speed1, maxSpeed, angle1);
    var b := PrepareSensorInputs(h, r2, speed2, maxSpeed, angle2);
    forall i | 0 <= i < 9 ensures a[i] == b[i] {
      assert r1[i] == r1[..9][i] == r2[..9][i] == r2[i];
    }
    assert a[..9] == b[..9];
    FeedForwardReadsPrefix(a, b, brain, h);
  }
}
