/**
 * The generational genetic algorithm of `genetic-algorithm.js`: fitness
 * scoring, ranking, a capped generation history, elitism, tournament
 * selection, uniform crossover and refilling the population.
 */
module Genetics {
  import opened Base
  import opened Random
  import opened Externals
  import opened Network
  import opened Car

  const TournamentSize: nat := 5
  const HistoryCap: nat := 50
  /** A car counts towards the success rate with more than this many checkpoints. */
  const SuccessCheckpoints: int := 5
  /** Where every new car starts: lane 1, y = 100, 30 × 50, top speed 3. */
  const SpawnY: real := 100.0
  const CarWidth: real := 30.0
  const CarHeight: real := 50.0
  const CarMaxSpeed: real := 3.0

  datatype GenerationRecord = GenerationRecord(
    generation: nat,
    bestFitness: real,
    avgFitness: real,
    bestDistance: real,
    aliveCount: nat,
    successRate: real)

  /** The algorithm's state: its settings, the generation counter and the history. */
  datatype GA = GA(
    generation: nat,
    populationSize: nat,
    mutationRate: real,
    eliteCount: nat,
    crossoverRate: real,
    history: seq<GenerationRecord>)

  // ---------------------------------------------------------------------------
  // Fitness (`calculateFitness`)

  /** `distanceTraveled / Math.max(timeAlive, 1)`. */
  function AverageSpeed(m: Metrics): real
  {
    m.distanceTraveled / (if m.timeAlive > 1 then m.timeAlive else 1) as real
  }

  /** The weighted sum of a car's metrics, floored at 0. */
  function FitnessOf(m: Metrics): (f: real)
    ensures f >= 0.0
  {
    var raw := m.distanceTraveled * 10.0
             + m.timeAlive as real * 0.1
             + AverageSpeed(m) * 5.0
             + m.laneKeepingScore * 20.0
             - m.collisionPenalty as real
             + m.checkpointsReached as real * 100.0
             + m.smoothDrivingScore * 10.0;
    Max(0.0, raw)
  }

  /** A car that has not driven yet scores 0, so no car can score below it. */
  lemma UntriedCarScoresZero(y: real)
    ensures FitnessOf(InitialMetrics(y)) == 0.0
    ensures forall m :: FitnessOf(InitialMetrics(y)) <= FitnessOf(m)
  {
    assert AverageSpeed(InitialMetrics(y)) == 0.0;
  }

  /**
   * Over the same lifetime, driving farther, keeping the lane better,
   * reaching more checkpoints and driving more smoothly never lowers fitness,
   * and a larger collision penalty never raises it.
   */
  lemma FitnessMonotone(a: Metrics, b: Metrics)
    requires a.timeAlive == b.timeAlive
    requires a.distanceTraveled <= b.distanceTraveled
    requires a.laneKeepingScore <= b.laneKeepingScore
    requires a.checkpointsReached <= b.checkpointsReached
    requires a.smoothDrivingScore <= b.smoothDrivingScore
    requires a.collisionPenalty >= b.collisionPenalty
    ensures FitnessOf(a) <= FitnessOf(b)
  {
    var lifetime := (if a.timeAlive > 1 then a.timeAlive else 1) as real;
    assert b.distanceTraveled / lifetime - a.distanceTraveled / lifetime
        == (b.distanceTraveled - a.distanceTraveled) / lifetime;
    assert AverageSpeed(a) <= AverageSpeed(b);
  }

  /** A car with its fitness field recomputed from its metrics. */
  function Scored(car: Car): (r: Car)
    ensures r.fitness >= 0.0
    ensures r == car.(fitness := FitnessOf(car.metrics))
  {
    car.(fitness := FitnessOf(car.metrics))
  }

  /** `calculateFitness(cars)`: every car is scored; nothing else about it changes. */
  function CalculateFitness(cars: seq<Car>): (r: seq<Car>)
    ensures |r| == |cars|
    ensures forall i :: 0 <= i < |cars| ==> r[i] == Scored(cars[i])
    ensures forall i :: 0 <= i < |cars| ==> r[i].fitness >= 0.0
  {
    seq(|cars|, i requires 0 <= i < |cars| => Scored(cars[i]))
  }

  // ---------------------------------------------------------------------------
  // Ranking (`cars.sort((a, b) => b.fitness - a.fitness)`, a stable sort)

  predicate SortedByFitness(cars: seq<Car>)
  {
    forall i, j :: 0 <= i < j < |cars| ==> cars[i].fitness >= cars[j].fitness
  }

  /** A fitness-sorted sequence stays sorted when a car at least as fit as its head is put in front. */
  lemma SortedCons(c: Car, s: seq<Car>)
    requires SortedByFitness(s)
    requires |s| > 0 ==> c.fitness >= s[0].fitness
    ensures SortedByFitness([c] + s)
  {
    var r := [c] + s;
    forall i, j | 0 <= i < j < |r| ensures r[i].fitness >= r[j].fitness {
      if i == 0 {
        assert r[j] == s[j - 1];
        assert s[0].fitness >= s[j - 1].fitness;
      } else {
        assert r[i] == s[i - 1] && r[j] == s[j - 1];
      }
    }
  }

  /** Insert `c` in front of the first car it is at least as fit as, keeping earlier cars first on ties. */
  function Insert(c: Car, sorted: seq<Car>): (r: seq<Car>)
    requires SortedByFitness(sorted)
    ensures |r| == |sorted| + 1
    ensures multiset(r) == multiset(sorted) + multiset{c}
    ensures SortedByFitness(r)
    ensures r[0] == c || (|sorted| > 0 && r[0] == sorted[0])
    decreases |sorted|
  {
    if |sorted| == 0 then [c]
    else if c.fitness >= sorted[0].fitness then
      SortedCons(c, sorted);
      [c] + sorted
    else
      var rest := Insert(c, sorted[1..]);
      assert sorted == [sorted[0]] + sorted[1..];
      assert |sorted[1..]| > 0 ==> sorted[0].fitness >= sorted[1..][0].fitness;
      SortedCons(sorted[0], rest);
      [sorted[0]] + rest
  }

  /** The cars in non-increasing fitness order: a permutation of the input. */
  function SortByFitness(cars: seq<Car>): (r: seq<Car>)
    ensures |r| == |cars|
    ensures multiset(r) == multiset(cars)
    ensures SortedByFitness(r)
    decreases |cars|
  {
    if |cars| == 0 then []
    else
      assert cars == [cars[0]] + cars[1..];
      Insert(cars[0], SortByFitness(cars[1..]))
  }

  /** The cars of fitness `f`, in their order. */
  function WithFitness(cars: seq<Car>, f: real): seq<Car>
  {
    if |cars| == 0 then []
    else (if cars[0].fitness == f then [cars[0]] else []) + WithFitness(cars[1..], f)
  }

  lemma SortedTail(sorted: seq<Car>)
    requires |sorted| > 0 && SortedByFitness(sorted)
    ensures SortedByFitness(sorted[1..])
  {
  }

  lemma WithFitnessCons(x: Car, s: seq<Car>, f: real)
    ensures WithFitness([x] + s, f) == (if x.fitness == f then [x] else []) + WithFitness(s, f)
  {
    assert ([x] + s)[0] == x && ([x] + s)[1..] == s;
  }

  /** In a fitness-sorted sequence, the cars fitter than `c` come first; `c` goes in front of its equals. */
  lemma {:induction false} InsertStable(c: Car, sorted: seq<Car>, f: real)
    requires SortedByFitness(sorted)
    ensures WithFitness(Insert(c, sorted), f) == (if c.fitness == f then [c] else []) + WithFitness(sorted, f)
    decreases |sorted|
  {
    if |sorted| == 0 || c.fitness >= sorted[0].fitness {
      WithFitnessCons(c, sorted, f);
    } else {
      var x := sorted[0];
      var tail := sorted[1..];
      assert sorted == [x] + tail;
      SortedTail(sorted);
      var rest := Insert(c, tail);
      assert Insert(c, sorted) == [x] + rest;
      InsertStable(c, tail, f);
      InsertStableStep(c, x, tail, rest, f);
    }
  }

  /** Passing a fitter car `x` keeps `c` in front of the cars of its own fitness. */
  lemma InsertStableStep(c: Car, x: Car, tail: seq<Car>, rest: seq<Car>, f: real)
    requires c.fitness < x.fitness
    requires WithFitness(rest, f) == (if c.fitness == f then [c] else []) + WithFitness(tail, f)
    ensures WithFitness([x] + rest, f) == (if c.fitness == f then [c] else []) + WithFitness([x] + tail, f)
  {
    WithFitnessCons(x, rest, f);
    WithFitnessCons(x, tail, f);
    if c.fitness == f {
      assert WithFitness([x] + tail, f) == WithFitness(tail, f);
    } else if x.fitness == f {
      assert WithFitness([x] + rest, f) == [x] + WithFitness(tail, f);
    }
  }

  /**
   * The sort is stable: the cars of any one fitness keep their input order,
   * as `Array.prototype.sort` guarantees.
   */
  lemma {:induction false} SortStable(cars: seq<Car>, f: real)
    ensures WithFitness(SortByFitness(cars), f) == WithFitness(cars, f)
    decreases |cars|
  {
    if |cars| > 0 {
      SortStable(cars[1..], f);
      InsertStable(cars[0], SortByFitness(cars[1..]), f);
    }
  }

  /** The first car of a ranking is as fit as any car of the population, and is one of them. */
  lemma {:induction false} TopRankedIsFittest(cars: seq<Car>)
    requires |cars| > 0
    ensures var top := SortByFitness(CalculateFitness(cars))[0];
            exists j :: 0 <= j < |cars| && top == Scored(cars[j]) &&
              forall m :: 0 <= m < |cars| ==> FitnessOf(cars[m].metrics) <= FitnessOf(cars[j].metrics)
  {
    var scored := CalculateFitness(cars);
    var ranked := SortByFitness(scored);
    var top := ranked[0];
    assert top in multiset(scored) by { assert top in multiset(ranked); }
    var j :| 0 <= j < |scored| && scored[j] == top;
    forall m | 0 <= m < |cars| ensures FitnessOf(cars[m].metrics) <= FitnessOf(cars[j].metrics) {
      assert scored[m] in multiset(ranked) by { assert scored[m] in multiset(scored); }
      var p :| 0 <= p < |ranked| && ranked[p] == scored[m];
      assert ranked[0].fitness >= ranked[p].fitness;
    }
  }

  // ---------------------------------------------------------------------------
  // Statistics (`storeGenerationStats`, `getGenerationStats`)

  function SumFitness(cars: seq<Car>): real
  {
    if |cars| == 0 then 0.0 else SumFitness(cars[..|cars| - 1]) + cars[|cars| - 1].fitness
  }

  lemma {:induction false} SumAtMost(cars: seq<Car>, hi: real)
    requires forall i :: 0 <= i < |cars| ==> cars[i].fitness <= hi
    ensures SumFitness(cars) <= |cars| as real * hi
    decreases |cars|
  {
    if |cars| > 0 {
      SumAtMost(cars[..|cars| - 1], hi);
    }
  }

  lemma {:induction false} SumAtLeast(cars: seq<Car>, lo: real)
    requires forall i :: 0 <= i < |cars| ==> lo <= cars[i].fitness
    ensures |cars| as real * lo <= SumFitness(cars)
    decreases |cars|
  {
    if |cars| > 0 {
      SumAtLeast(cars[..|cars| - 1], lo);
    }
  }

  /** `Math.max(...cars.map(car => car.distanceTraveled))`. */
  function BestDistance(cars: seq<Car>): (d: real)
    requires |cars| > 0
    ensures forall i :: 0 <= i < |cars| ==> cars[i].metrics.distanceTraveled <= d
    ensures exists i :: 0 <= i < |cars| && cars[i].metrics.distanceTraveled == d
    decreases |cars|
  {
    if |cars| == 1 then cars[0].metrics.distanceTraveled
    else
      var rest := BestDistance(cars[1..]);
      assert forall i :: 1 <= i < |cars| ==> cars[i] == cars[1..][i - 1];
      Max(cars[0].metrics.distanceTraveled, rest)
  }

  /** How many cars satisfy `P`. */
  function Count(cars: seq<Car>, P: Car -> bool): (n: nat)
    ensures n <= |cars|
    ensures n == 0 <==> forall i :: 0 <= i < |cars| ==> !P(cars[i])
    ensures n == |cars| <==> forall i :: 0 <= i < |cars| ==> P(cars[i])
    decreases |cars|
  {
    if |cars| == 0 then 0
    else
      var rest := Count(cars[1..], P);
      assert forall i :: 1 <= i < |cars| ==> cars[i] == cars[1..][i - 1];
      (if P(cars[0]) then 1 else 0) + rest
  }

  predicate Alive(car: Car) { !car.damaged }

  predicate Succeeded(car: Car) { car.metrics.checkpointsReached > SuccessCheckpoints }

  /** The mean fitness of a non-empty population. */
  function MeanFitness(cars: seq<Car>): (avg: real)
    requires |cars| > 0
    ensures SortedByFitness(cars) ==> avg <= cars[0].fitness
    ensures (forall i :: 0 <= i < |cars| ==> cars[i].fitness >= 0.0) ==> avg >= 0.0
    ensures avg * |cars| as real == SumFitness(cars)
  {
    assert SortedByFitness(cars) ==> SumFitness(cars) / |cars| as real <= cars[0].fitness by {
      if SortedByFitness(cars) {
        MeanAtMostHead(cars);
      }
    }
    assert (forall i :: 0 <= i < |cars| ==> cars[i].fitness >= 0.0) ==> SumFitness(cars) / |cars| as real >= 0.0 by {
      if forall i :: 0 <= i < |cars| ==> cars[i].fitness >= 0.0 {
        MeanNonNegative(cars);
      }
    }
    QuotientTimes(SumFitness(cars), |cars| as real);
    SumFitness(cars) / |cars| as real
  }

  /** In a ranked population the mean is at most the first car's fitness. */
  lemma MeanAtMostHead(cars: seq<Car>)
    requires |cars| > 0 && SortedByFitness(cars)
    ensures SumFitness(cars) / |cars| as real <= cars[0].fitness
  {
    var hi := cars[0].fitness;
    assert forall i :: 0 <= i < |cars| ==> cars[i].fitness <= hi by {
      forall i | 0 < i < |cars| ensures cars[i].fitness <= hi {
        assert 0 < i;
      }
    }
    MeanAtMost(cars, hi);
  }

  /** The mean of fitnesses bounded by `hi` is bounded by `hi`. */
  lemma MeanAtMost(cars: seq<Car>, hi: real)
    requires |cars| > 0 && forall i :: 0 <= i < |cars| ==> cars[i].fitness <= hi
    ensures SumFitness(cars) / |cars| as real <= hi
  {
    SumAtMost(cars, hi);
    QuotientAtMost(SumFitness(cars), |cars| as real, hi);
  }

  /** The mean of non-negative fitnesses is non-negative. */
  lemma MeanNonNegative(cars: seq<Car>)
    requires |cars| > 0 && forall i :: 0 <= i < |cars| ==> cars[i].fitness >= 0.0
    ensures SumFitness(cars) / |cars| as real >= 0.0
  {
    SumAtLeast(cars, 0.0);
    QuotientAtLeast(SumFitness(cars), |cars| as real, 0.0);
  }

  lemma QuotientAtLeast(s: real, n: real, lo: real)
    requires n > 0.0 && s >= n * lo
    ensures s / n >= lo
  {
  }

  lemma QuotientAtMost(s: real, n: real, hi: real)
    requires n > 0.0 && s <= n * hi
    ensures s / n <= hi
  {
  }

  lemma QuotientTimes(s: real, n: real)
    requires n > 0.0
    ensures s / n * n == s
  {
  }

  /** The share of cars that reached more than five checkpoints. */
  function SuccessRate(cars: seq<Car>): (rate: real)
    requires |cars| > 0
    ensures 0.0 <= rate <= 1.0
    ensures rate == 0.0 <==> forall i :: 0 <= i < |cars| ==> !Succeeded(cars[i])
    ensures rate == 1.0 <==> forall i :: 0 <= i < |cars| ==> Succeeded(cars[i])
  {
    var c := Count(cars, Succeeded);
    Ratio(c, |cars|);
    c as real / |cars| as real
  }

  /** A share of a whole lies in [0, 1], and is 0 or 1 exactly for none or all. */
  lemma Ratio(c: nat, n: nat)
    requires 0 < n && c <= n
    ensures 0.0 <= c as real / n as real <= 1.0
    ensures c as real / n as real == 0.0 <==> c == 0
    ensures c as real / n as real == 1.0 <==> c == n
  {
    var rate := c as real / n as real;
    assert rate * n as real == c as real;
    assert rate <= 1.0 by {
      if rate > 1.0 { assert rate * n as real > 1.0 * n as real; }
    }
  }

  /**
   * The record of one ranked generation. The source divides by the
   * population's size, so it needs at least one car.
   */
  function MakeRecord(generation: nat, cars: seq<Car>): (rec: GenerationRecord)
    requires |cars| > 0
    ensures rec.generation == generation
    ensures rec.bestFitness == cars[0].fitness
    ensures rec.aliveCount <= |cars|
    ensures rec.aliveCount == 0 <==> forall i :: 0 <= i < |cars| ==> cars[i].damaged
    ensures 0.0 <= rec.successRate <= 1.0
    ensures forall i :: 0 <= i < |cars| ==> cars[i].metrics.distanceTraveled <= rec.bestDistance
    ensures SortedByFitness(cars) ==> rec.avgFitness <= rec.bestFitness
    ensures (forall i :: 0 <= i < |cars| ==> cars[i].fitness >= 0.0) ==> rec.avgFitness >= 0.0
  {
    GenerationRecord(generation, cars[0].fitness, MeanFitness(cars), BestDistance(cars),
                     Count(cars, Alive), SuccessRate(cars))
  }

  /** Append a record and, past 50 entries, evict the oldest. */
  function AppendCapped(history: seq<GenerationRecord>, rec: GenerationRecord): (h: seq<GenerationRecord>)
    ensures |h| > 0 && h[|h| - 1] == rec
    ensures |history| < HistoryCap ==> h == history + [rec]
    ensures |history| >= HistoryCap ==> h == history[1..] + [rec]
    ensures |history| <= HistoryCap ==> |h| <= HistoryCap
  {
    var pushed := history + [rec];
    if |pushed| > HistoryCap then pushed[1..] else pushed
  }

  /** `storeGenerationStats(cars)`: only the history changes. */
  function StoreGenerationStats(ga: GA, cars: seq<Car>): (r: GA)
    requires |cars| > 0
    ensures r == ga.(history := AppendCapped(ga.history, MakeRecord(ga.generation, cars)))
    ensures |ga.history| <= HistoryCap ==> |r.history| <= HistoryCap
  {
    ga.(history := AppendCapped(ga.history, MakeRecord(ga.generation, cars)))
  }

  /** `getGenerationStats()`: the latest record, or an all-zero record for the current generation. */
  function GetGenerationStats(ga: GA): (rec: GenerationRecord)
    ensures |ga.history| > 0 ==> rec == ga.history[|ga.history| - 1]
    ensures |ga.history| == 0 ==> rec == GenerationRecord(ga.generation, 0.0, 0.0, 0.0, 0, 0.0)
  {
    if |ga.history| > 0 then ga.history[|ga.history| - 1]
    else GenerationRecord(ga.generation, 0.0, 0.0, 0.0, 0, 0.0)
  }

  /** `getGenerationStats()` right after `storeGenerationStats(cars)` reports the record just stored. */
  lemma StatsReportStored(ga: GA, cars: seq<Car>)
    requires |cars| > 0
    ensures GetGenerationStats(StoreGenerationStats(ga, cars)) == MakeRecord(ga.generation, cars)
  {
  }

  // ---------------------------------------------------------------------------
  // Tournament selection (`selectParent`)

  /** The car drawn in round `t` of a tournament that starts at cursor `k`. */
  function Sample(cars: seq<Car>, rand: Oracle, k: nat, t: nat): (i: nat)
    requires |cars| > 0
    ensures i < |cars|
  {
    PickIndex(rand(k + t), |cars|)
  }

  /**
   * Round `w` drew the winner of the first `t` rounds: no earlier round drew a
   * car as fit, and no round up to `t` drew a fitter one.
   */
  predicate FirstBest(cars: seq<Car>, rand: Oracle, k: nat, w: nat, t: nat)
    requires |cars| > 0
  {
    && w < t
    && (forall v :: 0 <= v < t ==> cars[Sample(cars, rand, k, v)].fitness <= cars[Sample(cars, rand, k, w)].fitness)
    && (forall v :: 0 <= v < w ==> cars[Sample(cars, rand, k, v)].fitness < cars[Sample(cars, rand, k, w)].fitness)
  }

  /** Rounds `t` to `size - 1`: a competitor replaces the current winner only when strictly fitter. */
  function Tournament(cars: seq<Car>, rand: Oracle, k: nat, t: nat, w: nat, size: nat): (d: Drawn<nat>)
    requires |cars| > 0 && t <= size
    requires FirstBest(cars, rand, k, w, t)
    ensures FirstBest(cars, rand, k, d.value, size)
    ensures d.next == k + size
    decreases size - t
  {
    if t == size then Drawn(w, k + size)
    else
      var w' := if cars[Sample(cars, rand, k, t)].fitness > cars[Sample(cars, rand, k, w)].fitness then t else w;
      Tournament(cars, rand, k, t + 1, w', size)
  }

  /**
   * `selectParent(cars)`: five uniform draws; the winner is the fittest car
   * drawn, and among equally fit ones the earliest drawn.
   */
  function SelectParent(cars: seq<Car>, rand: Oracle, k: nat): (d: Drawn<nat>)
    requires |cars| > 0
    ensures d.value < |cars|
    ensures d.next == k + TournamentSize
    ensures exists w :: 0 <= w < TournamentSize && d.value == Sample(cars, rand, k, w)
                        && forall v :: 0 <= v < w ==> cars[Sample(cars, rand, k, v)].fitness < cars[d.value].fitness
    ensures forall v :: 0 <= v < TournamentSize ==> cars[Sample(cars, rand, k, v)].fitness <= cars[d.value].fitness
  {
    var r := Tournament(cars, rand, k, 1, 0, TournamentSize);
    Drawn(Sample(cars, rand, k, r.value), r.next)
  }

  // ---------------------------------------------------------------------------
  // Uniform crossover (`crossover`)

  /** Every entry of `c` is related by `R` to the entry of `a` or of `b` at the same place. */
  predicate VecFrom(a: seq<real>, b: seq<real>, c: seq<real>, R: (real, real) -> bool)
  {
    |a| == |b| == |c| && forall i :: 0 <= i < |c| ==> R(a[i], c[i]) || R(b[i], c[i])
  }

  predicate MatrixFrom(a: seq<seq<real>>, b: seq<seq<real>>, c: seq<seq<real>>, R: (real, real) -> bool)
  {
    |a| == |b| == |c| && forall i :: 0 <= i < |c| ==> VecFrom(a[i], b[i], c[i], R)
  }

  predicate LevelFrom(a: Level, b: Level, c: Level, R: (real, real) -> bool)
  {
    MatrixFrom(a.weights, b.weights, c.weights, R) && VecFrom(a.biases, b.biases, c.biases, R)
  }

  /** `c` has the parents' shape and each of its genes is `R`-related to the gene of one parent. */
  predicate NetFrom(a: Network, b: Network, c: Network, R: (real, real) -> bool)
  {
    |a.levels| == |b.levels| == |c.levels|
    && forall l :: 0 <= l < |c.levels| ==> LevelFrom(a.levels[l], b.levels[l], c.levels[l], R)
  }

  predicate Same(x: real, y: real) { x == y }

  /** One gene per draw: `Math.random() < 0.5` takes the second parent's. */
  function CrossRow(a: seq<real>, b: seq<real>, rand: Oracle, k: nat): (d: Drawn<seq<real>>)
    requires |a| == |b|
    ensures VecFrom(a, b, d.value, Same)
    ensures a == b ==> d.value == a
    ensures d.next == k + |a|
    decreases |a|
  {
    if |a| == 0 then Drawn([], k)
    else
      var gene := if rand(k) < 0.5 then b[0] else a[0];
      var rest := CrossRow(a[1..], b[1..], rand, k + 1);
      assert [a[0]] + a[1..] == a;
      Drawn([gene] + rest.value, rest.next)
  }

  function CrossMatrix(a: seq<seq<real>>, b: seq<seq<real>>, rand: Oracle, k: nat): (d: Drawn<seq<seq<real>>>)
    requires |a| == |b| && forall i :: 0 <= i < |a| ==> |a[i]| == |b[i]|
    ensures MatrixFrom(a, b, d.value, Same)
    ensures a == b ==> d.value == a
    decreases |a|
  {
    if |a| == 0 then Drawn([], k)
    else
      var row := CrossRow(a[0], b[0], rand, k);
      var rest := CrossMatrix(a[1..], b[1..], rand, row.next);
      assert [a[0]] + a[1..] == a;
      Drawn([row.value] + rest.value, rest.next)
  }

  /** Weights row by row, then biases, as the source loops. */
  function CrossLevel(a: Level, b: Level, rand: Oracle, k: nat): (d: Drawn<Level>)
    requires ShapeOf(a) == ShapeOf(b)
    ensures LevelFrom(a, b, d.value, Same)
    ensures a == b ==> d.value == a
  {
    LevelShapeRows(a, b);
    var w := CrossMatrix(a.weights, b.weights, rand, k);
    var bs := CrossRow(a.biases, b.biases, rand, w.next);
    Drawn(Level(w.value, bs.value), bs.next)
  }

  function CrossLevels(a: seq<Level>, b: seq<Level>, rand: Oracle, k: nat): (d: Drawn<seq<Level>>)
    requires |a| == |b| && forall l :: 0 <= l < |a| ==> ShapeOf(a[l]) == ShapeOf(b[l])
    ensures |d.value| == |a|
    ensures forall l :: 0 <= l < |a| ==> LevelFrom(a[l], b[l], d.value[l], Same)
    ensures a == b ==> d.value == a
    decreases |a|
  {
    if |a| == 0 then Drawn([], k)
    else
      var first := CrossLevel(a[0], b[0], rand, k);
      assert forall l :: 0 <= l < |a| - 1 ==> ShapeOf(a[1..][l]) == ShapeOf(b[1..][l]) by {
        assert forall l :: 0 <= l < |a| - 1 ==> a[1..][l] == a[l + 1] && b[1..][l] == b[l + 1];
      }
      var rest := CrossLevels(a[1..], b[1..], rand, first.next);
      var levels := [first.value] + rest.value;
      JoinLevels(a, b, first.value, rest.value);
      Drawn(levels, rest.next)
  }

  /** A crossed first level in front of the crossed remaining levels crosses the whole list. */
  lemma JoinLevels(a: seq<Level>, b: seq<Level>, first: Level, rest: seq<Level>)
    requires |a| == |b| && |a| > 0 && |rest| == |a| - 1
    requires LevelFrom(a[0], b[0], first, Same)
    requires forall l :: 0 <= l < |a| - 1 ==> LevelFrom(a[1..][l], b[1..][l], rest[l], Same)
    requires a == b ==> first == a[0] && rest == a[1..]
    ensures forall l :: 0 <= l < |a| ==> LevelFrom(a[l], b[l], ([first] + rest)[l], Same)
    ensures a == b ==> [first] + rest == a
  {
    assert forall l :: 0 < l < |a| ==> ([first] + rest)[l] == rest[l - 1] && a[l] == a[1..][l - 1] && b[l] == b[1..][l - 1];
    assert [a[0]] + a[1..] == a;
  }

  /**
   * `crossover(brain1, brain2)`: the child has the parents' shape and takes
   * every weight and bias from one of them; crossing a brain with itself
   * copies it.
   */
  function Crossover(a: Network, b: Network, rand: Oracle, k: nat): (d: Drawn<Network>)
    requires SameShape(a, b)
    ensures NetFrom(a, b, d.value, Same)
    ensures a == b ==> d.value == a
  {
    assert forall l :: 0 <= l < |a.levels| ==> ShapeOf(a.levels[l]) == Shape(a)[l] == Shape(b)[l];
    var ls := CrossLevels(a.levels, b.levels, rand, k);
    Drawn(Network(ls.value), ls.next)
  }

  /** A crossed child has its first parent's shape. */
  lemma FromHasShape(a: Network, b: Network, c: Network, R: (real, real) -> bool)
    requires NetFrom(a, b, c, R)
    ensures SameShape(a, c)
  {
    forall l | 0 <= l < |c.levels| ensures ShapeOf(a.levels[l]) == ShapeOf(c.levels[l]) {
      var la, lb, lc := a.levels[l], b.levels[l], c.levels[l];
      assert LevelFrom(la, lb, lc, R);
      assert RowWidths(la.weights) == RowWidths(lc.weights) by {
        forall i | 0 <= i < |la.weights| ensures |la.weights[i]| == |lc.weights[i]| {
          assert VecFrom(la.weights[i], lb.weights[i], lc.weights[i], R);
        }
      }
    }
    assert Shape(a) == Shape(c);
  }

  /** Copying the first parent is one of the outcomes a crossover allows. */
  lemma CopyIsFrom(a: Network, b: Network)
    requires SameShape(a, b)
    ensures NetFrom(a, b, a, Same)
  {
    forall l | 0 <= l < |a.levels| ensures LevelFrom(a.levels[l], b.levels[l], a.levels[l], Same) {
      assert Shape(a)[l] == Shape(b)[l];
      LevelShapeRows(a.levels[l], b.levels[l]);
    }
  }

  /** Mutating a crossed child leaves each gene one mutation step away from a parent's. */
  lemma {:induction false} MutatedFrom(a: Network, b: Network, c: Network, m: Network)
    requires NetFrom(a, b, c, Same)
    requires NetRel(c, m, MutationStep)
    ensures NetFrom(a, b, m, MutationStep)
  {
    forall l | 0 <= l < |m.levels| ensures LevelFrom(a.levels[l], b.levels[l], m.levels[l], MutationStep) {
      var la, lb, lc, lm := a.levels[l], b.levels[l], c.levels[l], m.levels[l];
      assert LevelFrom(la, lb, lc, Same) && LevelRel(lc, lm, MutationStep);
      forall i | 0 <= i < |lm.weights| ensures VecFrom(la.weights[i], lb.weights[i], lm.weights[i], MutationStep) {
        assert VecFrom(la.weights[i], lb.weights[i], lc.weights[i], Same);
        assert VecRel(lc.weights[i], lm.weights[i], MutationStep);
      }
    }
  }

  // ---------------------------------------------------------------------------
  // New cars (`createCarFromBrain`)

  /** A car as `createCarFromBrain` leaves it: an AI car at the spawn point with a brain and no history. */
  predicate Spawned(h: Host, car: Car)
  {
    && car.x == h.laneCenter(1) && car.y == SpawnY
    && car.width == CarWidth && car.height == CarHeight
    && car.angle == 0.0 && car.speed == 0.0 && car.maxSpeed == CarMaxSpeed
    && !car.damaged && car.metrics == InitialMetrics(SpawnY)
    && car.controlType == AI && car.brain.Some?
  }

  /**
   * `createCarFromBrain(brain)`: a new AI car (which draws a colour and a
   * random brain of its own) whose brain is then replaced by a copy of `brain`.
   */
  function CreateCarFromBrain(h: Host, brain: Network, rand: Oracle, k: nat): (d: Drawn<Car>)
    ensures Spawned(h, d.value)
    ensures d.value.brain == Some(brain)
  {
    var made := NewCar(h, h.laneCenter(1), SpawnY, CarWidth, CarHeight, AI, CarMaxSpeed, rand, k);
    Drawn(made.value.(brain := Some(brain)), made.next)
  }

  // ---------------------------------------------------------------------------
  // One generation step (`evolvePopulation`, `getBestBrain`)

  /** A population the algorithm can breed from: non-empty, and every car has a brain of one shape. */
  predicate Breedable(cars: seq<Car>)
  {
    && |cars| > 0
    && (forall i :: 0 <= i < |cars| ==> cars[i].brain.Some?)
    && (forall i :: 0 <= i < |cars| ==> SameShape(cars[0].brain.value, cars[i].brain.value))
  }

  /** The population scored and sorted by fitness, best first. */
  function Ranking(cars: seq<Car>): (r: seq<Car>)
    ensures |r| == |cars|
    ensures SortedByFitness(r)
    ensures multiset(r) == multiset(CalculateFitness(cars))
  {
    SortByFitness(CalculateFitness(cars))
  }

  /** Sorting a sequence that is already in fitness order changes nothing: the sort is stable. */
  lemma {:induction false} SortSortedIsIdentity(cars: seq<Car>)
    requires SortedByFitness(cars)
    ensures SortByFitness(cars) == cars
    decreases |cars|
  {
    if |cars| > 0 {
      SortSortedIsIdentity(cars[1..]);
      assert cars == [cars[0]] + cars[1..];
    }
  }

  /** Ranking a ranked population again gives the same ranking, as `evolveGeneration` relies on. */
  lemma RankingIdempotent(cars: seq<Car>)
    ensures Ranking(Ranking(cars)) == Ranking(cars)
  {
    var ranked := Ranking(cars);
    RankedFromPopulation(cars);
    assert CalculateFitness(ranked) == ranked by {
      forall i | 0 <= i < |ranked| ensures Scored(ranked[i]) == ranked[i] {
        var j :| 0 <= j < |cars| && ranked[i] == Scored(cars[j]);
      }
    }
    SortSortedIsIdentity(ranked);
  }

  /** Every ranked car is a scored car of the population: same brain, same metrics. */
  lemma RankedFromPopulation(cars: seq<Car>)
    ensures forall i :: 0 <= i < |cars| ==> exists j :: 0 <= j < |cars| && Ranking(cars)[i] == Scored(cars[j])
  {
    var scored := CalculateFitness(cars);
    var ranked := Ranking(cars);
    forall i | 0 <= i < |cars| ensures exists j :: 0 <= j < |cars| && ranked[i] == Scored(cars[j]) {
      assert ranked[i] in multiset(scored) by { assert ranked[i] in multiset(ranked); }
      var j :| 0 <= j < |scored| && scored[j] == ranked[i];
    }
  }

  lemma RankingBreedable(cars: seq<Car>)
    requires Breedable(cars)
    ensures Breedable(Ranking(cars))
    ensures forall i :: 0 <= i < |cars| ==> SameShape(cars[0].brain.value, Ranking(cars)[i].brain.value)
  {
    RankedFromPopulation(cars);
  }

  /** A new car around exactly `brain`. */
  predicate Hatched(h: Host, car: Car, brain: Network)
  {
    Spawned(h, car) && car.brain == Some(brain)
  }

  lemma ConsHatched(h: Host, car: Car, rest: seq<Car>, brains: seq<Network>)
    requires |brains| == |rest| + 1 && Hatched(h, car, brains[0])
    requires forall i :: 0 <= i < |rest| ==> Hatched(h, rest[i], brains[1..][i])
    ensures forall i :: 0 <= i < |brains| ==> Hatched(h, ([car] + rest)[i], brains[i])
  {
    forall i | 0 <= i < |brains| ensures Hatched(h, ([car] + rest)[i], brains[i]) {
      if i > 0 {
        ConcatRight([car], rest, i);
        assert brains[i] == brains[1..][i - 1];
      }
    }
  }

  /** One new car around each brain, in order. */
  function CarsFromBrains(h: Host, brains: seq<Network>, rand: Oracle, k: nat): (d: Drawn<seq<Car>>)
    ensures |d.value| == |brains|
    ensures forall i :: 0 <= i < |brains| ==> Hatched(h, d.value[i], brains[i])
    decreases |brains|
  {
    if |brains| == 0 then Drawn([], k)
    else
      var car := CreateCarFromBrain(h, brains[0], rand, k);
      var rest := CarsFromBrains(h, brains[1..], rand, car.next);
      ConsHatched(h, car.value, rest.value, brains);
      Drawn([car.value] + rest.value, rest.next)
  }

  /** The brain of a child of two cars of `cars`: each gene one mutation step from one parent's gene. */
  predicate ChildOf(cars: seq<Car>, brain: Network)
    requires forall i :: 0 <= i < |cars| ==> cars[i].brain.Some?
  {
    exists p, q :: 0 <= p < |cars| && 0 <= q < |cars| &&
      NetFrom(cars[p].brain.value, cars[q].brain.value, brain, MutationStep)
  }

  /**
   * One pass of the refill loop: two tournaments, a crossover with
   * probability `crossoverRate` (otherwise a copy of the first parent),
   * mutation at `mutationRate`, then a fresh car around the brain.
   */
  function Child(h: Host, ga: GA, ranked: seq<Car>, rand: Oracle, k: nat): (d: Drawn<Car>)
    requires Breedable(ranked)
    ensures Spawned(h, d.value)
    ensures ChildOf(ranked, d.value.brain.value)
    ensures SameShape(ranked[0].brain.value, d.value.brain.value)
  {
    var p1 := SelectParent(ranked, rand, k);
    var p2 := SelectParent(ranked, rand, p1.next);
    var a, b := ranked[p1.value].brain.value, ranked[p2.value].brain.value;
    var roll := p2.next;
    var crossed := if rand(roll) < ga.crossoverRate then Crossover(a, b, rand, roll + 1) else Drawn(a, roll + 1);
    assert NetFrom(a, b, crossed.value, Same) by {
      if rand(roll) >= ga.crossoverRate { CopyIsFrom(a, b); }
    }
    var mutated := Mutate(crossed.value, ga.mutationRate, rand, crossed.next);
    MutatedFrom(a, b, crossed.value, mutated.value);
    FromHasShape(a, b, mutated.value, MutationStep);
    CreateCarFromBrain(h, mutated.value, rand, mutated.next)
  }

  /** The facts `Offspring` keeps about each child. */
  predicate Offspring1(h: Host, ranked: seq<Car>, car: Car)
    requires Breedable(ranked)
  {
    Spawned(h, car) && ChildOf(ranked, car.brain.value) && SameShape(ranked[0].brain.value, car.brain.value)
  }

  lemma ConsOffspring(h: Host, ranked: seq<Car>, car: Car, rest: seq<Car>)
    requires Breedable(ranked)
    requires Offspring1(h, ranked, car) && forall i :: 0 <= i < |rest| ==> Offspring1(h, ranked, rest[i])
    ensures forall i :: 0 <= i < |rest| + 1 ==> Offspring1(h, ranked, ([car] + rest)[i])
  {
    forall i | 0 <= i < |rest| + 1 ensures Offspring1(h, ranked, ([car] + rest)[i]) {
      if i > 0 { ConcatRight([car], rest, i); }
    }
  }

  /** `count` children, bred one after another. */
  function Offspring(h: Host, ga: GA, ranked: seq<Car>, count: nat, rand: Oracle, k: nat): (d: Drawn<seq<Car>>)
    requires Breedable(ranked)
    ensures |d.value| == count
    ensures forall i :: 0 <= i < count ==> Offspring1(h, ranked, d.value[i])
    decreases count
  {
    if count == 0 then Drawn([], k)
    else
      var first := Child(h, ga, ranked, rand, k);
      var rest := Offspring(h, ga, ranked, count - 1, rand, first.next);
      ConsOffspring(h, ranked, first.value, rest.value);
      Drawn([first.value] + rest.value, rest.next)
  }

  /** The brains of a population in which every car has one. */
  function Brains(cars: seq<Car>): (bs: seq<Network>)
    requires forall i :: 0 <= i < |cars| ==> cars[i].brain.Some?
    ensures |bs| == |cars|
    ensures forall i :: 0 <= i < |cars| ==> Some(bs[i]) == cars[i].brain
  {
    seq(|cars|, i requires 0 <= i < |cars| => cars[i].brain.value)
  }

  /** A child of the ranking is a child of the population: ranking only rescored and reordered it. */
  lemma ChildOfRanking(cars: seq<Car>, brain: Network)
    requires Breedable(cars) && Breedable(Ranking(cars))
    requires ChildOf(Ranking(cars), brain)
    ensures ChildOf(cars, brain)
  {
    var ranked := Ranking(cars);
    RankedFromPopulation(cars);
    var p, q :| 0 <= p < |ranked| && 0 <= q < |ranked| &&
      NetFrom(ranked[p].brain.value, ranked[q].brain.value, brain, MutationStep);
    var p' :| 0 <= p' < |cars| && ranked[p] == Scored(cars[p']);
    var q' :| 0 <= q' < |cars| && ranked[q] == Scored(cars[q']);
    assert NetFrom(cars[p'].brain.value, cars[q'].brain.value, brain, MutationStep);
  }

  /** Cars whose brains all have the shape of one network form a breedable population. */
  lemma OneShapeBreedable(top: Network, pop: seq<Car>)
    requires |pop| > 0
    requires forall i :: 0 <= i < |pop| ==> pop[i].brain.Some? && SameShape(top, pop[i].brain.value)
    ensures Breedable(pop)
  {
    assert SameShape(top, pop[0].brain.value);
  }

  /** How many elites survive: `eliteCount`, or the whole population if it is smaller. */
  function Kept(ga: GA, cars: seq<Car>): (n: nat)
    ensures n <= ga.eliteCount && n <= |cars|
    ensures n == ga.eliteCount || n == |cars|
  {
    if ga.eliteCount < |cars| then ga.eliteCount else |cars|
  }

  /** The size of the next population: `populationSize`, unless more elites than that survive. */
  function NextSize(ga: GA, cars: seq<Car>): nat
  {
    if Kept(ga, cars) < ga.populationSize then ga.populationSize else Kept(ga, cars)
  }

  /** The elites of a ranked population, then children until `populationSize` is reached. */
  function NextPopulation(h: Host, ga: GA, ranked: seq<Car>, rand: Oracle, k: nat): (d: Drawn<seq<Car>>)
    requires Breedable(ranked)
    ensures |d.value| == NextSize(ga, ranked)
    ensures forall i :: 0 <= i < |d.value| ==> Spawned(h, d.value[i])
    ensures forall i :: 0 <= i < Kept(ga, ranked) ==> d.value[i].brain == ranked[i].brain
    ensures forall i :: Kept(ga, ranked) <= i < |d.value| ==>
              d.value[i].brain.Some? && ChildOf(ranked, d.value[i].brain.value)
    ensures forall i :: 0 <= i < |d.value| ==>
              d.value[i].brain.Some? && SameShape(ranked[0].brain.value, d.value[i].brain.value)
  {
    var kept := Kept(ga, ranked);
    var elites := CarsFromBrains(h, Brains(ranked[..kept]), rand, k);
    var count := if kept < ga.populationSize then ga.populationSize - kept else 0;
    var children := Offspring(h, ga, ranked, count, rand, elites.next);
    assert forall i :: 0 <= i < kept ==> Hatched(h, elites.value[i], ranked[i].brain.value) by {
      forall i | 0 <= i < kept ensures Hatched(h, elites.value[i], ranked[i].brain.value) {
        assert ranked[..kept][i] == ranked[i];
      }
    }
    JoinGenerations(h, ranked, elites.value, children.value);
    Drawn(elites.value + children.value, children.next)
  }

  /** Elites followed by children keep each part's facts, at the right positions. */
  lemma JoinGenerations(h: Host, ranked: seq<Car>, elites: seq<Car>, children: seq<Car>)
    requires Breedable(ranked) && |elites| <= |ranked|
    requires forall i :: 0 <= i < |elites| ==> Hatched(h, elites[i], ranked[i].brain.value)
    requires forall i :: 0 <= i < |children| ==> Offspring1(h, ranked, children[i])
    ensures var pop := elites + children;
            && (forall i :: 0 <= i < |pop| ==> Spawned(h, pop[i]))
            && (forall i :: 0 <= i < |elites| ==> pop[i].brain == ranked[i].brain)
            && (forall i :: |elites| <= i < |pop| ==> pop[i].brain.Some? && ChildOf(ranked, pop[i].brain.value))
            && (forall i :: 0 <= i < |pop| ==>
                  pop[i].brain.Some? && SameShape(ranked[0].brain.value, pop[i].brain.value))
  {
    var pop := elites + children;
    forall i | 0 <= i < |pop|
      ensures Spawned(h, pop[i]) && pop[i].brain.Some? && SameShape(ranked[0].brain.value, pop[i].brain.value)
      ensures i < |elites| ==> pop[i].brain == ranked[i].brain
      ensures i >= |elites| ==> ChildOf(ranked, pop[i].brain.value)
    {
      if i < |elites| {
        ConcatLeft(elites, children, i);
      } else {
        ConcatRight(elites, children, i);
      }
    }
  }

  datatype Evolved = Evolved(ga: GA, population: seq<Car>)

  /**
   * `evolvePopulation(cars)`: score and rank the cars, record the
   * generation's statistics, keep the brains of the best `eliteCount` cars,
   * breed children until the population reaches `populationSize`, and
   * advance the generation counter. The source needs at least one car with
   * a brain, and brains of one shape for crossover.
   */
  function EvolvePopulation(h: Host, ga: GA, cars: seq<Car>, rand: Oracle, k: nat): (d: Drawn<Evolved>)
    requires Breedable(cars)
    ensures |d.value.population| == NextSize(ga, cars)
    ensures d.value.ga == ga.(generation := ga.generation + 1,
                              history := AppendCapped(ga.history, MakeRecord(ga.generation, Ranking(cars))))
    ensures forall i :: 0 <= i < Kept(ga, cars) ==> d.value.population[i].brain == Ranking(cars)[i].brain
  {
    var ranked := Ranking(cars);
    RankingBreedable(cars);
    var next := NextPopulation(h, ga, ranked, rand, k);
    assert Kept(ga, ranked) == Kept(ga, cars) && NextSize(ga, ranked) == NextSize(ga, cars);
    Drawn(Evolved(StoreGenerationStats(ga, ranked).(generation := ga.generation + 1), next.value), next.next)
  }

  /**
   * Every car of the next generation is a new AI car, and the new
   * population can itself be bred from.
   */
  lemma EvolvedPopulation(h: Host, ga: GA, cars: seq<Car>, rand: Oracle, k: nat)
    requires Breedable(cars)
    ensures var pop := EvolvePopulation(h, ga, cars, rand, k).value.population;
            forall i :: 0 <= i < |pop| ==> Spawned(h, pop[i])
    ensures var pop := EvolvePopulation(h, ga, cars, rand, k).value.population;
            |pop| > 0 ==> Breedable(pop)
  {
    var ranked := Ranking(cars);
    RankingBreedable(cars);
    var pop := NextPopulation(h, ga, ranked, rand, k).value;
    assert pop == EvolvePopulation(h, ga, cars, rand, k).value.population;
    if |pop| > 0 {
      OneShapeBreedable(ranked[0].brain.value, pop);
    }
  }

  /**
   * Every car of the next generation past the elites is a child of the old
   * population: each of its genes comes, up to one mutation step, from one
   * of two old cars.
   */
  lemma EvolvedChildren(h: Host, ga: GA, cars: seq<Car>, rand: Oracle, k: nat)
    requires Breedable(cars)
    ensures var pop := EvolvePopulation(h, ga, cars, rand, k).value.population;
            forall i :: Kept(ga, cars) <= i < |pop| ==> pop[i].brain.Some? && ChildOf(cars, pop[i].brain.value)
  {
    var ranked := Ranking(cars);
    RankingBreedable(cars);
    var pop := NextPopulation(h, ga, ranked, rand, k).value;
    assert pop == EvolvePopulation(h, ga, cars, rand, k).value.population;
    forall i | Kept(ga, cars) <= i < |pop| ensures pop[i].brain.Some? && ChildOf(cars, pop[i].brain.value) {
      ChildOfRanking(cars, pop[i].brain.value);
    }
  }

  /**
   * After a generation step, `getGenerationStats()` reports the generation
   * just bred from (one below the new counter), ranked.
   */
  lemma EvolvedStatsReportRanking(h: Host, ga: GA, cars: seq<Car>, rand: Oracle, k: nat)
    requires Breedable(cars)
    ensures var next := EvolvePopulation(h, ga, cars, rand, k).value.ga;
            GetGenerationStats(next) == MakeRecord(ga.generation, Ranking(cars))
            && GetGenerationStats(next).generation + 1 == next.generation
  {
  }

  datatype Best = Best(ranked: seq<Car>, brain: Option<Network>)

  /**
   * `getBestBrain(cars)`: the population scored and ranked, and the brain of
   * its first car, or none for an empty population.
   */
  function GetBestBrain(cars: seq<Car>): (r: Best)
    ensures r.ranked == Ranking(cars)
    ensures |cars| > 0 ==> r.brain == r.ranked[0].brain
    ensures |r.ranked| == |cars| && SortedByFitness(r.ranked)
    ensures multiset(r.ranked) == multiset(CalculateFitness(cars))
    ensures |cars| == 0 ==> r.brain.None?
    ensures |cars| > 0 ==>
              exists j :: 0 <= j < |cars| && r.brain == cars[j].brain &&
                forall m :: 0 <= m < |cars| ==> FitnessOf(cars[m].metrics) <= FitnessOf(cars[j].metrics)
  {
    var ranked := Ranking(cars);
    if |ranked| == 0 then Best(ranked, None)
    else
      TopRankedIsFittest(cars);
      Best(ranked, ranked[0].brain)
  }

  /**
   * On ties `getBestBrain` reports the brain of the fittest car that comes
   * first in the population, because the sort is stable.
   */
  lemma BestBrainIsFirstFittest(cars: seq<Car>) returns (j: nat)
    requires |cars| > 0
    ensures j < |cars| && GetBestBrain(cars).brain == cars[j].brain
    ensures forall m :: 0 <= m < |cars| ==> FitnessOf(cars[m].metrics) <= FitnessOf(cars[j].metrics)
    ensures forall m :: 0 <= m < j ==> FitnessOf(cars[m].metrics) < FitnessOf(cars[j].metrics)
  {
    var scored := CalculateFitness(cars);
    var ranked := SortByFitness(scored);
    var f := ranked[0].fitness;
    SortStable(scored, f);
    WithFitnessHead(ranked, f);
    j := FirstWithFitness(scored, f);
    assert ranked[0] == scored[j] == Scored(cars[j]);
    forall m | 0 <= m < |cars| ensures FitnessOf(cars[m].metrics) <= FitnessOf(cars[j].metrics) {
      assert scored[m] in multiset(ranked);
      var n :| 0 <= n < |ranked| && ranked[n] == scored[m];
      assert n == 0 || ranked[0].fitness >= ranked[n].fitness;
    }
  }

  lemma WithFitnessHead(s: seq<Car>, f: real)
    requires |s| > 0 && s[0].fitness == f
    ensures |WithFitness(s, f)| > 0 && WithFitness(s, f)[0] == s[0]
  {
  }

  /** The first car of `WithFitness(s, f)` is the first car of `s` with fitness `f`. */
  lemma {:induction false} FirstWithFitness(s: seq<Car>, f: real) returns (j: nat)
    requires |WithFitness(s, f)| > 0
    ensures j < |s| && s[j].fitness == f && WithFitness(s, f)[0] == s[j]
    ensures forall m :: 0 <= m < j ==> s[m].fitness != f
    decreases |s|
  {
    if s[0].fitness == f {
      j := 0;
    } else {
      assert WithFitness(s, f) == WithFitness(s[1..], f);
      var i := FirstWithFitness(s[1..], f);
      j := i + 1;
      forall m | 0 <= m < j ensures s[m].fitness != f {
        if m > 0 {
          assert s[m] == s[1..][m - 1];
        }
      }
    }
  }

  /** The first car of the next generation carries the brain `getBestBrain` reports. */
  lemma ChampionSurvives(h: Host, ga: GA, cars: seq<Car>, rand: Oracle, k: nat)
    requires Breedable(cars) && ga.eliteCount > 0
    ensures var pop := EvolvePopulation(h, ga, cars, rand, k).value.population;
            |pop| > 0 && pop[0].brain == GetBestBrain(cars).brain
  {
  }
}
