/**
 * The generation loop of `main.js`: building the first population (seeded
 * from a saved brain when there is one), the traffic layout, the trigger
 * that ends a generation, and the step from one generation to the next.
 */
module Simulation {
  import opened Base
  import opened Random
  import opened Externals
  import opened Network
  import opened Car
  import opened Genetics

  /** Frames a generation may last when auto-evolve is on (20 s at 60 fps). */
  const MaxGenerationTime: nat := 1200
  /** With auto-evolve on, fewer survivors than this end the generation. */
  const SurvivorThreshold: nat := 5

  /** The simulator's global state between frames. */
  datatype Sim = Sim(
    ga: GA,
    cars: seq<Car>,
    traffic: seq<Car>,
    generationTimer: nat,
    savedBrain: Option<Network>)

  // ---------------------------------------------------------------------------
  // Shapes: a well-formed network's shape is fixed by its width list

  /** The number of rows of level `l` is the topology's entry `l`. */
  lemma InputWidth(net: Network, l: nat)
    requires WellFormed(net) && l < |net.levels|
    ensures net.levels[l].InputCount() == Topology(net)[l]
  {
    if l > 0 {
      assert Topology(net)[l] == net.levels[l - 1].OutputCount();
    }
  }

  /** Two well-formed networks with the same width list have the same shape. */
  lemma {:induction false} TopologyFixesShape(a: Network, b: Network)
    requires WellFormed(a) && WellFormed(b) && Topology(a) == Topology(b)
    ensures SameShape(a, b)
  {
    assert |a.levels| == |b.levels| by {
      if |a.levels| > 0 { assert |Topology(a)| == |a.levels| + 1; }
      if |b.levels| > 0 { assert |Topology(b)| == |b.levels| + 1; }
    }
    forall l | 0 <= l < |a.levels| ensures ShapeOf(a.levels[l]) == ShapeOf(b.levels[l]) {
      var la, lb := a.levels[l], b.levels[l];
      InputWidth(a, l);
      InputWidth(b, l);
      assert la.OutputCount() == Topology(a)[l + 1] == lb.OutputCount();
      assert la.Rectangular() && lb.Rectangular();
      assert RowWidths(la.weights) == RowWidths(lb.weights);
    }
    assert Shape(a) == Shape(b);
  }

  // ---------------------------------------------------------------------------
  // Populations (`generateCars`, `generateTraffic`)

  /** A car as `generateCars` makes it: spawned, with a well-formed `[9, 8, 4]` brain. */
  predicate Newborn(h: Host, car: Car)
  {
    Spawned(h, car) && WellFormed(car.brain.value) && Topology(car.brain.value) == BrainWidths
  }

  lemma ConsNewborn(h: Host, car: Car, rest: seq<Car>)
    requires Newborn(h, car) && forall i :: 0 <= i < |rest| ==> Newborn(h, rest[i])
    ensures forall i :: 0 <= i < |rest| + 1 ==> Newborn(h, ([car] + rest)[i])
  {
    forall i | 0 <= i < |rest| + 1 ensures Newborn(h, ([car] + rest)[i]) {
      if i > 0 { ConcatRight([car], rest, i); }
    }
  }

  /**
   * `generateCars(count)`: `count` new AI cars at the spawn point, each
   * with its own random `[9, 8, 4]` brain.
   */
  function GenerateCars(h: Host, count: nat, rand: Oracle, k: nat): (d: Drawn<seq<Car>>)
    ensures |d.value| == count
    ensures forall i :: 0 <= i < count ==> Newborn(h, d.value[i])
    decreases count
  {
    if count == 0 then Drawn([], k)
    else
      var car := NewCar(h, h.laneCenter(1), SpawnY, CarWidth, CarHeight, AI, CarMaxSpeed, rand, k);
      var rest := GenerateCars(h, count - 1, rand, car.next);
      ConsNewborn(h, car.value, rest.value);
      Drawn([car.value] + rest.value, rest.next)
  }

  /** Cars whose brains are all well-formed with the `[9, 8, 4]` widths form a breedable population. */
  lemma StandardBrainsBreedable(cars: seq<Car>)
    requires |cars| > 0
    requires forall i :: 0 <= i < |cars| ==>
               cars[i].brain.Some? && WellFormed(cars[i].brain.value) && Topology(cars[i].brain.value) == BrainWidths
    ensures Breedable(cars)
  {
    forall i | 0 <= i < |cars| ensures SameShape(cars[0].brain.value, cars[i].brain.value) {
      TopologyFixesShape(cars[0].brain.value, cars[i].brain.value);
    }
  }

  /** A freshly generated population can be bred from as soon as it has a car. */
  lemma GeneratedBreedable(h: Host, count: nat, rand: Oracle, k: nat)
    requires count > 0
    ensures Breedable(GenerateCars(h, count, rand, k).value)
  {
    var cars := GenerateCars(h, count, rand, k).value;
    assert forall i :: 0 <= i < |cars| ==> Newborn(h, cars[i]);
    StandardBrainsBreedable(cars);
  }

  /** Where a traffic car starts and how fast it may go. */
  datatype Slot = Slot(lane: nat, y: real, maxSpeed: real)

  /** How many traffic cars the layout places. */
  const TrafficCount: nat := 20

  /** The fixed traffic layout, nearest first: lanes 0–2, ahead of the spawn point. */
  function TrafficLayout(): seq<Slot> {
    [
    Slot(1, -200.0, 1.5), Slot(0, -400.0, 1.8), Slot(2, -400.0, 1.2), Slot(1, -600.0, 2.0),
    Slot(0, -800.0, 1.5), Slot(2, -800.0, 1.8), Slot(1, -1000.0, 1.2), Slot(0, -1200.0, 2.0),
    Slot(2, -1200.0, 1.5), Slot(1, -1400.0, 1.8), Slot(0, -1600.0, 1.2), Slot(2, -1600.0, 2.0),
    Slot(1, -1800.0, 1.5), Slot(0, -2000.0, 1.8), Slot(2, -2000.0, 1.2), Slot(1, -2200.0, 2.0),
    Slot(0, -2400.0, 1.5), Slot(2, -2600.0, 1.8), Slot(1, -2800.0, 1.2), Slot(0, -3000.0, 2.0)
    ]
  }

  /**
   * Every slot is in one of the three lanes, ahead of the spawn point, with a
   * positive top speed below the AI cars', and no two slots share a lane and a row.
   */
  lemma LayoutSound()
    ensures |TrafficLayout()| == TrafficCount
    ensures forall i :: 0 <= i < |TrafficLayout()| ==>
              TrafficLayout()[i].lane < 3 && TrafficLayout()[i].y < SpawnY
              && 0.0 < TrafficLayout()[i].maxSpeed < CarMaxSpeed
    ensures forall i, j :: 0 <= i < j < |TrafficLayout()| ==>
              TrafficLayout()[i].lane != TrafficLayout()[j].lane || TrafficLayout()[i].y != TrafficLayout()[j].y
    ensures forall i, j :: 0 <= i < j < |TrafficLayout()| ==> TrafficLayout()[j].y <= TrafficLayout()[i].y
  {
  }

  /** One `"DUMMY"` car per slot from slot `from` on, in order; each draws only its colour. */
  function PlaceTraffic(h: Host, slots: seq<Slot>, from: nat, rand: Oracle, k: nat): (d: Drawn<seq<Car>>)
    requires from <= |slots|
    ensures |d.value| == |slots| - from
    ensures forall i :: 0 <= i < |d.value| ==>
              && d.value[i].controlType == Dummy && d.value[i].brain.None? && !d.value[i].damaged
              && d.value[i].x == h.laneCenter(slots[from + i].lane) && d.value[i].y == slots[from + i].y
              && d.value[i].maxSpeed == slots[from + i].maxSpeed && d.value[i].speed == 0.0
    ensures d.next == k + |slots| - from
    decreases |slots| - from
  {
    if from == |slots| then Drawn([], k)
    else
      var s := slots[from];
      var car := NewCar(h, h.laneCenter(s.lane), s.y, CarWidth, CarHeight, Dummy, s.maxSpeed, rand, k);
      var rest := PlaceTraffic(h, slots, from + 1, rand, car.next);
      var cars := [car.value] + rest.value;
      assert forall i :: 0 < i < |cars| ==> cars[i] == rest.value[i - 1] && from + i == (from + 1) + (i - 1);
      Drawn(cars, rest.next)
  }

  /** `generateTraffic()`: the twenty traffic cars of the fixed layout, all brainless dummies. */
  function GenerateTraffic(h: Host, rand: Oracle, k: nat): (d: Drawn<seq<Car>>)
    ensures |d.value| == TrafficCount
    ensures forall i :: 0 <= i < |d.value| ==> d.value[i].controlType == Dummy && d.value[i].brain.None?
  {
    PlaceTraffic(h, TrafficLayout(), 0, rand, k)
  }

  /** The i-th traffic car stands in the i-th slot of the layout, in its lane, with its top speed. */
  lemma TrafficFollowsLayout(h: Host, rand: Oracle, k: nat)
    ensures var traffic := GenerateTraffic(h, rand, k).value;
            forall i :: 0 <= i < |traffic| ==>
              traffic[i].x == h.laneCenter(TrafficLayout()[i].lane) && traffic[i].y == TrafficLayout()[i].y
              && traffic[i].maxSpeed == TrafficLayout()[i].maxSpeed && traffic[i].speed == 0.0
  {
  }

  // ---------------------------------------------------------------------------
  // Start-up (`initializeSimulation`)

  /** `mutationRate · (1 + i · 0.1)`: later seeded cars are mutated harder. */
  function SeedRate(rate: real, i: nat): (r: real)
    ensures i == 0 ==> r == rate
    ensures rate >= 0.0 ==> r >= rate
    ensures rate <= 0.0 ==> r <= 0.0
  {
    assert rate * (i as real * 0.1) >= 0.0 <==> rate >= 0.0 || i == 0 by {
      if rate >= 0.0 { ProductNonNegative(rate, i as real * 0.1); }
    }
    rate * (1.0 + i as real * 0.1)
  }

  /** With a non-negative base rate, a car seeded later is mutated at least as hard as an earlier one. */
  lemma SeedRateGrows(rate: real, i: nat, j: nat)
    requires rate >= 0.0 && i <= j
    ensures SeedRate(rate, i) <= SeedRate(rate, j)
  {
    assert SeedRate(rate, j) - SeedRate(rate, i) == rate * ((j - i) as real * 0.1);
    ProductNonNegative(rate, (j - i) as real * 0.1);
  }

  /** `brain` is `saved` mutated at `rate`, drawing from some point of the oracle on. */
  ghost predicate MutatedCopy(brain: Option<Network>, saved: Network, rate: real, rand: Oracle)
  {
    exists c :: MutatedFrom(brain, saved, rate, rand, c)
  }

  /** `brain` is `saved` mutated at `rate`, drawing from cursor `c` on. */
  predicate MutatedFrom(brain: Option<Network>, saved: Network, rate: real, rand: Oracle, c: nat)
  {
    brain == Some(Mutate(saved, rate, rand, c).value)
  }

  /** The mutation drawn from cursor `c` on is a mutated copy. */
  lemma MutatedCopyBy(brain: Option<Network>, saved: Network, rate: real, rand: Oracle, c: nat)
    requires brain == Some(Mutate(saved, rate, rand, c).value)
    ensures MutatedCopy(brain, saved, rate, rand)
  {
    assert MutatedFrom(brain, saved, rate, rand, c);
  }

  /** The brain car `from` is seeded with: `saved` itself for car 0, a mutation of it for the others. */
  function SeedBrain(saved: Network, rate: real, from: nat, rand: Oracle, k: nat): Drawn<Network>
  {
    if from == 0 then Drawn(saved, k) else Mutate(saved, SeedRate(rate, from), rand, k)
  }

  /**
   * Cars `from ..` of `cars` each get a copy of `saved`; every car but the
   * first is then mutated at its `SeedRate`.
   */
  function Seed(cars: seq<Car>, saved: Network, rate: real, from: nat, rand: Oracle, k: nat): (d: Drawn<seq<Car>>)
    requires from <= |cars|
    ensures |d.value| == |cars| - from
    ensures forall i :: 0 <= i < |d.value| ==>
              d.value[i] == cars[from + i].(brain := d.value[i].brain) && d.value[i].brain.Some?
    ensures forall i :: 0 <= i < |d.value| ==> from + i == 0 ==> d.value[i].brain == Some(saved)
    ensures forall i :: 0 <= i < |d.value| ==> NetRel(saved, d.value[i].brain.value, MutationStep)
    ensures rate <= 0.0 ==> forall i :: 0 <= i < |d.value| ==> d.value[i].brain == Some(saved)
    decreases |cars| - from
  {
    if from == |cars| then Drawn([], k)
    else
      var brain := SeedBrain(saved, rate, from, rand, k);
      assert NetRel(saved, brain.value, MutationStep) by {
        if from == 0 {
          assert forall l :: 0 <= l < |saved.levels| ==> LevelRel(saved.levels[l], saved.levels[l], MutationStep);
        }
      }
      var rest := Seed(cars, saved, rate, from + 1, rand, brain.next);
      var seeded := [cars[from].(brain := Some(brain.value))] + rest.value;
      assert forall i :: 0 < i < |seeded| ==> seeded[i] == rest.value[i - 1];
      Drawn(seeded, rest.next)
  }

  /** Car `i` of the seeded cars, unless it is car 0 of the population, is `saved` mutated at `SeedRate(rate, from + i)`. */
  lemma SeedMutated(cars: seq<Car>, saved: Network, rate: real, from: nat, rand: Oracle, k: nat)
    requires from <= |cars|
    ensures forall i :: 0 <= i < |Seed(cars, saved, rate, from, rand, k).value| && from + i > 0 ==>
              MutatedCopy(Seed(cars, saved, rate, from, rand, k).value[i].brain, saved, SeedRate(rate, from + i), rand)
  {
    forall i | 0 <= i < |Seed(cars, saved, rate, from, rand, k).value| && from + i > 0
      ensures MutatedCopy(Seed(cars, saved, rate, from, rand, k).value[i].brain, saved, SeedRate(rate, from + i), rand)
    {
      SeedMutatedAt(cars, saved, rate, from, rand, k, from + i);
    }
  }

  /** `SeedMutated` for a seeding that starts at car 0: car `i > 0` is mutated at `SeedRate(rate, i)`. */
  lemma SeedMutatedFromStart(cars: seq<Car>, saved: Network, rate: real, rand: Oracle, k: nat)
    ensures forall i :: 0 < i < |Seed(cars, saved, rate, 0, rand, k).value| ==>
              MutatedCopy(Seed(cars, saved, rate, 0, rand, k).value[i].brain, saved, SeedRate(rate, i), rand)
  {
    forall i | 0 < i < |Seed(cars, saved, rate, 0, rand, k).value|
      ensures MutatedCopy(Seed(cars, saved, rate, 0, rand, k).value[i].brain, saved, SeedRate(rate, i), rand)
    {
      SeedMutatedAt(cars, saved, rate, 0, rand, k, i);
    }
  }

  /** Car `n` of the population, seeded from car `from` on. */
  lemma SeedMutatedAt(cars: seq<Car>, saved: Network, rate: real, from: nat, rand: Oracle, k: nat, n: nat)
    requires from <= n < |cars| && n > 0
    ensures MutatedCopy(Seed(cars, saved, rate, from, rand, k).value[n - from].brain, saved, SeedRate(rate, n), rand)
  {
    SeedBrainAt(cars, saved, rate, from, rand, k, n);
    MutatedCopyBy(Seed(cars, saved, rate, from, rand, k).value[n - from].brain, saved, SeedRate(rate, n), rand,
                  SeedCursor(saved, rate, from, rand, k, n));
  }

  /** Where the draws for car `n` start, when seeding starts at car `from` and cursor `k`. */
  function SeedCursor(saved: Network, rate: real, from: nat, rand: Oracle, k: nat, n: nat): nat
    requires from <= n
    decreases n - from
  {
    if n == from then k else SeedCursor(saved, rate, from + 1, rand, SeedBrain(saved, rate, from, rand, k).next, n)
  }

  /** Car `n` carries the brain seeded for it, drawn at its cursor, by induction on how far it lies past `from`. */
  lemma {:induction false} SeedBrainAt(cars: seq<Car>, saved: Network, rate: real, from: nat, rand: Oracle, k: nat, n: nat)
    requires from <= n < |cars|
    ensures Seed(cars, saved, rate, from, rand, k).value[n - from].brain
         == Some(SeedBrain(saved, rate, n, rand, SeedCursor(saved, rate, from, rand, k, n)).value)
    decreases n - from
  {
    if n == from {
      SeedHeadBrain(cars, saved, rate, from, rand, k);
    } else {
      SeedBrainAt(cars, saved, rate, from + 1, rand, SeedBrain(saved, rate, from, rand, k).next, n);
      SeedBrainJoin(cars, saved, rate, from, rand, k, n);
    }
  }

  /** The inductive step of `SeedBrainAt`: what holds for car `n` seeded from the next car on holds from `from`. */
  lemma SeedBrainJoin(cars: seq<Car>, saved: Network, rate: real, from: nat, rand: Oracle, k: nat, n: nat)
    requires from < n < |cars|
    requires var next := SeedBrain(saved, rate, from, rand, k).next;
             Seed(cars, saved, rate, from + 1, rand, next).value[n - (from + 1)].brain
             == Some(SeedBrain(saved, rate, n, rand, SeedCursor(saved, rate, from + 1, rand, next, n)).value)
    ensures Seed(cars, saved, rate, from, rand, k).value[n - from].brain
         == Some(SeedBrain(saved, rate, n, rand, SeedCursor(saved, rate, from, rand, k, n)).value)
  {
    SeedTailAt(cars, saved, rate, from, rand, k, n - from);
    assert n - from - 1 == n - (from + 1);
  }

  /** The first seeded car carries the brain drawn for it at the starting cursor. */
  lemma SeedHeadBrain(cars: seq<Car>, saved: Network, rate: real, from: nat, rand: Oracle, k: nat)
    requires from < |cars|
    ensures Seed(cars, saved, rate, from, rand, k).value[0].brain == Some(SeedBrain(saved, rate, from, rand, k).value)
  {
  }

  /** Past the first, the seeded cars are those seeded from the next car on, drawing after the first. */
  lemma SeedTailAt(cars: seq<Car>, saved: Network, rate: real, from: nat, rand: Oracle, k: nat, i: nat)
    requires from < |cars| && 0 < i < |cars| - from
    ensures Seed(cars, saved, rate, from, rand, k).value[i]
         == Seed(cars, saved, rate, from + 1, rand, SeedBrain(saved, rate, from, rand, k).next).value[i - 1]
  {
  }

  /** Seeded cars keep everything of the generated cars but their brains, which share the saved brain's shape. */
  lemma SeededPopulation(h: Host, made: seq<Car>, seeded: seq<Car>, saved: Network)
    requires |seeded| == |made|
    requires forall i :: 0 <= i < |made| ==> Newborn(h, made[i])
    requires forall i :: 0 <= i < |seeded| ==>
               seeded[i] == made[i].(brain := seeded[i].brain) && seeded[i].brain.Some?
    requires forall i :: 0 <= i < |seeded| ==> seeded[i].brain.Some? && NetRel(saved, seeded[i].brain.value, MutationStep)
    ensures forall i :: 0 <= i < |seeded| ==> Spawned(h, seeded[i])
    ensures |seeded| > 0 ==> Breedable(seeded)
  {
    forall i | 0 <= i < |seeded| ensures Spawned(h, seeded[i]) && SameShape(saved, seeded[i].brain.value) {
      assert Newborn(h, made[i]);
      RelHasShape(saved, seeded[i].brain.value, MutationStep);
    }
    if |seeded| > 0 {
      OneShapeBreedable(saved, seeded);
    }
  }

  /**
   * The first population of `initializeSimulation`: `populationSize` new
   * cars; with a saved brain, car 0 carries an exact copy of it and every
   * other car a mutated copy.
   */
  function InitialCars(h: Host, ga: GA, savedBrain: Option<Network>, rand: Oracle, k: nat): (d: Drawn<seq<Car>>)
    ensures |d.value| == ga.populationSize
    ensures savedBrain.None? ==> forall i :: 0 <= i < |d.value| ==> Newborn(h, d.value[i])
    ensures savedBrain.Some? && |d.value| > 0 ==> d.value[0].brain == savedBrain
    ensures savedBrain.Some? ==> forall i :: 0 <= i < |d.value| ==>
              d.value[i].brain.Some? && NetRel(savedBrain.value, d.value[i].brain.value, MutationStep)
    ensures savedBrain.Some? && ga.mutationRate <= 0.0 ==> forall i :: 0 <= i < |d.value| ==> d.value[i].brain == savedBrain
  {
    var made := GenerateCars(h, ga.populationSize, rand, k);
    if savedBrain.None? then made
    else Seed(made.value, savedBrain.value, ga.mutationRate, 0, rand, made.next)
  }

  /** With a saved brain, car `i > 0` of the first population is the saved brain mutated at `SeedRate(mutationRate, i)`. */
  lemma InitialCarsMutated(h: Host, ga: GA, savedBrain: Option<Network>, rand: Oracle, k: nat)
    requires savedBrain.Some?
    ensures forall i :: 0 < i < |InitialCars(h, ga, savedBrain, rand, k).value| ==>
              MutatedCopy(InitialCars(h, ga, savedBrain, rand, k).value[i].brain, savedBrain.value, SeedRate(ga.mutationRate, i), rand)
  {
    var made := GenerateCars(h, ga.populationSize, rand, k);
    SeedMutatedFromStart(made.value, savedBrain.value, ga.mutationRate, rand, made.next);
    assert InitialCars(h, ga, savedBrain, rand, k).value == Seed(made.value, savedBrain.value, ga.mutationRate, 0, rand, made.next).value;
  }

  /** Every car of the first population is a new AI car, and the population can be bred from. */
  lemma InitialCarsSound(h: Host, ga: GA, savedBrain: Option<Network>, rand: Oracle, k: nat)
    ensures var cars := InitialCars(h, ga, savedBrain, rand, k).value;
            forall i :: 0 <= i < |cars| ==> Spawned(h, cars[i])
    ensures var cars := InitialCars(h, ga, savedBrain, rand, k).value;
            |cars| > 0 ==> Breedable(cars)
  {
    var made := GenerateCars(h, ga.populationSize, rand, k);
    var cars := InitialCars(h, ga, savedBrain, rand, k).value;
    if savedBrain.None? {
      assert cars == made.value;
      if ga.populationSize > 0 { GeneratedBreedable(h, ga.populationSize, rand, k); }
      assert forall i :: 0 <= i < |cars| ==> Newborn(h, cars[i]);
    } else {
      var seeded := Seed(made.value, savedBrain.value, ga.mutationRate, 0, rand, made.next);
      assert cars == seeded.value;
      assert forall i :: 0 <= i < |seeded.value| ==> seeded.value[i] == made.value[i].(brain := seeded.value[i].brain) by {
        forall i | 0 <= i < |seeded.value| ensures seeded.value[i] == made.value[i].(brain := seeded.value[i].brain) {
          assert 0 + i == i;
        }
      }
      SeededPopulation(h, made.value, seeded.value, savedBrain.value);
    }
  }

  /**
   * `initializeSimulation()`: the first population, then the traffic, and
   * the timer at zero; the algorithm's state and the saved brain are kept.
   */
  function InitializeSimulation(h: Host, ga: GA, savedBrain: Option<Network>, rand: Oracle, k: nat): (d: Drawn<Sim>)
    ensures d.value.ga == ga && d.value.savedBrain == savedBrain && d.value.generationTimer == 0
    ensures |d.value.cars| == ga.populationSize
    ensures savedBrain.Some? && |d.value.cars| > 0 ==> d.value.cars[0].brain == savedBrain
    ensures |d.value.traffic| == TrafficCount
  {
    var cars := InitialCars(h, ga, savedBrain, rand, k);
    var traffic := GenerateTraffic(h, rand, cars.next);
    Drawn(Sim(ga, cars.value, traffic.value, 0, savedBrain), traffic.next)
  }

  /** After `initializeSimulation` every AI car is new and the population can be bred from. */
  lemma InitializeSimulationSound(h: Host, ga: GA, savedBrain: Option<Network>, rand: Oracle, k: nat)
    ensures var sim := InitializeSimulation(h, ga, savedBrain, rand, k).value;
            forall i :: 0 <= i < |sim.cars| ==> Spawned(h, sim.cars[i])
    ensures var sim := InitializeSimulation(h, ga, savedBrain, rand, k).value;
            |sim.cars| > 0 ==> Breedable(sim.cars)
  {
    InitialCarsSound(h, ga, savedBrain, rand, k);
    assert InitializeSimulation(h, ga, savedBrain, rand, k).value.cars == InitialCars(h, ga, savedBrain, rand, k).value;
  }

  // ---------------------------------------------------------------------------
  // The generation trigger and step (`shouldEvolve`, `evolveGeneration`)

  /**
   * `shouldEvolve()`: every car is wrecked, or auto-evolve is on and the
   * generation ran out of time or fewer than five cars are still driving.
   */
  function ShouldEvolve(cars: seq<Car>, generationTimer: nat, autoEvolve: bool): (r: bool)
    ensures (forall i :: 0 <= i < |cars| ==> cars[i].damaged) ==> r
    ensures !autoEvolve ==> (r <==> forall i :: 0 <= i < |cars| ==> cars[i].damaged)
    ensures autoEvolve && generationTimer > MaxGenerationTime ==> r
    ensures autoEvolve && |cars| < SurvivorThreshold ==> r
    ensures autoEvolve && generationTimer <= MaxGenerationTime ==> (r <==> Count(cars, Alive) < SurvivorThreshold)
  {
    var alive := Count(cars, Alive);
    var timeUp := generationTimer > MaxGenerationTime;
    var allDead := alive == 0;
    allDead || (autoEvolve && (timeUp || alive < SurvivorThreshold))
  }

  /**
   * `next` and `pop` are what one generation step makes of `ga` and `cars`:
   * the counter advances, the ranked generation's record is appended to the
   * capped history, the population has `NextSize` cars, and its first `Kept`
   * cars carry the ranking's first brains unchanged.
   */
  predicate BredFrom(ga: GA, cars: seq<Car>, next: GA, pop: seq<Car>)
  {
    && |cars| > 0
    && next == ga.(generation := ga.generation + 1,
                   history := AppendCapped(ga.history, MakeRecord(ga.generation, Ranking(cars))))
    && |pop| == NextSize(ga, cars)
    && forall i :: 0 <= i < Kept(ga, cars) ==> pop[i].brain == Ranking(cars)[i].brain
  }

  /**
   * The population `evolveGeneration` hands over: the next generation bred
   * from the population as `getBestBrain` left it, ranked.
   */
  function NextGeneration(h: Host, ga: GA, cars: seq<Car>, rand: Oracle, k: nat): (d: Drawn<Evolved>)
    requires Breedable(cars)
    ensures BredFrom(ga, cars, d.value.ga, d.value.population)
  {
    EvolveRankedHistory(h, ga, cars, rand, k);
    EvolveRankedSize(h, ga, cars, rand, k);
    EvolveRankedElites(h, ga, cars, rand, k);
    EvolvePopulation(h, ga, GetBestBrain(cars).ranked, rand, k)
  }

  /** Breeding from the ranked population records the ranking and advances the counter. */
  lemma EvolveRankedHistory(h: Host, ga: GA, cars: seq<Car>, rand: Oracle, k: nat)
    requires Breedable(cars)
    ensures Breedable(Ranking(cars)) && var d := EvolvePopulation(h, ga, Ranking(cars), rand, k);
            d.value.ga == ga.(generation := ga.generation + 1,
                              history := AppendCapped(ga.history, MakeRecord(ga.generation, Ranking(cars))))
  {
    RankingBreedable(cars);
    RankingIdempotent(cars);
  }

  /** Breeding from the ranked population gives a population of the size breeding from the population would. */
  lemma EvolveRankedSize(h: Host, ga: GA, cars: seq<Car>, rand: Oracle, k: nat)
    requires Breedable(cars)
    ensures Breedable(Ranking(cars)) && var d := EvolvePopulation(h, ga, Ranking(cars), rand, k);
            |d.value.population| == NextSize(ga, cars)
  {
    RankingBreedable(cars);
  }

  /** Breeding from the ranked population keeps the ranking's first brains as elites. */
  lemma EvolveRankedElites(h: Host, ga: GA, cars: seq<Car>, rand: Oracle, k: nat)
    requires Breedable(cars)
    ensures Breedable(Ranking(cars)) && var d := EvolvePopulation(h, ga, Ranking(cars), rand, k);
            forall i :: 0 <= i < Kept(ga, cars) ==> d.value.population[i].brain == Ranking(cars)[i].brain
  {
    RankingBreedable(cars);
    RankingIdempotent(cars);
    RankedElites(h, ga, Ranking(cars), rand, k);
  }

  /** The elites bred from an already ranked population are its first cars' brains. */
  lemma RankedElites(h: Host, ga: GA, ranked: seq<Car>, rand: Oracle, k: nat)
    requires Breedable(ranked) && Ranking(ranked) == ranked
    ensures var d := EvolvePopulation(h, ga, ranked, rand, k);
            forall i :: 0 <= i < Kept(ga, ranked) ==> d.value.population[i].brain == ranked[i].brain
  {
  }

  /**
   * Every car of the next generation is a fresh AI car, the population can
   * be bred from again, and with elitism on the first car carries the
   * champion's brain unchanged.
   */
  lemma NextGenerationSound(h: Host, ga: GA, cars: seq<Car>, rand: Oracle, k: nat)
    requires Breedable(cars)
    ensures var pop := NextGeneration(h, ga, cars, rand, k).value.population;
            forall i :: 0 <= i < |pop| ==> Spawned(h, pop[i])
    ensures var pop := NextGeneration(h, ga, cars, rand, k).value.population;
            |pop| > 0 ==> Breedable(pop)
    ensures var pop := NextGeneration(h, ga, cars, rand, k).value.population;
            ga.eliteCount > 0 ==> |pop| > 0 && pop[0].brain == GetBestBrain(cars).brain
    ensures var pop := NextGeneration(h, ga, cars, rand, k).value.population;
            forall i :: Kept(ga, cars) <= i < |pop| ==> pop[i].brain.Some? && ChildOf(cars, pop[i].brain.value)
  {
    var ranked := GetBestBrain(cars).ranked;
    RankingBreedable(cars);
    EvolvedPopulation(h, ga, ranked, rand, k);
    EvolvedChildren(h, ga, ranked, rand, k);
    var pop := EvolvePopulation(h, ga, ranked, rand, k).value.population;
    assert pop == NextGeneration(h, ga, cars, rand, k).value.population;
    forall i | Kept(ga, cars) <= i < |pop| ensures pop[i].brain.Some? && ChildOf(cars, pop[i].brain.value) {
      ChildOfRanking(cars, pop[i].brain.value);
    }
    if ga.eliteCount > 0 {
      RankingIdempotent(cars);
      assert pop[0].brain == Ranking(ranked)[0].brain;
    }
  }

  /**
   * `evolveGeneration()`: remember the best brain (keeping the old one when
   * there is none), replace the population with the next generation, put
   * the traffic back, and restart the timer.
   */
  function EvolveGeneration(h: Host, sim: Sim, rand: Oracle, k: nat): (d: Drawn<Sim>)
    requires Breedable(sim.cars)
    ensures d.value.generationTimer == 0
    ensures BredFrom(sim.ga, sim.cars, d.value.ga, d.value.cars)
    ensures |d.value.traffic| == TrafficCount
    ensures d.value.savedBrain == GetBestBrain(sim.cars).brain && d.value.savedBrain.Some?
  {
    var best := GetBestBrain(sim.cars).brain;
    assert best.Some? by {
      var j :| 0 <= j < |sim.cars| && best == sim.cars[j].brain;
    }
    var saved := if best.Some? then best else sim.savedBrain;
    var evolved := NextGeneration(h, sim.ga, sim.cars, rand, k);
    var traffic := GenerateTraffic(h, rand, evolved.next);
    Drawn(Sim(evolved.value.ga, evolved.value.population, traffic.value, 0, saved), traffic.next)
  }

  /**
   * After `evolveGeneration` every AI car is new, the population can be
   * bred from again, and with elitism the first car drives the brain that
   * was just saved.
   */
  lemma EvolveGenerationSound(h: Host, sim: Sim, rand: Oracle, k: nat)
    requires Breedable(sim.cars)
    ensures var next := EvolveGeneration(h, sim, rand, k).value;
            forall i :: 0 <= i < |next.cars| ==> Spawned(h, next.cars[i])
    ensures var next := EvolveGeneration(h, sim, rand, k).value;
            |next.cars| > 0 ==> Breedable(next.cars)
    ensures var next := EvolveGeneration(h, sim, rand, k).value;
            sim.ga.eliteCount > 0 ==> |next.cars| > 0 && next.cars[0].brain == next.savedBrain
    ensures var next := EvolveGeneration(h, sim, rand, k).value;
            forall i :: Kept(sim.ga, sim.cars) <= i < |next.cars| ==>
              next.cars[i].brain.Some? && ChildOf(sim.cars, next.cars[i].brain.value)
  {
    NextGenerationSound(h, sim.ga, sim.cars, rand, k);
    var next := EvolveGeneration(h, sim, rand, k).value;
    assert next.cars == NextGeneration(h, sim.ga, sim.cars, rand, k).value.population;
  }
}
