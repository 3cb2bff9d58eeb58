# Self-driving car evolution: the evolutionary core in Dafny

This project models the evolutionary control core of a browser simulator. In
the simulator, a population of cars, each driven by a small feed-forward neural
network, learns to drive down a three-lane road by a generational genetic
algorithm. The model covers:

- **the network** (`enhanced-network.js`): Xavier-initialised levels, the
  sigmoid forward pass, and clamped mutation;
- **the sensor** (`enhanced-sensor.js`): a fan of seven forward rays, two side
  rays and a rear ray, each reporting the nearest intersection with a road
  border or a traffic car's outline;
- **the car** (`enhanced-car.js`): construction, kinematics with friction and
  speed clamping, the corner polygon, damage assessment with its one-off
  collision penalty, the per-tick fitness metrics, sensor-input preparation,
  and the decoding of network outputs into controls;
- **the genetic algorithm** (`genetic-algorithm.js`): fitness scoring, ranking
  by fitness, the capped generation history, elitism, tournament selection,
  uniform crossover, and refilling the population;
- **the generation loop** (`main.js`): building the first population (seeded
  from a saved brain when there is one), the fixed traffic layout, the trigger
  that ends a generation, and the step to the next generation.

Modelling choices:

- Every operation is a pure function over immutable datatypes. Where the
  source mutates a car or a network in place, the model returns the new
  value.
- `JSON.parse(JSON.stringify(brain))` copies are plain value equality.
- `Math.random()` is an oracle `Oracle = nat -> Unit` from draw number to a
  real in [0, 1). Every random operation takes a cursor `k` and returns the
  value together with the next cursor (`Drawn`). Draws happen in the source's
  order, including the colour draw of every car constructor. They also
  include the throw-away network that `createCarFromBrain` builds before
  replacing it.
- The browser's `Math.sin`, `cos`, `exp`, `sqrt`, `hypot` and `atan2`, the
  collision helpers `getIntersection` and `polysIntersect`, and
  `road.getLaneCenter` are fields of a `Host` value. Lemmas that need
  sin² + cos² = 1 say so in their precondition (`Pythagorean`).
- Numbers are mathematical reals. Float rounding, NaN and ±Infinity are not
  modelled.

One behaviour of the source is modelled as written and stated as a lemma:

- `prepareSensorInputs` produces twelve inputs: seven forward readings, two
  side readings, one rear reading, the speed and the heading.
- The network built for every car is `[9, 8, 4]`, and a level reads only as
  many inputs as it has weight rows.
- So the brain sees the seven forward and two side readings, and never the
  rear reading, the speed or the heading.
- `Car.BrainIgnoresRearSpeedAndHeading` proves that the output does not depend
  on them.

Files, one module each:

- `base.dfy` holds `Option`, geometry and small real helpers.
- `random.dfy` holds the oracle.
- `externals.dfy` holds the host functions and controls.
- `network.dfy`, `sensor.dfy`, `car.dfy`, `genetics.dfy` and `simulation.dfy`
  follow the five source files.

## Model

| member | source | states |
|---|---|---|
| Base.Clamp | enhanced-network.js:26 | the clamped value lies in [lo, hi], equals the input inside the range and the nearer bound outside it |
| Base.Lerp | enhanced-sensor.js:108-112 | the interpolation gives the first end at t = 0 and the second at t = 1, and lies between them for t in [0, 1] |
| Random.PickIndex | genetic-algorithm.js:87 | `Math.floor(r * n)` is an index below n with i ≤ r·n < i + 1 |
| Random.Symmetric | enhanced-network.js:63 | `(r * 2 - 1) * scale` lies in [−scale, scale) |
| Externals.Sigmoid | enhanced-network.js:84 | the activation lies strictly between 0 and 1 |
| Network.RandomRow | enhanced-network.js:67-69 | n fresh draws, each within ±scale |
| Network.RandomMatrix | enhanced-network.js:61-65 | a rows × cols matrix of draws, each within ±scale |
| Network.NewLevel | enhanced-network.js:43-70 | a level has inputCount rows of outputCount weights each within the non-negative Xavier bound, and outputCount biases each within ±0.5 |
| Network.NewLevels | enhanced-network.js:2-10 | one level per consecutive pair of widths, chained so that each level's outputs feed the next level's inputs, with the initialisation bounds |
| Network.NewNetwork | enhanced-network.js:2-10 | a well-formed network whose topology is the requested width list (for two or more widths) |
| Network.LevelForward | enhanced-network.js:72-88 | one output per bias, each strictly between 0 and 1 |
| Network.ForwardLevels | enhanced-network.js:13-16 | the chain of levels yields the last level's output count, each output in (0, 1) |
| Network.FeedForward | enhanced-network.js:12-18 | the network's output has the last level's width and every output is in (0, 1) |
| Network.WeightedSumPrefix | enhanced-network.js:78-81 | the weighted sum reads only the first n inputs |
| Network.LevelReadsPrefix | enhanced-network.js:73-75 | a level copies and reads only its first InputCount inputs: inputs that agree there give the same outputs |
| Network.FeedForwardReadsPrefix | enhanced-network.js:12-18 | inputs that agree on the first level's width give the same network output |
| Network.MutateGene | enhanced-network.js:24-26 | a gene is left alone or nudged by at most 0.1 and clamped to [−2, 2]; with rate ≤ 0 it is left alone |
| Network.MutateRow | enhanced-network.js:23-28 | every entry of a row takes one mutation step, and the length is kept |
| Network.MutateMatrix | enhanced-network.js:30-37 | every weight takes one mutation step, and the matrix shape is kept |
| Network.MutateLevel | enhanced-network.js:21-38 | biases and weights each take one mutation step; with rate ≤ 0 the level is unchanged |
| Network.MutateLevels | enhanced-network.js:21-38 | every level is mutated in place, keeping the level count |
| Network.Mutate | enhanced-network.js:20-39 | the mutated network has the original's shape, each gene is one mutation step from the original's, and rate ≤ 0 changes nothing |
| Network.MutateKeepsTopology | enhanced-network.js:20-39 | mutation preserves the layer widths and well-formedness |
| Network.RelHasShape | enhanced-network.js:20-39 | two networks related gene by gene have the same shape |
| Network.ShapeKeepsTopology | enhanced-network.js:2-10 | networks of one shape have the same topology, and one is well-formed exactly when the other is |
| Sensor.RayReachesLength | enhanced-sensor.js:114-118 | when sin² + cos² = 1, a ray's far end lies exactly its length away from the car |
| Sensor.FanParameter | enhanced-sensor.js:111 | the fan parameter is in [0, 1]: 0.5 for a single ray, 0 for the first ray and 1 for the last |
| Sensor.RayAngleInFan | enhanced-sensor.js:108-112 | every forward ray lies within half the spread of the heading; the first ray is at +spread/2, the last at −spread/2, and a single ray points straight ahead |
| Sensor.CastRays | enhanced-sensor.js:105-121 | rayCount rays, all starting at the car, ray i at angle RayAngle(i) with the forward length |
| Sensor.SideRay | enhanced-sensor.js:48-56 | a side ray starts at the car's position |
| Sensor.RearRay | enhanced-sensor.js:58-66 | the rear ray starts at the car's position |
| Sensor.RayLengths | enhanced-sensor.js:48-66 | when sin² + cos² = 1, every forward ray ends exactly the forward length from the car, a side ray the side length and the rear ray the rear length |
| Sensor.Edges | enhanced-sensor.js:84-89 | a polygon's edges join each corner to the next, and the last corner back to the first |
| Sensor.Successor | enhanced-sensor.js:88 | `(j + 1) % n` is the next index, wrapping to 0 after the last |
| Sensor.TrafficEdgesCover | enhanced-sensor.js:83-94 | every edge of every traffic polygon is among the segments probed |
| Sensor.CandidatesCover | enhanced-sensor.js:71-94 | every road border and every edge of every traffic outline, the closing edge included, is probed |
| Sensor.Touches | enhanced-sensor.js:69-94 | the touches collected are exactly the hits of the probed segments |
| Sensor.MinOffset | enhanced-sensor.js:99-100 | the minimum offset is a lower bound attained by some touch |
| Sensor.FirstWithOffset | enhanced-sensor.js:101 | `find` returns the first touch with the given offset |
| Sensor.Nearest | enhanced-sensor.js:96-102 | the reading is a touch with the least offset, the first such in probing order |
| Sensor.TouchesInOrder | enhanced-sensor.js:71-94 | the touches keep the probing order: each comes from some segment, and every hit of an earlier segment is an earlier touch |
| Sensor.LiftFound | enhanced-sensor.js:71-94 | probing one more segment first, whether it misses or hits, keeps the touches in probing order |
| Sensor.NearestPosition | enhanced-sensor.js:99-101 | the touch `find` returns sits at a position where every earlier touch is strictly farther away |
| Sensor.FoundInOrderAt | enhanced-sensor.js:71-101 | any one touch is the hit of a segment whose earlier hits are all earlier touches |
| Sensor.EarlierFartherAway | enhanced-sensor.js:96-102 | a touch found in probing order and preceded only by farther touches is hit before any other segment hit as near |
| Sensor.NearestIsFirst | enhanced-sensor.js:96-102 | the nearest touch belongs to the first probed segment hit at that offset: every segment probed before it missed or was hit strictly farther away |
| Sensor.GetReading | enhanced-sensor.js:68-103 | no reading exactly when no segment is hit; otherwise a hit whose offset no other hit undercuts, and on a tie the segment probed first wins, so road borders beat traffic edges |
| Sensor.Readings | enhanced-sensor.js:15-46 | rayCount forward readings, then left, right and rear: rayCount + 3 readings in that order |
| Car.InitialMetrics | enhanced-car.js:16-26 | a new car's distance, time, penalty, scores and checkpoints start at zero; Genetics.UntriedCarScoresZero shows such a car scores the least possible fitness |
| Car.CreatePolygon | enhanced-car.js:153-176 | the car's outline has four corners |
| Car.CornersOnCircle | enhanced-car.js:155-173 | when sin² + cos² = 1, all four corners lie hypot(w, h)/2 from the car's centre |
| Car.NewCar | enhanced-car.js:2-41 | a new car stands still, facing straight ahead at (x, y) and undamaged with fresh metrics; it has a brain exactly when it is not a dummy, and that brain is a well-formed [9, 8, 4] network |
| Car.NextSpeed | enhanced-car.js:179-201 | the new speed lies in [−maxSpeed/3, maxSpeed] and is 0 or at least the friction in size |
| Car.CoastingNeverSpeedsUp | enhanced-car.js:193-201 | with no pedal pressed, the speed never grows in magnitude |
| Car.NextAngle | enhanced-car.js:203-211 | only a moving car turns, by one steering step, reversed when driving backwards; both or neither steering key leaves the heading alone |
| Car.Move | enhanced-car.js:178-215 | speed first, then heading, then position; a car at rest does not move; nothing else changes |
| Car.MoveStep | enhanced-car.js:213-214 | when sin² + cos² = 1, one move carries the car exactly its new speed's distance |
| Car.HitsAny | enhanced-car.js:135-148 | the scan finds a hit exactly when some obstacle intersects the car |
| Car.BorderPolygons | enhanced-car.js:135-140 | each road border is probed as its own two-point polygon, in order; Car.AssessDamage states which of them the car hits |
| Car.AssessDamage | enhanced-car.js:133-151 | the car is damaged exactly when charged; a border hit costs 1000, otherwise a traffic hit costs 500, and borders are checked first |
| Car.LaneKeepingReward | enhanced-car.js:101-105 | the reward lies in [0, 1]; it is 1 exactly on the centre line and 0 exactly when the car is a third of the road width or more from it |
| Car.UpdateMetrics | enhanced-car.js:92-131 | time advances by one and distance grows by the tick's vertical travel; the lane and smooth-driving scores and the checkpoints never decrease; the good-tick streak grows or restarts |
| Car.PrepareSensorInputs | enhanced-car.js:81-90 | one input per reading (1 − offset, or 0 for none, always in [0, 1]), then speed/maxSpeed and sin(angle) |
| Car.DecodeControls | enhanced-car.js:65-77 | the thresholds 0.6, 0.7, 0.7 and 0.8 decide forward, left, right and reverse; left and right are never both on, and the larger output wins a tie-break |
| Car.Drive | enhanced-car.js:52-58 | the pose is the one `move` produces, the outline is `createPolygon` at that pose, the metrics are `updateMetrics` after charging exactly the assessed penalty, the damage flag comes from the assessment, and brain, controls and readings are kept |
| Car.Sense | enhanced-car.js:60-78 | sensing changes only readings and controls; an AI car never steers both ways; a sensor gives rayCount + 3 readings |
| Car.Update | enhanced-car.js:51-79 | a damaged car stays put with unchanged metrics; an undamaged car is charged 0, 500 or 1000 and is damaged exactly when charged; the speed stays within its bounds |
| Car.PenaltyChargedAtMostOnce | enhanced-car.js:52-57 | over any number of ticks, damage is never undone and the penalty grows by at most one charge, and not at all for a car that survives |
| Car.BrainIgnoresRearSpeedAndHeading | enhanced-car.js:62-63 | with a [9, …] brain, cars whose first nine readings agree get the same outputs, whatever their rear reading, speed and heading |
| Genetics.FitnessOf | genetic-algorithm.js:56-80 | fitness is never negative |
| Genetics.UntriedCarScoresZero | enhanced-car.js:16-26 | a car with fresh metrics scores 0, the least fitness any car can have |
| Genetics.FitnessMonotone | genetic-algorithm.js:56-80 | at equal time alive, more distance, lane keeping, checkpoints and smoothness and less penalty never lower the fitness |
| Genetics.Scored | genetic-algorithm.js:54-81 | scoring sets only the fitness field |
| Genetics.CalculateFitness | genetic-algorithm.js:53-82 | every car is scored in place, in order |
| Genetics.Insert | genetic-algorithm.js:16 | inserting into a descending list keeps it descending and adds exactly that car |
| Genetics.SortByFitness | genetic-algorithm.js:16 | the sort is a permutation into descending fitness order |
| Genetics.InsertStable | genetic-algorithm.js:16 | inserting a car into a sorted list puts it in front of the cars of equal fitness and keeps their order |
| Genetics.InsertStableStep | genetic-algorithm.js:16 | passing a strictly fitter car keeps the inserted car in front of its equals |
| Genetics.SortStable | genetic-algorithm.js:16 | the sort is stable: the cars of any one fitness appear in their input order |
| Genetics.SortSortedIsIdentity | genetic-algorithm.js:16 | sorting an already sorted list leaves it unchanged |
| Genetics.TopRankedIsFittest | genetic-algorithm.js:13-16 | the first car after scoring and sorting is a car of the population, and no car's fitness exceeds it |
| Genetics.Ranking | genetic-algorithm.js:13-16 | the ranked population is sorted and is a permutation of the scored population |
| Genetics.RankingIdempotent | genetic-algorithm.js:152-154 | ranking an already ranked population changes nothing |
| Genetics.RankedFromPopulation | genetic-algorithm.js:13-16 | every ranked car is the scored version of some car of the population |
| Genetics.RankingBreedable | genetic-algorithm.js:13-16 | ranking keeps every car's brain and its shape |
| Genetics.BestDistance | genetic-algorithm.js:139 | the best distance bounds every car's distance and is some car's distance |
| Genetics.Count | genetic-algorithm.js:140-141 | the filter count is at most the size; it is 0 exactly when no car qualifies and the size exactly when all do |
| Genetics.MeanFitness | genetic-algorithm.js:138 | the mean times the size is the sum; it is non-negative for non-negative fitnesses and at most the first car's fitness in a ranked list |
| Genetics.SuccessRate | genetic-algorithm.js:141 | the rate is in [0, 1]; it is 0 exactly when no car passed five checkpoints and 1 exactly when every car did |
| Genetics.MakeRecord | genetic-algorithm.js:135-142 | the record carries the generation and the first car's fitness, with the alive count and success rate in range |
| Genetics.AppendCapped | genetic-algorithm.js:144-149 | the record is appended; past 50 entries the oldest is dropped, so a capped history stays capped |
| Genetics.StoreGenerationStats | genetic-algorithm.js:134-150 | only the history changes, and it stays within 50 entries |
| Genetics.GetGenerationStats | genetic-algorithm.js:158-167 | the latest stored record, or the all-zero record of the current generation before any is stored; StatsReportStored shows it returns what `storeGenerationStats` appended |
| Genetics.StatsReportStored | genetic-algorithm.js:134-167 | right after a generation's statistics are stored, `getGenerationStats` reports exactly that record |
| Genetics.EvolvedStatsReportRanking | genetic-algorithm.js:11-51 | after `evolvePopulation`, the statistics report the ranked old generation, one generation behind the advanced counter |
| Genetics.Sample | genetic-algorithm.js:87 | a tournament pick is an index into the population |
| Genetics.Tournament | genetic-algorithm.js:89-94 | once all rounds are played, the winner is the first sampled car of maximal fitness, and the tournament has used exactly `size` draws |
| Genetics.SelectParent | genetic-algorithm.js:84-97 | the parent is one of the five sampled cars, at least as fit as each of them and strictly fitter than those sampled before it; exactly five draws are used |
| Genetics.CrossRow | genetic-algorithm.js:118-122 | each entry comes from one of the two parents; crossing a row with itself copies it |
| Genetics.CrossMatrix | genetic-algorithm.js:109-115 | each weight comes from one of the two parents at the same position |
| Genetics.CrossLevel | genetic-algorithm.js:104-122 | the child level takes every weight and bias from one of the parents |
| Genetics.CrossLevels | genetic-algorithm.js:103-123 | level by level, the child takes every gene from a parent, keeping the level count |
| Genetics.Crossover | genetic-algorithm.js:99-126 | the child has the parents' shape, every gene comes from a parent, and crossing a brain with itself copies it |
| Genetics.FromHasShape | genetic-algorithm.js:100 | a crossed child has its first parent's shape |
| Genetics.CopyIsFrom | genetic-algorithm.js:39 | copying the first parent, the branch taken without crossover, is one outcome a crossover allows |
| Genetics.MutatedFrom | genetic-algorithm.js:37-43 | a mutated crossed child has each gene within one mutation step of a parent's |
| Genetics.CreateCarFromBrain | genetic-algorithm.js:128-132 | the new car is a fresh AI car at the spawn point carrying exactly the given brain |
| Genetics.CarsFromBrains | genetic-algorithm.js:25-28 | one fresh car per brain, in order |
| Genetics.Child | genetic-algorithm.js:32-46 | a child is a fresh AI car whose brain descends, gene by gene, from two ranked cars and has their shape |
| Genetics.Offspring | genetic-algorithm.js:31-47 | exactly the requested number of such children |
| Genetics.Kept | genetic-algorithm.js:25 | the elites kept are eliteCount, or the whole population if it is smaller |
| Genetics.NextPopulation | genetic-algorithm.js:22-47 | elites first, carrying the ranked brains unchanged, then children; all fresh cars of one shape; populationSize cars unless more elites survive |
| Genetics.JoinGenerations | genetic-algorithm.js:25-47 | joining elites and children keeps each part's facts at the right positions |
| Genetics.EvolvePopulation | genetic-algorithm.js:11-51 | the generation counter advances and the ranked statistics are recorded; the first Kept cars carry the ranked elites' brains; the new size is NextSize |
| Genetics.EvolvedPopulation | genetic-algorithm.js:22-47 | every new car is a fresh AI car, and the new population can itself be bred from |
| Genetics.EvolvedChildren | genetic-algorithm.js:31-46 | every car after the elites descends, gene by gene up to one mutation step, from two cars of the old population |
| Genetics.GetBestBrain | genetic-algorithm.js:152-156 | the population is left ranked, exactly as `Ranking` ranks it, and the brain returned is that of the ranking's first car, a fittest car, or none for an empty population |
| Genetics.FirstWithFitness | genetic-algorithm.js:16 | the first car of a given fitness in a list is the first entry of that fitness's sublist, and no earlier car has that fitness |
| Genetics.BestBrainIsFirstFittest | genetic-algorithm.js:152-156 | on ties, the brain reported is that of the fittest car that comes first in the population: every earlier car is strictly less fit |
| Genetics.ChampionSurvives | genetic-algorithm.js:24-28 | with elitism on, the first car of the next generation carries the brain `getBestBrain` returns |
| Simulation.InputWidth | enhanced-network.js:4-8 | a level's input width is the matching entry of the topology |
| Simulation.TopologyFixesShape | enhanced-car.js:36 | two well-formed brains with one topology have the same shape, so crossover can combine them |
| Simulation.GenerateCars | main.js:54-60 | count fresh AI cars at the spawn point, each with a well-formed [9, 8, 4] brain |
| Simulation.GeneratedBreedable | main.js:54-60 | a generated population can be bred from |
| Simulation.LayoutSound | main.js:63-84 | twenty slots in lanes 0–2 ahead of the spawn point, slower than the AI cars, nearest first, no two in one place |
| Simulation.PlaceTraffic | main.js:63-84 | one brainless dummy per slot from the given slot on, in slot order, at that slot's lane and row with its top speed, one draw each |
| Simulation.GenerateTraffic | main.js:62-85 | twenty brainless dummy cars |
| Simulation.TrafficFollowsLayout | main.js:64-83 | traffic car i stands in slot i at rest, in its lane and row with its top speed |
| Simulation.SeedRate | main.js:43 | the seeding rate `mutationRate · (1 + i · 0.1)` is the base rate for car 0, at least the base rate, and non-positive when the base rate is |
| Simulation.SeedRateGrows | main.js:43 | with a non-negative base rate, a later car is mutated at a rate at least as high as an earlier one |
| Simulation.Seed | main.js:39-46 | every car gets a brain; car 0 gets the saved brain exactly and every car one within one mutation step of it; nothing else about the cars changes; a rate of 0 or less copies it everywhere |
| Simulation.SeedBrainAt | main.js:39-46 | car n's brain is the saved brain mutated at `SeedRate(rate, n)`, with the draws the cars before it left over |
| Simulation.SeedMutatedAt | main.js:42-44 | car n > 0 carries a mutation of the saved brain at exactly its own rate `SeedRate(rate, n)` |
| Simulation.SeedMutated | main.js:42-44 | every seeded car but car 0 carries a mutation of the saved brain at its own index's rate |
| Simulation.SeedMutatedFromStart | main.js:41-45 | seeding a whole population, car i > 0 carries a mutation of the saved brain at `SeedRate(rate, i)` |
| Simulation.SeededPopulation | main.js:39-46 | seeded cars are still fresh AI cars and form a breedable population |
| Simulation.InitialCars | main.js:36-46 | populationSize cars; with no saved brain they are freshly generated, and otherwise car 0 carries the saved brain and every car is within one mutation step of it |
| Simulation.InitialCarsMutated | main.js:39-46 | with a saved brain, car i > 0 of the first population carries a mutation of it at `mutationRate · (1 + i · 0.1)` |
| Simulation.InitialCarsSound | main.js:36-46 | the first population consists of fresh AI cars and can be bred from |
| Simulation.InitializeSimulation | main.js:34-52 | the timer is reset, algorithm state and saved brain are kept, populationSize cars are created with car 0 on the saved brain, and twenty traffic cars are placed |
| Simulation.InitializeSimulationSound | main.js:34-52 | after start-up every AI car is fresh and the population can be bred from |
| Simulation.ShouldEvolve | main.js:92-99 | a generation ends when every car is wrecked; with auto-evolve it also ends after 1200 ticks or when fewer than five cars drive; without auto-evolve, only when all are wrecked |
| Simulation.NextGeneration | main.js:103-110 | the step is bred from the old population: the counter advances, the ranked generation's record is appended to the capped history, the size is NextSize, and the first Kept cars carry the ranking's brains |
| Simulation.NextGenerationSound | main.js:103-110 | every new car is fresh, the new population can be bred from, with elitism car 0 carries the best brain, and every car past the elites is a child of two old cars |
| Simulation.EvolveGeneration | main.js:101-116 | the timer restarts; the counter, history, size and elites are those of a step bred from the old population; twenty traffic cars are placed; the saved brain becomes the best brain of the old population |
| Simulation.EvolveGenerationSound | main.js:101-116 | after the step every AI car is fresh, the population can be bred from, with elitism car 0 drives the saved brain, and every car past the elites is a child of two old cars |

## Left out

- Drawing, the particle system, the UI manager, chart data, and `animate`'s frame loop are not part of this model. `animate` is the caller that ticks cars and increments `generationTimer`.
- The car's colour is not modelled. Its random draw is kept so that later draws line up.
- `Road`, `Controls`, and the `utils` helpers (`lerp`, `getIntersection`, `polysIntersect`) are not part of this model. Lane centres, intersections and polygon overlap are host functions. `lerp` is modelled by its usual formula.
- Floating-point rounding, NaN and ±Infinity are not modelled; numbers are reals.
- `resetSimulation` only re-runs `initializeSimulation` and clears chart data, so it has no separate member.
- `Array.prototype.sort` is stable, and the model's insertion sort is too: Genetics.SortStable proves that cars of equal fitness keep their input order. The model does not claim that its comparison count matches the engine's.
- Genetics.EvolvePopulation, Simulation.NextGeneration, Simulation.EvolveGeneration: require a non-empty population whose cars all carry brains of one shape (`Breedable`). On an empty population the source's `selectParent` dereferences an undefined car. With mismatched shapes its crossover reads missing entries.
- Genetics.SelectParent: requires a non-empty population, for the same reason.
- Genetics.MakeRecord: requires a non-empty population. On an empty one the source records NaN averages and a best distance of −Infinity, which reals cannot express. The same applies to Genetics.MeanFitness, Genetics.SuccessRate, Genetics.BestDistance and Genetics.StoreGenerationStats.
- Car.UpdateMetrics: requires at least two road borders at different x positions (`RoadShaped`). Otherwise the source's lane-keeping ratio divides by zero. The same applies to Car.LaneKeepingReward and Car.Drive.
- Car.PrepareSensorInputs: requires a positive top speed, because the source divides by it.
- Network.FeedForward: requires at least one level (the source reads `levels[0]`), a well-formed network, and at least `levels[0].InputCount()` inputs (a shorter input would read undefined values). Every call in the source meets all three: brains are built as `[9, 8, 4]` and get twelve inputs.
- The `GeneticAlgorithm` constructor's settings (generation 1, population 100, mutation rate 0.05, 10 elites, crossover rate 0.7, empty history) are not fixed: every operation takes the settings as a `GA` value, so the properties hold for any settings.
- Car.Update: requires a `Drivable` car, meaning a positive top speed and, with a sensor, a well-formed brain. A brain wider than the inputs would read undefined values.
