/**
 * The feedforward network of `enhanced-network.js`: construction from a list
 * of layer widths, the layer-by-layer sigmoid forward pass and clamped point
 * mutation. A network is a value; the source's JSON deep copies are plain
 * value copies here.
 */
module Network {
  import opened Base
  import opened Random
  import opened Externals

  /** One `EnhancedLevel`: `weights[i][j]` connects input `i` to output `j`. */
  datatype Level = Level(weights: seq<seq<real>>, biases: seq<real>) {
    /** `level.inputs.length`, equal to the number of weight rows. */
    function InputCount(): nat { |weights| }
    /** `level.outputs.length`, equal to the number of biases. */
    function OutputCount(): nat { |biases| }
    /** Every weight row has one entry per output. */
    predicate Rectangular()
    {
      forall i :: 0 <= i < |weights| ==> |weights[i]| == |biases|
    }
  }

  datatype Network = Network(levels: seq<Level>)

  /** Every level is rectangular and feeds exactly as many values as the next one reads. */
  predicate Chained(levels: seq<Level>)
  {
    && (forall l :: 0 <= l < |levels| ==> levels[l].Rectangular())
    && (forall l :: 0 < l < |levels| ==> levels[l - 1].OutputCount() == levels[l].InputCount())
  }

  predicate WellFormed(net: Network)
  {
    Chained(net.levels)
  }

  /** The width list the network was built from: input width, then each level's output width. */
  function Topology(net: Network): seq<nat>
  {
    if |net.levels| == 0 then []
    else [net.levels[0].InputCount()] + seq(|net.levels|, l requires 0 <= l < |net.levels| => net.levels[l].OutputCount())
  }

  // ---------------------------------------------------------------------------
  // Entry-wise relations between two networks of the same shape

  predicate VecRel(a: seq<real>, b: seq<real>, R: (real, real) -> bool)
  {
    |a| == |b| && forall i :: 0 <= i < |a| ==> R(a[i], b[i])
  }

  predicate MatrixRel(a: seq<seq<real>>, b: seq<seq<real>>, R: (real, real) -> bool)
  {
    |a| == |b| && forall i :: 0 <= i < |a| ==> VecRel(a[i], b[i], R)
  }

  predicate LevelRel(a: Level, b: Level, R: (real, real) -> bool)
  {
    MatrixRel(a.weights, b.weights, R) && VecRel(a.biases, b.biases, R)
  }

  /** `a` and `b` have the same shape and `R` holds of every pair of corresponding entries. */
  predicate NetRel(a: Network, b: Network, R: (real, real) -> bool)
  {
    |a.levels| == |b.levels| && forall l :: 0 <= l < |a.levels| ==> LevelRel(a.levels[l], b.levels[l], R)
  }

  /** The width of every weight row. */
  function RowWidths(m: seq<seq<real>>): (w: seq<nat>)
    ensures |w| == |m| && forall i :: 0 <= i < |m| ==> w[i] == |m[i]|
  {
    seq(|m|, i requires 0 <= i < |m| => |m[i]|)
  }

  /** A level's dimensions: each weight row's width, and the number of biases. */
  datatype LevelShape = LevelShape(rows: seq<nat>, outputs: nat)

  function ShapeOf(level: Level): LevelShape
  {
    LevelShape(RowWidths(level.weights), |level.biases|)
  }

  /** A network's dimensions, level by level. */
  function Shape(net: Network): (s: seq<LevelShape>)
    ensures |s| == |net.levels| && forall l :: 0 <= l < |net.levels| ==> s[l] == ShapeOf(net.levels[l])
  {
    seq(|net.levels|, l requires 0 <= l < |net.levels| => ShapeOf(net.levels[l]))
  }

  /** Same level count, and per level the same row count, row widths and bias count. */
  predicate SameShape(a: Network, b: Network)
  {
    Shape(a) == Shape(b)
  }

  /** Two levels of one shape have rows of equal widths. */
  lemma LevelShapeRows(a: Level, b: Level)
    requires ShapeOf(a) == ShapeOf(b)
    ensures |a.weights| == |b.weights| && |a.biases| == |b.biases|
    ensures forall i :: 0 <= i < |a.weights| ==> |a.weights[i]| == |b.weights[i]|
  {
    assert RowWidths(a.weights) == RowWidths(b.weights);
  }

  lemma {:induction false} RelHasShape(a: Network, b: Network, R: (real, real) -> bool)
    requires NetRel(a, b, R)
    ensures SameShape(a, b)
  {
    forall l | 0 <= l < |a.levels| ensures ShapeOf(a.levels[l]) == ShapeOf(b.levels[l]) {
      var la, lb := a.levels[l], b.levels[l];
      assert LevelRel(la, lb, R);
      assert RowWidths(la.weights) == RowWidths(lb.weights) by {
        forall i | 0 <= i < |la.weights| ensures |la.weights[i]| == |lb.weights[i]| {
          assert VecRel(la.weights[i], lb.weights[i], R);
        }
      }
    }
    assert Shape(a) == Shape(b);
  }

  lemma ShapeKeepsTopology(a: Network, b: Network)
    requires SameShape(a, b)
    ensures Topology(a) == Topology(b)
    ensures WellFormed(a) <==> WellFormed(b)
  {
    forall l | 0 <= l < |a.levels|
      ensures a.levels[l].InputCount() == b.levels[l].InputCount()
      ensures a.levels[l].OutputCount() == b.levels[l].OutputCount()
      ensures a.levels[l].Rectangular() <==> b.levels[l].Rectangular()
    {
      assert Shape(a)[l] == Shape(b)[l];
      LevelShapeRows(a.levels[l], b.levels[l]);
    }
  }

  // ---------------------------------------------------------------------------
  // Construction (`new EnhancedNeuralNetwork(neuronCounts)`, `EnhancedLevel.randomize`)

  /** `Math.sqrt(6 / inputCount)`; with no inputs there are no weights to bound. */
  function XavierLimit(h: Host, inputCount: nat): (r: real)
    ensures r >= 0.0
  {
    if inputCount == 0 then 0.0 else h.sqrt(6.0 / inputCount as real)
  }

  /** `n` consecutive draws `(Math.random() * 2 - 1) * scale`. */
  function RandomRow(n: nat, scale: real, rand: Oracle, k: nat): (d: Drawn<seq<real>>)
    requires scale >= 0.0
    ensures |d.value| == n
    ensures forall j :: 0 <= j < n ==> -scale <= d.value[j] <= scale
  {
    var row := seq(n, j requires 0 <= j < n => Symmetric(rand(k + j), scale));
    assert forall j :: 0 <= j < n ==> row[j] == Symmetric(rand(k + j), scale);
    Drawn(row, k + n)
  }

  /** A `rows × cols` matrix drawn row by row. */
  function RandomMatrix(rows: nat, cols: nat, scale: real, rand: Oracle, k: nat): (d: Drawn<seq<seq<real>>>)
    requires scale >= 0.0
    ensures |d.value| == rows
    ensures forall i :: 0 <= i < rows ==> |d.value[i]| == cols
    ensures forall i, j :: 0 <= i < rows && 0 <= j < cols ==> -scale <= d.value[i][j] <= scale
    decreases rows
  {
    if rows == 0 then Drawn([], k)
    else
      var first := RandomRow(cols, scale, rand, k);
      var rest := RandomMatrix(rows - 1, cols, scale, rand, first.next);
      Drawn([first.value] + rest.value, rest.next)
  }

  /** `new EnhancedLevel(inputCount, outputCount)`: weights first, then biases. */
  function NewLevel(inputCount: nat, outputCount: nat, h: Host, rand: Oracle, k: nat): (d: Drawn<Level>)
    ensures d.value.InputCount() == inputCount && d.value.OutputCount() == outputCount
    ensures d.value.Rectangular()
    ensures forall i, j :: 0 <= i < inputCount && 0 <= j < outputCount ==>
              Abs(d.value.weights[i][j]) <= XavierLimit(h, inputCount)
    ensures forall j :: 0 <= j < outputCount ==> -0.5 <= d.value.biases[j] <= 0.5
  {
    var w := RandomMatrix(inputCount, outputCount, XavierLimit(h, inputCount), rand, k);
    var b := RandomRow(outputCount, 0.5, rand, w.next);
    Drawn(Level(w.value, b.value), b.next)
  }

  /** The levels between consecutive widths, built front to back. */
  function NewLevels(widths: seq<nat>, h: Host, rand: Oracle, k: nat): (d: Drawn<seq<Level>>)
    ensures |d.value| == if |widths| == 0 then 0 else |widths| - 1
    ensures forall l :: 0 <= l < |d.value| ==>
              d.value[l].InputCount() == widths[l] && d.value[l].OutputCount() == widths[l + 1]
    ensures Chained(d.value)
    ensures forall l, i, j :: 0 <= l < |d.value| && 0 <= i < |d.value[l].weights| && 0 <= j < |d.value[l].weights[i]| ==>
              Abs(d.value[l].weights[i][j]) <= XavierLimit(h, widths[l])
    ensures forall l, j :: 0 <= l < |d.value| && 0 <= j < |d.value[l].biases| ==> -0.5 <= d.value[l].biases[j] <= 0.5
    decreases |widths|
  {
    if |widths| < 2 then Drawn([], k)
    else
      var first := NewLevel(widths[0], widths[1], h, rand, k);
      var rest := NewLevels(widths[1..], h, rand, first.next);
      Drawn([first.value] + rest.value, rest.next)
  }

  /** `new EnhancedNeuralNetwork(neuronCounts)`. */
  function NewNetwork(widths: seq<nat>, h: Host, rand: Oracle, k: nat): (d: Drawn<Network>)
    ensures |d.value.levels| == if |widths| == 0 then 0 else |widths| - 1
    ensures WellFormed(d.value)
    ensures |widths| >= 2 ==> Topology(d.value) == widths
    ensures forall l, i, j ::
              0 <= l < |d.value.levels| && 0 <= i < |d.value.levels[l].weights| && 0 <= j < |d.value.levels[l].weights[i]| ==>
              Abs(d.value.levels[l].weights[i][j]) <= XavierLimit(h, widths[l])
    ensures forall l, j :: 0 <= l < |d.value.levels| && 0 <= j < |d.value.levels[l].biases| ==>
              -0.5 <= d.value.levels[l].biases[j] <= 0.5
  {
    var ls := NewLevels(widths, h, rand, k);
    var net := Network(ls.value);
    assert |widths| >= 2 ==> Topology(net) == widths by {
      if |widths| >= 2 {
        forall l | 0 < l < |widths| ensures Topology(net)[l] == widths[l] {
          assert Topology(net)[l] == net.levels[l - 1].OutputCount();
        }
      }
    }
    Drawn(net, ls.next)
  }

  // ---------------------------------------------------------------------------
  // Forward pass (`EnhancedNeuralNetwork.feedForward`, `EnhancedLevel.feedForward`)

  /** Σ_{j<n} inputs[j] · weights[j][col], accumulated from j = 0 upwards. */
  function WeightedSum(inputs: seq<real>, weights: seq<seq<real>>, col: nat, n: nat): real
    requires n <= |inputs| && n <= |weights|
    requires forall j :: 0 <= j < n ==> col < |weights[j]|
  {
    if n == 0 then 0.0 else WeightedSum(inputs, weights, col, n - 1) + inputs[n - 1] * weights[n - 1][col]
  }

  /**
   * One level: reads the first `InputCount()` inputs (any further ones are
   * ignored) and emits one sigmoid output per bias.
   */
  function LevelForward(inputs: seq<real>, level: Level, h: Host): (out: seq<real>)
    requires level.Rectangular() && |inputs| >= level.InputCount()
    ensures |out| == level.OutputCount()
    ensures forall i :: 0 <= i < |out| ==> 0.0 < out[i] < 1.0
  {
    seq(|level.biases|, i requires 0 <= i < |level.biases| =>
      Sigmoid(h, WeightedSum(inputs, level.weights, i, |level.weights|) + level.biases[i]))
  }

  /** Levels applied in order, each one's outputs feeding the next. */
  function ForwardLevels(inputs: seq<real>, levels: seq<Level>, h: Host): (out: seq<real>)
    requires |levels| >= 1 && Chained(levels) && |inputs| >= levels[0].InputCount()
    ensures |out| == levels[|levels| - 1].OutputCount()
    ensures forall i :: 0 <= i < |out| ==> 0.0 < out[i] < 1.0
    decreases |levels|
  {
    var first := LevelForward(inputs, levels[0], h);
    if |levels| == 1 then first else ForwardLevels(first, levels[1..], h)
  }

  /** `EnhancedNeuralNetwork.feedForward(inputs, network)`; the source indexes `levels[0]`, so a network has a level. */
  function FeedForward(inputs: seq<real>, net: Network, h: Host): (out: seq<real>)
    requires |net.levels| >= 1 && WellFormed(net) && |inputs| >= net.levels[0].InputCount()
    ensures |out| == net.levels[|net.levels| - 1].OutputCount()
    ensures forall i :: 0 <= i < |out| ==> 0.0 < out[i] < 1.0
  {
    ForwardLevels(inputs, net.levels, h)
  }

  lemma {:induction false} WeightedSumPrefix(a: seq<real>, b: seq<real>, weights: seq<seq<real>>, col: nat, n: nat)
    requires n <= |a| && n <= |b| && n <= |weights|
    requires forall j :: 0 <= j < n ==> col < |weights[j]|
    requires a[..n] == b[..n]
    ensures WeightedSum(a, weights, col, n) == WeightedSum(b, weights, col, n)
    decreases n
  {
    if n > 0 {
      assert a[n - 1] == a[..n][n - 1] == b[..n][n - 1] == b[n - 1];
      assert a[..n - 1] == a[..n][..n - 1] && b[..n - 1] == b[..n][..n - 1];
      WeightedSumPrefix(a, b, weights, col, n - 1);
    }
  }

  /** A level's output depends only on the first `InputCount()` inputs. */
  lemma LevelReadsPrefix(a: seq<real>, b: seq<real>, level: Level, h: Host)
    requires level.Rectangular() && |a| >= level.InputCount() && |b| >= level.InputCount()
    requires a[..level.InputCount()] == b[..level.InputCount()]
    ensures LevelForward(a, level, h) == LevelForward(b, level, h)
  {
    forall i | 0 <= i < level.OutputCount()
      ensures LevelForward(a, level, h)[i] == LevelForward(b, level, h)[i]
    {
      WeightedSumPrefix(a, b, level.weights, i, |level.weights|);
    }
  }

  /** Inputs beyond the first level's width never influence the network's outputs. */
  lemma FeedForwardReadsPrefix(a: seq<real>, b: seq<real>, net: Network, h: Host)
    requires |net.levels| >= 1 && WellFormed(net)
    requires |a| >= net.levels[0].InputCount() && |b| >= net.levels[0].InputCount()
    requires a[..net.levels[0].InputCount()] == b[..net.levels[0].InputCount()]
    ensures FeedForward(a, net, h) == FeedForward(b, net, h)
  {
    LevelReadsPrefix(a, b, net.levels[0], h);
  }

  // ---------------------------------------------------------------------------
  // Mutation (`EnhancedNeuralNetwork.mutate`)

  /** Either untouched or inside [-2, 2]; and an entry that was inside [-2, 2] moved by at most 0.1. */
  predicate MutationStep(x: real, y: real)
  {
    (y == x || -2.0 <= y <= 2.0) && (-2.0 <= x <= 2.0 ==> Abs(y - x) <= 0.1)
  }

  /** With probability `amount`, nudge by U(-0.1, 0.1) and clamp to [-2, 2]. */
  function MutateGene(x: real, amount: real, rand: Oracle, k: nat): (d: Drawn<real>)
    ensures MutationStep(x, d.value)
    ensures amount <= 0.0 ==> d.value == x
  {
    if rand(k) < amount then Drawn(Clamp(-2.0, 2.0, x + Symmetric(rand(k + 1), 0.1)), k + 2)
    else Drawn(x, k + 1)
  }

  function MutateRow(v: seq<real>, amount: real, rand: Oracle, k: nat): (d: Drawn<seq<real>>)
    ensures VecRel(v, d.value, MutationStep)
    ensures amount <= 0.0 ==> d.value == v
    decreases |v|
  {
    if |v| == 0 then Drawn([], k)
    else
      var first := MutateGene(v[0], amount, rand, k);
      var rest := MutateRow(v[1..], amount, rand, first.next);
      assert [v[0]] + v[1..] == v;
      Drawn([first.value] + rest.value, rest.next)
  }

  function MutateMatrix(m: seq<seq<real>>, amount: real, rand: Oracle, k: nat): (d: Drawn<seq<seq<real>>>)
    ensures MatrixRel(m, d.value, MutationStep)
    ensures amount <= 0.0 ==> d.value == m
    decreases |m|
  {
    if |m| == 0 then Drawn([], k)
    else
      var first := MutateRow(m[0], amount, rand, k);
      var rest := MutateMatrix(m[1..], amount, rand, first.next);
      assert [m[0]] + m[1..] == m;
      Drawn([first.value] + rest.value, rest.next)
  }

  /** Biases first, then the weights row by row, as the source loops. */
  function MutateLevel(level: Level, amount: real, rand: Oracle, k: nat): (d: Drawn<Level>)
    ensures LevelRel(level, d.value, MutationStep)
    ensures amount <= 0.0 ==> d.value == level
  {
    var b := MutateRow(level.biases, amount, rand, k);
    var w := MutateMatrix(level.weights, amount, rand, b.next);
    Drawn(Level(w.value, b.value), w.next)
  }

  function MutateLevels(levels: seq<Level>, amount: real, rand: Oracle, k: nat): (d: Drawn<seq<Level>>)
    ensures |d.value| == |levels|
    ensures forall l :: 0 <= l < |levels| ==> LevelRel(levels[l], d.value[l], MutationStep)
    ensures amount <= 0.0 ==> d.value == levels
    decreases |levels|
  {
    if |levels| == 0 then Drawn([], k)
    else
      var first := MutateLevel(levels[0], amount, rand, k);
      var rest := MutateLevels(levels[1..], amount, rand, first.next);
      assert [levels[0]] + levels[1..] == levels;
      Drawn([first.value] + rest.value, rest.next)
  }

  /**
   * `EnhancedNeuralNetwork.mutate(network, amount)`. The shape never changes;
   * every entry is a `MutationStep` of the old one; a rate of zero or less
   * draws but changes nothing, since `Math.random() < amount` never holds.
   */
  function Mutate(net: Network, amount: real, rand: Oracle, k: nat): (d: Drawn<Network>)
    ensures NetRel(net, d.value, MutationStep)
    ensures SameShape(net, d.value)
    ensures amount <= 0.0 ==> d.value == net
  {
    var ls := MutateLevels(net.levels, amount, rand, k);
    var result := Network(ls.value);
    RelHasShape(net, result, MutationStep);
    Drawn(result, ls.next)
  }

  lemma MutateKeepsTopology(net: Network, amount: real, rand: Oracle, k: nat)
    ensures Topology(Mutate(net, amount, rand, k).value) == Topology(net)
    ensures WellFormed(Mutate(net, amount, rand, k).value) <==> WellFormed(net)
  {
    ShapeKeepsTopology(net, Mutate(net, amount, rand, k).value);
  }
}
