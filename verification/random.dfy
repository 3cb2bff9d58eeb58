/**
 * Randomness made explicit. Every `Math.random()` call of the simulator is
 * answered by an oracle stream; functions that draw take a cursor `k` (the
 * index of the next unused draw) and return the cursor after their last draw,
 * so draws are consumed in the same order as the source consumes them.
 */
module Random {

  /** A value `Math.random()` can return. */
  type Unit = r: real | 0.0 <= r < 1.0

  /** The i-th call to `Math.random()` returns `rand(i)`. */
  type Oracle = nat -> Unit

  /** A computed value together with the cursor of the next unused draw. */
  datatype Drawn<+T> = Drawn(value: T, next: nat)

  /** `Math.floor(r * n)`: the item a uniform draw picks out of `n` items. */
  function PickIndex(r: Unit, n: nat): (i: nat)
    requires n > 0
    ensures i < n
    ensures i as real <= r * n as real < i as real + 1.0
  {
    var x := r * n as real;
    assert 0.0 <= x < n as real by {
      assert r * n as real < 1.0 * n as real;
    }
    assert x.Floor as real <= x;
    x.Floor
  }

  /** `(Math.random() * 2 - 1) * scale`: a draw spread symmetrically around zero. */
  function Symmetric(r: Unit, scale: real): (v: real)
    requires scale >= 0.0
    ensures -scale <= v <= scale
    ensures scale > 0.0 ==> v < scale
  {
    var u := r * 2.0 - 1.0;
    assert -1.0 <= u < 1.0;
    assert u * scale <= 1.0 * scale;
    u * scale
  }
}
