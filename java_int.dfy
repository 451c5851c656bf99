/** Java's 32-bit `int`, the type of `Board.recommend`, and the wrap-around
    of its `+` and `-`. */
module JavaInt {

  const MIN: int := -0x8000_0000
  const MAX: int := 0x7fff_ffff
  const MODULUS: int := 0x1_0000_0000

  type int32 = x: int | -0x8000_0000 <= x <= 0x7fff_ffff

  /** The `int` that Java arithmetic yields when the exact result is `x`:
      the one value in range congruent to `x` modulo 2^32. */
  function Wrap(x: int): (r: int32)
    ensures (r - x) % MODULUS == 0
    ensures MIN <= x <= MAX ==> r == x
  {
    (x - MIN) % MODULUS + MIN
  }

  /** Only one `int` is congruent to `x`, so any such value is `Wrap(x)`. */
  lemma WrapUnique(x: int, r: int)
    requires MIN <= r <= MAX && (r - x) % MODULUS == 0
    ensures r == Wrap(x)
  {
    var w := Wrap(x);
    assert (r - w) % MODULUS == 0 by {
      assert r - w == (r - x) - (w - x);
    }
    assert -MODULUS < r - w < MODULUS;
  }

  /** Wrapping an intermediate result does not change the final one:
      `(int)(a + d)` on a wrapped `a` is the exact sum wrapped once. */
  lemma WrapShift(x: int, d: int)
    ensures Wrap(Wrap(x) + d) == Wrap(x + d)
  {
    var w := Wrap(x);
    var r := Wrap(w + d);
    assert (r - (x + d)) % MODULUS == 0 by {
      assert r - (x + d) == (r - (w + d)) + (w - x);
    }
    WrapUnique(x + d, r);
  }

  /** Adding or subtracting one always changes a Java `int`. */
  lemma WrapNeighboursDiffer(x: int)
    ensures Wrap(x - 1) != Wrap(x)
  {
  }
}
