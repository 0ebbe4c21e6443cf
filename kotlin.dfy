/** Kotlin/JVM integer semantics that the game's arithmetic depends on,
    written out over Dafny's unbounded integers. */
module KotlinInt {

  const MinInt: int := -0x8000_0000
  const MaxInt: int := 0x7fff_ffff
  const MinLong: int := -0x8000_0000_0000_0000
  const MaxLong: int := 0x7fff_ffff_ffff_ffff

  predicate IsInt(x: int) { MinInt <= x <= MaxInt }
  predicate IsLong(x: int) { MinLong <= x <= MaxLong }

  /** Two's-complement wrap-around of a 32-bit `Int` operation. */
  function Wrap32(x: int): (r: int)
    ensures IsInt(r)
    ensures (r - x) % 0x1_0000_0000 == 0
    ensures IsInt(x) ==> r == x
  {
    (x + 0x8000_0000) % 0x1_0000_0000 - 0x8000_0000
  }

  /** Two's-complement wrap-around of a 64-bit `Long` operation. */
  function Wrap64(x: int): (r: int)
    ensures IsLong(r)
    ensures (r - x) % 0x1_0000_0000_0000_0000 == 0
    ensures IsLong(x) ==> r == x
  {
    (x + 0x8000_0000_0000_0000) % 0x1_0000_0000_0000_0000 - 0x8000_0000_0000_0000
  }

  /** `kotlin.math.abs(Long)`: negation wraps, so `abs(Long.MIN_VALUE)` is
      `Long.MIN_VALUE` itself. */
  function Abs64(x: int): (r: int)
    requires IsLong(x)
    ensures IsLong(r)
    ensures x != MinLong ==> r >= 0 && (r == x || r == -x)
    ensures x == MinLong ==> r == MinLong
  {
    if x < 0 then Wrap64(-x) else x
  }

  /** Kotlin's `%` on integers: the remainder takes the sign of the dividend,
      so it agrees with Dafny's `%` only for a non-negative dividend. */
  function KRem(a: int, m: int): (r: int)
    requires m > 0
    ensures a >= 0 ==> r == a % m
    ensures a >= 0 ==> 0 <= r < m
    ensures a < 0 ==> -m < r <= 0
    ensures a < 0 ==> r == -((-a) % m)
  {
    if a >= 0 then a % m else -((-a) % m)
  }

  /** Kotlin's `a / 2` on integers: the quotient is rounded toward zero. */
  function Half(a: int): (r: int)
    ensures a >= 0 ==> 0 <= 2 * r <= a < 2 * r + 2
    ensures a < 0 ==> 2 * r - 2 < a <= 2 * r <= 0
  {
    if a >= 0 then a / 2 else -((-a) / 2)
  }

  /** `x shr k` on a `Long`: an arithmetic shift. The JVM masks the shift
      distance to its low six bits; the result is `x` divided by 2 to that
      power, rounded toward negative infinity. It stays on the same side of zero, no farther from it, and a
      non-zero distance can never give `Long.MIN_VALUE`. */
  function Shr(x: int, k: int): (r: int)
    requires IsLong(x)
    ensures Pow2(k % 64) * r <= x < Pow2(k % 64) * (r + 1)
    ensures r == x / Pow2(k % 64)
    ensures IsLong(r)
    ensures x >= 0 ==> 0 <= r <= x
    ensures x < 0 ==> x <= r < 0
    ensures k % 64 != 0 ==> r != MinLong
  {
    HalveFloorBounds(x, k % 64);
    HalveFloorIsDiv(x, k % 64);
    FloorDivUnique(x, Pow2(k % 64), HalveFloor(x, k % 64));
    HalveFloor(x, k % 64)
  }

  function Pow2(n: nat): (r: nat)
    ensures r >= 1
  {
    if n == 0 then 1 else 2 * Pow2(n - 1)
  }

  /** `x` divided by 2^n, rounded toward negative infinity. */
  function HalveFloor(x: int, n: nat): int
    decreases n
  {
    if n == 0 then x else HalveFloor(x / 2, n - 1)
  }

  /** Halving `n` times is flooring division by 2^n: the result is the
      greatest `h` with `h * 2^n <= x`. */
  lemma {:induction false} HalveFloorIsDiv(x: int, n: nat)
    decreases n
    ensures Pow2(n) * HalveFloor(x, n) <= x < Pow2(n) * (HalveFloor(x, n) + 1)
  {
    if n > 0 {
      var h, p := HalveFloor(x / 2, n - 1), Pow2(n - 1);
      HalveFloorIsDiv(x / 2, n - 1);
      assert p * h <= x / 2 <= p * (h + 1) - 1;
      assert Pow2(n) * h == 2 * (p * h);
      assert Pow2(n) * (h + 1) == 2 * (p * (h + 1));
    }
  }

  /** Dafny's `/` by a positive divisor is the floor quotient: the only `q`
      with `d * q <= x < d * (q + 1)`. */
  lemma FloorDivUnique(x: int, d: int, q: int)
    requires d > 0 && d * q <= x < d * (q + 1)
    ensures x / d == q
  {
    MulAwayFromZero(d, q - x / d);
  }

  /** A non-zero integer multiple of `d` is at least `d` away from 0. */
  lemma MulAwayFromZero(d: int, k: int)
    requires d > 0
    ensures k >= 1 ==> d * k >= d
    ensures k <= -1 ==> d * k <= -d
  {
  }

  /** `Double.toInt()` on an integral value: out-of-range values saturate. */
  function Sat32(x: int): (r: int)
    ensures IsInt(r)
    ensures IsInt(x) ==> r == x
    ensures x > MaxInt ==> r == MaxInt
    ensures x < MinInt ==> r == MinInt
  {
    if x > MaxInt then MaxInt else if x < MinInt then MinInt else x
  }

  /** Halving repeatedly moves a value toward zero (or to -1) and never past
      it; a negative value halved at least once lands at or above half of it. */
  lemma {:induction false} HalveFloorBounds(x: int, n: nat)
    decreases n
    ensures x >= 0 ==> 0 <= HalveFloor(x, n) <= x
    ensures x < 0 ==> x <= HalveFloor(x, n) < 0
    ensures x < 0 && n >= 1 ==> 2 * HalveFloor(x, n) + 1 >= x
  {
    if n > 0 {
      HalveFloorBounds(x / 2, n - 1);
    }
  }
}
