/** The retry delay: a shift in 64-bit arithmetic that may wrap around, then a cap. */
module Backoff {

  const TWO63: int := 0x8000_0000_0000_0000
  const TWO64: int := 0x1_0000_0000_0000_0000

  function Pow2(n: nat): (p: nat)
    ensures p >= 1
  {
    if n == 0 then 1 else 2 * Pow2(n - 1)
  }

  /** What a 64-bit register holds of `x`. */
  function Wrap(x: int): int {
    var r := x % TWO64;
    if r >= TWO63 then r - TWO64 else r
  }

  /** The signed number of 64 bits that agrees with `x` in the low 64, and the only one. */
  lemma WrapMeans(x: int, r: int)
    ensures r == Wrap(x) <==> -TWO63 <= r < TWO63 && (r - x) % TWO64 == 0
  {
    var a := x / TWO64;
    assert x == a * TWO64 + x % TWO64;
    assert Wrap(x) - x == -a * TWO64 || Wrap(x) - x == -(a + 1) * TWO64;
    ModZero(-a);
    ModZero(-(a + 1));
  }

  lemma WrapShift(x: int)
    ensures Wrap(x) == (x + TWO63) % TWO64 - TWO63
  {}

  /** `base << (attempt - 1)`, capped; the delay before jitter. */
  function Delay(attempt: int, base: int, max: int): int {
    var n := if attempt < 1 then 1 else attempt;
    var d := Wrap(base * Pow2(n - 1));
    if d <= 0 || d > max then max else d
  }

  /** `draw(n)` is the random generator: some number below n. The cap leaves room for the bound passed. */
  method Backoff(attempt: int, base: int, max: int, draw: int -> int) returns (d: int)
    requires 0 <= max < TWO63 - 1
    requires forall n :: n > 0 ==> 0 <= draw(n) < n
    ensures 0 <= d <= Delay(attempt, base, max) <= max
    // the number drawn below the bound that the shifted base, taken to 64 bits with a sign, or the cap gives
    ensures var x := (base * Pow2(if attempt < 1 then 0 else attempt - 1) + TWO63) % TWO64 - TWO63;
            d == draw((if 0 < x <= max then x else max) + 1)
  {
    WrapShift(base * Pow2(if attempt < 1 then 0 else attempt - 1));
    hide Wrap, Pow2;
    d := draw(Delay(attempt, base, max) + 1);
  }

  lemma {:induction false} Pow2Sum(a: nat, b: nat)
    ensures Pow2(a + b) == Pow2(a) * Pow2(b)
    decreases b
  {
    if b > 0 { Pow2Sum(a, b - 1); }
  }

  lemma Pow64()
    ensures Pow2(64) == TWO64 && Pow2(63) == TWO63
  {
    assert Pow2(8) == 256;
    Pow2Sum(8, 8);
    Pow2Sum(16, 16);
    Pow2Sum(32, 32);
    assert 2 * Pow2(63) == Pow2(64);
  }

  lemma MulMonotone(a: nat, b: nat, c: nat)
    requires a <= b
    ensures a * c <= b * c
  {}

  /** A wrapped value is still a multiple of every power of two up to 2^64 that the exact value is. */
  lemma WrapMultiple(k: nat, j: nat) returns (q: int)
    requires k <= 64
    ensures Wrap(j * Pow2(k)) == q * Pow2(k)
  {
    Pow64();
    Pow2Sum(64 - k, k);
    var x, c := j * Pow2(k), Pow2(64 - k);
    var a := x / TWO64;
    assert x == a * TWO64 + x % TWO64;
    Factor(a, c, Pow2(k));
    Factor(a + 1, c, Pow2(k));
    if x % TWO64 >= TWO63 {
      q := j - (a + 1) * c;
      assert Wrap(x) == x - (a + 1) * TWO64;
      Distribute(j, (a + 1) * c, Pow2(k));
    } else {
      q := j - a * c;
      assert Wrap(x) == x - a * TWO64;
      Distribute(j, a * c, Pow2(k));
    }
  }

  lemma Factor(a: int, c: int, p: int)
    ensures a * (c * p) == (a * c) * p
  {}

  lemma Distribute(j: int, m: int, p: int)
    ensures (j - m) * p == j * p - m * p
  {}

  /** If the odd part of the base is small against the cap, wrap-around can never fake a short delay: the
      delay is the exact power of two, or the cap, for every attempt. */
  lemma DelayIsExact(n: nat, t: nat, odd: nat, max: nat)
    requires n >= 1 && odd >= 1 && max >= 1 && odd * max < TWO63
    ensures var exact := odd * Pow2(t) * Pow2(n - 1);
            Delay(n, odd * Pow2(t), max) == if exact <= max then exact else max
  {
    hide Pow2, Wrap;
    Pow2Sum(t, n - 1);
    Factor(odd, Pow2(t), Pow2(n - 1));
    CappedIsExact(odd, t + n - 1, max);
  }

  lemma CappedIsExact(odd: nat, k: nat, max: nat)
    requires odd >= 1 && max >= 1 && odd * max < TWO63
    ensures var x := odd * Pow2(k);
            var d := Wrap(x);
            (if d <= 0 || d > max then max else d) == if x <= max then x else max
  {
    hide Pow2, Wrap;
    var p := Pow2(k);
    MulMonotone(1, odd, p);
    if odd * p < TWO63 {
      WrapSmall(odd * p);
    } else {
      // 2^k is above the cap already, so any wrapped value left positive is too
      Above(odd, p, max);
      WrappedIsLong(odd, k, max);
    }
  }

  lemma WrapSmall(x: nat)
    requires x < TWO63
    ensures Wrap(x) == x
  {}

  lemma Above(odd: nat, p: nat, max: nat)
    requires odd * p >= TWO63 > odd * max
    ensures p > max && odd * p > max
  {
    if p <= max { MulMonotone(p, max, odd); }
    if odd >= 1 { MulMonotone(1, odd, max); }
  }

  lemma WrappedIsLong(odd: nat, k: nat, max: nat)
    requires Pow2(k) > max && odd * Pow2(k) > max
    ensures Wrap(odd * Pow2(k)) <= 0 || Wrap(odd * Pow2(k)) > max
  {
    if k <= 64 {
      var q := WrapMultiple(k, odd);
      if q >= 1 { MulMonotone(1, q, Pow2(k)); }
      if q < 1 { Distribute(0, -q, Pow2(k)); MulMonotone(0, -q, Pow2(k)); }
    } else {
      // every bit has been shifted out
      Pow64();
      Pow2Sum(k - 64, 64);
      Factor(odd, Pow2(k - 64), Pow2(64));
      assert (odd * Pow2(k - 64)) * TWO64 % TWO64 == 0 by { ModZero(odd * Pow2(k - 64)); }
    }
  }

  lemma ModZero(a: int)
    ensures (a * TWO64) % TWO64 == 0
  {}

  const SECOND: int := 1_000_000_000

  /** The defaults, a second doubling up to a minute: exactly min(2^(n-1) s, 60 s) at every attempt. */
  lemma DefaultDelay(n: nat)
    requires n >= 1
    ensures Delay(n, SECOND, 60 * SECOND) == if Pow2(n - 1) <= 60 then Pow2(n - 1) * SECOND else 60 * SECOND
  {
    assert Pow2(9) == 512;
    DelayIsExact(n, 9, 1953125, 60 * SECOND);
  }

  /** For any settings, the delay is the exact power of two, or the cap, if and only if the shift has not
      wrapped around to a positive value below the cap. */
  lemma ExactUnlessFaked(n: nat, base: nat, max: nat)
    requires n >= 1 && max < TWO63
    ensures var exact := base * Pow2(n - 1);
            Delay(n, base, max) == (if 0 < exact <= max then exact else max)
            <==> !(exact >= TWO63 && 0 < Wrap(exact) < max)
  {
    var exact := base * Pow2(n - 1);
    hide Pow2;
    if exact < TWO63 {
      WrapSmall(exact);
    }
  }

  /** With other settings it can: at attempt 63 a base of five nanoseconds has wrapped around to a delay
      below a cap that the exact value is far above. */
  lemma WrapCanFakeADelay()
    ensures var cap := TWO63 - 2; Delay(63, 5, cap) == Pow2(62) < cap < 5 * Pow2(62)
  {
    Pow64();
  }
}
