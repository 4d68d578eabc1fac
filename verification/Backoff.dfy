/** The wait before a retry: exponential, jittered, capped, in 64-bit arithmetic. */
module Backoff {
  import opened Wrappers

  const U64_MAX: nat := 0xFFFF_FFFF_FFFF_FFFF

  function Pow2(k: nat): (p: nat)
    ensures p > 0
  {
    if k == 0 then 1 else 2 * Pow2(k - 1)
  }

  function SaturatingMul(a: nat, b: nat): nat {
    Min(Product(a, b), U64_MAX)
  }

  function Product(a: nat, b: nat): nat {
    a * b
  }

  function ShiftOf(attempt: nat): nat {
    Min(if attempt == 0 then 0 else attempt - 1, 62)
  }

  function Base(attempt: nat, baseMs: nat, maxMs: nat): nat {
    Min(SaturatingMul(baseMs, Pow2(ShiftOf(attempt))), maxMs)
  }

  /** A base moved by up to a fifth either way, before the cap. */
  function Jittered(base: nat, random: nat): nat {
    var jitter := base / 5;
    base - jitter + random % (jitter * 2 + 1)
  }

  /** The wait in milliseconds, for a random draw. */
  function Delay(attempt: nat, baseMs: nat, maxMs: nat, random: nat): nat {
    Min(Jittered(Base(attempt, baseMs, maxMs), random), maxMs)
  }

  lemma {:induction false} JitterBounds(base: nat, random: nat)
    ensures base - base / 5 <= Jittered(base, random) <= base + base / 5
  {
    Remainder(random, base / 5 * 2 + 1);
  }

  lemma {:induction false} Remainder(x: nat, d: nat)
    requires d > 0
    ensures 0 <= x % d < d && (x < d ==> x % d == x)
  {
  }

  lemma {:induction false} JitterReaches(base: nat, d: nat)
    requires base - base / 5 <= d <= base + base / 5
    ensures Jittered(base, d - (base - base / 5)) == d
  {
    Remainder(d - (base - base / 5), base / 5 * 2 + 1);
  }

  lemma {:induction false} Doubles(a: nat, k: nat, m: nat)
    ensures Product(a, Pow2(k)) <= Product(a, Pow2(k + m))
    ensures m > 0 && a > 0 ==> Product(a, Pow2(k)) < Product(a, Pow2(k + m))
    decreases m
  {
    if m > 0 {
      Doubles(a, k, m - 1);
      TwiceProduct(a, Pow2(k + m - 1));
    }
  }

  lemma {:induction false} TwiceProduct(a: nat, p: nat)
    requires p > 0
    ensures Product(a, 2 * p) == 2 * Product(a, p) && (a > 0 ==> Product(a, p) > 0)
  {
  }

  lemma {:induction false} PastClamp(attempt: nat, baseMs: nat, maxMs: nat)
    requires attempt > 63 && maxMs <= U64_MAX
    ensures Base(attempt, baseMs, maxMs) == Min(Product(baseMs, Pow2(attempt - 1)), maxMs) <==>
            baseMs == 0 || Product(baseMs, Pow2(62)) >= maxMs
  {
    Doubles(baseMs, 62, attempt - 63);
  }

  /**
    Clamping the shift and saturating the product give the ideal doubling,
    capped, exactly when the clamp is not reached, or there is nothing to
    double, or the cap is reached first.
   */
  lemma {:induction false} BaseIsIdealExactly(attempt: nat, baseMs: nat, maxMs: nat)
    requires maxMs <= U64_MAX
    ensures Base(attempt, baseMs, maxMs) == Min(Product(baseMs, Pow2(Max(attempt, 1) - 1)), maxMs) <==>
            attempt <= 63 || baseMs == 0 || Product(baseMs, Pow2(62)) >= maxMs
  {
    if attempt > 63 {
      PastClamp(attempt, baseMs, maxMs);
    }
  }

  lemma {:induction false} PowAt62()
    ensures Pow2(62) == 0x4000_0000_0000_0000
  {
    assert Pow2(10) == 1024;
    assert Pow2(20) == 1048576;
    assert Pow2(30) == 1073741824;
    assert Pow2(40) == 1099511627776;
    assert Pow2(50) == 1125899906842624;
    assert Pow2(60) == 1152921504606846976;
  }

  /** A cap of at most two to the 62 is always reached first. */
  lemma {:induction false} BaseIsIdeal(attempt: nat, baseMs: nat, maxMs: nat)
    requires attempt >= 1 && maxMs <= 0x4000_0000_0000_0000
    ensures Base(attempt, baseMs, maxMs) == Min(Product(baseMs, Pow2(attempt - 1)), maxMs)
  {
    BaseIsIdealExactly(attempt, baseMs, maxMs);
    PowAt62();
    if baseMs > 0 {
      AtLeast(baseMs, Pow2(62));
    }
  }

  lemma {:induction false} AtLeast(a: nat, p: nat)
    requires a > 0
    ensures Product(a, p) >= p
  {
  }

  /** The waits that can be drawn are exactly those within a fifth of the base and under the cap. */
  lemma {:induction false} DelaysExactly(attempt: nat, baseMs: nat, maxMs: nat, d: nat)
    requires maxMs <= U64_MAX
    ensures var base := Base(attempt, baseMs, maxMs);
            (exists random: nat :: random <= U64_MAX && Delay(attempt, baseMs, maxMs, random) == d) <==>
            base - base / 5 <= d <= Min(base + base / 5, maxMs)
  {
    var base := Base(attempt, baseMs, maxMs);
    if random: nat :| random <= U64_MAX && Delay(attempt, baseMs, maxMs, random) == d {
      JitterBounds(base, random);
    }
    if base - base / 5 <= d <= Min(base + base / 5, maxMs) {
      JitterReaches(base, d);
      assert Delay(attempt, baseMs, maxMs, d - (base - base / 5)) == d;
    }
  }

  /** No sum before the cap passes 64 bits, whatever is drawn, exactly when the base leaves a fifth of room. */
  lemma {:induction false} NoOverflowExactly(base: nat)
    requires base <= U64_MAX
    ensures (forall random: nat :: random <= U64_MAX ==> Jittered(base, random) <= U64_MAX) <==> base + base / 5 <= U64_MAX
  {
    forall random: nat ensures Jittered(base, random) <= base + base / 5 {
      JitterBounds(base, random);
    }
    JitterReaches(base, base + base / 5);
  }

  /** With a cap of at most two to the 62 it never does. */
  lemma {:induction false} NeverOverflows(attempt: nat, baseMs: nat, maxMs: nat, random: nat)
    requires maxMs <= 0x4000_0000_0000_0000 && random <= U64_MAX
    ensures Jittered(Base(attempt, baseMs, maxMs), random) <= U64_MAX
  {
    NoOverflowExactly(Base(attempt, baseMs, maxMs));
  }
}
