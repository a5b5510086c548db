/** `calculateBackoff`, with Go's 64-bit durations (nanoseconds) and its panicking random draw. */
module Backoff {

  const TWO_63: int := 0x8000_0000_0000_0000
  const TWO_64: int := 0x1_0000_0000_0000_0000
  const MAX_DELAY: int := 5_000_000_000
  // RetryDelay as the provider configures it: 100ms.
  const PROVIDER_BASE: int := 100_000_000

  datatype BackoffResult = Panic | Delay(ns: int)

  function WrapInt64(x: int): (r: int)
    ensures -TWO_63 <= r < TWO_63
    ensures -TWO_63 <= x < TWO_63 ==> r == x
  {
    (x + TWO_63) % TWO_64 - TWO_63
  }

  function Pow2(n: nat): (p: nat)
    ensures p >= 1
  {
    if n == 0 then 1 else 2 * Pow2(n - 1)
  }

  // `1 << uint(attempt)` as an int64: the bit falls off the top from 64 on.
  function ShiftOne(attempt: nat): int {
    if attempt >= 64 then 0 else WrapInt64(Pow2(attempt))
  }

  function RawBackoff(base: int, attempt: nat): int {
    WrapInt64(base * ShiftOne(attempt))
  }

  // `backoff / 2`, which Go truncates toward zero. `rand.Int63n` panics unless it is positive.
  function JitterBound(base: int, attempt: nat): int {
    var b := RawBackoff(base, attempt);
    if b >= 0 then b / 2 else -((-b) / 2)
  }

  predicate ValidDraw(base: int, attempt: nat, draw: int) {
    JitterBound(base, attempt) > 0 ==> 0 <= draw < JitterBound(base, attempt)
  }

  function CalculateBackoff(base: int, attempt: nat, draw: int): (r: BackoffResult)
    requires ValidDraw(base, attempt, draw)
    ensures r.Delay? ==> r.ns <= MAX_DELAY
  {
    if JitterBound(base, attempt) <= 0 then Panic
    else
      var delay := WrapInt64(RawBackoff(base, attempt) + draw);
      Delay(if delay > MAX_DELAY then MAX_DELAY else delay)
  }

  predicate SumFits(backoff: int, draw: int) {
    backoff + draw < TWO_63
  }

  /** Neither the product nor, for any draw, the sum leaves the int64 range, and the draw exists. */
  ghost predicate NoOverflow(base: int, attempt: nat) {
    var exact := base * Pow2(attempt);
    exact / 2 > 0 && forall draw :: 0 <= draw < exact / 2 ==> SumFits(exact, draw)
  }

  predicate Safe(base: int, attempt: nat)
    requires attempt >= 1
  {
    3 * (base * Pow2(attempt - 1)) <= TWO_63
  }

  lemma {:induction false} Pow2Monotonic(m: nat, n: nat)
    requires m <= n
    ensures Pow2(m) <= Pow2(n)
    decreases n
  {
    if m < n {
      Pow2Monotonic(m, n - 1);
    }
  }

  lemma ScaledPow2(base: int, m: nat, n: nat)
    requires m <= n && base >= 0
    ensures base * Pow2(m) <= base * Pow2(n)
  {
    Pow2Monotonic(m, n);
  }

  lemma HalfOfBackoff(base: int, attempt: nat)
    requires attempt >= 1
    ensures base * Pow2(attempt) == 2 * (base * Pow2(attempt - 1))
    ensures base * Pow2(attempt) / 2 == base * Pow2(attempt - 1)
  {
    assert Pow2(attempt) == 2 * Pow2(attempt - 1);
    assert base * (2 * Pow2(attempt - 1)) == 2 * (base * Pow2(attempt - 1));
  }

  /** The exact boundary of overflow-free backoff. */
  lemma SafeIffNoOverflow(base: int, attempt: nat)
    requires attempt >= 1 && base >= 1
    ensures NoOverflow(base, attempt) <==> Safe(base, attempt)
  {
    HalfOfBackoff(base, attempt);
    var half := base * Pow2(attempt - 1);
    ScaledPow2(base, 0, attempt - 1);
    assert half >= 1;
    if NoOverflow(base, attempt) {
      assert SumFits(2 * half, half - 1);
    }
  }

  /** Within the boundary no step wraps or panics, and the delay is the exact capped one. */
  lemma SafeDelay(base: int, attempt: nat, draw: int)
    requires attempt >= 1 && base >= 1 && Safe(base, attempt)
    requires ValidDraw(base, attempt, draw)
    ensures JitterBound(base, attempt) == base * Pow2(attempt - 1) > 0
    ensures var exact := base * Pow2(attempt) + draw;
            CalculateBackoff(base, attempt, draw) == Delay(if exact > 5_000_000_000 then 5_000_000_000 else exact)
    ensures var low, delay := base * Pow2(attempt), CalculateBackoff(base, attempt, draw).ns;
            (if low < 5_000_000_000 then low else 5_000_000_000) <= delay <= 5_000_000_000
  {
    HalfOfBackoff(base, attempt);
    ScaledPow2(base, 0, attempt - 1);
    if attempt >= 63 {
      assert Pow2(62) == 0x4000_0000_0000_0000 by { Pow2Of62(); }
      Pow2Monotonic(62, attempt - 1);
      assert base * Pow2(attempt - 1) >= Pow2(attempt - 1);
      assert false;
    }
    Pow2Monotonic(attempt, 62);
    Pow2Of62();
    assert ShiftOne(attempt) == Pow2(attempt);
  }

  lemma Pow2Of62()
    ensures Pow2(62) == 0x4000_0000_0000_0000
  {
    assert Pow2(10) == 1024;
    assert Pow2(20) == 1024 * Pow2(10) by { Pow2Sum(10, 10); }
    assert Pow2(40) == Pow2(20) * Pow2(20) by { Pow2Sum(20, 20); }
    assert Pow2(60) == Pow2(40) * Pow2(20) by { Pow2Sum(40, 20); }
  }

  lemma {:induction false} Pow2Sum(m: nat, n: nat)
    ensures Pow2(m + n) == Pow2(m) * Pow2(n)
  {
    if n > 0 {
      Pow2Sum(m, n - 1);
      assert Pow2(m + n) == 2 * (Pow2(m) * Pow2(n - 1));
    }
  }

  /** For the provider's base the boundary is attempt 35, which bounds a safe RetryMax. */
  lemma ProviderBoundary(attempt: nat)
    requires attempt >= 1
    ensures Safe(100_000_000, attempt) <==> attempt <= 35
  {
    Pow2Of62();
    assert Pow2(34) == 0x4_0000_0000 && Pow2(35) == 0x8_0000_0000 by {
      assert Pow2(10) == 1024;
      Pow2Sum(10, 10);
      Pow2Sum(20, 14);
      assert Pow2(14) == 16384;
    }
    if attempt <= 35 {
      ScaledPow2(PROVIDER_BASE, attempt - 1, 34);
    } else {
      ScaledPow2(PROVIDER_BASE, 35, attempt - 1);
    }
  }

  /** One past the boundary a draw makes the delay negative, and one further every draw panics. */
  lemma BeyondTheBoundary()
    ensures exists draw :: ValidDraw(PROVIDER_BASE, 36, draw) && CalculateBackoff(PROVIDER_BASE, 36, draw).Delay?
                           && CalculateBackoff(PROVIDER_BASE, 36, draw).ns < 0
    ensures forall draw :: ValidDraw(PROVIDER_BASE, 37, draw) ==> CalculateBackoff(PROVIDER_BASE, 37, draw) == Panic
  {
    assert Pow2(36) == 0x10_0000_0000 && Pow2(37) == 0x20_0000_0000 by {
      assert Pow2(10) == 1024;
      Pow2Sum(10, 10);
      Pow2Sum(20, 16);
      assert Pow2(16) == 65536;
    }
    var backoff := RawBackoff(PROVIDER_BASE, 36);
    assert backoff == PROVIDER_BASE * 0x10_0000_0000;
    var draw := TWO_63 - backoff;
    assert ValidDraw(PROVIDER_BASE, 36, draw);
    assert CalculateBackoff(PROVIDER_BASE, 36, draw).ns < 0;
    assert RawBackoff(PROVIDER_BASE, 37) < 0;
  }
}
