/** The retry delay, computed in Go's 64-bit `time.Duration` arithmetic. */
module Backoff {

  const SECOND := 1_000_000_000
  const CAP := 300 * SECOND
  const TWO_63 := 0x8000_0000_0000_0000
  const TWO_64 := 0x1_0000_0000_0000_0000

  /** 10^9 is 2^9 times this odd number. */
  const FIVE_9 := 1953125

  function Pow2(n: nat): (p: nat)
    ensures p >= 1
  {
    if n == 0 then 1 else 2 * Pow2(n - 1)
  }

  function Min(a: int, b: int): int { if a <= b then a else b }

  /** Two's complement wrap-around of an int64 result. */
  function Wrap(x: int): (w: int)
    ensures -TWO_63 <= w < TWO_63
  {
    (x + TWO_63) % TWO_64 - TWO_63
  }

  /** `time.Duration(1 << attempts)`: the constant takes the int64 type of the conversion, and
      a shift by 64 or more leaves nothing. */
  function ShiftOne(attempts: nat): int {
    if attempts >= 64 then 0 else Wrap(Pow2(attempts))
  }

  function RawDelay(attempts: nat): int {
    Wrap(ShiftOne(attempts) * SECOND)
  }

  /** `backoffDelay`, and the same expression in QueueService.Fail. */
  function BackoffDelay(attempts: nat): int {
    var delay := RawDelay(attempts);
    if delay > CAP then CAP else delay
  }

  /** What the code means to compute, in unbounded arithmetic. */
  function Intended(attempts: nat): int {
    Min(Pow2(attempts), 300) * SECOND
  }

  /** `attempts` doublings of a second survive the int64 sign bit: they are few enough to
      leave a bit standing, and bit 54 - attempts of 5^9 is clear. */
  predicate SignBitClear(attempts: nat) {
    attempts <= 54 && FIVE_9 / Pow2(54 - attempts) % 2 == 0
  }

  // ---------------------------------------------------------------- powers of two

  lemma {:induction false} Pow2Add(a: nat, b: nat)
    ensures Pow2(a + b) == Pow2(a) * Pow2(b)
  {
    if a > 0 {
      Pow2Add(a - 1, b);
    }
  }

  lemma {:induction false} Pow2Mono(a: nat, b: nat)
    requires a <= b
    ensures Pow2(a) <= Pow2(b)
  {
    if a < b {
      Pow2Mono(a, b - 1);
    }
  }

  lemma Pow2Small()
    ensures Pow2(8) == 256 && Pow2(9) == 512 && Pow2(11) == 2048
  {
  }

  lemma Pow2Anchors()
    ensures Pow2(8) == 256 && Pow2(9) == 512 && Pow2(20) == 1048576 && Pow2(21) == 2097152
    ensures Pow2(54) == 18014398509481984 && Pow2(63) == TWO_63
  {
    Pow2Small();
    assert Pow2(20) == 1048576 && Pow2(21) == 2097152 by {
      Pow2Add(9, 11);
    }
    assert Pow2(27) == 134217728 by {
      Pow2Add(9, 9);
      Pow2Add(18, 9);
    }
    Pow2Add(27, 27);
    Pow2Add(54, 9);
  }

  // ---------------------------------------------------------------- the wrapped product

  lemma WrapIsUnique(x: int, k: int)
    requires -TWO_63 <= x - TWO_64 * k < TWO_63
    ensures Wrap(x) == x - TWO_64 * k
  {
    var y := x + TWO_63;
    assert 0 <= y - TWO_64 * k < TWO_64;
    assert y / TWO_64 == k;
  }

  lemma Distribute(unit: int, q: int, p: int, r: int)
    ensures unit * (q * p + r) == (unit * p) * q + unit * r
  {
  }

  lemma ScaleBelow(unit: nat, r: nat, p: nat)
    requires unit > 0 && r < p
    ensures unit * r < unit * p
  {
  }

  /** Whole multiples of 2^63 only flip the sign: the parity of their number decides. */
  lemma WrapHalves(q: nat, rest: nat)
    requires rest < TWO_63
    ensures Wrap(TWO_63 * q + rest) == if q % 2 == 0 then rest else rest - TWO_63
  {
    WrapIsUnique(TWO_63 * q + rest, (q + 1) / 2);
  }

  /** When 2^63 is `unit` times `p`, wrapping a multiple of `unit` reduces the other factor
      modulo `p`. */
  lemma WrapMultiple(unit: nat, p: nat, factor: nat)
    requires unit > 0 && p > 0 && unit * p == TWO_63
    ensures Wrap(unit * factor)
         == if factor / p % 2 == 0 then unit * (factor % p) else unit * (factor % p) - TWO_63
  {
    var q, r := factor / p, factor % p;
    assert factor == q * p + r;
    Distribute(unit, q, p, r);
    ScaleBelow(unit, r, p);
    WrapHalves(q, unit * r);
  }

  lemma WrapSeconds(two: nat, p: nat)
    requires two > 0 && p > 0 && two * p == 18014398509481984
    ensures Wrap(two * SECOND)
         == if FIVE_9 / p % 2 == 0 then 512 * two * (FIVE_9 % p) else 512 * two * (FIVE_9 % p) - TWO_63
  {
    assert two * SECOND == (512 * two) * FIVE_9;
    assert (512 * two) * p == 512 * (two * p);
    WrapMultiple(512 * two, p, FIVE_9);
  }

  lemma ShiftUpTo62(attempts: nat)
    requires attempts <= 62
    ensures ShiftOne(attempts) == Pow2(attempts)
  {
    Pow2Anchors();
    Pow2Mono(attempts, 62);
    assert Pow2(63) == 2 * Pow2(62);
    WrapIsUnique(Pow2(attempts), 0);
  }

  lemma RawDelayUpTo54(attempts: nat)
    requires attempts <= 54
    ensures RawDelay(attempts)
         == if SignBitClear(attempts)
            then 512 * Pow2(attempts) * (FIVE_9 % Pow2(54 - attempts))
            else 512 * Pow2(attempts) * (FIVE_9 % Pow2(54 - attempts)) - TWO_63
  {
    assert Pow2(attempts) * Pow2(54 - attempts) == 18014398509481984 by {
      Pow2Add(attempts, 54 - attempts);
      Pow2Anchors();
    }
    ShiftUpTo62(attempts);
    WrapSeconds(Pow2(attempts), Pow2(54 - attempts));
  }

  lemma RawDelayFrom55(attempts: nat)
    requires attempts >= 55
    ensures RawDelay(attempts) == 0
  {
    if attempts < 63 {
      ShiftUpTo62(attempts);
      Pow2Anchors();
      Pow2Add(attempts - 55, 55);
      assert Pow2(55) == 2 * Pow2(54);
      var m := Pow2(attempts - 55);
      assert ShiftOne(attempts) * SECOND == TWO_64 * (m * FIVE_9);
      WrapIsUnique(ShiftOne(attempts) * SECOND, m * FIVE_9);
    } else if attempts == 63 {
      Pow2Anchors();
      WrapIsUnique(Pow2(63), 1);
      WrapIsUnique(-TWO_63 * SECOND, -SECOND / 2);
    }
  }

  // ---------------------------------------------------------------- main results

  lemma BelowPowerIsItself(p: nat)
    requires p > FIVE_9
    ensures FIVE_9 / p == 0 && FIVE_9 % p == FIVE_9
  {
  }

  /** Without overflow: up to 33 attempts the product is the exact one. */
  lemma RawDelayUpTo33(attempts: nat)
    requires attempts <= 33
    ensures SignBitClear(attempts) && RawDelay(attempts) == Pow2(attempts) * SECOND
  {
    hide RawDelay;
    assert Pow2(54 - attempts) > FIVE_9 by {
      Pow2Anchors();
      Pow2Mono(21, 54 - attempts);
    }
    BelowPowerIsItself(Pow2(54 - attempts));
    RawDelayUpTo54(attempts);
    Regroup(Pow2(attempts));
  }

  lemma Regroup(two: nat)
    ensures 512 * two * FIVE_9 == two * SECOND
  {
  }

  lemma CapDecides(attempts: nat)
    ensures Pow2(attempts) * SECOND > CAP <==> attempts > 8
    ensures Intended(attempts) == if attempts > 8 then CAP else Pow2(attempts) * SECOND
  {
    Pow2Anchors();
    if attempts > 8 {
      Pow2Mono(9, attempts);
    } else {
      Pow2Mono(attempts, 8);
    }
  }

  /** 5^9 is odd, so no positive power of two divides it. */
  lemma OddRemainder(n: nat)
    requires n > 0
    ensures FIVE_9 % Pow2(n) >= 1
  {
    var half := Pow2(n - 1);
    assert FIVE_9 == FIVE_9 / (2 * half) * (2 * half) + FIVE_9 % (2 * half);
    assert FIVE_9 / (2 * half) * (2 * half) == 2 * (FIVE_9 / (2 * half) * half);
  }

  lemma LargeMultiple(two: nat, r: nat)
    requires two >= 1024 * 1048576 && r >= 1
    ensures 512 * two * r > CAP
  {
    assert two * r >= two;
  }

  lemma RemainderOfProduct(two: nat, p: nat, r: nat)
    requires two > 0 && r < p && two * p == 18014398509481984
    ensures 512 * two * r < TWO_63
  {
    assert two * r < two * p;
  }

  lemma StillAboveCap(attempts: nat)
    requires 34 <= attempts <= 54 && SignBitClear(attempts)
    ensures 512 * Pow2(attempts) * (FIVE_9 % Pow2(54 - attempts)) > CAP
  {
    var r := FIVE_9 % Pow2(54 - attempts);
    assert r >= 1 by {
      if attempts < 54 {
        OddRemainder(54 - attempts);
      }
    }
    assert Pow2(attempts) >= 1024 * 1048576 by {
      Pow2Anchors();
      Pow2Mono(30, attempts);
      Pow2Add(20, 10);
      assert Pow2(10) == 1024;
    }
    LargeMultiple(Pow2(attempts), r);
  }

  lemma BelowSignBit(attempts: nat)
    requires attempts <= 54
    ensures 512 * Pow2(attempts) * (FIVE_9 % Pow2(54 - attempts)) < TWO_63
  {
    assert Pow2(attempts) * Pow2(54 - attempts) == 18014398509481984 by {
      Pow2Add(attempts, 54 - attempts);
      Pow2Anchors();
    }
    RemainderOfProduct(Pow2(attempts), Pow2(54 - attempts), FIVE_9 % Pow2(54 - attempts));
  }

  /** From 34 to 54 attempts the product has overflowed: with the sign bit clear what is left
      still exceeds the cap, otherwise it is negative. */
  lemma RawDelayOverflowed(attempts: nat)
    requires 34 <= attempts <= 54
    ensures SignBitClear(attempts) ==> RawDelay(attempts) > CAP
    ensures !SignBitClear(attempts) ==> RawDelay(attempts) < 0
  {
    hide RawDelay, Pow2;
    RawDelayUpTo54(attempts);
    BelowSignBit(attempts);
    if SignBitClear(attempts) {
      StillAboveCap(attempts);
    }
  }

  /** The delay is the intended one exactly when the sign bit stays clear. */
  lemma BackoffExact(attempts: nat)
    ensures BackoffDelay(attempts) == Intended(attempts) <==> SignBitClear(attempts)
  {
    CapDecides(attempts);
    if attempts >= 55 {
      RawDelayFrom55(attempts);
    } else if attempts <= 33 {
      RawDelayUpTo33(attempts);
    } else {
      RawDelayOverflowed(attempts);
    }
  }

  /** No overflow up to 33 attempts, and 34 is the first that goes wrong: its delay is
      negative, so the task would be due in the past. */
  lemma BackoffRange(attempts: nat)
    ensures attempts <= 33 ==> BackoffDelay(attempts) == Intended(attempts) > 0
    ensures BackoffDelay(34) < 0
  {
    if attempts <= 33 {
      RawDelayUpTo33(attempts);
      CapDecides(attempts);
    }
    Pow2Anchors();
    assert FIVE_9 / Pow2(20) % 2 == 1;
    RawDelayOverflowed(34);
  }

  lemma BackoffMonotone(a: nat, b: nat)
    requires a <= b <= 33
    ensures 0 < BackoffDelay(a) <= BackoffDelay(b) <= CAP
  {
    BackoffRange(a);
    BackoffRange(b);
    Pow2Mono(a, b);
  }
}
