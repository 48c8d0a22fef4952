/** Dividing a target in satoshis by the coin scale and multiplying it back, in doubles. */
module Rescaling {
  import opened Payment

  function Pow2(e: int): (p: real)
    ensures p > 0.0
    decreases if e < 0 then -e else e
  {
    if e == 0 then 1.0 else if e > 0 then 2.0 * Pow2(e - 1) else Pow2(e + 1) / 2.0
  }

  const MANTISSA: real := 4503599627370496.0

  /** d is x or a neighbour of x among the doubles with x's exponent, and no other is nearer. */
  ghost predicate RoundsWith(e: int, k: int, x: real, d: real) {
    && MANTISSA * Pow2(e) <= x < 2.0 * MANTISSA * Pow2(e)
    && d == k as real * Pow2(e) && -Pow2(e) <= 2.0 * (d - x) <= Pow2(e)
  }

  /** The double d is a rounding of x to nearest, whichever way ties go. */
  ghost predicate Rounds(x: real, d: real) {
    if x == 0.0 then d == 0.0 else exists e, k :: RoundsWith(e, k, x, d)
  }

  /** q and p are the rounded quotient and the rounded product. */
  ghost predicate Rescaled(n: nat, q: real, p: real) {
    Rounds(n as real / SATS_PER_COIN, q) && Rounds(q * SATS_PER_COIN, p)
  }

  /** However its two roundings go, the target n comes back from Math.round. */
  ghost predicate Survives(n: nat) { forall q, p :: Rescaled(n, q, p) ==> (p + 0.5).Floor == n }

  // 2 to the power of 25 coins, and the first target that is lost.
  const SAFE := 3355443200000000
  const FIRST_LOST := 3355443200000019

  lemma {:induction false} Pow2Grows(e: int, f: int)
    requires e <= f
    ensures Pow2(e) <= Pow2(f)
    decreases f - e
  {
    if e < f {
      Pow2Grows(e, f - 1);
      assert Pow2(f - 1) <= Pow2(f);
    }
  }

  lemma Pow2Below(e: int, f: int)
    requires Pow2(e) < Pow2(f)
    ensures e < f
  {
    if f <= e { Pow2Grows(f, e); }
  }

  lemma SmallPowers()
    ensures Pow2(-1) == 0.5 && Pow2(0) == 1.0
    ensures Pow2(-28) == 1.0 / 268435456.0 && Pow2(-27) == 1.0 / 134217728.0
    ensures Pow2(-26) == 1.0 / 67108864.0
  {
    assert Pow2(-4) == 0.0625;
    assert Pow2(-8) == 1.0 / 256.0;
    assert Pow2(-12) == 1.0 / 4096.0;
    assert Pow2(-16) == 1.0 / 65536.0;
    assert Pow2(-20) == 1.0 / 1048576.0;
    assert Pow2(-24) == 1.0 / 16777216.0;
  }

  /** Below a power of two the rounding error is bounded by the spacing there. */
  lemma RoundingError(x: real, d: real, f: int)
    requires Rounds(x, d) && 0.0 <= x < MANTISSA * Pow2(f)
    ensures -Pow2(f) <= 4.0 * (d - x) <= Pow2(f)
  {
    if x != 0.0 {
      var e, k :| RoundsWith(e, k, x, d);
      Pow2Below(e, f);
      Pow2Grows(e, f - 1);
      assert 2.0 * Pow2(f - 1) == Pow2(f);
    }
  }

  lemma Division(n: real)
    ensures n / SATS_PER_COIN * SATS_PER_COIN == n
  {
  }

  lemma SafeTargetsSurvive(n: nat, q: real, p: real)
    requires n < SAFE && Rescaled(n, q, p)
    ensures (p + 0.5).Floor == n
  {
    SmallPowers();
    Division(n as real);
    RoundingError(n as real / SATS_PER_COIN, q, -27);
    RoundingError(q * SATS_PER_COIN, p, 0);
  }

  lemma Doubles(e: int)
    ensures Pow2(e + 1) == 2.0 * Pow2(e)
  {
  }

  /** The exponent of a number between two neighbouring powers of two. */
  lemma ExponentIs(e: int, x: real, f: int)
    requires MANTISSA * Pow2(e) <= x < 2.0 * MANTISSA * Pow2(e)
    requires MANTISSA * Pow2(f) <= x < 2.0 * MANTISSA * Pow2(f)
    ensures e == f
  {
    Doubles(e);
    Doubles(f);
    Pow2Below(e, f + 1);
    Pow2Below(f, e + 1);
  }

  lemma RoundsOnGrid(x: real, d: real, f: int) returns (k: int)
    requires Rounds(x, d) && x != 0.0 && MANTISSA * Pow2(f) <= x < 2.0 * MANTISSA * Pow2(f)
    ensures RoundsWith(f, k, x, d)
  {
    var e, l :| RoundsWith(e, l, x, d);
    ExponentIs(e, x, f);
    k := l;
  }

  /** The quotient of one of the first targets beyond 2 to the power of 25 coins is never a quarter
      of a satoshi too large. */
  lemma QuotientOfGap(j: nat, q: real)
    requires j < 19 && Rounds((SAFE + j) as real / SATS_PER_COIN, q)
    ensures -0.375 < q * SATS_PER_COIN - (SAFE + j) as real < 0.25
  {
    SmallPowers();
    var n := (SAFE + j) as real;
    Division(n);
    var k := RoundsOnGrid(n / SATS_PER_COIN, q, -27);
    var i := k - 4503599627370496;
    assert q * SATS_PER_COIN - n == (i * 100000000 - j * 134217728) as real / 134217728.0;
    assert -50000000 <= i * 100000000 - j * 134217728 <= 50000000;
    NoneInBetween(i, j);
  }

  lemma NoneInBetween(i: int, j: nat)
    requires j < 19 && i * 100000000 - j * 134217728 <= 50000000
    ensures i * 100000000 - j * 134217728 < 33554432
  {
  }

  lemma GapTargetSurvives(j: nat, q: real, p: real)
    requires j < 19 && Rescaled(SAFE + j, q, p)
    ensures (p + 0.5).Floor == SAFE + j
  {
    SmallPowers();
    QuotientOfGap(j, q);
    var k := RoundsOnGrid(q * SATS_PER_COIN, p, -1);
    assert 2.0 * p == k as real;
    assert k <= 2 * (SAFE + j) && k >= 2 * (SAFE + j) - 1;
  }

  /** The first target that comes back too large: 33 554 432.00000019 coins. */
  lemma FirstLostTarget(q: real, p: real)
    requires q == 2251799813685261.0 / 67108864.0 && p == 3355443200000019.5
    ensures Rescaled(FIRST_LOST, q, p) && (p + 0.5).Floor == FIRST_LOST + 1
  {
    SmallPowers();
    Division(FIRST_LOST as real);
    assert RoundsWith(-27, 4503599627370522, FIRST_LOST as real / SATS_PER_COIN, q);
    assert RoundsWith(-1, 6710886400000039, q * SATS_PER_COIN, p);
  }

  /** Every target up to a limit comes back from its rescaling if and only if the limit is below the
      first lost one. */
  lemma RescalingExactly(limit: nat)
    ensures (forall n: nat :: n <= limit ==> Survives(n)) <==> limit < FIRST_LOST
  {
    if limit < FIRST_LOST {
      forall n: nat | n <= limit ensures Survives(n) {
        forall q, p | Rescaled(n, q, p) ensures (p + 0.5).Floor == n {
          if n < SAFE { SafeTargetsSurvive(n, q, p); } else { GapTargetSurvives(n - SAFE, q, p); }
        }
      }
    } else {
      FirstLostTarget(2251799813685261.0 / 67108864.0, 3355443200000019.5);
      assert !Survives(FIRST_LOST);
    }
  }
}
