/** Arithmetic modulo 2^32, a few small facts at a time. */
module Mod32 {

  const M := 0x1_0000_0000

  ghost predicate Eq32(a: int, b: int) {
    (a - b) % M == 0
  }

  lemma Equal32(a: int, b: int)
    requires 0 <= a < M && 0 <= b < M
    ensures Eq32(a, b) <==> a == b
  {
  }

  lemma Reduce(a: int)
    ensures Eq32(a % M, a)
  {
    assert a % M - a == M * -(a / M);
  }

  lemma Translate(a: int, b: int, c: int)
    ensures Eq32(a + c, b + c) <==> Eq32(a, b)
  {
    assert (a + c) - (b + c) == a - b;
  }

  lemma Transitive(a: int, b: int, c: int)
    requires Eq32(a, b) && Eq32(b, c)
    ensures Eq32(a, c)
  {
    assert a - c == M * ((a - b) / M + (b - c) / M);
  }

  lemma Symmetric(a: int, b: int)
    requires Eq32(a, b)
    ensures Eq32(b, a)
  {
    assert b - a == M * -((a - b) / M);
  }

  lemma Substitute(a: int, a': int, b: int, b': int)
    requires Eq32(a, a') && Eq32(b, b')
    ensures Eq32(a, b) <==> Eq32(a', b')
  {
    hide Eq32;
    Symmetric(a, a');
    Symmetric(b, b');
    if Eq32(a, b) {
      Transitive(a', a, b);
      Transitive(a', b, b');
    }
    if Eq32(a', b') {
      Transitive(a, a', b');
      Transitive(a, b', b);
    }
  }

  lemma IsZero(n: int)
    ensures Eq32(n, 0) <==> n % M == 0
  {
  }

  lemma Negate(n: int)
    ensures Eq32(0, n) <==> n % M == 0
  {
    if n % M == 0 {
      assert 0 - n == M * -(n / M);
    }
    if Eq32(0, n) {
      assert n == M * -((0 - n) / M);
    }
  }

  const HALF := 0x8000_0000

  /** 35 * INVERSE == 1 + HALF * CARRY */
  const INVERSE := 184070027
  const CARRY := 3

  lemma ThirtyFiveTimes(n: int, q: int)
    requires 35 * n == HALF * q
    ensures n % HALF == 0
  {
    assert n == INVERSE * (35 * n) - HALF * (CARRY * n);
    assert n == HALF * (INVERSE * q - CARRY * n);
  }

  /** Seventy is twice an odd number, so 70 n vanishes modulo 2^32 only with n modulo 2^31. */
  lemma SeventyTimes(n: int)
    ensures 70 * n % M == 0 <==> n % HALF == 0
  {
    if 70 * n % M == 0 {
      ThirtyFiveTimes(n, 70 * n / M);
    }
    if n % HALF == 0 {
      assert 70 * n == M * (35 * (n / HALF));
    }
  }
}
