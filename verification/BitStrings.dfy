/** Bit strings, most significant bit first, and the machine operations that build them. */
module BitStrings {
  import opened Bytes

  function Pow2(n: nat): (r: nat)
    ensures r > 0
  {
    if n == 0 then 1 else 2 * Pow2(n - 1)
  }

  /** The low `n` bits of `v`. */
  function Bits(v: nat, n: nat): (b: seq<bool>)
    ensures |b| == n
  {
    if n == 0 then [] else Bits(v / 2, n - 1) + [v % 2 == 1]
  }

  function Ones(n: nat): (b: seq<bool>)
    ensures |b| == n
  {
    seq(n, _ => true)
  }

  /** A byte string as bits. */
  function ByteBits(s: seq<byte>): (b: seq<bool>)
    ensures |b| == 8 * |s|
  {
    if |s| == 0 then [] else ByteBits(s[..|s| - 1]) + Bits(s[|s| - 1], 8)
  }

  /** Bitwise OR. */
  function Or(a: nat, b: nat): nat {
    if a == 0 then b
    else if b == 0 then a
    else 2 * Or(a / 2, b / 2) + (if a % 2 == 1 || b % 2 == 1 then 1 else 0)
  }

  /** 64-bit shift left. */
  function Shl64(v: u64, n: nat): u64 {
    v * Pow2(n) % 0x1_0000_0000_0000_0000
  }

  /** Shift right. */
  function Shr(v: nat, n: nat): nat {
    hide Pow2;
    DivNonNegative(v, Pow2(n));
    v / Pow2(n)
  }

  lemma DivNonNegative(v: nat, d: nat)
    requires d > 0
    ensures v / d >= 0
  {
    var q, r := v / d, v % d;
    assert v == d * q + r && r < d;
  }

  // ---------------------------------------------------------------- powers

  lemma {:induction false} Pow2Add(a: nat, b: nat)
    ensures Pow2(a + b) == Pow2(a) * Pow2(b)
  {
    if a == 0 {
    } else {
      Pow2Add(a - 1, b);
      calc {
        Pow2(a + b);
        2 * Pow2(a - 1 + b);
        2 * (Pow2(a - 1) * Pow2(b));
        Pow2(a) * Pow2(b);
      }
    }
  }

  lemma Pow2Values()
    ensures Pow2(8) == 0x100 && Pow2(16) == 0x1_0000 && Pow2(24) == 0x100_0000
    ensures Pow2(30) == 0x4000_0000 && Pow2(32) == 0x1_0000_0000 && Pow2(64) == 0x1_0000_0000_0000_0000
  {
    assert Pow2(8) == 0x100;
    Pow2Add(8, 8);
    Pow2Add(16, 8);
    assert Pow2(6) == 64;
    Pow2Add(24, 6);
    Pow2Add(16, 16);
    Pow2Add(32, 32);
  }

  lemma DivDiv(v: nat, a: nat, b: nat)
    requires a > 0 && b > 0
    ensures a * b > 0 && v / a / b == v / (a * b)
  {
    var q := v / a / b;
    var r := v - a * b * q;
    assert v / a == b * q + v / a % b;
    assert v == a * (b * q + v / a % b) + v % a;
    assert r == a * (v / a % b) + v % a;
    assert a * (v / a % b) <= a * (b - 1);
    QuotientIs(v, a * b, q, r);
  }

  lemma OnlyZero(d: int, x: int)
    requires 0 < d && -d < d * x < d
    ensures x == 0
  {
  }

  lemma QuotientIs(v: int, d: int, q: int, r: int)
    requires 0 < d && 0 <= r < d && v == d * q + r
    ensures v / d == q && v % d == r
  {
    var q', r' := v / d, v % d;
    assert v == d * q' + r' && 0 <= r' < d;
    assert d * (q' - q) == r - r';
    OnlyZero(d, q' - q);
  }

  // ---------------------------------------------------------------- bit strings

  /** A bit string splits where the number does. */
  lemma {:induction false} BitsSplit(v: nat, a: nat, b: nat)
    ensures Bits(v, a + b) == Bits(Shr(v, b), a) + Bits(v, b)
  {
    if b == 0 {
    } else {
      BitsSplit(v / 2, a, b - 1);
      DivDiv(v, 2, Pow2(b - 1));
    }
  }

  lemma HalfOfMod(v: nat, p: nat)
    requires p > 0
    ensures v % (2 * p) / 2 == v / 2 % p && v % (2 * p) % 2 == v % 2
  {
    var q, r := v / (2 * p), v % (2 * p);
    assert v == 2 * (p * q) + r;
    QuotientIs(v / 2, p, q, r / 2);
  }

  /** Bits above the window do not matter. */
  lemma {:induction false} BitsMod(v: nat, n: nat, k: nat)
    requires n <= k
    ensures Bits(v % Pow2(k), n) == Bits(v, n)
  {
    if n == 0 {
    } else {
      HalfOfMod(v, Pow2(k - 1));
      BitsMod(v / 2, n - 1, k - 1);
    }
  }

  lemma {:induction false} OrDisjoint(a: nat, l: nat, b: nat)
    requires b < Pow2(l)
    ensures Or(a * Pow2(l), b) == a * Pow2(l) + b
  {
    if l == 0 || a == 0 || b == 0 {
    } else {
      var p := Pow2(l - 1);
      assert a * Pow2(l) == 2 * (a * p);
      assert a * p > 0;
      OrDisjoint(a, l - 1, b / 2);
    }
  }

  lemma BitsAppend(a: nat, l: nat, b: nat, c: nat)
    requires b < Pow2(l)
    ensures Bits(a * Pow2(l) + b, c + l) == Bits(a, c) + Bits(b, l)
  {
    hide Pow2, Bits;
    var v := a * Pow2(l) + b;
    BitsSplit(v, c, l);
    QuotientIs(v, Pow2(l), a, b);
    BitsMod(v, l, l);
    BitsMod(b, l, l);
    QuotientIs(b, Pow2(l), 0, b);
  }

  /** Shifting a code into a 64-bit accumulator appends its bits. */
  lemma ShiftIn(m: u64, c: nat, code: nat, l: nat)
    requires c + l <= 64 && code < Pow2(l)
    ensures var m' := Or(Shl64(m, l), code);
            m' < 0x1_0000_0000_0000_0000 && Bits(m', c + l) == Bits(m, c) + Bits(code, l)
  {
    hide Pow2, Bits, Or;
    Pow2Values();
    Pow2Add(64 - l, l);
    var p, q := Pow2(l), Pow2(64 - l);
    ModScale(m, q, p);
    OrDisjoint(m % q, l, code);
    BitsAppend(m % q, l, code, c);
    BitsMod(m, c, 64 - l);
    FitsBelow(m % q, q, p, code);
  }

  lemma ModScale(m: nat, q: nat, p: nat)
    requires q > 0 && p > 0
    ensures q * p > 0 && m * p % (q * p) == m % q * p
  {
    assert m == q * (m / q) + m % q;
    assert m * p == q * p * (m / q) + m % q * p;
    assert m % q * p <= (q - 1) * p;
    QuotientIs(m * p, q * p, m / q, m % q * p);
  }

  lemma FitsBelow(a: nat, q: nat, p: nat, b: nat)
    requires a < q && b < p
    ensures a * p + b < q * p
  {
    assert a * p <= (q - 1) * p;
  }

  /** Shifting in ones pads with ones. */
  lemma {:induction false} OnesAreOnes(n: nat)
    ensures Bits(Pow2(n) - 1, n) == Ones(n)
  {
    if n == 0 {
    } else {
      OnesAreOnes(n - 1);
      assert (Pow2(n) - 1) / 2 == Pow2(n - 1) - 1;
      assert Ones(n) == Ones(n - 1) + [true];
    }
  }

  lemma ByteBitsAppend(s: seq<byte>, b: byte)
    ensures ByteBits(s + [b]) == ByteBits(s) + Bits(b, 8)
  {
    assert (s + [b])[..|s|] == s;
  }

  /** A number's low bytes, in order, hold its low bits. */
  lemma LowByte(v: nat, n: nat)
    ensures Bits(v, n + 8) == Bits(v / 0x100, n) + Bits(v % 0x100, 8)
  {
    hide Pow2, Bits;
    Pow2Values();
    BitsSplit(v, n, 8);
    BitsMod(v, 8, 8);
  }

  /** A bit string determines the number it was cut from. */
  lemma {:induction false} BitsInjective(v: nat, w: nat, n: nat)
    requires v < Pow2(n) && w < Pow2(n) && Bits(v, n) == Bits(w, n)
    ensures v == w
  {
    if n == 0 {
    } else {
      var a, b := Bits(v, n), Bits(w, n);
      assert a[..n - 1] == Bits(v / 2, n - 1) && b[..n - 1] == Bits(w / 2, n - 1);
      assert a[n - 1] == b[n - 1];
      BitsInjective(v / 2, w / 2, n - 1);
    }
  }
}
