/** Bit-level arithmetic on unbounded naturals, and the two cut masks of the chunker. */
module Bits {
  import opened Base

  function Pow2(k: nat): (p: nat)
    ensures p >= 1
  {
    if k == 0 then 1 else 2 * Pow2(k - 1)
  }

  /** Bitwise `a & b`. */
  function BitAnd(a: nat, b: nat): nat {
    if a == 0 || b == 0 then 0
    else 2 * BitAnd(a / 2, b / 2) + (if a % 2 == 1 && b % 2 == 1 then 1 else 0)
  }

  /** Bitwise `a | b`. */
  function BitOr(a: nat, b: nat): nat
    decreases a + b
  {
    if a == 0 then b
    else if b == 0 then a
    else 2 * BitOr(a / 2, b / 2) + (if a % 2 == 1 || b % 2 == 1 then 1 else 0)
  }

  /** Python's `int.bit_length` for a non-negative value. */
  function BitLength(a: nat): nat {
    if a == 0 then 0 else 1 + BitLength(a / 2)
  }

  const U64: nat := 0xFFFF_FFFF_FFFF_FFFF

  lemma {:induction false} Pow2Add(a: nat, b: nat)
    ensures Pow2(a + b) == Pow2(a) * Pow2(b)
  {
    if a > 0 {
      Pow2Add(a - 1, b);
      assert Pow2(a + b) == 2 * Pow2(a - 1 + b);
      assert 2 * (Pow2(a - 1) * Pow2(b)) == (2 * Pow2(a - 1)) * Pow2(b);
    }
  }

  lemma Pow2Of16()
    ensures Pow2(16) == 65536
  {
    assert Pow2(8) == 256;
    Pow2Add(8, 8);
  }

  lemma U64IsPow2()
    ensures U64 == Pow2(64) - 1
  {
    hide Pow2;
    Pow2Of16();
    Pow2Add(16, 16);
    Pow2Add(32, 32);
  }

  lemma DivModMul(a: int, m: int, q: int, r: int)
    requires m > 0 && 0 <= r < m && a == q * m + r
    ensures a / m == q && a % m == r
  {
    var q', r' := a / m, a % m;
    assert (q - q') * m == r' - r by {
      assert a == q' * m + r';
    }
    QuotientUnique(q - q', m);
  }

  lemma QuotientUnique(d: int, m: int)
    requires m > 0 && -m < d * m < m
    ensures d == 0
  {
    MulGrows(d, m);
  }

  lemma MulGrows(d: int, m: int)
    requires m > 0
    ensures d >= 1 ==> d * m >= m
    ensures d <= -1 ==> d * m <= -m
  {
    if d >= 1 {
      assert (d - 1) * m >= 0;
    } else if d <= -1 {
      assert (-1 - d) * m >= 0;
    }
  }

  /** Masking with `2^k - 1` keeps the remainder modulo `2^k`. */
  lemma {:induction false} AndLowMask(a: nat, k: nat)
    ensures BitAnd(a, Pow2(k) - 1) == a % Pow2(k)
  {
    hide *;
    if a == 0 || k == 0 {
      AndNothing(a, k);
    } else {
      AndLowMask(a / 2, k - 1);
      Pow2Step(k);
      HalfMod(a, Pow2(k - 1), Pow2(k));
      AndOnes(a, Pow2(k - 1));
    }
  }

  lemma AndNothing(a: nat, k: nat)
    requires a == 0 || k == 0
    ensures BitAnd(a, Pow2(k) - 1) == a % Pow2(k)
  {
    if a == 0 { SmallMod(0, Pow2(k)); }
  }

  lemma Pow2Step(k: nat)
    requires k > 0
    ensures Pow2(k) == 2 * Pow2(k - 1)
  {
  }

  lemma AndOnes(a: nat, m: nat)
    requires a > 0 && m > 0
    ensures BitAnd(a, 2 * m - 1) == 2 * BitAnd(a / 2, m - 1) + a % 2
  {
    assert (2 * m - 1) / 2 == m - 1 && (2 * m - 1) % 2 == 1;
  }

  lemma HalfMod(a: nat, m: nat, p: nat)
    requires m > 0 && p == 2 * m
    ensures a % p == 2 * ((a / 2) % m) + a % 2
  {
    var q, r := (a / 2) / m, (a / 2) % m;
    assert a / 2 == q * m + r;
    DivModMul(a, p, q, 2 * r + a % 2);
  }

  lemma SmallMod(a: nat, m: nat)
    requires a < m
    ensures a % m == a
  {
  }

  lemma {:induction false} Pow2Monotone(a: nat, b: nat)
    requires a <= b
    ensures Pow2(a) <= Pow2(b)
    decreases b - a
  {
    if a < b { Pow2Monotone(a, b - 1); }
  }

  /** The clamped exponent behind `_mask_for_avg`; `bit_length` ignores the sign. */
  function MaskBits(avg: int): (n: nat)
    ensures 8 <= n <= 24
  {
    Max(8, Min(24, BitLength(if avg < 0 then -avg else avg) - 1))
  }

  function MaskForAvg(avg: int): nat {
    Pow2(MaskBits(avg)) - 1
  }

  /** `_normalize_masks`: (mask_small, mask_large). */
  function NormalizeMasks(avg: int): (nat, nat) {
    var base := MaskForAvg(avg);
    (BitAnd(BitOr(2 * base, 1), U64), BitAnd(base, U64))
  }

  /** mask_small has one bit more than mask_large and neither is cut by the 64-bit clamp. */
  lemma MasksAreLowOnes(avg: int)
    ensures NormalizeMasks(avg) == (Pow2(MaskBits(avg) + 1) - 1, Pow2(MaskBits(avg)) - 1)
  {
    hide Pow2, BitOr, BitAnd, MaskBits;
    var n := MaskBits(avg);
    var base := MaskForAvg(avg);
    OrOne(base);
    Pow2Next(n);
    Pow2Monotone(n + 1, 64);
    ClampKeeps(base);
    ClampKeeps(2 * base + 1);
  }

  lemma Pow2Next(n: nat)
    ensures Pow2(n + 1) == 2 * Pow2(n)
  {
  }

  /** `(a << 1) | 1`. */
  lemma OrOne(a: nat)
    ensures BitOr(2 * a, 1) == 2 * a + 1
  {
    if a > 0 {
      var h := BitOr(2 * a / 2, 0);
      assert 2 * a / 2 == a && h == a;
    }
  }

  /** `& 0xFFFFFFFFFFFFFFFF` keeps every 64-bit number. */
  lemma ClampKeeps(a: nat)
    requires a < Pow2(64)
    ensures BitAnd(a, U64) == a
  {
    hide Pow2, BitAnd;
    U64IsPow2();
    AndLowMask(a, 64);
    SmallMod(a, Pow2(64));
  }

  /** Divisibility by a larger power of two is divisibility by a smaller one. */
  lemma {:induction false} ZeroModSmaller(h: nat, j: nat, k: nat)
    requires j <= k && h % Pow2(k) == 0
    ensures h % Pow2(j) == 0
    decreases k
  {
    if j < k {
      ModDouble(h, Pow2(k - 1));
      ZeroModSmaller(h, j, k - 1);
    }
  }

  lemma ModDouble(h: nat, m: nat)
    requires m > 0 && h % (2 * m) == 0
    ensures h % m == 0
  {
    var q := h / (2 * m);
    assert h == q * (2 * m) == (2 * q) * m;
    DivModMul(h, m, 2 * q, 0);
  }

  lemma ModShift(q: int, m: nat, c: nat)
    requires m > 0 && q * m + c >= 0
    ensures (q * m + c) % m == c % m
  {
    var cq, cr := c / m, c % m;
    assert c == cq * m + cr;
    assert (q + cq) * m == q * m + cq * m;
    DivModMul(q * m + c, m, q + cq, cr);
  }

  /** Reducing modulo 2^k first does not disturb the remainder modulo a smaller 2^j. */
  lemma ModMod(a: nat, j: nat, k: nat)
    requires j <= k
    ensures a % Pow2(k) % Pow2(j) == a % Pow2(j)
  {
    Pow2Add(j, k - j);
    hide Pow2;
    ModModMul(a, Pow2(j), Pow2(k - j));
  }

  lemma ModModMul(a: nat, u: nat, v: nat)
    requires u > 0 && v > 0 && u * v > 0
    ensures a % (u * v) % u == a % u
  {
    var m := u * v;
    DivMod(a, m);
    MulAssoc(a / m, u, v);
    ModShift((a / m) * v, u, a % m);
  }

  lemma DivMod(a: nat, m: nat)
    requires m > 0
    ensures a == (a / m) * m + a % m
  {
  }

  lemma MulAssoc(q: nat, u: nat, v: nat)
    ensures q * (u * v) == (q * v) * u
  {
  }

  lemma MulTwice(q: int, m: int)
    ensures 2 * (q * m) == q * (2 * m)
  {
  }

  /** Equal remainders stay equal, modulo twice as much, when both sides are doubled and shifted. */
  lemma DoubleMod(x: nat, y: nat, g: nat, m: nat)
    requires m > 0 && x % m == y % m
    ensures (2 * x + g) % (2 * m) == (2 * y + g) % (2 * m)
  {
    var qx, qy, r := x / m, y / m, x % m;
    assert x == qx * m + r && y == qy * m + r;
    MulTwice(qx, m);
    MulTwice(qy, m);
    ModShift(qx, 2 * m, 2 * r + g);
    ModShift(qy, 2 * m, 2 * r + g);
  }

  // ---------------------------------------------------------------- the exponent of an average size

  /** 2^n is the largest power of two not above the average, kept between 2^8 and 2^24. */
  predicate Exponent(avg: int, n: nat) {
    var a := if avg < 0 then -avg else avg;
    8 <= n <= 24 && (Pow2(n) <= a || n == 8) && (a < Pow2(n + 1) || n == 24)
  }

  lemma {:induction false} BitLengthBounds(a: nat)
    requires a > 0
    ensures BitLength(a) >= 1 && Pow2(BitLength(a) - 1) <= a < Pow2(BitLength(a))
  {
    if a > 1 {
      BitLengthBounds(a / 2);
    }
  }

  lemma ExponentIsMaskBits(avg: int, n: nat)
    ensures Exponent(avg, n) <==> n == MaskBits(avg)
  {
    hide Pow2, BitLength;
    var a: nat := if avg < 0 then -avg else avg;
    SmallPowers();
    if a > 0 {
      BitLengthBounds(a);
      var l := BitLength(a) - 1;
      if l < n { Pow2Monotone(l + 1, n); }
      if n < l { Pow2Monotone(n + 1, l); }
      if l < 8 { Pow2Monotone(l + 1, 8); }
      if l > 24 { Pow2Monotone(24, l); }
    } else {
      NoBits();
    }
    if n >= 8 { Pow2Monotone(8, n); }
  }

  lemma SmallPowers()
    ensures Pow2(8) == 256 && Pow2(9) == 512
  {
    assert Pow2(4) == 16;
  }

  lemma NoBits()
    ensures BitLength(0) == 0
  {
  }
}
