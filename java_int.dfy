/**
 * Java's 32-bit `int` and the operators the world code applies to it.
 *
 * A Java `int` is a value of `int32`. The shift operators follow their
 * definition in section 15.19 of the Java Language Specification
 * (`n >> s` is floor(n / 2^s), `n << s` is n * 2^s narrowed to 32 bits,
 * and only the low five bits of the distance are used). The bitwise
 * operators `&` and `|` (section 15.22.1) work digit by digit on the
 * two's-complement representation; here they are defined over the 32
 * binary digits, and the lemmas at the end say what they compute on the
 * operands the coordinate code gives them.
 */
module JavaInt {

  const TWO_31: int := 0x8000_0000
  const TWO_32: int := 0x1_0000_0000

  type int32 = x: int | -0x8000_0000 <= x < 0x8000_0000
  type int64 = x: int | -0x8000_0000_0000_0000 <= x < 0x8000_0000_0000_0000

  function Pow2(n: nat): (r: nat)
    ensures r >= 1
  {
    if n == 0 then 1 else 2 * Pow2(n - 1)
  }

  lemma Pow2TwentyEight()
    ensures Pow2(4) == 16 && Pow2(28) == 0x1000_0000
  {
    assert Pow2(8) == 0x100;
    assert Pow2(12) == 0x1000;
    assert Pow2(16) == 0x1_0000;
    assert Pow2(20) == 0x10_0000;
    assert Pow2(24) == 0x100_0000;
  }

  /** Narrowing to `int` (section 5.1.3): keep the low 32 two's-complement digits. */
  function Wrap(x: int): (r: int32)
    ensures (r - x) % TWO_32 == 0
    ensures -TWO_31 <= x < TWO_31 ==> r == x
  {
    var u := x % TWO_32;
    if u < TWO_31 then u else u - TWO_32
  }

  /** Narrowing changes a value by a multiple of 2^32. */
  lemma WrapOffset(x: int) returns (k: int)
    ensures Wrap(x) == x + TWO_32 * k
  {
    k := (Wrap(x) - x) / TWO_32;
  }

  /** Narrowing keeps the low four binary digits. */
  lemma WrapKeepsLowDigits(x: int)
    ensures Wrap(x) % 16 == x % 16
  {
    var k := WrapOffset(x);
    ModUnique(Wrap(x), 16, x / 16 + 0x1000_0000 * k, x % 16);
  }

  /** Narrowing only sees a value modulo 2^32. */
  lemma WrapCongruent(y: int, z: int, k: int)
    requires y == z + TWO_32 * k
    ensures Wrap(y) == Wrap(z)
  {
    ModUnique(y, TWO_32, z / TWO_32 + k, z % TWO_32);
  }

  /** `n << s`. */
  function ShiftLeft(n: int32, s: int): (r: int32) {
    Wrap(n * Pow2(s % 32))
  }

  /** `n >> s`, the shift that copies the sign digit. */
  function ShiftRight(n: int32, s: int): (r: int32) {
    DivFits(n, Pow2(s % 32));
    n / Pow2(s % 32)
  }

  lemma DivFits(n: int32, d: int)
    requires d >= 1
    ensures -TWO_31 <= n / d < TWO_31
  {
    var q := n / d;
    if n >= 0 {
      assert q <= n;
    } else if q < n {
      MulAtLeast(d, n - q);
      assert d * (n - q) == d * n - d * q;
      MulAtLeast(d, -n);
    }
  }

  /** The low `k` binary digits of `a & b`, read as an unsigned number. */
  function AndDigits(a: int, b: int, k: nat): (r: int)
    decreases k
  {
    if k == 0 then 0 else (a % 2) * (b % 2) + 2 * AndDigits(a / 2, b / 2, k - 1)
  }

  /** The low `k` binary digits of `a | b`, read as an unsigned number. */
  function OrDigits(a: int, b: int, k: nat): (r: int)
    decreases k
  {
    if k == 0 then 0
    else (if a % 2 == 1 || b % 2 == 1 then 1 else 0) + 2 * OrDigits(a / 2, b / 2, k - 1)
  }

  /** `x & y`. */
  function And(x: int32, y: int32): (r: int32) {
    Wrap(AndDigits(x, y, 32))
  }

  /** `x | y`. */
  function Or(x: int32, y: int32): (r: int32) {
    Wrap(OrDigits(x, y, 32))
  }

  // ---------------------------------------------------------------------
  // What the operators compute on the operands that matter here.
  // ---------------------------------------------------------------------

  lemma {:induction false} AndZero(a: int, k: nat)
    ensures AndDigits(a, 0, k) == 0
    decreases k
  {
    if k > 0 {
      AndZero(a / 2, k - 1);
    }
  }

  lemma {:induction false} OrZero(b: int, k: nat)
    ensures OrDigits(0, b, k) == b % Pow2(k)
    decreases k
  {
    if k > 0 {
      OrZero(b / 2, k - 1);
      SplitMod(b, Pow2(k - 1));
    }
  }

  /** `b mod 2p` from the lowest digit of `b` and `(b / 2) mod p`. */
  lemma SplitMod(b: int, p: int)
    requires p >= 1
    ensures b % (2 * p) == b % 2 + 2 * ((b / 2) % p)
  {
    var q, r := b / 2, b % 2;
    var h, m := q / p, q % p;
    assert b == 2 * q + r;
    assert q == p * h + m;
    assert b == (2 * p) * h + (2 * m + r);
    assert 0 <= 2 * m + r < 2 * p;
    ModUnique(b, 2 * p, h, 2 * m + r);
  }

  lemma ModUnique(b: int, d: int, h: int, m: int)
    requires d >= 1 && b == d * h + m && 0 <= m < d
    ensures b % d == m && b / d == h
  {
    var h', m' := b / d, b % d;
    assert d * h - d * h' == m' - m;
    assert d * (h - h') == m' - m;
    if h > h' {
      MulAtLeast(d, h - h');
    } else if h < h' {
      assert d * (h' - h) == m - m';
      MulAtLeast(d, h' - h);
    }
  }

  lemma MulAtLeast(d: int, a: int)
    requires d >= 1 && a >= 1
    ensures d * a >= d
  {
  }

  /** Masking with 15 keeps the low four digits: `x & 15 == x mod 16`, also for negative `x`. */
  lemma AndFifteen(x: int32)
    ensures And(x, 15) == x % 16
  {
    var x1 := x / 2;
    var x2 := x1 / 2;
    var x3 := x2 / 2;
    var x4 := x3 / 2;
    assert AndDigits(x, 15, 32) == x % 2 + 2 * AndDigits(x1, 7, 31);
    assert AndDigits(x1, 7, 31) == x1 % 2 + 2 * AndDigits(x2, 3, 30);
    assert AndDigits(x2, 3, 30) == x2 % 2 + 2 * AndDigits(x3, 1, 29);
    assert AndDigits(x3, 1, 29) == x3 % 2 + 2 * AndDigits(x4, 0, 28);
    AndZero(x4, 28);
    SplitMod(x, 8);
    SplitMod(x1, 4);
    SplitMod(x2, 2);
    SplitMod(x3, 1);
  }

  /** Or-ing a value in [0, 16) into a multiple of 16 adds it. */
  lemma OrLowDigits(b: int32, x: int32)
    requires 0 <= b < 16 && x % 16 == 0
    ensures Or(b, x) == x + b
  {
    var x4 := OrLowFour(b, x);
    OrZero(x4, 28);
    Pow2TwentyEight();
    SplitModBy16(x4);
    assert OrDigits(b, x, 32) == b + x % TWO_32;
    WrapCongruent(b + x % TWO_32, x + b, -(x / TWO_32));
    assert x4 <= 0x7FF_FFFF;
    assert Wrap(x + b) == x + b;
  }

  /** The first four digits of `b | x` are those of `b`; what remains is `x / 16`. */
  lemma OrLowFour(b: int, x: int) returns (x4: int)
    requires 0 <= b < 16 && x % 16 == 0
    ensures x == 16 * x4
    ensures OrDigits(b, x, 32) == b + 16 * OrDigits(0, x4, 28)
  {
    var x1 := x / 2;
    var x2 := x1 / 2;
    var x3 := x2 / 2;
    x4 := x3 / 2;
    SplitMod(x, 8);
    SplitMod(x1, 4);
    SplitMod(x2, 2);
    SplitMod(x3, 1);
    var b1 := b / 2;
    var b2 := b1 / 2;
    var b3 := b2 / 2;
    OrEvenStep(b, x, 32);
    OrEvenStep(b1, x1, 31);
    OrEvenStep(b2, x2, 30);
    OrEvenStep(b3, x3, 29);
    assert b3 / 2 == 0;
    SplitMod(b, 8);
    SplitMod(b1, 4);
    SplitMod(b2, 2);
    SplitMod(b3, 1);
  }

  lemma OrEvenStep(b: int, x: int, k: nat)
    requires k > 0 && x % 2 == 0
    ensures OrDigits(b, x, k) == b % 2 + 2 * OrDigits(b / 2, x / 2, k - 1)
  {
  }

  lemma SplitModBy16(q: int)
    ensures (16 * q) % TWO_32 == 16 * (q % 0x1000_0000)
  {
    ModUnique(16 * q, TWO_32, q / 0x1000_0000, 16 * (q % 0x1000_0000));
  }
}
