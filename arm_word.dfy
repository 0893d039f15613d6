/** 32-bit words as the ARM60 interpreter computes with them: unsigned
    values below 2^32, with C's wrap-around written out.  Shifts are
    multiplications and divisions by powers of two; only AND, OR and XOR go
    through `bv32`. */
module ArmWord {
  const WordModulus := 0x1_0000_0000

  type Word = w: int | 0 <= w < 0x1_0000_0000

  /** Unsigned 32-bit wrap-around. */
  function Wrap(x: int): Word {
    x % WordModulus
  }

  function Pow2(k: nat): (r: nat)
    ensures r > 0
  {
    if k == 0 then 1 else 2 * Pow2(k - 1)
  }

  lemma {:induction false} Pow2Add(a: nat, b: nat)
    ensures Pow2(a + b) == Pow2(a) * Pow2(b)
    decreases b
  {
    if b > 0 {
      Pow2Add(a, b - 1);
      assert Pow2(a + b) == 2 * Pow2(a + b - 1);
    }
  }

  lemma Pow2Sum(a: nat, b: nat, c: nat)
    requires a + b == c
    ensures Pow2(c) == Pow2(a) * Pow2(b)
  {
    Pow2Add(a, b);
  }

  lemma Pow2Word()
    ensures Pow2(32) == WordModulus && Pow2(31) == 0x8000_0000
  {
    assert Pow2(4) == 0x10;
    assert Pow2(8) == 0x100 by { Pow2Add(4, 4); }
    assert Pow2(16) == 0x1_0000 by { Pow2Add(8, 8); }
    assert Pow2(32) == WordModulus by { Pow2Add(16, 16); }
    assert Pow2(32) == 2 * Pow2(31);
  }

  lemma Pow2Monotone(a: nat, b: nat)
    requires a <= b
    ensures Pow2(a) <= Pow2(b)
  {
    Pow2Add(a, b - a);
  }

  /** The single-bit mask `mask` (a power of two) is set in `w`:
      `(w & mask) > 0`. */
  predicate Has(w: int, mask: int)
    requires mask > 0
  {
    (w / mask) % 2 == 1
  }

  /** `(w & (size-1)*unit) / unit`: the field of `size` values whose lowest
      bit is `unit`. */
  function Field(w: int, unit: int, size: int): int
    requires unit > 0 && size > 0
  {
    (w / unit) % size
  }

  /** Bit k of w. */
  predicate Bit(w: int, k: nat) {
    (w / Pow2(k)) % 2 == 1
  }

  /** The sign bit. */
  predicate Negative(w: Word) {
    w >= 0x8000_0000
  }

  /** The word read as a two's-complement integer. */
  function Signed(w: Word): int {
    if Negative(w) then w - WordModulus else w
  }

  function And(a: Word, b: Word): Word {
    ((a as bv32) & (b as bv32)) as int
  }

  function Or(a: Word, b: Word): Word {
    ((a as bv32) | (b as bv32)) as int
  }

  function Xor(a: Word, b: Word): Word {
    ((a as bv32) ^ (b as bv32)) as int
  }

  /** `~a`. */
  function Not(a: Word): Word {
    0xFFFF_FFFF - a
  }

  /** `~a + 1`, two's-complement negation. */
  function Negate(a: Word): (r: Word)
    ensures r == if a == 0 then 0 else WordModulus - a
    ensures Wrap(a + r) == 0
  {
    WrapOnce(Not(a) + 1);
    WrapOnce(a + (if a == 0 then 0 else WordModulus - a));
    Wrap(Not(a) + 1)
  }

  /** `x << s` for s below 32. */
  function Shl(x: Word, s: nat): Word
    requires s < 32
  {
    Wrap(x * Pow2(s))
  }

  /** `x >> s` for s up to 32. */
  function Shr(x: Word, s: nat): (r: Word)
    requires s <= 32
  {
    DivNoLarger(x, Pow2(s));
    x / Pow2(s)
  }

  // ---------------------------------------------------------------------
  // Division facts the solver does not find by itself.

  lemma MulLe(a: int, b: int, c: int)
    requires a <= b && c >= 0
    ensures a * c <= b * c
  {
    assert b * c - a * c == (b - a) * c;
  }

  lemma MulSucc(a: int, k: int)
    ensures a * (k + 1) == a * k + a
  {
  }

  lemma DivLt(x: int, p: int, q: int)
    requires p > 0 && q > 0 && 0 <= x < p * q
    ensures 0 <= x / p < q
  {
    var d := x / p;
    assert x == p * d + x % p;
    if d >= q {
      MulLe(q, d, p);
    }
  }

  lemma DivNoLarger(x: int, d: int)
    requires x >= 0 && d > 0
    ensures 0 <= x / d <= x
  {
    var q := x / d;
    assert x == d * q + x % d;
    MulLe(1, d, q);
  }

  /** Quotient and remainder are unique. */
  lemma DivModUnique(y: int, q: int, l: int, h: int)
    requires q > 0 && 0 <= h < q && y == l * q + h
    ensures y / q == l && y % q == h
  {
    var d, m := y / q, y % q;
    assert y == d * q + m && 0 <= m < q;
    var k := l - d;
    assert k * q == m - h by {
      assert l * q - d * q == (l - d) * q;
    }
    if k >= 1 {
      MulLe(1, k, q);
    } else if k <= -1 {
      MulLe(k, -1, q);
    }
  }

  /** Multiplying by p and dividing by p*q divides by q. */
  lemma DivMulCancel(x: int, p: int, q: int)
    requires x >= 0 && p > 0 && q > 0
    ensures (x * p) / (p * q) == x / q
  {
    var d, m := x / q, x % q;
    assert x * p == d * (p * q) + m * p by {
      assert x == d * q + m;
      assert x * p == (d * q + m) * p;
    }
    MulLe(m, q - 1, p);
    assert (q - 1) * p == p * q - p;
    DivModUnique(x * p, p * q, d, m * p);
  }

  /** Taking k whole multiples of p off x takes k off the quotient. */
  lemma DivSubMultiple(x: int, k: int, p: int)
    requires p > 0
    ensures (x - k * p) / p == x / p - k
  {
    var d, m := x / p, x % p;
    assert x - k * p == (d - k) * p + m by {
      assert x == d * p + m;
      assert (d - k) * p == d * p - k * p;
    }
    DivModUnique(x - k * p, p, d - k, m);
  }

  /** Below 2^33, wrapping takes 2^32 off at most once. */
  lemma WrapOnce(x: int)
    requires 0 <= x < 2 * WordModulus
    ensures Wrap(x) == if x >= WordModulus then x - WordModulus else x
  {
    if x >= WordModulus {
      DivModUnique(x, WordModulus, 1, x - WordModulus);
    } else {
      DivModUnique(x, WordModulus, 0, x);
    }
  }

  /** Dividing by a and then by b divides by a * b. */
  lemma DivDiv(x: int, a: int, b: int)
    requires x >= 0 && a > 0 && b > 0
    ensures (x / a) / b == x / (a * b)
  {
    var q, r := x / a, x % a;
    var q2, r2 := q / b, q % b;
    assert x == a * q + r && q == b * q2 + r2;
    assert x == (a * b) * q2 + (a * r2 + r) by {
      assert a * q == a * (b * q2 + r2) == (a * b) * q2 + a * r2;
    }
    MulLe(r2, b - 1, a);
    assert (b - 1) * a == a * b - a;
    DivModUnique(x, a * b, q2, a * r2 + r);
  }

  /** Wrapping an operand first does not change a wrapped sum. */
  lemma WrapAdd(x: int, y: int)
    ensures Wrap(Wrap(x) + y) == Wrap(x + y)
  {
    DivSubMultiple(x, x / WordModulus, WordModulus);
    var k := x / WordModulus;
    assert Wrap(x) == x - k * WordModulus;
    assert x + y == (Wrap(x) + y) + k * WordModulus;
    DivModUnique(x + y, WordModulus, (Wrap(x) + y) / WordModulus + k, Wrap(Wrap(x) + y));
  }

  /** Splitting x below p*q into x / p (below q) and x % p, and putting
      the remainder on top, stays below p*q. */
  lemma SwapBound(x: int, p: int, q: int)
    requires p > 0 && q > 0 && 0 <= x < p * q
    ensures 0 <= x / p < q
    ensures 0 <= x / p + (x % p) * q < p * q
  {
    DivLt(x, p, q);
    MulLe(x % p, p - 1, q);
    assert (p - 1) * q == p * q - q;
  }

  lemma RotateBound(x: Word, s: nat)
    requires s <= 32
    ensures 0 <= x / Pow2(s) < Pow2(32 - s)
    ensures x / Pow2(s) + (x % Pow2(s)) * Pow2(32 - s) < WordModulus
    ensures Pow2(s) * Pow2(32 - s) == WordModulus
  {
    Pow2Word();
    Pow2Add(s, 32 - s);
    SwapBound(x, Pow2(s), Pow2(32 - s));
  }

  /** `(x >> s) | (x << (32 - s))` for s up to 32: the low s bits come
      round to the top.  At s = 0 and s = 32 C's shift by 32 is undefined;
      the value given here is x, what x86 computes. */
  function RotateRight(x: Word, s: nat): Word
    requires s <= 32
  {
    RotateBound(x, s);
    x / Pow2(s) + (x % Pow2(s)) * Pow2(32 - s)
  }

  /** Swapping the two parts twice gives x back. */
  lemma SwapBack(x: int, p: int, q: int)
    requires p > 0 && q > 0 && 0 <= x < p * q
    ensures var y := x / p + (x % p) * q;
            y / q + (y % q) * p == x
  {
    var h, l := x / p, x % p;
    DivLt(x, p, q);
    var y := h + l * q;
    DivModUnique(y, q, l, h);
    assert x == h * p + l;
  }

  /** Rotating right by s and then by 32 - s gives the word back. */
  lemma RotateRightInverse(x: Word, s: nat)
    requires 0 < s < 32
    ensures RotateRight(RotateRight(x, s), 32 - s) == x
  {
    var p, q, t := Pow2(s), Pow2(32 - s), 32 - s;
    Pow2Word();
    Pow2Add(s, t);
    var y := RotateRight(x, s);
    assert y == x / p + (x % p) * q;
    SwapBack(x, p, q);
    assert 32 - t == s;
    assert RotateRight(y, t) == y / q + (y % q) * p;
  }
}
