/** Integers as bit patterns: the shifts and bitwise operators the generator and the hart use on 32-bit words, with
    the few laws that turn disjoint fields into sums and back. */
module Bits {

  const WORD_LIMIT: int := 0x1_0000_0000

  /** A 32-bit register or memory word. */
  type Word = x: int | 0 <= x < WORD_LIMIT

  /** A wire's level. */
  type Level = x: int | 0 <= x < 2

  function Pow2(k: nat): (p: nat)
    ensures p > 0
  {
    if k == 0 then 1 else 2 * Pow2(k - 1)
  }

  function Abs(a: int): nat { if a < 0 then -a else a }

  /** `a << k` */
  function Shl(a: nat, k: nat): nat
    decreases k, a
  {
    if k == 0 then a else 2 * Shl(a, k - 1)
  }

  /** `a >> k`, rounding down */
  function Shr(a: int, k: nat): (r: int)
    ensures a >= 0 ==> r >= 0
    decreases k, Abs(a)
  {
    if k == 0 then a else Shr(a / 2, k - 1)
  }

  /** `a & mask`; `a` may be negative (two's complement without end, as Python's integers are). */
  function And(a: int, mask: nat): nat
    decreases Abs(a) + mask
  {
    if mask == 0 then 0
    else 2 * And(a / 2, mask / 2) + (if a % 2 == 1 && mask % 2 == 1 then 1 else 0)
  }

  function Or(a: nat, b: nat): nat
    decreases a + b, a
  {
    if a == 0 && b == 0 then 0
    else 2 * Or(a / 2, b / 2) + (if a % 2 == 1 || b % 2 == 1 then 1 else 0)
  }

  function Xor(a: nat, b: nat): nat
    decreases a + b, a
  {
    if a == 0 && b == 0 then 0
    else 2 * Xor(a / 2, b / 2) + (if a % 2 != b % 2 then 1 else 0)
  }

  /** Bit `k` of `a`, 0 or 1. */
  function Bit(a: nat, k: nat): (b: nat)
    ensures b < 2
  {
    Shr(a, k) % 2
  }

  /** Byte `i` of `w`, the lowest first. */
  function ByteOf(w: nat, i: nat): (b: nat)
    ensures b < 0x100
  {
    Shr(w, 8 * i) % 0x100
  }

  // ---- bits in a row ----

  function FromBits(bits: seq<Level>): nat {
    if bits == [] then 0 else 2 * FromBits(bits[..|bits| - 1]) + bits[|bits| - 1]
  }

  lemma {:induction false} FromBitsBound(bits: seq<Level>)
    ensures FromBits(bits) < Pow2(|bits|)
    decreases |bits|
  {
    if bits != [] {
      FromBitsBound(bits[..|bits| - 1]);
    }
  }

  lemma NoBits()
    ensures FromBits([]) == 0
  {}

  lemma MoreBits(bits: seq<Level>, level: Level)
    ensures FromBits(bits + [level]) == 2 * FromBits(bits) + level
  {
    assert (bits + [level])[..|bits|] == bits;
  }

  lemma {:induction false} Pow2Positive(k: nat)
    ensures Pow2(k) > 0
  {
    if k > 0 {
      Pow2Positive(k - 1);
    }
  }

  // ---- division ----

  lemma {:induction false} WholeMultiple(k: int, m: nat)
    requires k != 0
    ensures k * m >= m || k * m + m <= 0
    decreases Abs(k)
  {
    if k > 1 {
      WholeMultiple(k - 1, m);
      assert k * m == (k - 1) * m + m;
    } else if k < -1 {
      WholeMultiple(k + 1, m);
      assert k * m == (k + 1) * m - m;
    }
  }

  lemma Peel(q: int, r: nat, m: nat)
    requires r < m
    ensures (q * m + r) / m == q && (q * m + r) % m == r
  {
    var x := q * m + r;
    var d := x / m;
    assert x == d * m + x % m;
    assert (d - q) * m == r - x % m;
    if d != q {
      WholeMultiple(d - q, m);
    }
  }

  lemma Halves(x: int, m: nat)
    requires m > 0
    ensures x / (2 * m) == (x / 2) / m
    ensures x % (2 * m) == 2 * ((x / 2) % m) + x % 2
  {
    var h := x / 2;
    assert h == (h / m) * m + h % m;
    assert x == (h / m) * (2 * m) + (2 * (h % m) + x % 2) by {
      assert 2 * ((h / m) * m) == (h / m) * (2 * m);
    }
    Peel(h / m, 2 * (h % m) + x % 2, 2 * m);
  }

  // ---- shifts ----

  lemma {:induction false} ShlValue(a: nat, k: nat)
    ensures Shl(a, k) == a * Pow2(k)
  {
    if k != 0 {
      ShlValue(a, k - 1);
      assert 2 * (a * Pow2(k - 1)) == a * (2 * Pow2(k - 1));
    }
  }

  lemma {:induction false} ShrValue(a: int, k: nat)
    ensures Shr(a, k) == a / Pow2(k)
    decreases k
  {
    if k != 0 {
      ShrValue(a / 2, k - 1);
      Halves(a, Pow2(k - 1));
    }
  }

  lemma {:induction false} ShrShr(a: int, j: nat, k: nat)
    ensures Shr(Shr(a, j), k) == Shr(a, j + k)
    decreases j
  {
    if j != 0 {
      ShrShr(a / 2, j - 1, k);
    }
  }

  lemma DivDiv(a: int, j: nat, k: nat, p: nat, q: nat, r: nat)
    requires p == Pow2(j) && q == Pow2(k) && r == Pow2(j + k)
    ensures a / p / q == a / r
  {
    ShrValue(a, j);
    ShrValue(a / p, k);
    ShrValue(a, j + k);
    ShrShr(a, j, k);
  }

  /** A word is its four bytes. */
  lemma ByteSplit(w: Word)
    ensures w == ByteOf(w, 0) + 0x100 * ByteOf(w, 1) + 0x1_0000 * ByteOf(w, 2) + 0x100_0000 * ByteOf(w, 3)
  {
    hide Shr, Pow2;
    Pow2Values();
    ShrValue(w, 8); ShrShr(w, 8, 8); ShrShr(w, 16, 8);
    ShrValue(Shr(w, 8), 8); ShrValue(Shr(w, 16), 8);
    assert Shr(w, 0) == w by { ShrZero(w); }
    var a := w / 0x100;
    var b := a / 0x100;
    assert w == (b / 0x100 * 0x100 + b % 0x100) * 0x1_0000 + a % 0x100 * 0x100 + w % 0x100;
  }

  lemma ShrZero(w: nat)
    ensures Shr(w, 0) == w
  {}

  // ---- masks and disjoint fields ----

  /** Masking with 2^k - 1 keeps the value modulo 2^k, of negative numbers too. */
  lemma {:induction false} AndMask(a: int, k: nat)
    ensures And(a, Pow2(k) - 1) == a % Pow2(k)
    decreases k
  {
    if k != 0 {
      AndMask(a / 2, k - 1);
      Halves(a, Pow2(k - 1));
      assert (Pow2(k) - 1) / 2 == Pow2(k - 1) - 1;
    }
  }

  lemma {:induction false} OrZero(a: nat)
    ensures Or(a, 0) == a && Or(0, a) == a
  {
    if a != 0 {
      OrZero(a / 2);
    }
  }

  /** Bits that do not meet: or is a sum. */
  lemma {:induction false} OrDisjoint(hi: nat, low: nat, k: nat)
    requires low < Pow2(k)
    ensures Or(Shl(hi, k), low) == Shl(hi, k) + low
    ensures Or(low, Shl(hi, k)) == Shl(hi, k) + low
  {
    if k == 0 {
      OrZero(hi);
    } else {
      OrDisjoint(hi, low / 2, k - 1);
    }
  }

  lemma {:induction false} XorOnes(a: nat, k: nat)
    requires a < Pow2(k)
    ensures Xor(a, Pow2(k) - 1) == Pow2(k) - 1 - a
    ensures Xor(a, 0) == a
  {
    if k != 0 {
      XorOnes(a / 2, k - 1);
      assert (Pow2(k) - 1) / 2 == Pow2(k - 1) - 1;
    }
  }

  /** An or, high and low parts apart. */
  lemma {:induction false} OrParts(hi: nat, low: nat, hi': nat, low': nat, k: nat)
    requires low < Pow2(k) && low' < Pow2(k)
    ensures Or(Shl(hi, k) + low, Shl(hi', k) + low') == Shl(Or(hi, hi'), k) + Or(low, low')
  {
    if k == 0 {
    } else {
      var a, b := Shl(hi, k) + low, Shl(hi', k) + low';
      OrDigits(a, b);
      OrDigits(low, low');
      OrParts(hi, low / 2, hi', low' / 2, k - 1);
    }
  }

  lemma OrDigits(a: nat, b: nat)
    ensures Or(a, b) / 2 == Or(a / 2, b / 2)
    ensures Or(a, b) % 2 == if a % 2 == 1 || b % 2 == 1 then 1 else 0
  {}

  /** Cutting an or to k bits is the or of the cut operands. */
  lemma {:induction false} OrMod(a: nat, b: nat, k: nat)
    ensures Or(a, b) % Pow2(k) == Or(a % Pow2(k), b % Pow2(k))
  {
    if k != 0 {
      var m := Pow2(k - 1);
      OrMod(a / 2, b / 2, k - 1);
      Halves(a, m);
      Halves(b, m);
      Halves(Or(a, b), m);
      OrDigits(a, b);
      OrDigits(a % (2 * m), b % (2 * m));
    }
  }

  lemma {:induction false} Bounded(a: nat, b: nat, k: nat)
    requires a < Pow2(k) && b < Pow2(k)
    ensures Or(a, b) < Pow2(k) && Xor(a, b) < Pow2(k)
  {
    if k != 0 {
      Bounded(a / 2, b / 2, k - 1);
    }
  }

  // ---- masks by their width ----

  lemma Mask(x: int, p: nat, k: nat)
    requires p == Pow2(k)
    ensures And(x, p - 1) == x % p
  {
    AndMask(x, k);
  }

  lemma Keep(x: nat, p: nat, k: nat)
    requires p == Pow2(k) && x < p
    ensures And(x, p - 1) == x
  {
    AndMask(x, k);
    Peel(0, x, p);
  }

  lemma Scale(x: nat, p: nat, k: nat)
    requires p == Pow2(k)
    ensures Shl(x, k) == x * p
  {
    ShlValue(x, k);
  }

  /** Low bits put under a multiple of 2^k. */
  lemma Under(hi: nat, low: nat, p: nat, k: nat)
    requires p == Pow2(k) && low < p
    ensures Or(hi * p, low) == hi * p + low
  {
    ShlValue(hi, k);
    OrDisjoint(hi, low, k);
  }

  lemma Pow2Values()
    ensures Pow2(5) == 0x20 && Pow2(8) == 0x100 && Pow2(10) == 0x400 && Pow2(15) == 0x8000
    ensures Pow2(20) == 0x10_0000 && Pow2(21) == 0x20_0000 && Pow2(25) == 0x200_0000
    ensures Pow2(28) == 0x1000_0000 && Pow2(30) == 0x4000_0000 && Pow2(31) == 0x8000_0000
    ensures Pow2(32) == WORD_LIMIT
  {}
}
