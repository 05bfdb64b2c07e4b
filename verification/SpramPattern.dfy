/** The word the SPRAM test writes at each offset, and why two passes of it find every shared cell and stuck bit. */
module SpramPattern {
  import opened Bits

  /** spram_pattern */
  function Pattern(offset: nat, inverted: bool): nat {
    var index := Shr(offset, 2);
    var word := And(Or(Or(index, Shl(index, 15)), Shl(offset, 28)), 0xFFFFFFFF);
    if inverted then Xor(word, 0xFFFFFFFF) else word
  }

  const ONES: Word := 0xFFFFFFFF

  lemma MaskWord(x: nat)
    ensures And(x, 0xFFFFFFFF) == x % WORD_LIMIT
  {
    Pow2Values();
    Mask(x, WORD_LIMIT, 32);
  }

  /** The pattern, cut to 32 bits piece by piece, as registers hold it. */
  lemma PatternPieces(offset: nat)
    ensures Pattern(offset, false) < WORD_LIMIT
    ensures Pattern(offset, false)
         == Or(Or(Shr(offset, 2) % WORD_LIMIT, Shl(Shr(offset, 2), 15) % WORD_LIMIT), Shl(offset, 28) % WORD_LIMIT)
  {
    var index := Shr(offset, 2);
    var a, b, c := index, Shl(index, 15), Shl(offset, 28);
    assert Pattern(offset, false) == Or(Or(a, b), c) % WORD_LIMIT by { MaskWord(Or(Or(a, b), c)); }
    Pow2Values();
    OrMod(Or(a, b), c, 32);
    OrMod(a, b, 32);
  }

  lemma InvertedIsComplement(offset: nat)
    ensures Pattern(offset, true) == ONES - Pattern(offset, false)
    ensures 0 <= Pattern(offset, true) < WORD_LIMIT
  {
    PatternPieces(offset);
    Pow2Values();
    XorOnes(Pattern(offset, false), 32);
  }

  /** Below 128 KB, the pattern is the word index, the index again 15 bits up, and its two low bits on top. */
  lemma PatternDigits(i: nat)
    requires i < 0x8000
    ensures Pattern(4 * i, false) == i % 4 * 0x4000_0000 + i * 0x8000 + i
  {
    hide Pattern, Or, Shl, Shr, Pow2;
    var offset := 4 * i;
    Pow2Values();
    ShiftsOf(i);
    PatternPieces(offset);
    Peel(0, i, WORD_LIMIT);
    Peel(0, i * 0x8000, WORD_LIMIT);
    Peel(i / 4, i % 4 * 0x4000_0000, WORD_LIMIT);
    OrDisjointSwapped(i, i, 0x8000, 15);
    OrDisjointSwapped(i % 4, i * 0x8000 + i, 0x4000_0000, 30);
  }

  lemma ShiftsOf(i: nat)
    ensures Shr(4 * i, 2) == i && Shl(i, 15) == i * 0x8000
    ensures Shl(4 * i, 28) == i / 4 * WORD_LIMIT + i % 4 * 0x4000_0000
  {
    Pow2Values();
    ShrValue(4 * i, 2);
    ShlValue(i, 15);
    ShlValue(4 * i, 28);
  }

  lemma OrDisjointSwapped(hi: nat, low: nat, p: nat, k: nat)
    requires p == Pow2(k) && low < p
    ensures Or(low, hi * p) == hi * p + low
  {
    ShlValue(hi, k);
    OrDisjoint(hi, low, k);
  }

  /** Every word below 128 KB has its own pattern, in both passes. */
  lemma PatternInjective(i: nat, j: nat, inverted: bool)
    requires i < 0x8000 && j < 0x8000 && Pattern(4 * i, inverted) == Pattern(4 * j, inverted)
    ensures i == j
  {
    hide Pattern;
    PatternDigits(i);
    PatternDigits(j);
    InvertedIsComplement(4 * i);
    InvertedIsComplement(4 * j);
    DigitsDiffer(i, j);
  }

  lemma DigitsDiffer(i: nat, j: nat)
    requires i < 0x8000 && j < 0x8000
    requires i % 4 * 0x4000_0000 + i * 0x8000 + i == j % 4 * 0x4000_0000 + j * 0x8000 + j
    ensures i == j
  {
    Peel(i % 4 * 0x8000 + i, i, 0x8000);
    Peel(j % 4 * 0x8000 + j, j, 0x8000);
  }

  /** Above 128 KB patterns repeat: words 1 and 0x8001 hold the same. */
  lemma PatternRepeatsAbove128K()
    ensures Pattern(0x4, false) == Pattern(0x2_0004, false)
  {
    hide Pattern, Or, Shl, Shr, Pow2;
    PatternDigits(1);
    ShiftsOf(0x8001);
    PatternPieces(0x2_0004);
    RepeatOr();
  }

  lemma RepeatOr()
    ensures Or(0x8001, 0x4000_8000) == 0x4000_8001 && Or(0x4000_8001, 0x4000_0000) == 0x4000_8001
  {
    hide Or, Shl, Pow2;
    At15(1, 1, 0x8001, 0);
    At15(0, 1, 1, 1);
    At15(0x8001, 1, 0x8000, 0);
    At15(1, 1, 1, 0);
    assert Or(1, 0) == 1 && Or(0, 1) == 1 by { OrZero(1); }
    assert Or(1, 1) == 1 by { OrSame(); }
  }

  lemma OrSame()
    ensures Or(1, 1) == 1
  {}

  lemma At15(hi: nat, low: nat, hi': nat, low': nat)
    requires low < 0x8000 && low' < 0x8000
    ensures Or(hi * 0x8000 + low, hi' * 0x8000 + low') == Or(hi, hi') * 0x8000 + Or(low, low')
  {
    hide Or;
    Pow2Values();
    ShlValue(hi, 15); ShlValue(hi', 15); ShlValue(Or(hi, hi'), 15);
    OrParts(hi, low, hi', low', 15);
  }

  /** No two words of a region of a whole number of 64 KB banks share a pattern, exactly when it is at most 128 KB. */
  lemma PatternInjectiveIff(size: nat)
    requires size % 0x1_0000 == 0
    ensures (forall i: nat, j: nat | 4 * i < size && 4 * j < size && Pattern(4 * i, false) == Pattern(4 * j, false) ::
               i == j)
       <==> size <= 0x2_0000
  {
    hide Pattern;
    if size <= 0x2_0000 {
      forall i: nat, j: nat | 4 * i < size && 4 * j < size && Pattern(4 * i, false) == Pattern(4 * j, false)
        ensures i == j
      {
        PatternInjective(i, j, false);
      }
    } else {
      PatternRepeatsAbove128K();
      var i, j := 1, 0x8001;
      assert 4 * i < size && 4 * j < size && Pattern(4 * i, false) == Pattern(4 * j, false) && i != j;
    }
  }
}
