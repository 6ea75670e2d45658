/**
 Bitwise operations on unsigned words, over their binary digits. A `u64` shifted
 left loses the bits that leave at the top, as `<<` does in Rust.
 */
module Bits {
  import opened Common

  const TOP_BIT := 0x8000_0000_0000_0000

  function Pow2(n: nat): (p: nat)
    ensures p >= 1
  {
    if n == 0 then 1 else 2 * Pow2(n - 1)
  }

  /** Whether binary digit `i` of `word` is one. */
  predicate Bit(word: nat, i: nat)
    decreases i
  {
    if i == 0 then word % 2 == 1 else Bit(word / 2, i - 1)
  }

  function And(a: nat, b: nat): nat
  {
    if a == 0 then 0
    else (if a % 2 == 1 && b % 2 == 1 then 1 else 0) + 2 * And(a / 2, b / 2)
  }

  function Or(a: nat, b: nat): nat
    decreases a + b
  {
    if a == 0 && b == 0 then 0
    else (if a % 2 == 1 || b % 2 == 1 then 1 else 0) + 2 * Or(a / 2, b / 2)
  }

  function Or64(a: u64, b: u64): u64 {
    Pow2SixtyFour();
    OrBound(a, b, 64);
    Or(a, b)
  }

  /** The word with one bit set. */
  function Mask64(bit: nat): u64
    requires bit < 64
  {
    MaskBound(bit, 64);
    Pow2SixtyFour();
    Pow2(bit)
  }

  function Shl64(word: u64, shift: nat): u64 {
    if shift == 0 then word
    else
      var once := Shl64(word, shift - 1);
      if once < TOP_BIT then 2 * once else 2 * (once - TOP_BIT)
  }

  function Shr64(word: u64, shift: nat): u64
    decreases shift
  {
    if shift == 0 then word else Shr64(word / 2, shift - 1)
  }

  // ----- powers of two ---------------------------------------------------------------------

  lemma Pow2Byte(n: nat)
    ensures Pow2(n + 8) == 0x100 * Pow2(n)
  {
    assert Pow2(n + 2) == 4 * Pow2(n);
    assert Pow2(n + 4) == 4 * Pow2(n + 2);
    assert Pow2(n + 6) == 4 * Pow2(n + 4);
  }

  lemma Pow2SixtyFour()
    ensures Pow2(64) == U64_SIZE && Pow2(63) == TOP_BIT
  {
    Pow2Byte(0);
    Pow2Byte(8);
    Pow2Byte(16);
    Pow2Byte(24);
    Pow2Byte(32);
    Pow2Byte(40);
    Pow2Byte(48);
    Pow2Byte(56);
  }

  lemma {:induction false} MaskBound(bit: nat, n: nat)
    requires bit < n
    ensures Pow2(bit) < Pow2(n)
    decreases n
  {
    if bit + 1 < n {
      MaskBound(bit, n - 1);
    }
  }

  lemma {:induction false} OrBound(a: nat, b: nat, n: nat)
    requires a < Pow2(n) && b < Pow2(n)
    ensures Or(a, b) < Pow2(n)
    decreases n
  {
    if n > 0 && !(a == 0 && b == 0) {
      OrBound(a / 2, b / 2, n - 1);
    }
  }

  // ----- bits of each operation ------------------------------------------------------------

  lemma {:induction false} BitZero(i: nat)
    ensures !Bit(0, i)
  {
    if i > 0 { BitZero(i - 1); }
  }

  /** A word below `2^n` has no bit at or above `n`. */
  lemma {:induction false} BitAbove(word: nat, n: nat, i: nat)
    requires word < Pow2(n) && n <= i
    ensures !Bit(word, i)
    decreases i
  {
    if n == 0 {
      BitZero(i);
    } else {
      BitAbove(word / 2, n - 1, i - 1);
    }
  }

  lemma {:induction false} OrBit(a: nat, b: nat, i: nat)
    ensures Bit(Or(a, b), i) <==> Bit(a, i) || Bit(b, i)
    decreases i
  {
    if a == 0 && b == 0 {
      BitZero(i);
    } else if i > 0 {
      OrBit(a / 2, b / 2, i - 1);
    }
  }

  /** The single-bit mask `1 << j` has exactly bit `j`. */
  lemma {:induction false} MaskBit(j: nat, i: nat)
    ensures Bit(Pow2(j), i) <==> i == j
    decreases j
  {
    if j == 0 {
      if i > 0 { BitZero(i - 1); }
    } else if i > 0 {
      MaskBit(j - 1, i - 1);
    }
  }

  lemma {:induction false} AndZero(word: nat)
    ensures And(word, 0) == 0
  {
    if word != 0 { AndZero(word / 2); }
  }

  /** Testing a word against a single-bit mask reads that bit. */
  lemma {:induction false} AndMask(word: nat, j: nat)
    ensures And(word, Pow2(j)) == 0 <==> !Bit(word, j)
    decreases j
  {
    if word == 0 {
      BitZero(j);
    } else if j == 0 {
      AndZero(word / 2);
    } else {
      AndMask(word / 2, j - 1);
    }
  }

  /** Dropping bit `n` leaves the digits below it alone. */
  lemma {:induction false} BitBelowTop(word: nat, n: nat, i: nat)
    requires word >= Pow2(n) && i < n
    ensures Bit(word - Pow2(n), i) <==> Bit(word, i)
    decreases i
  {
    assert (word - Pow2(n)) / 2 == word / 2 - Pow2(n - 1);
    if i > 0 {
      BitBelowTop(word / 2, n - 1, i - 1);
    }
  }

  /** Bits of a left shift: those of the word, moved up; the rest zero. */
  lemma {:induction false} ShlBit(word: u64, shift: nat, i: nat)
    requires i < 64
    ensures Bit(Shl64(word, shift), i) <==> i >= shift && Bit(word, i - shift)
    decreases shift
  {
    if shift > 0 && i > 0 {
      var once := Shl64(word, shift - 1);
      ShlBit(word, shift - 1, i - 1);
      if once >= TOP_BIT {
        Pow2SixtyFour();
        BitBelowTop(once, 63, i - 1);
      }
    }
  }

  /** Bits of a right shift: those of the word, moved down; the rest zero. */
  lemma ShrBit(word: u64, shift: nat, i: nat)
    ensures Bit(Shr64(word, shift), i) <==> i + shift < 64 && Bit(word, i + shift)
  {
    ShrDigit(word, shift, i);
    if i + shift >= 64 {
      Pow2SixtyFour();
      BitAbove(word, 64, i + shift);
    }
  }

  lemma {:induction false} ShrDigit(word: u64, shift: nat, i: nat)
    ensures Bit(Shr64(word, shift), i) <==> Bit(word, i + shift)
    decreases shift
  {
    if shift > 0 {
      ShrDigit(word / 2, shift - 1, i);
    }
  }

  lemma Or64Bit(a: u64, b: u64, i: nat)
    ensures Bit(Or64(a, b), i) <==> Bit(a, i) || Bit(b, i)
  {
    OrBit(a, b, i);
  }

  lemma Mask64Bit(bit: nat, i: nat)
    requires bit < 64
    ensures Bit(Mask64(bit), i) <==> i == bit
  {
    MaskBit(bit, i);
  }
}
