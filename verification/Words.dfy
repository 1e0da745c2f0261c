/** Machine words: 32-bit and 64-bit unsigned values, the bitwise operations on them,
    and the split of a 64-bit value into its high and low 32-bit words. */
module Words {

  const TWO_32: int := 0x1_0000_0000
  const TWO_64: int := 0x1_0000_0000_0000_0000
  const UINT32_MAX: u32 := 0xFFFF_FFFF
  const UINT64_MAX: u64 := 0xFFFF_FFFF_FFFF_FFFF

  type u32 = x: int | 0 <= x < 0x1_0000_0000
  type u64 = x: int | 0 <= x < 0x1_0000_0000_0000_0000

  /** Which half of a 64-bit value is meant. */
  datatype Word = High | Low

  function WordOf(x: u64, w: Word): u32 {
    if w.High? then x / TWO_32 else x % TWO_32
  }

  /** h shifted left by k binary digits. */
  function Shift(h: nat, k: nat): nat {
    if k == 0 then h else 2 * Shift(h, k - 1)
  }

  function Pow2(k: nat): nat {
    Shift(1, k)
  }

  /** Bitwise conjunction of two naturals, one binary digit at a time. */
  function BitAnd(a: nat, b: nat): nat
    decreases a + b
  {
    if a == 0 && b == 0 then 0
    else 2 * BitAnd(a / 2, b / 2) + (if a % 2 == 1 && b % 2 == 1 then 1 else 0)
  }

  /** Bitwise disjunction of two naturals, one binary digit at a time. */
  function BitOr(a: nat, b: nat): nat
    decreases a + b
  {
    if a == 0 && b == 0 then 0
    else 2 * BitOr(a / 2, b / 2) + (if a % 2 == 1 || b % 2 == 1 then 1 else 0)
  }

  // ----- laws of the bitwise operations -----

  lemma {:induction false} BitAndCommutes(a: nat, b: nat)
    ensures BitAnd(a, b) == BitAnd(b, a)
    decreases a + b
  {
    if a != 0 || b != 0 { BitAndCommutes(a / 2, b / 2); }
  }

  lemma {:induction false} BitOrCommutes(a: nat, b: nat)
    ensures BitOr(a, b) == BitOr(b, a)
    decreases a + b
  {
    if a != 0 || b != 0 { BitOrCommutes(a / 2, b / 2); }
  }

  lemma {:induction false} BitAndZero(a: nat)
    ensures BitAnd(a, 0) == 0
  {
    if a != 0 { BitAndZero(a / 2); }
  }

  lemma {:induction false} BitOrZero(a: nat)
    ensures BitOr(a, 0) == a
  {
    if a != 0 { BitOrZero(a / 2); }
  }

  lemma {:induction false} BitAndAbsorbs(a: nat, b: nat)
    ensures BitAnd(BitAnd(a, b), b) == BitAnd(a, b)
    decreases a + b
  {
    if a != 0 || b != 0 {
      BitAndAbsorbs(a / 2, b / 2);
      if b == 0 { BitAndZero(a); }
    }
  }

  /** Binary digit k of a number, counted from the last one. */
  predicate Digit(x: nat, k: nat) {
    if k == 0 then x % 2 == 1 else Digit(x / 2, k - 1)
  }

  /** Each digit of the result is that of the operands. */
  lemma {:induction false} BitwiseDigits(a: nat, b: nat, k: nat)
    ensures Digit(BitAnd(a, b), k) <==> Digit(a, k) && Digit(b, k)
    ensures Digit(BitOr(a, b), k) <==> Digit(a, k) || Digit(b, k)
  {
    BitwiseUnroll(a, b);
    Halves(BitAnd(a / 2, b / 2), if a % 2 == 1 && b % 2 == 1 then 1 else 0);
    Halves(BitOr(a / 2, b / 2), if a % 2 == 1 || b % 2 == 1 then 1 else 0);
    if k > 0 { BitwiseDigits(a / 2, b / 2, k - 1); }
  }

  lemma Halves(x: nat, digit: nat)
    requires digit <= 1
    ensures (2 * x + digit) / 2 == x && (2 * x + digit) % 2 == digit
  {
  }

  lemma {:induction false} BitwiseUnroll(a: nat, b: nat)
    ensures BitAnd(a, b) == 2 * BitAnd(a / 2, b / 2) + (if a % 2 == 1 && b % 2 == 1 then 1 else 0)
    ensures BitOr(a, b) == 2 * BitOr(a / 2, b / 2) + (if a % 2 == 1 || b % 2 == 1 then 1 else 0)
  {
  }

  /** The operations on the last digit, and on the digits above it. */
  lemma LastDigit(x: nat, a: nat, y: nat, b: nat)
    ensures BitAnd(2 * x + a, 2 * y + b)
         == 2 * BitAnd(x + a / 2, y + b / 2) + (if a % 2 == 1 && b % 2 == 1 then 1 else 0)
    ensures BitOr(2 * x + a, 2 * y + b)
         == 2 * BitOr(x + a / 2, y + b / 2) + (if a % 2 == 1 || b % 2 == 1 then 1 else 0)
  {
    assert (2 * x + a) / 2 == x + a / 2 && (2 * x + a) % 2 == a % 2;
    assert (2 * y + b) / 2 == y + b / 2 && (2 * y + b) % 2 == b % 2;
    BitwiseUnroll(2 * x + a, 2 * y + b);
  }

  lemma AndDigit(x: nat, a: nat, y: nat, b: nat, high: nat)
    requires BitAnd(x + a / 2, y + b / 2) == high + BitAnd(a / 2, b / 2)
    ensures BitAnd(2 * x + a, 2 * y + b) == 2 * high + BitAnd(a, b)
  {
    LastDigit(x, a, y, b);
    LastDigit(0, a, 0, b);
  }

  /** Both operations work on the digits above and below position k separately. */
  lemma {:induction false} AndSplits(k: nat, h1: nat, l1: nat, h2: nat, l2: nat)
    requires l1 < Pow2(k) && l2 < Pow2(k)
    ensures BitAnd(Shift(h1, k) + l1, Shift(h2, k) + l2) == Shift(BitAnd(h1, h2), k) + BitAnd(l1, l2)
  {
    if k != 0 {
      AndSplits(k - 1, h1, l1 / 2, h2, l2 / 2);
      AndDigit(Shift(h1, k - 1), l1, Shift(h2, k - 1), l2, Shift(BitAnd(h1, h2), k - 1));
    }
  }

  lemma OrDigit(x: nat, a: nat, y: nat, b: nat, high: nat)
    requires BitOr(x + a / 2, y + b / 2) == high + BitOr(a / 2, b / 2)
    ensures BitOr(2 * x + a, 2 * y + b) == 2 * high + BitOr(a, b)
  {
    LastDigit(x, a, y, b);
    LastDigit(0, a, 0, b);
  }

  lemma {:induction false} OrSplits(k: nat, h1: nat, l1: nat, h2: nat, l2: nat)
    requires l1 < Pow2(k) && l2 < Pow2(k)
    ensures BitOr(Shift(h1, k) + l1, Shift(h2, k) + l2) == Shift(BitOr(h1, h2), k) + BitOr(l1, l2)
  {
    if k != 0 {
      OrSplits(k - 1, h1, l1 / 2, h2, l2 / 2);
      OrDigit(Shift(h1, k - 1), l1, Shift(h2, k - 1), l2, Shift(BitOr(h1, h2), k - 1));
    }
  }

  /** An all-ones mask of k digits is neutral for "and" and dominant for "or" below 2^k. */
  lemma {:induction false} BitwiseOnes(k: nat, a: nat)
    requires a < Pow2(k)
    ensures BitAnd(a, Pow2(k) - 1) == a
    ensures BitOr(a, Pow2(k) - 1) == Pow2(k) - 1
  {
    if k != 0 {
      BitwiseOnes(k - 1, a / 2);
      BitwiseUnroll(a, Pow2(k) - 1);
    }
  }

  lemma ShiftBy8(h: nat, k: nat)
    ensures Shift(h, k + 8) == 256 * Shift(h, k)
  {
    assert Shift(h, k + 2) == 4 * Shift(h, k);
    assert Shift(h, k + 4) == 4 * Shift(h, k + 2);
    assert Shift(h, k + 6) == 4 * Shift(h, k + 4);
  }

  lemma ShiftBy32(h: nat, k: nat)
    ensures Shift(h, k + 32) == Shift(h, k) * TWO_32
  {
    ShiftBy8(h, k); ShiftBy8(h, k + 8); ShiftBy8(h, k + 16); ShiftBy8(h, k + 24);
  }

  lemma PowersOfTwo()
    ensures Pow2(32) == TWO_32 && Pow2(64) == TWO_64
  {
    ShiftBy32(1, 0); ShiftBy32(1, 32);
  }

  lemma {:induction false} BelowPowerOfTwo(k: nat, a: nat, b: nat)
    requires a < Pow2(k) && b < Pow2(k)
    ensures BitAnd(a, b) < Pow2(k) && BitOr(a, b) < Pow2(k)
  {
    if k != 0 {
      BelowPowerOfTwo(k - 1, a / 2, b / 2);
      BitwiseUnroll(a, b);
    }
  }

  // ----- the operations on machine words -----

  function And32(a: u32, b: u32): u32 {
    PowersOfTwo();
    BelowPowerOfTwo(32, a, b);
    BitAnd(a, b)
  }

  function Or32(a: u32, b: u32): u32 {
    PowersOfTwo();
    BelowPowerOfTwo(32, a, b);
    BitOr(a, b)
  }

  function And64(a: u64, b: u64): u64 {
    PowersOfTwo();
    BelowPowerOfTwo(64, a, b);
    BitAnd(a, b)
  }

  function Or64(a: u64, b: u64): u64 {
    PowersOfTwo();
    BelowPowerOfTwo(64, a, b);
    BitOr(a, b)
  }

  lemma {:induction false} HighWord(h: nat)
    ensures Shift(h, 32) == h * TWO_32
  {
    ShiftBy32(h, 0);
  }

  lemma {:induction false} AndRecombines(xh: u32, xl: u32, yh: u32, yl: u32)
    ensures BitAnd(xh * TWO_32 + xl, yh * TWO_32 + yl) == And32(xh, yh) * TWO_32 + And32(xl, yl)
  {
    PowersOfTwo();
    AndSplits(32, xh, xl, yh, yl);
    HighWord(xh);
    HighWord(yh);
    HighWord(And32(xh, yh));
  }

  lemma {:induction false} OrRecombines(xh: u32, xl: u32, yh: u32, yl: u32)
    ensures BitOr(xh * TWO_32 + xl, yh * TWO_32 + yl) == Or32(xh, yh) * TWO_32 + Or32(xl, yl)
  {
    PowersOfTwo();
    OrSplits(32, xh, xl, yh, yl);
    HighWord(xh);
    HighWord(yh);
    HighWord(Or32(xh, yh));
  }

  lemma WordsOfSum(h: u32, l: u32)
    ensures 0 <= h * TWO_32 + l < TWO_64
    ensures (h * TWO_32 + l) / TWO_32 == h && (h * TWO_32 + l) % TWO_32 == l
  {
  }

  /** The 64-bit operations act on each 32-bit word separately. */
  lemma BitwiseByWord(x: u64, y: u64, w: Word)
    ensures WordOf(And64(x, y), w) == And32(WordOf(x, w), WordOf(y, w))
    ensures WordOf(Or64(x, y), w) == Or32(WordOf(x, w), WordOf(y, w))
  {
    var xh, xl, yh, yl := WordOf(x, High), WordOf(x, Low), WordOf(y, High), WordOf(y, Low);
    AndRecombines(xh, xl, yh, yl);
    OrRecombines(xh, xl, yh, yl);
    WordsOfSum(And32(xh, yh), And32(xl, yl));
    WordsOfSum(Or32(xh, yh), Or32(xl, yl));
  }

  lemma Word32Laws(a: u32, b: u32)
    ensures And32(a, b) == And32(b, a) && Or32(a, b) == Or32(b, a)
    ensures And32(a, 0) == 0 && And32(a, UINT32_MAX) == a
    ensures Or32(a, 0) == a && Or32(a, UINT32_MAX) == UINT32_MAX
    ensures And32(And32(a, b), b) == And32(a, b)
  {
    PowersOfTwo();
    BitAndCommutes(a, b); BitOrCommutes(a, b);
    BitAndZero(a); BitOrZero(a); BitwiseOnes(32, a);
    BitAndAbsorbs(a, b);
  }

  lemma Word64Laws(a: u64, b: u64)
    ensures And64(a, b) == And64(b, a) && Or64(a, b) == Or64(b, a)
    ensures And64(a, 0) == 0 && And64(a, UINT64_MAX) == a
    ensures Or64(a, 0) == a && Or64(a, UINT64_MAX) == UINT64_MAX
  {
    PowersOfTwo();
    BitAndCommutes(a, b); BitOrCommutes(a, b);
    BitAndZero(a); BitOrZero(a); BitwiseOnes(64, a);
  }

  /** The 64-bit order is the lexicographic order on (high, low). */
  lemma OrderByWord(x: u64, y: u64)
    ensures x > y <==> WordOf(x, High) > WordOf(y, High)
                       || (WordOf(x, High) == WordOf(y, High) && WordOf(x, Low) > WordOf(y, Low))
    ensures x == y <==> WordOf(x, High) == WordOf(y, High) && WordOf(x, Low) == WordOf(y, Low)
  {
  }
}
