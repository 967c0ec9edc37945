/**
 * JavaScript numbers as far as the digest uses them: bit operators work on the
 * 32-bit two's complement of a number and, except `>>>`, give a signed result.
 */
module JsNumbers {
  const TWO32 := 0x1_0000_0000

  type Word = w: int | 0 <= w < 0x1_0000_0000

  /** Integers up to this magnitude are exact in double precision. */
  const MAX_EXACT := 0x20_0000_0000_0000

  function Bits(n: int): bv32 { (n % TWO32) as bv32 }

  function Unsigned(b: bv32): Word { b as int }

  function Signed(b: bv32): int {
    if Unsigned(b) < 0x8000_0000 then Unsigned(b) else Unsigned(b) - TWO32
  }

  function ShiftLeft(n: int, k: bv32): int requires k < 32 { Signed(Bits(n) << k) }

  function ShiftRightZero(n: int, k: bv32): Word requires k < 32 { Unsigned(Bits(n) >> k) }

  function Or(m: int, n: int): int { Signed(Bits(m) | Bits(n)) }

  function Xor(m: int, n: int): int { Signed(Bits(m) ^ Bits(n)) }

  function And(m: int, n: int): int { Signed(Bits(m) & Bits(n)) }

  function Not(n: int): int { Signed(!Bits(n)) }

  /** `n >>> 0`. */
  function ToUint32(n: int): Word { n % TWO32 }

  /** A sum of numbers that the runtime computes without rounding. */
  function Exact(n: int): int
    requires -MAX_EXACT <= n <= MAX_EXACT
  {
    n
  }

  lemma FromInt(b: bv32)
    ensures Unsigned(b) as bv32 == b
  {
  }

  lemma SmallMod(n: int)
    requires 0 <= n < TWO32
    ensures n % TWO32 == n && (n - TWO32) % TWO32 == n
  {
  }

  lemma BitsOfWord(w: Word)
    ensures Bits(w) == w as bv32
  {
    SmallMod(w);
  }

  lemma BitsOfUnsigned(b: bv32)
    ensures Bits(Unsigned(b)) == b
  {
    hide Bits, Unsigned;
    FromInt(b);
    BitsOfWord(Unsigned(b));
  }

  lemma SameBits(n: int, m: int)
    requires n % TWO32 == m % TWO32
    ensures Bits(n) == Bits(m)
  {
  }

  lemma BitsOfSigned(b: bv32)
    ensures Bits(Signed(b)) == b
    ensures -0x8000_0000 <= Signed(b) < 0x8000_0000
    ensures Signed(b) == Unsigned(b) || Signed(b) == Unsigned(b) - TWO32
  {
    hide Bits, Unsigned;
    BitsOfUnsigned(b);
    SmallMod(Unsigned(b));
    SameBits(Signed(b), Unsigned(b));
  }

  // What the operators do to the 32 bits of their operands.

  lemma BitsOfShiftRightZero(n: int, k: bv32)
    requires k < 32
    ensures Bits(ShiftRightZero(n, k)) == Bits(n) >> k
  {
    hide Bits, Unsigned;
    BitsOfUnsigned(Bits(n) >> k);
  }

  lemma BitsOfShiftLeft(n: int, k: bv32)
    requires k < 32
    ensures Bits(ShiftLeft(n, k)) == Bits(n) << k
  {
    hide Bits, Signed;
    BitsOfSigned(Bits(n) << k);
  }

  lemma BitsOfOr(m: int, n: int)
    ensures Bits(Or(m, n)) == Bits(m) | Bits(n)
  {
    hide Bits, Signed;
    BitsOfSigned(Bits(m) | Bits(n));
  }

  lemma BitsOfXor(m: int, n: int)
    ensures Bits(Xor(m, n)) == Bits(m) ^ Bits(n)
  {
    hide Bits, Signed;
    BitsOfSigned(Bits(m) ^ Bits(n));
  }

  lemma BitsOfAnd(m: int, n: int)
    ensures Bits(And(m, n)) == Bits(m) & Bits(n)
  {
    hide Bits, Signed;
    BitsOfSigned(Bits(m) & Bits(n));
  }

  lemma BitsOfNot(n: int)
    ensures Bits(Not(n)) == !Bits(n)
  {
    hide Bits, Signed;
    BitsOfSigned(!Bits(n));
  }

  lemma Uint32OfSigned(b: bv32)
    ensures ToUint32(Signed(b)) == Unsigned(b)
  {
    SmallMod(Unsigned(b));
  }
}
