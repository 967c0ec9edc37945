/**
 * The constants of SHA-256, from their definition in FIPS 180-4: the fractional parts of the cube
 * roots of the first 64 primes (section 4.2.2) and of the square roots of the first eight
 * (section 5.3.3), to 32 bits.
 */
module Sha256Constants {
  import opened JsNumbers
  import opened Sha256

  // ---- The first primes -----------------------------------------------------------------------------

  ghost predicate IsPrime(n: nat) {
    n >= 2 && forall d :: 2 <= d < n ==> n % d != 0
  }

  /** No number from `d` up to the square root divides `n`. */
  predicate NoDivisor(n: nat, d: nat)
    requires d >= 2
    decreases if d * d > n then 0 else n + 1 - d
  {
    d * d > n || (n % d != 0 && NoDivisor(n, d + 1))
  }

  /** Divisible by one of the primes up to 17, and larger than it. */
  predicate Composite(n: nat) {
    || (n > 2 && n % 2 == 0) || (n > 3 && n % 3 == 0) || (n > 5 && n % 5 == 0) || (n > 7 && n % 7 == 0)
    || (n > 11 && n % 11 == 0) || (n > 13 && n % 13 == 0) || (n > 17 && n % 17 == 0)
  }

  predicate NoneBetween(p: nat, q: nat)
    decreases q - p
  {
    p + 1 >= q || (Composite(p + 1) && NoneBetween(p + 1, q))
  }

  /** Trial division up to the square root is enough. */
  lemma {:induction false} NothingDivides(n: nat, d: nat, e: nat)
    requires 2 <= d <= e < n && NoDivisor(n, d) && e * e <= n
    ensures n % e != 0
    decreases e - d
  {
    SquaresGrow(d, e);
    if d < e {
      SquaresGrow(d, e);
      NothingDivides(n, d + 1, e);
    }
  }

  lemma SquaresGrow(d: nat, e: nat)
    requires d <= e
    ensures d * d <= e * e
  {
  }

  lemma NoDivisorMeans(n: nat)
    requires n >= 2 && NoDivisor(n, 2)
    ensures IsPrime(n)
  {
    forall e | 2 <= e < n ensures n % e != 0 {
      if n % e == 0 {
        var f := n / e;
        assert n == f * e;
        if e * e <= n {
          NothingDivides(n, 2, e);
        } else {
          Partner(n, e, f);
          NothingDivides(n, 2, f);
        }
      }
    }
  }

  /** A divisor beyond the square root has a partner below it. */
  lemma Partner(n: nat, e: nat, f: nat)
    requires 2 <= e < n && e * e > n && n == f * e
    ensures 2 <= f < e && f * f <= n && n % f == 0
  {
    if f >= e { ProductsGrow(e, f, e); }
    if f < 2 { ProductsGrow(f, 1, e); }
    ProductsGrow(f, e, f);
    Multiple(f, e);
  }

  lemma ProductsGrow(a: nat, b: nat, c: nat)
    requires a <= b
    ensures a * c <= b * c
  {
  }

  lemma Multiple(f: nat, e: nat)
    requires f > 0
    ensures f * e % f == 0
  {
    var q, r := f * e / f, f * e % f;
    assert f * e == f * q + r;
    if e > q { ProductsGrow(q + 1, e, f); } else { ProductsGrow(e, q, f); }
  }

  const PRIMES: seq<nat> :=
    [2, 3, 5, 7, 11, 13, 17, 19]
    + [23, 29, 31, 37, 41, 43, 47, 53]
    + [59, 61, 67, 71, 73, 79, 83, 89]
    + [97, 101, 103, 107, 109, 113, 127, 131]
    + [137, 139, 149, 151, 157, 163, 167, 173]
    + [179, 181, 191, 193, 197, 199, 211, 223]
    + [227, 229, 233, 239, 241, 251, 257, 263]
    + [269, 271, 277, 281, 283, 293, 307, 311]

  /** Eight neighbouring entries of a table. */
  predicate IsRow(s: seq<int>, from: nat, a: int, b: int, c: int, d: int, e: int, f: int, g: int, h: int) {
    && from + 8 <= |s|
    && s[from] == a && s[from + 1] == b && s[from + 2] == c && s[from + 3] == d
    && s[from + 4] == e && s[from + 5] == f && s[from + 6] == g && s[from + 7] == h
  }

  lemma Row0()
    ensures IsRow(PRIMES, 0, 2, 3, 5, 7, 11, 13, 17, 19)
    ensures IsRow(K, 0, 0x428a2f98, 0x71374491, 0xb5c0fbcf, 0xe9b5dba5, 0x3956c25b, 0x59f111f1, 0x923f82a4, 0xab1c5ed5)
  {
  }

  lemma Row8()
    ensures IsRow(PRIMES, 8, 23, 29, 31, 37, 41, 43, 47, 53)
    ensures IsRow(K, 8, 0xd807aa98, 0x12835b01, 0x243185be, 0x550c7dc3, 0x72be5d74, 0x80deb1fe, 0x9bdc06a7, 0xc19bf174)
  {
  }

  lemma Row16()
    ensures IsRow(PRIMES, 16, 59, 61, 67, 71, 73, 79, 83, 89)
    ensures IsRow(K, 16, 0xe49b69c1, 0xefbe4786, 0x0fc19dc6, 0x240ca1cc, 0x2de92c6f, 0x4a7484aa, 0x5cb0a9dc, 0x76f988da)
  {
  }

  lemma Row24()
    ensures IsRow(PRIMES, 24, 97, 101, 103, 107, 109, 113, 127, 131)
    ensures IsRow(K, 24, 0x983e5152, 0xa831c66d, 0xb00327c8, 0xbf597fc7, 0xc6e00bf3, 0xd5a79147, 0x06ca6351, 0x14292967)
  {
  }

  lemma Row32()
    ensures IsRow(PRIMES, 32, 137, 139, 149, 151, 157, 163, 167, 173)
    ensures IsRow(K, 32, 0x27b70a85, 0x2e1b2138, 0x4d2c6dfc, 0x53380d13, 0x650a7354, 0x766a0abb, 0x81c2c92e, 0x92722c85)
  {
  }

  lemma Row40()
    ensures IsRow(PRIMES, 40, 179, 181, 191, 193, 197, 199, 211, 223)
    ensures IsRow(K, 40, 0xa2bfe8a1, 0xa81a664b, 0xc24b8b70, 0xc76c51a3, 0xd192e819, 0xd6990624, 0xf40e3585, 0x106aa070)
  {
  }

  lemma Row48()
    ensures IsRow(PRIMES, 48, 227, 229, 233, 239, 241, 251, 257, 263)
    ensures IsRow(K, 48, 0x19a4c116, 0x1e376c08, 0x2748774c, 0x34b0bcb5, 0x391c0cb3, 0x4ed8aa4a, 0x5b9cca4f, 0x682e6ff3)
  {
  }

  lemma Row56()
    ensures IsRow(PRIMES, 56, 269, 271, 277, 281, 283, 293, 307, 311)
    ensures IsRow(K, 56, 0x748f82ee, 0x78a5636f, 0x84c87814, 0x8cc70208, 0x90befffa, 0xa4506ceb, 0xbef9a3f7, 0xc67178f2)
  {
  }

  lemma PrimesUpTo19()
    ensures forall i :: 0 <= i < 8 ==>
              NoDivisor(PRIMES[i], 2) && NoneBetween(if i == 0 then 1 else PRIMES[i - 1], PRIMES[i])
  {
    hide PRIMES, K;
    Row0();
    assert NoDivisor(2, 2); assert NoneBetween(1, 2);
    assert NoDivisor(3, 2); assert NoneBetween(2, 3);
    assert NoDivisor(5, 2); assert NoneBetween(3, 5);
    assert NoDivisor(7, 2); assert NoneBetween(5, 7);
    assert NoDivisor(11, 2); assert NoneBetween(7, 11);
    assert NoDivisor(13, 2); assert NoneBetween(11, 13);
    assert NoDivisor(17, 2); assert NoneBetween(13, 17);
    assert NoDivisor(19, 2); assert NoneBetween(17, 19);
  }

  lemma PrimesUpTo53()
    ensures forall i :: 8 <= i < 16 ==>
              NoDivisor(PRIMES[i], 2) && NoneBetween(if i == 0 then 1 else PRIMES[i - 1], PRIMES[i])
  {
    hide PRIMES, K;
    Row0();
    Row8();
    assert NoDivisor(23, 2); assert NoneBetween(19, 23);
    assert NoDivisor(29, 2); assert NoneBetween(26, 29); assert NoneBetween(23, 29);
    assert NoDivisor(31, 2); assert NoneBetween(29, 31);
    assert NoDivisor(37, 2); assert NoneBetween(34, 37); assert NoneBetween(31, 37);
    assert NoDivisor(41, 2); assert NoneBetween(37, 41);
    assert NoDivisor(43, 2); assert NoneBetween(41, 43);
    assert NoDivisor(47, 2); assert NoneBetween(43, 47);
    assert NoDivisor(53, 2); assert NoneBetween(50, 53); assert NoneBetween(47, 53);
  }

  lemma PrimesUpTo89()
    ensures forall i :: 16 <= i < 24 ==>
              NoDivisor(PRIMES[i], 2) && NoneBetween(if i == 0 then 1 else PRIMES[i - 1], PRIMES[i])
  {
    hide PRIMES, K;
    Row8();
    Row16();
    assert NoDivisor(59, 2); assert NoneBetween(56, 59); assert NoneBetween(53, 59);
    assert NoDivisor(61, 2); assert NoneBetween(59, 61);
    assert NoDivisor(67, 2); assert NoneBetween(64, 67); assert NoneBetween(61, 67);
    assert NoDivisor(71, 2); assert NoneBetween(67, 71);
    assert NoDivisor(73, 2); assert NoneBetween(71, 73);
    assert NoDivisor(79, 2); assert NoneBetween(76, 79); assert NoneBetween(73, 79);
    assert NoDivisor(83, 2); assert NoneBetween(79, 83);
    assert NoDivisor(89, 2); assert NoneBetween(86, 89); assert NoneBetween(83, 89);
  }

  lemma PrimesUpTo131()
    ensures forall i :: 24 <= i < 32 ==>
              NoDivisor(PRIMES[i], 2) && NoneBetween(if i == 0 then 1 else PRIMES[i - 1], PRIMES[i])
  {
    hide PRIMES, K;
    Row16();
    Row24();
    assert NoDivisor(97, 2); assert NoneBetween(93, 97); assert NoneBetween(89, 97);
    assert NoDivisor(101, 9); assert NoDivisor(101, 2); assert NoneBetween(97, 101);
    assert NoDivisor(103, 9); assert NoDivisor(103, 2); assert NoneBetween(101, 103);
    assert NoDivisor(107, 9); assert NoDivisor(107, 2); assert NoneBetween(103, 107);
    assert NoDivisor(109, 9); assert NoDivisor(109, 2); assert NoneBetween(107, 109);
    assert NoDivisor(113, 9); assert NoDivisor(113, 2); assert NoneBetween(109, 113);
    assert NoDivisor(127, 9); assert NoDivisor(127, 2); assert NoneBetween(123, 127);
    assert NoneBetween(120, 127); assert NoneBetween(113, 127);
    assert NoDivisor(131, 9); assert NoDivisor(131, 2); assert NoneBetween(127, 131);
  }

  lemma PrimesUpTo173()
    ensures forall i :: 32 <= i < 40 ==>
              NoDivisor(PRIMES[i], 2) && NoneBetween(if i == 0 then 1 else PRIMES[i - 1], PRIMES[i])
  {
    hide PRIMES, K;
    Row24();
    Row32();
    assert NoDivisor(137, 9); assert NoDivisor(137, 2); assert NoneBetween(134, 137);
    assert NoneBetween(131, 137);
    assert NoDivisor(139, 9); assert NoDivisor(139, 2); assert NoneBetween(137, 139);
    assert NoDivisor(149, 9); assert NoDivisor(149, 2); assert NoneBetween(146, 149);
    assert NoneBetween(144, 149); assert NoneBetween(139, 149);
    assert NoDivisor(151, 9); assert NoDivisor(151, 2); assert NoneBetween(149, 151);
    assert NoDivisor(157, 9); assert NoDivisor(157, 2); assert NoneBetween(154, 157);
    assert NoneBetween(151, 157);
    assert NoDivisor(163, 9); assert NoDivisor(163, 2); assert NoneBetween(160, 163);
    assert NoneBetween(157, 163);
    assert NoDivisor(167, 9); assert NoDivisor(167, 2); assert NoneBetween(163, 167);
    assert NoDivisor(173, 9); assert NoDivisor(173, 2); assert NoneBetween(170, 173);
    assert NoneBetween(167, 173);
  }

  lemma PrimesUpTo223()
    ensures forall i :: 40 <= i < 48 ==>
              NoDivisor(PRIMES[i], 2) && NoneBetween(if i == 0 then 1 else PRIMES[i - 1], PRIMES[i])
  {
    hide PRIMES, K;
    Row32();
    Row40();
    assert NoDivisor(179, 9); assert NoDivisor(179, 2); assert NoneBetween(176, 179);
    assert NoneBetween(173, 179);
    assert NoDivisor(181, 9); assert NoDivisor(181, 2); assert NoneBetween(179, 181);
    assert NoDivisor(191, 9); assert NoDivisor(191, 2); assert NoneBetween(188, 191);
    assert NoneBetween(186, 191); assert NoneBetween(181, 191);
    assert NoDivisor(193, 9); assert NoDivisor(193, 2); assert NoneBetween(191, 193);
    assert NoDivisor(197, 9); assert NoDivisor(197, 2); assert NoneBetween(193, 197);
    assert NoDivisor(199, 9); assert NoDivisor(199, 2); assert NoneBetween(197, 199);
    assert NoDivisor(211, 9); assert NoDivisor(211, 2); assert NoneBetween(208, 211);
    assert NoneBetween(205, 211); assert NoneBetween(199, 211);
    assert NoDivisor(223, 9); assert NoDivisor(223, 2); assert NoneBetween(220, 223);
    assert NoneBetween(217, 223); assert NoneBetween(211, 223);
  }

  lemma PrimesUpTo263()
    ensures forall i :: 48 <= i < 56 ==>
              NoDivisor(PRIMES[i], 2) && NoneBetween(if i == 0 then 1 else PRIMES[i - 1], PRIMES[i])
  {
    hide PRIMES, K;
    Row40();
    Row48();
    assert NoDivisor(227, 9); assert NoDivisor(227, 2); assert NoneBetween(223, 227);
    assert NoDivisor(229, 9); assert NoDivisor(229, 2); assert NoneBetween(227, 229);
    assert NoDivisor(233, 9); assert NoDivisor(233, 2); assert NoneBetween(229, 233);
    assert NoDivisor(239, 9); assert NoDivisor(239, 2); assert NoneBetween(236, 239);
    assert NoneBetween(233, 239);
    assert NoDivisor(241, 9); assert NoDivisor(241, 2); assert NoneBetween(239, 241);
    assert NoDivisor(251, 9); assert NoDivisor(251, 2); assert NoneBetween(248, 251);
    assert NoneBetween(246, 251); assert NoneBetween(241, 251);
    assert NoDivisor(257, 9); assert NoDivisor(257, 2); assert NoneBetween(254, 257);
    assert NoneBetween(251, 257);
    assert NoDivisor(263, 9); assert NoDivisor(263, 2); assert NoneBetween(260, 263);
    assert NoneBetween(257, 263);
  }

  lemma PrimesUpTo311()
    ensures forall i :: 56 <= i < 64 ==>
              NoDivisor(PRIMES[i], 2) && NoneBetween(if i == 0 then 1 else PRIMES[i - 1], PRIMES[i])
  {
    hide PRIMES, K;
    Row48();
    Row56();
    assert NoDivisor(269, 9); assert NoDivisor(269, 2); assert NoneBetween(266, 269);
    assert NoneBetween(263, 269);
    assert NoDivisor(271, 9); assert NoDivisor(271, 2); assert NoneBetween(269, 271);
    assert NoDivisor(277, 9); assert NoDivisor(277, 2); assert NoneBetween(274, 277);
    assert NoneBetween(271, 277);
    assert NoDivisor(281, 9); assert NoDivisor(281, 2); assert NoneBetween(277, 281);
    assert NoDivisor(283, 9); assert NoDivisor(283, 2); assert NoneBetween(281, 283);
    assert NoDivisor(293, 9); assert NoDivisor(293, 2); assert NoneBetween(290, 293);
    assert NoneBetween(288, 293); assert NoneBetween(283, 293);
    assert NoDivisor(307, 9); assert NoDivisor(307, 2); assert NoneBetween(303, 307);
    assert NoneBetween(300, 307); assert NoneBetween(293, 307);
    assert NoDivisor(311, 9); assert NoDivisor(311, 2); assert NoneBetween(307, 311);
  }

  lemma PrimeRows(i: nat)
    requires i < 64
    ensures NoDivisor(PRIMES[i], 2) && NoneBetween(if i == 0 then 1 else PRIMES[i - 1], PRIMES[i])
  {
    hide NoDivisor, NoneBetween;
    PrimesUpTo19();
    PrimesUpTo53();
    PrimesUpTo89();
    PrimesUpTo131();
    PrimesUpTo173();
    PrimesUpTo223();
    PrimesUpTo263();
    PrimesUpTo311();
  }

  lemma {:induction false} NoneBetweenMeans(p: nat, q: nat, n: nat)
    requires NoneBetween(p, q) && p < n < q
    ensures !IsPrime(n)
    decreases n - p
  {
    if n > p + 1 { NoneBetweenMeans(p + 1, q, n); }
  }

  /** Each entry is the next prime after the one before it, and the first is the least. */
  lemma PrimesAreTheFirst(i: nat)
    requires i < 64
    ensures IsPrime(PRIMES[i])
    ensures forall n :: (if i == 0 then 0 else PRIMES[i - 1]) < n < PRIMES[i] ==> !IsPrime(n)
  {
    hide NoDivisor, NoneBetween;
    PrimeRows(i);
    NoDivisorMeans(PRIMES[i]);
    forall n | (if i == 0 then 0 else PRIMES[i - 1]) < n < PRIMES[i] ensures !IsPrime(n) {
      if n > 1 { NoneBetweenMeans(if i == 0 then 1 else PRIMES[i - 1], PRIMES[i], n); }
    }
  }

  // ---- Roots ------------------------------------------------------------------------------------------

  function Square(x: nat): nat { x * x }

  function Cube(x: nat): nat { x * x * x }

  /** The first 32 bits of the fractional part of the square root of `p`: the root is between `x` and `x + 1` over 2^32. */
  ghost predicate SquareRootBits(p: nat, w: Word) {
    exists x: nat :: Square(x) <= p * Square(TWO32) < Square(x + 1) && x % TWO32 == w
  }

  ghost predicate CubeRootBits(p: nat, w: Word) {
    exists x: nat :: Cube(x) <= p * Cube(TWO32) < Cube(x + 1) && x % TWO32 == w
  }

  lemma CubesGrow(x: nat, y: nat)
    requires x <= y
    ensures Cube(x) <= Cube(y)
  {
    SquaresGrow(x, y);
    ProductsGrow(x * x, y * y, x);
    ProductsGrow(x, y, y * y);
  }

  /** Only one word has this property. */
  lemma CubeRootBitsUnique(p: nat, v: Word, w: Word)
    requires CubeRootBits(p, v) && CubeRootBits(p, w)
    ensures v == w
  {
    hide Cube;
    var x: nat :| Cube(x) <= p * Cube(TWO32) < Cube(x + 1) && x % TWO32 == v;
    var y: nat :| Cube(y) <= p * Cube(TWO32) < Cube(y + 1) && y % TWO32 == w;
    if x < y { CubesGrow(x + 1, y); }
    if y < x { CubesGrow(y + 1, x); }
  }

  lemma CubeRoot(i: nat, p: nat, c: nat, k: Word)
    requires i < 64 && PRIMES[i] == p && K[i] == k
    requires Cube(c * TWO32 + k) <= p * Cube(TWO32) < Cube(c * TWO32 + k + 1)
    ensures CubeRootBits(PRIMES[i], K[i])
  {
    hide Cube;
    assert (c * TWO32 + k) % TWO32 == k;
  }

  lemma CubeRoots0()
    ensures forall i :: 0 <= i < 8 ==> CubeRootBits(PRIMES[i], K[i])
  {
    hide CubeRootBits, PRIMES, K;
    Row0();
    CubeRoot(0, 2, 1, 0x428a2f98);
    CubeRoot(1, 3, 1, 0x71374491);
    CubeRoot(2, 5, 1, 0xb5c0fbcf);
    CubeRoot(3, 7, 1, 0xe9b5dba5);
    CubeRoot(4, 11, 2, 0x3956c25b);
    CubeRoot(5, 13, 2, 0x59f111f1);
    CubeRoot(6, 17, 2, 0x923f82a4);
    CubeRoot(7, 19, 2, 0xab1c5ed5);
  }

  lemma CubeRoots8()
    ensures forall i :: 8 <= i < 16 ==> CubeRootBits(PRIMES[i], K[i])
  {
    hide CubeRootBits, PRIMES, K;
    Row8();
    CubeRoot(8, 23, 2, 0xd807aa98);
    CubeRoot(9, 29, 3, 0x12835b01);
    CubeRoot(10, 31, 3, 0x243185be);
    CubeRoot(11, 37, 3, 0x550c7dc3);
    CubeRoot(12, 41, 3, 0x72be5d74);
    CubeRoot(13, 43, 3, 0x80deb1fe);
    CubeRoot(14, 47, 3, 0x9bdc06a7);
    CubeRoot(15, 53, 3, 0xc19bf174);
  }

  lemma CubeRoots16()
    ensures forall i :: 16 <= i < 24 ==> CubeRootBits(PRIMES[i], K[i])
  {
    hide CubeRootBits, PRIMES, K;
    Row16();
    CubeRoot(16, 59, 3, 0xe49b69c1);
    CubeRoot(17, 61, 3, 0xefbe4786);
    CubeRoot(18, 67, 4, 0x0fc19dc6);
    CubeRoot(19, 71, 4, 0x240ca1cc);
    CubeRoot(20, 73, 4, 0x2de92c6f);
    CubeRoot(21, 79, 4, 0x4a7484aa);
    CubeRoot(22, 83, 4, 0x5cb0a9dc);
    CubeRoot(23, 89, 4, 0x76f988da);
  }

  lemma CubeRoots24()
    ensures forall i :: 24 <= i < 32 ==> CubeRootBits(PRIMES[i], K[i])
  {
    hide CubeRootBits, PRIMES, K;
    Row24();
    CubeRoot(24, 97, 4, 0x983e5152);
    CubeRoot(25, 101, 4, 0xa831c66d);
    CubeRoot(26, 103, 4, 0xb00327c8);
    CubeRoot(27, 107, 4, 0xbf597fc7);
    CubeRoot(28, 109, 4, 0xc6e00bf3);
    CubeRoot(29, 113, 4, 0xd5a79147);
    CubeRoot(30, 127, 5, 0x06ca6351);
    CubeRoot(31, 131, 5, 0x14292967);
  }

  lemma CubeRoots32()
    ensures forall i :: 32 <= i < 40 ==> CubeRootBits(PRIMES[i], K[i])
  {
    hide CubeRootBits, PRIMES, K;
    Row32();
    CubeRoot(32, 137, 5, 0x27b70a85);
    CubeRoot(33, 139, 5, 0x2e1b2138);
    CubeRoot(34, 149, 5, 0x4d2c6dfc);
    CubeRoot(35, 151, 5, 0x53380d13);
    CubeRoot(36, 157, 5, 0x650a7354);
    CubeRoot(37, 163, 5, 0x766a0abb);
    CubeRoot(38, 167, 5, 0x81c2c92e);
    CubeRoot(39, 173, 5, 0x92722c85);
  }

  lemma CubeRoots40()
    ensures forall i :: 40 <= i < 48 ==> CubeRootBits(PRIMES[i], K[i])
  {
    hide CubeRootBits, PRIMES, K;
    Row40();
    CubeRoot(40, 179, 5, 0xa2bfe8a1);
    CubeRoot(41, 181, 5, 0xa81a664b);
    CubeRoot(42, 191, 5, 0xc24b8b70);
    CubeRoot(43, 193, 5, 0xc76c51a3);
    CubeRoot(44, 197, 5, 0xd192e819);
    CubeRoot(45, 199, 5, 0xd6990624);
    CubeRoot(46, 211, 5, 0xf40e3585);
    CubeRoot(47, 223, 6, 0x106aa070);
  }

  lemma CubeRoots48()
    ensures forall i :: 48 <= i < 56 ==> CubeRootBits(PRIMES[i], K[i])
  {
    hide CubeRootBits, PRIMES, K;
    Row48();
    CubeRoot(48, 227, 6, 0x19a4c116);
    CubeRoot(49, 229, 6, 0x1e376c08);
    CubeRoot(50, 233, 6, 0x2748774c);
    CubeRoot(51, 239, 6, 0x34b0bcb5);
    CubeRoot(52, 241, 6, 0x391c0cb3);
    CubeRoot(53, 251, 6, 0x4ed8aa4a);
    CubeRoot(54, 257, 6, 0x5b9cca4f);
    CubeRoot(55, 263, 6, 0x682e6ff3);
  }

  lemma CubeRoots56()
    ensures forall i :: 56 <= i < 64 ==> CubeRootBits(PRIMES[i], K[i])
  {
    hide CubeRootBits, PRIMES, K;
    Row56();
    CubeRoot(56, 269, 6, 0x748f82ee);
    CubeRoot(57, 271, 6, 0x78a5636f);
    CubeRoot(58, 277, 6, 0x84c87814);
    CubeRoot(59, 281, 6, 0x8cc70208);
    CubeRoot(60, 283, 6, 0x90befffa);
    CubeRoot(61, 293, 6, 0xa4506ceb);
    CubeRoot(62, 307, 6, 0xbef9a3f7);
    CubeRoot(63, 311, 6, 0xc67178f2);
  }

  /** The round constants are those of the standard. */
  lemma RoundConstants(i: nat)
    requires i < 64
    ensures CubeRootBits(PRIMES[i], K[i])
  {
    hide CubeRootBits;
    CubeRoots0();
    CubeRoots8();
    CubeRoots16();
    CubeRoots24();
    CubeRoots32();
    CubeRoots40();
    CubeRoots48();
    CubeRoots56();
  }

  lemma SquareRoot(p: nat, c: nat, h: Word)
    requires Square(c * TWO32 + h) <= p * Square(TWO32) < Square(c * TWO32 + h + 1)
    ensures SquareRootBits(p, h)
  {
    hide Square;
    assert (c * TWO32 + h) % TWO32 == h;
  }

  /** The initial hash value is that of the standard. */
  lemma InitialHash(i: nat)
    requires i < 8
    ensures SquareRootBits(PRIMES[i], Words(H0)[i])
  {
    hide SquareRootBits;
    SquareRoot(2, 1, 0x6a09e667);
    SquareRoot(3, 1, 0xbb67ae85);
    SquareRoot(5, 2, 0x3c6ef372);
    SquareRoot(7, 2, 0xa54ff53a);
    SquareRoot(11, 3, 0x510e527f);
    SquareRoot(13, 3, 0x9b05688c);
    SquareRoot(17, 4, 0x1f83d9ab);
    SquareRoot(19, 4, 0x5be0cd19);
  }
}
