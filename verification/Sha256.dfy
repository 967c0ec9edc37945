/**
 * The digest of the document state, against SHA-256 as FIPS 180-4 defines it
 * (sections 4.1.2, 4.2.2, 5.1.1, 5.3.3 and 6.2.2).
 */
module Sha256 {
  import opened JsNumbers

  type Byte = b: int | 0 <= b < 256

  // ---- The standard --------------------------------------------------------------------------------

  const K: seq<Word> :=
    [0x428a2f98, 0x71374491, 0xb5c0fbcf, 0xe9b5dba5, 0x3956c25b, 0x59f111f1, 0x923f82a4, 0xab1c5ed5]
    + [0xd807aa98, 0x12835b01, 0x243185be, 0x550c7dc3, 0x72be5d74, 0x80deb1fe, 0x9bdc06a7, 0xc19bf174]
    + [0xe49b69c1, 0xefbe4786, 0x0fc19dc6, 0x240ca1cc, 0x2de92c6f, 0x4a7484aa, 0x5cb0a9dc, 0x76f988da]
    + [0x983e5152, 0xa831c66d, 0xb00327c8, 0xbf597fc7, 0xc6e00bf3, 0xd5a79147, 0x06ca6351, 0x14292967]
    + [0x27b70a85, 0x2e1b2138, 0x4d2c6dfc, 0x53380d13, 0x650a7354, 0x766a0abb, 0x81c2c92e, 0x92722c85]
    + [0xa2bfe8a1, 0xa81a664b, 0xc24b8b70, 0xc76c51a3, 0xd192e819, 0xd6990624, 0xf40e3585, 0x106aa070]
    + [0x19a4c116, 0x1e376c08, 0x2748774c, 0x34b0bcb5, 0x391c0cb3, 0x4ed8aa4a, 0x5b9cca4f, 0x682e6ff3]
    + [0x748f82ee, 0x78a5636f, 0x84c87814, 0x8cc70208, 0x90befffa, 0xa4506ceb, 0xbef9a3f7, 0xc67178f2]

  const H0: Vars := Vars(0x6a09e667, 0xbb67ae85, 0x3c6ef372, 0xa54ff53a, 0x510e527f, 0x9b05688c, 0x1f83d9ab, 0x5be0cd19)

  /** The eight working variables, or the eight words of a hash value. */
  datatype Vars = Vars(a: Word, b: Word, c: Word, d: Word, e: Word, f: Word, g: Word, h: Word)

  function Rotr(x: bv32, n: bv32): bv32 requires 0 < n < 32 { (x >> n) | (x << (32 - n)) }

  function Ch(x: bv32, y: bv32, z: bv32): bv32 { (x & y) ^ (!x & z) }

  function Maj(x: bv32, y: bv32, z: bv32): bv32 { (x & y) ^ (x & z) ^ (y & z) }

  function BigSigma0(x: bv32): bv32 { Rotr(x, 2) ^ Rotr(x, 13) ^ Rotr(x, 22) }

  function BigSigma1(x: bv32): bv32 { Rotr(x, 6) ^ Rotr(x, 11) ^ Rotr(x, 25) }

  function SmallSigma0(x: bv32): bv32 { Rotr(x, 7) ^ Rotr(x, 18) ^ (x >> 3) }

  function SmallSigma1(x: bv32): bv32 { Rotr(x, 17) ^ Rotr(x, 19) ^ (x >> 10) }

  /** Addition of words, modulo 2^32. */
  function Add(x: Word, y: Word): Word { (x + y) % TWO32 }

  function W(block: seq<Word>, t: nat): Word
    requires |block| == 16
  {
    if t < 16 then block[t]
    else Add(Add(Unsigned(SmallSigma1(Bits(W(block, t - 2)))), W(block, t - 7)),
             Add(Unsigned(SmallSigma0(Bits(W(block, t - 15)))), W(block, t - 16)))
  }

  function Round(v: Vars, k: Word, w: Word): Vars {
    var t1 := Add(Add(Add(Add(v.h, Unsigned(BigSigma1(Bits(v.e)))), Unsigned(Ch(Bits(v.e), Bits(v.f), Bits(v.g)))), k), w);
    var t2 := Add(Unsigned(BigSigma0(Bits(v.a))), Unsigned(Maj(Bits(v.a), Bits(v.b), Bits(v.c))));
    Vars(Add(t1, t2), v.a, v.b, v.c, Add(v.d, t1), v.e, v.f, v.g)
  }

  function Rounds(v: Vars, block: seq<Word>, t: nat): Vars
    requires |block| == 16 && t <= 64
  {
    if t == 0 then v else Round(Rounds(v, block, t - 1), K[t - 1], W(block, t - 1))
  }

  function AddVars(u: Vars, v: Vars): Vars {
    Vars(Add(u.a, v.a), Add(u.b, v.b), Add(u.c, v.c), Add(u.d, v.d),
         Add(u.e, v.e), Add(u.f, v.f), Add(u.g, v.g), Add(u.h, v.h))
  }

  function Compress(hash: Vars, block: seq<Word>): Vars
    requires |block| == 16
  {
    AddVars(Rounds(hash, block, 64), hash)
  }

  /** Four bytes as one word, most significant first. */
  function BigEndian(b0: Byte, b1: Byte, b2: Byte, b3: Byte): Word {
    Unsigned((Bits(b0) << 24) | (Bits(b1) << 16) | (Bits(b2) << 8) | Bits(b3))
  }

  function BlockAt(padded: seq<Byte>, n: nat): (block: seq<Word>)
    requires 64 * n + 64 <= |padded|
    ensures |block| == 16
  {
    seq(16, i requires 0 <= i < 16 =>
      BigEndian(padded[64 * n + 4 * i], padded[64 * n + 4 * i + 1], padded[64 * n + 4 * i + 2], padded[64 * n + 4 * i + 3]))
  }

  function HashBlocks(padded: seq<Byte>, n: nat): Vars
    requires 64 * n <= |padded|
  {
    if n == 0 then H0 else Compress(HashBlocks(padded, n - 1), BlockAt(padded, n - 1))
  }

  type Block = block: seq<Word> | |block| == 16 witness [0, 0, 0, 0, 0, 0, 0, 0, 0, 0, 0, 0, 0, 0, 0, 0]

  function Fold<A, B>(f: (A, B) -> A, start: A, items: seq<B>): A {
    if items == [] then start else Fold(f, f(start, items[0]), items[1..])
  }

  lemma {:induction false} FoldAppend<A, B>(f: (A, B) -> A, start: A, items: seq<B>, last: B)
    ensures Fold(f, start, items + [last]) == f(Fold(f, start, items), last)
    decreases |items|
  {
    if items == [] {
      assert items + [last] == [last] && [last][1..] == [];
    } else {
      FoldAppend(f, f(start, items[0]), items[1..], last);
      assert (items + [last])[1..] == items[1..] + [last];
    }
  }

  function BlocksOf(padded: seq<Byte>, n: nat): (blocks: seq<Block>)
    requires 64 * n <= |padded|
    ensures |blocks| == n
  {
    seq(n, i requires 0 <= i < n => BlockAt(padded, i))
  }

  function CompressBlock(v: Vars, block: Block): Vars {
    Compress(v, block)
  }

  /** The chaining of the standard: from the first block on, each turns one hash value into the next. */
  lemma {:induction false} HashIsChained(padded: seq<Byte>, n: nat)
    requires 64 * n <= |padded|
    ensures HashBlocks(padded, n) == Fold(CompressBlock, H0, BlocksOf(padded, n))
  {
    hide Compress, BlockAt;
    if n > 0 {
      HashIsChained(padded, n - 1);
      FoldAppend<Vars, Block>(CompressBlock, H0, BlocksOf(padded, n - 1), BlockAt(padded, n - 1));
      assert BlocksOf(padded, n) == BlocksOf(padded, n - 1) + [BlockAt(padded, n - 1)];
    }
  }

  // ---- Padding ---------------------------------------------------------------------------------------

  function Zeros(k: nat): (z: seq<Byte>)
    ensures |z| == k
  {
    seq(k, _ => 0)
  }

  /** The message, the byte 0x80 and `k` zero bytes leave room for just the length. */
  predicate Fits(length: nat, k: nat) {
    (length + 1 + k) % 64 == 56
  }

  /** The least number of zero bytes that makes the length congruent to 56 modulo 64. */
  function ZeroCount(length: nat): (k: nat)
    ensures k < 64 && Fits(length, k) && forall j :: 0 <= j < k ==> !Fits(length, j)
  {
    (55 - length) % 64
  }

  /** A number as `k` bytes, most significant first. */
  function Base256(n: nat, k: nat): (r: seq<Byte>)
    ensures |r| == k
  {
    if k == 0 then [] else Base256(n / 256, k - 1) + [n % 256]
  }

  function Pad(message: seq<Byte>): (r: seq<Byte>)
    ensures |r| % 64 == 0 && message <= r
  {
    message + [0x80] + Zeros(ZeroCount(|message|)) + Base256(8 * |message|, 8)
  }

  function Hash(message: seq<Byte>): Vars {
    HashBlocks(Pad(message), |Pad(message)| / 64)
  }

  function Pow256(k: nat): (p: nat)
    ensures p > 0
  {
    if k == 0 then 1 else 256 * Pow256(k - 1)
  }

  lemma {:induction false} Base256Injective(m: nat, n: nat, k: nat)
    requires m < Pow256(k) && n < Pow256(k) && Base256(m, k) == Base256(n, k)
    ensures m == n
  {
    if k > 0 {
      var r := Base256(m, k);
      assert r[..k - 1] == Base256(m / 256, k - 1) && r[..k - 1] == Base256(n / 256, k - 1);
      assert r[k - 1] == m % 256 && r[k - 1] == n % 256;
      Base256Injective(m / 256, n / 256, k - 1);
    }
  }

  /** Different messages below the length bound of the standard are padded differently. */
  lemma PadInjective(m: seq<Byte>, n: seq<Byte>)
    requires |m| < 0x2000_0000_0000_0000 && |n| < 0x2000_0000_0000_0000
    ensures Pad(m) == Pad(n) ==> m == n
  {
    var p, q := Pad(m), Pad(n);
    if p == q {
      assert p[|p| - 8..] == Base256(8 * |m|, 8);
      assert q[|q| - 8..] == Base256(8 * |n|, 8);
      assert Pow256(8) == 0x1_0000_0000_0000_0000;
      Base256Injective(8 * |m|, 8 * |n|, 8);
      assert p[..|m|] == m && q[..|n|] == n;
    }
  }

  /** Padding adds at most 72 bytes: one marker, fewer than 64 zeros, and the length. */
  lemma PadIsShort(message: seq<Byte>)
    ensures |message| + 9 <= |Pad(message)| <= |message| + 72
    ensures Pad(message)[|message|] == 0x80
    ensures forall i :: |message| < i < |Pad(message)| - 8 ==> Pad(message)[i] == 0
  {
  }

  // ---- The digest as the extension computes it ------------------------------------------------------

  /** `(n >>> 8 * k) & 0xff` for a word: the k-th byte from the right. */
  function ByteOf(n: Word, k: nat): Byte {
    n / Pow256(k) % 256
  }

  lemma WordBytes(n: Word)
    ensures [ByteOf(n, 3), ByteOf(n, 2), ByteOf(n, 1), ByteOf(n, 0)] == Base256(n, 4)
  {
    var q := n / 256;
    var r := q / 256;
    assert n / 0x1_0000 == r && n / 0x100_0000 == r / 256;
    assert Pow256(2) == 0x1_0000 && Pow256(3) == 0x100_0000;
    assert Base256(n, 4) == Base256(q, 3) + [n % 256];
    assert Base256(q, 3) == Base256(r, 2) + [q % 256];
    assert Base256(r, 2) == Base256(r / 256, 1) + [r % 256];
    assert Base256(r / 256, 1) == [r / 256 % 256];
  }

  lemma {:induction false} SplitBytes(high: nat, low: nat, k: nat)
    requires low < Pow256(k)
    ensures Base256(high * Pow256(k) + low, 4 + k) == Base256(high, 4) + Base256(low, k)
  {
    if k == 0 {
      assert Base256(high, 4) + [] == Base256(high, 4);
    } else {
      var n := high * Pow256(k) + low;
      var p := Pow256(k - 1);
      assert n == 256 * (high * p) + low;
      assert n / 256 == high * p + low / 256 && n % 256 == low % 256;
      SplitBytes(high, low / 256, k - 1);
      assert Base256(high, 4) + Base256(low / 256, k - 1) + [low % 256]
          == Base256(high, 4) + (Base256(low / 256, k - 1) + [low % 256]);
    }
  }

  /** Two words written one after the other are the length in eight bytes. */
  lemma LengthBytes(n: nat)
    requires n < TWO32 * TWO32
    ensures var high, low := n / TWO32, n % TWO32;
            [ByteOf(high, 3), ByteOf(high, 2), ByteOf(high, 1), ByteOf(high, 0)]
            + [ByteOf(low, 3), ByteOf(low, 2), ByteOf(low, 1), ByteOf(low, 0)] == Base256(n, 8)
  {
    hide ByteOf, Base256;
    var high, low := n / TWO32, n % TWO32;
    WordBytes(high);
    WordBytes(low);
    assert Pow256(4) == TWO32;
    SplitBytes(high, low, 4);
  }

  lemma MoreZeros(front: seq<Byte>, k: nat)
    ensures front + Zeros(k) + [0] == front + Zeros(k + 1)
  {
  }

  /** The bound on the length is the one on JavaScript arrays. */
  method PadMessage(message: seq<Byte>) returns (bytes: seq<Byte>)
    requires |message| < TWO32
    ensures bytes == Pad(message)
  {
    hide Base256, ByteOf, Zeros;
    bytes := message;
    var bitLength := Exact(|bytes| * 8);
    bytes := bytes + [0x80];
    ghost var zeros := 0;
    assert bytes == bytes + Zeros(0);
    while |bytes| % 64 != 56
      invariant zeros <= ZeroCount(|message|)
      invariant bytes == message + [0x80] + Zeros(zeros)
      decreases ZeroCount(|message|) - zeros
    {
      assert !Fits(|message|, zeros);
      MoreZeros(message + [0x80], zeros);
      bytes := bytes + [0];
      zeros := zeros + 1;
    }
    assert Fits(|message|, zeros);
    LengthBytes(bitLength);
    var high := bitLength / TWO32;
    var low := ToUint32(bitLength);
    ghost var front := bytes;
    bytes := bytes + [ByteOf(high, 3), ByteOf(high, 2), ByteOf(high, 1), ByteOf(high, 0)];
    bytes := bytes + [ByteOf(low, 3), ByteOf(low, 2), ByteOf(low, 1), ByteOf(low, 0)];
    assert bytes == front + Base256(bitLength, 8);
  }

  function RotateRight(value: int, bits: bv32): int
    requires 0 < bits < 32
  {
    Or(ShiftRightZero(value, bits), ShiftLeft(value, 32 - bits))
  }

  lemma RotateIs(value: int, bits: bv32)
    requires 0 < bits < 32
    ensures Bits(RotateRight(value, bits)) == Rotr(Bits(value), bits)
  {
    hide Bits, Or, ShiftRightZero, ShiftLeft;
    BitsOfShiftRightZero(value, bits);
    BitsOfShiftLeft(value, 32 - bits);
    BitsOfOr(ShiftRightZero(value, bits), ShiftLeft(value, 32 - bits));
  }

  /** Three rotations combined by exclusive or, as a signed number. */
  lemma XorIs(x: int, y: int, z: int)
    ensures Xor(Xor(x, y), z) == Signed(Bits(x) ^ Bits(y) ^ Bits(z))
  {
    hide Bits, Signed;
    BitsOfXor(x, y);
  }

  /** The signed number behind a word differs from it by a multiple of 2^32. */
  lemma SignedIs(b: bv32)
    ensures -0x8000_0000 <= Signed(b) < 0x8000_0000
    ensures Signed(b) == Unsigned(b) || Signed(b) == Unsigned(b) - TWO32
  {
    BitsOfSigned(b);
  }

  /** A number that stands for a word modulo 2^32. */
  predicate Stands(n: int, w: Word) {
    -0x8000_0000 <= n < TWO32 && (n == w || n == w - TWO32)
  }

  lemma Sum2(x: int, y: int, u: Word, v: Word)
    requires Stands(x, u) && Stands(y, v)
    ensures ToUint32(x + y) == Add(u, v)
  {
  }

  lemma AddNested(x: int, u: Word, y: int, v: Word)
    requires x % TWO32 == u && Stands(y, v)
    ensures (x + y) % TWO32 == Add(u, v)
  {
  }

  lemma Sum4(x0: int, x1: int, x2: int, x3: int, u0: Word, u1: Word, u2: Word, u3: Word)
    requires Stands(x0, u0) && Stands(x1, u1) && Stands(x2, u2) && Stands(x3, u3)
    ensures ToUint32(x0 + x1 + x2 + x3) == Add(Add(u3, u2), Add(u1, u0))
  {
    Sum2(x0, x1, u0, u1);
    Sum2(x2, x3, u2, u3);
    ModSum(x0 + x1, x2 + x3);
  }

  lemma ModSum(x: int, y: int)
    ensures (x + y) % TWO32 == (x % TWO32 + y % TWO32) % TWO32
  {
  }

  lemma Sum5(x0: int, x1: int, x2: int, x3: int, x4: int, u0: Word, u1: Word, u2: Word, u3: Word, u4: Word)
    requires Stands(x0, u0) && Stands(x1, u1) && Stands(x2, u2) && Stands(x3, u3) && Stands(x4, u4)
    ensures ToUint32(x0 + x1 + x2 + x3 + x4) == Add(Add(Add(Add(u0, u1), u2), u3), u4)
  {
    Sum2(x0, x1, u0, u1);
    AddNested(x0 + x1, Add(u0, u1), x2, u2);
    AddNested(x0 + x1 + x2, Add(Add(u0, u1), u2), x3, u3);
    AddNested(x0 + x1 + x2 + x3, Add(Add(Add(u0, u1), u2), u3), x4, u4);
  }

  lemma WLoaded(block: seq<Word>, t: nat)
    requires |block| == 16 && t < 16
    ensures W(block, t) == block[t]
  {
  }

  lemma WStep(block: seq<Word>, t: nat)
    requires |block| == 16 && 16 <= t
    ensures W(block, t) == Add(Add(Unsigned(SmallSigma1(Bits(W(block, t - 2)))), W(block, t - 7)),
                               Add(Unsigned(SmallSigma0(Bits(W(block, t - 15)))), W(block, t - 16)))
  {
  }

  /** Four bytes put together with signed operators, whose sign `>>> 0` removes, are the word they stand for. */
  lemma LoadedWord(b0: Byte, b1: Byte, b2: Byte, b3: Byte)
    ensures ToUint32(Or(Or(Or(ShiftLeft(b0, 24), ShiftLeft(b1, 16)), ShiftLeft(b2, 8)), b3)) == BigEndian(b0, b1, b2, b3)
  {
    var x0, x1, x2 := ShiftLeft(b0, 24), ShiftLeft(b1, 16), ShiftLeft(b2, 8);
    var all := Bits(Or(Or(x0, x1), x2)) | Bits(b3);
    assert Or(Or(Or(x0, x1), x2), b3) == Signed(all);
    hide Bits, Unsigned, Signed, Or, ShiftLeft, ToUint32;
    BitsOfShiftLeft(b0, 24);
    BitsOfShiftLeft(b1, 16);
    BitsOfShiftLeft(b2, 8);
    BitsOfOr(x0, x1);
    BitsOfOr(Or(x0, x1), x2);
    Uint32OfSigned(all);
  }

  method MessageSchedule(bytes: seq<Byte>, n: nat) returns (words: array<Word>)
    requires 64 * n + 64 <= |bytes|
    ensures fresh(words) && words.Length == 64
    ensures forall t :: 0 <= t < 64 ==> words[t] == W(BlockAt(bytes, n), t)
  {
    hide Bits, Unsigned, Signed, SmallSigma0, SmallSigma1, RotateRight, Xor, ShiftRightZero, W, Add, BigEndian;
    hide Or, ShiftLeft;
    words := new Word[64](_ => 0);
    ghost var block := BlockAt(bytes, n);
    for index := 0 to 16
      invariant forall t :: 0 <= t < index ==> words[t] == W(block, t)
    {
      var start := 64 * n + index * 4;
      WLoaded(block, index);
      LoadedWord(bytes[start], bytes[start + 1], bytes[start + 2], bytes[start + 3]);
      words[index] := ToUint32(Or(Or(Or(ShiftLeft(bytes[start], 24), ShiftLeft(bytes[start + 1], 16)),
                                     ShiftLeft(bytes[start + 2], 8)), bytes[start + 3]));
    }
    for index := 16 to 64
      invariant forall t :: 0 <= t < index ==> words[t] == W(block, t)
    {
      var value1 := words[index - 15];
      var value2 := words[index - 2];
      var small0 := Xor(Xor(RotateRight(value1, 7), RotateRight(value1, 18)), ShiftRightZero(value1, 3));
      var small1 := Xor(Xor(RotateRight(value2, 17), RotateRight(value2, 19)), ShiftRightZero(value2, 10));
      WStep(block, index);
      Small0Is(value1);
      Small1Is(value2);
      Sum4(words[index - 16], small0, words[index - 7], small1,
           words[index - 16], Unsigned(SmallSigma0(Bits(value1))), words[index - 7], Unsigned(SmallSigma1(Bits(value2))));
      words[index] := ToUint32(Exact(words[index - 16] + small0 + words[index - 7] + small1));
    }
  }

  lemma Small0Is(value: Word)
    ensures Stands(Xor(Xor(RotateRight(value, 7), RotateRight(value, 18)), ShiftRightZero(value, 3)),
                   Unsigned(SmallSigma0(Bits(value))))
  {
    hide Bits, Signed, Unsigned, RotateRight, Rotr, ShiftRightZero, Xor;
    RotateIs(value, 7);
    RotateIs(value, 18);
    BitsOfShiftRightZero(value, 3);
    XorIs(RotateRight(value, 7), RotateRight(value, 18), ShiftRightZero(value, 3));
    SignedIs(SmallSigma0(Bits(value)));
  }

  lemma Small1Is(value: Word)
    ensures Stands(Xor(Xor(RotateRight(value, 17), RotateRight(value, 19)), ShiftRightZero(value, 10)),
                   Unsigned(SmallSigma1(Bits(value))))
  {
    hide Bits, Signed, Unsigned, RotateRight, Rotr, ShiftRightZero, Xor;
    RotateIs(value, 17);
    RotateIs(value, 19);
    BitsOfShiftRightZero(value, 10);
    XorIs(RotateRight(value, 17), RotateRight(value, 19), ShiftRightZero(value, 10));
    SignedIs(SmallSigma1(Bits(value)));
  }

  lemma Big0Is(a: Word)
    ensures Stands(Xor(Xor(RotateRight(a, 2), RotateRight(a, 13)), RotateRight(a, 22)), Unsigned(BigSigma0(Bits(a))))
  {
    hide Bits, Signed, Unsigned, RotateRight, Rotr, Xor;
    RotateIs(a, 2);
    RotateIs(a, 13);
    RotateIs(a, 22);
    XorIs(RotateRight(a, 2), RotateRight(a, 13), RotateRight(a, 22));
    SignedIs(BigSigma0(Bits(a)));
  }

  lemma Big1Is(e: Word)
    ensures Stands(Xor(Xor(RotateRight(e, 6), RotateRight(e, 11)), RotateRight(e, 25)), Unsigned(BigSigma1(Bits(e))))
  {
    hide Bits, Signed, Unsigned, RotateRight, Rotr, Xor;
    RotateIs(e, 6);
    RotateIs(e, 11);
    RotateIs(e, 25);
    XorIs(RotateRight(e, 6), RotateRight(e, 11), RotateRight(e, 25));
    SignedIs(BigSigma1(Bits(e)));
  }

  /** A signed exclusive or of numbers whose bits are known. */
  lemma XorOf(x: int, y: int, p: bv32, q: bv32, r: bv32)
    requires Bits(x) == p && Bits(y) == q && p ^ q == r
    ensures Xor(x, y) == Signed(r)
  {
  }

  lemma AndOf(x: int, y: int, p: bv32)
    requires Bits(x) == p
    ensures Bits(And(x, y)) == p & Bits(y)
  {
    BitsOfAnd(x, y);
  }

  lemma ChIs(x: bv32, y: bv32, z: bv32)
    ensures (x & y) ^ (!x & z) == Ch(x, y, z)
  {
  }

  lemma MajIs(x: bv32, y: bv32, z: bv32)
    ensures (x & y) ^ (x & z) ^ (y & z) == Maj(x, y, z)
  {
  }

  lemma ChoiceStands(m: int, n: int, x: bv32, y: bv32, z: bv32)
    requires Bits(m) == x & y && Bits(n) == !x & z
    ensures Stands(Xor(m, n), Unsigned(Ch(x, y, z)))
  {
    hide Bits, Signed, Unsigned, Xor, Ch;
    ChIs(x, y, z);
    XorOf(m, n, x & y, !x & z, Ch(x, y, z));
    SignedIs(Ch(x, y, z));
  }

  lemma AndNot(e: int, g: int)
    ensures Bits(And(Not(e), g)) == !Bits(e) & Bits(g)
  {
    hide Bits, And, Not;
    BitsOfNot(e);
    AndOf(Not(e), g, !Bits(e));
  }

  lemma ChoiceIs(e: Word, f: Word, g: Word)
    ensures Stands(Xor(And(e, f), And(Not(e), g)), Unsigned(Ch(Bits(e), Bits(f), Bits(g))))
  {
    hide Bits, Signed, Unsigned, And, Not, Xor, Ch, Stands;
    BitsOfAnd(e, f);
    AndNot(e, g);
    ChoiceStands(And(e, f), And(Not(e), g), Bits(e), Bits(f), Bits(g));
  }

  lemma MajorityIs(a: Word, b: Word, c: Word)
    ensures Stands(Xor(Xor(And(a, b), And(a, c)), And(b, c)), Unsigned(Maj(Bits(a), Bits(b), Bits(c))))
  {
    hide Bits, Signed, Unsigned, And, Xor, Maj;
    BitsOfAnd(a, b);
    BitsOfAnd(a, c);
    BitsOfAnd(b, c);
    BitsOfXor(And(a, b), And(a, c));
    MajIs(Bits(a), Bits(b), Bits(c));
    XorOf(Xor(And(a, b), And(a, c)), And(b, c), (Bits(a) & Bits(b)) ^ (Bits(a) & Bits(c)), Bits(b) & Bits(c),
          Maj(Bits(a), Bits(b), Bits(c)));
    SignedIs(Maj(Bits(a), Bits(b), Bits(c)));
  }

  function VarsOf(s: seq<Word>): Vars
    requires |s| == 8
  {
    Vars(s[0], s[1], s[2], s[3], s[4], s[5], s[6], s[7])
  }

  method Mix(v: Vars, words: array<Word>, ghost block: seq<Word>) returns (r: Vars)
    requires words.Length == 64 && |block| == 16
    requires forall t :: 0 <= t < 64 ==> words[t] == W(block, t)
    ensures r == Rounds(v, block, 64)
  {
    hide Bits, Unsigned, Signed, RotateRight, Xor, And, Not, W, Add, Ch, Maj, BigSigma0, BigSigma1;
    var a: Word, b: Word, c: Word, d: Word := v.a, v.b, v.c, v.d;
    var e: Word, f: Word, g: Word, h: Word := v.e, v.f, v.g, v.h;
    for index := 0 to 64
      invariant Vars(a, b, c, d, e, f, g, h) == Rounds(v, block, index)
    {
      var big1 := Xor(Xor(RotateRight(e, 6), RotateRight(e, 11)), RotateRight(e, 25));
      var choice := Xor(And(e, f), And(Not(e), g));
      Big1Is(e);
      ChoiceIs(e, f, g);
      Sum5(h, big1, choice, K[index], words[index],
           h, Unsigned(BigSigma1(Bits(e))), Unsigned(Ch(Bits(e), Bits(f), Bits(g))), K[index], words[index]);
      var temp1: int := ToUint32(Exact(h + big1 + choice + K[index] + words[index]));
      var big0 := Xor(Xor(RotateRight(a, 2), RotateRight(a, 13)), RotateRight(a, 22));
      var majority := Xor(Xor(And(a, b), And(a, c)), And(b, c));
      Big0Is(a);
      MajorityIs(a, b, c);
      Sum2(big0, majority, Unsigned(BigSigma0(Bits(a))), Unsigned(Maj(Bits(a), Bits(b), Bits(c))));
      var temp2: int := ToUint32(Exact(big0 + majority));
      Sum2(d, temp1, d, temp1);
      Sum2(temp1, temp2, temp1, temp2);
      h, g, f, e, d, c, b, a := g, f, e, ToUint32(Exact(d + temp1)), c, b, a, ToUint32(Exact(temp1 + temp2));
    }
    r := Vars(a, b, c, d, e, f, g, h);
  }

  method AddInto(state: array<Word>, v: Vars)
    requires state.Length == 8
    modifies state
    ensures VarsOf(state[..]) == AddVars(v, VarsOf(old(state[..])))
  {
    state[0] := ToUint32(state[0] + v.a);
    state[1] := ToUint32(state[1] + v.b);
    state[2] := ToUint32(state[2] + v.c);
    state[3] := ToUint32(state[3] + v.d);
    state[4] := ToUint32(state[4] + v.e);
    state[5] := ToUint32(state[5] + v.f);
    state[6] := ToUint32(state[6] + v.g);
    state[7] := ToUint32(state[7] + v.h);
  }

  method HashMessage(message: seq<Byte>) returns (state: array<Word>)
    requires |message| < TWO32
    ensures fresh(state) && state.Length == 8 && VarsOf(state[..]) == Hash(message)
  {
    hide Add, AddVars, Rounds, BlockAt, Pad;
    var bytes := PadMessage(message);
    state := new Word[8] [0x6a09e667, 0xbb67ae85, 0x3c6ef372, 0xa54ff53a, 0x510e527f, 0x9b05688c, 0x1f83d9ab, 0x5be0cd19];
    var n := 0;
    while 64 * n < |bytes|
      invariant 0 <= 64 * n <= |bytes| && |bytes| % 64 == 0
      invariant fresh(state) && state.Length == 8 && VarsOf(state[..]) == HashBlocks(bytes, n)
    {
      var words := MessageSchedule(bytes, n);
      var v := Mix(Vars(state[0], state[1], state[2], state[3], state[4], state[5], state[6], state[7]),
                   words, BlockAt(bytes, n));
      AddInto(state, v);
      n := n + 1;
    }
  }

  // ---- The hexadecimal text ---------------------------------------------------------------------------

  predicate HexDigit(c: char) {
    '0' <= c <= '9' || 'a' <= c <= 'f'
  }

  function Digit(d: nat): (c: char)
    requires d < 16
    ensures HexDigit(c)
  {
    if d < 10 then '0' + d as char else 'a' + (d - 10) as char
  }

  function DigitValue(c: char): nat
    requires HexDigit(c)
  {
    if c <= '9' then (c - '0') as nat else (c - 'a') as nat + 10
  }

  /** The digits of a number in base 16, without leading zeros. */
  function ToHex(n: nat): (s: string)
    ensures s != [] && forall i :: 0 <= i < |s| ==> HexDigit(s[i])
  {
    if n < 16 then [Digit(n)] else ToHex(n / 16) + [Digit(n % 16)]
  }

  function PadStart(s: string, width: nat): (r: string)
    ensures |r| == if |s| < width then width else |s|
    decreases width - |s|
  {
    if |s| >= width then s else PadStart(['0'] + s, width)
  }

  function Parse(s: string): nat
    requires forall i :: 0 <= i < |s| ==> HexDigit(s[i])
  {
    if s == [] then 0 else 16 * Parse(s[..|s| - 1]) + DigitValue(s[|s| - 1])
  }

  lemma {:induction false} ParseOfHex(n: nat)
    ensures Parse(ToHex(n)) == n
  {
    if n >= 16 {
      ParseOfHex(n / 16);
      assert ToHex(n)[..|ToHex(n)| - 1] == ToHex(n / 16);
    } else {
      assert ToHex(n)[..0] == [];
    }
  }

  lemma {:induction false} ParseWithZero(s: string)
    requires forall i :: 0 <= i < |s| ==> HexDigit(s[i])
    ensures Parse(['0'] + s) == Parse(s)
  {
    var t := ['0'] + s;
    if s == [] {
      assert t[..0] == [];
    } else {
      ParseWithZero(s[..|s| - 1]);
      assert t[..|t| - 1] == ['0'] + s[..|s| - 1];
    }
  }

  lemma {:induction false} ParseOfPadded(s: string, width: nat)
    requires forall i :: 0 <= i < |s| ==> HexDigit(s[i])
    ensures forall i :: 0 <= i < |PadStart(s, width)| ==> HexDigit(PadStart(s, width)[i])
    ensures Parse(PadStart(s, width)) == Parse(s)
    decreases width - |s|
  {
    if |s| < width {
      ParseOfPadded(['0'] + s, width);
      ParseWithZero(s);
    }
  }

  lemma {:induction false} HexLength(n: nat, k: nat)
    requires k > 0 && n < Pow16(k)
    ensures |ToHex(n)| <= k
  {
    if n >= 16 {
      assert k > 1;
      HexLength(n / 16, k - 1);
    }
  }

  function Pow16(k: nat): nat {
    if k == 0 then 1 else 16 * Pow16(k - 1)
  }

  function HexWord(w: Word): string {
    PadStart(ToHex(w), 8)
  }

  /** A word is written with exactly eight digits, and can be read back. */
  lemma HexWordReadsBack(w: Word)
    ensures |HexWord(w)| == 8
    ensures forall i :: 0 <= i < 8 ==> HexDigit(HexWord(w)[i])
    ensures Parse(HexWord(w)) == w
  {
    assert Pow16(8) == TWO32;
    HexLength(w, 8);
    ParseOfHex(w);
    ParseOfPadded(ToHex(w), 8);
  }

  /** The digit of weight 16^k. */
  function DigitAt(n: nat, k: nat): (d: nat)
    ensures d < 16
  {
    if k == 0 then n % 16 else DigitAt(n / 16, k - 1)
  }

  lemma {:induction false} ParseAt(s: string, i: nat)
    requires i < |s| && forall j :: 0 <= j < |s| ==> HexDigit(s[j])
    ensures DigitValue(s[i]) == DigitAt(Parse(s), |s| - 1 - i)
  {
    var n := |s| - 1;
    if i < n { ParseAt(s[..n], i); }
  }

  /** Each digit of a word, from the most significant on. */
  lemma HexWordAt(w: Word, i: nat)
    requires i < 8
    ensures |HexWord(w)| == 8 && HexWord(w)[i] == Digit(DigitAt(w, 7 - i))
  {
    hide HexWord, Parse, DigitAt;
    HexWordReadsBack(w);
    ParseAt(HexWord(w), i);
  }

  lemma DigitTable()
    ensures seq(16, d requires 0 <= d < 16 => Digit(d)) == "0123456789abcdef"
  {
  }

  function Joined(s: seq<Word>, k: nat): string
    requires k <= |s|
  {
    if k == 0 then "" else Joined(s, k - 1) + HexWord(s[k - 1])
  }

  function Words(v: Vars): seq<Word> {
    [v.a, v.b, v.c, v.d, v.e, v.f, v.g, v.h]
  }

  function HexVars(v: Vars): string {
    Joined(Words(v), 8)
  }

  lemma {:induction false} JoinedInjective(s: seq<Word>, t: seq<Word>, k: nat)
    requires k <= |s| && k <= |t|
    ensures |Joined(s, k)| == 8 * k && |Joined(t, k)| == 8 * k
    ensures Joined(s, k) == Joined(t, k) ==> s[..k] == t[..k]
  {
    hide HexWord, Parse;
    if k > 0 {
      JoinedInjective(s, t, k - 1);
      var i := k - 1;
      HexWordReadsBack(s[i]);
      HexWordReadsBack(t[i]);
      if Joined(s, k) == Joined(t, k) {
        assert Joined(s, k)[..8 * i] == Joined(s, i) && Joined(t, k)[..8 * i] == Joined(t, i);
        assert Joined(s, k)[8 * i..] == HexWord(s[i]) && Joined(t, k)[8 * i..] == HexWord(t[i]);
        assert s[..k] == s[..i] + [s[i]] && t[..k] == t[..i] + [t[i]];
      }
    }
  }

  /** The text of a digest has 64 digits, and equal texts are equal hash values. */
  lemma HexInjective(u: Vars, v: Vars)
    ensures |HexVars(u)| == 64
    ensures HexVars(u) == HexVars(v) ==> u == v
  {
    JoinedInjective(Words(u), Words(v), 8);
    if HexVars(u) == HexVars(v) {
      assert Words(u)[..8] == Words(u) && Words(v)[..8] == Words(v);
      assert VarsOf(Words(u)) == u && VarsOf(Words(v)) == v;
    }
  }

  /** The whole fallback digest of a byte string. */
  method Sha256Fallback(message: seq<Byte>) returns (hex: string)
    requires |message| < TWO32
    ensures hex == HexVars(Hash(message))
  {
    hide Hash, HexWord;
    var state := HashMessage(message);
    hex := "";
    for i := 0 to 8
      invariant hex == Joined(state[..], i)
    {
      hex := hex + HexWord(state[i]);
    }
    assert state[..] == Words(VarsOf(state[..]));
  }
}
