/**
 * The digest of the text "abc", worked out round by round, and compared with the digest that is
 * published with the standard. It pins every function that goes into the hash.
 */
module Sha256Vectors {
  import opened JsNumbers
  import opened Sha256

  /** One more word of a schedule, from the words it is made of. */
  lemma ScheduleStep(block: seq<Word>, t: nat, x: bv32, w7: Word, y: bv32, w16: Word, r: Word)
    requires |block| == 16 && 16 <= t < 64 && W(block, t - 2) == Unsigned(x) && W(block, t - 15) == Unsigned(y)
    requires W(block, t - 7) == w7 && W(block, t - 16) == w16
    requires r == (Unsigned(SmallSigma1(x)) + w7 + Unsigned(SmallSigma0(y)) + w16) % TWO32
    ensures W(block, t) == r
  {
    WStep(block, t);
    hide W, Bits, Unsigned, SmallSigma0, SmallSigma1;
    BitsOfUnsigned(x);
    BitsOfUnsigned(y);
    FourMod(Unsigned(SmallSigma1(x)), W(block, t - 7), Unsigned(SmallSigma0(y)), W(block, t - 16));
  }

  lemma FourMod(a: Word, b: Word, c: Word, d: Word)
    ensures Add(Add(a, b), Add(c, d)) == (a + b + c + d) % TWO32
  {
  }

  predicate IsAbc(block: seq<Word>) {
    |block| == 16 && block[0] == 0x61626380 && block[15] == 24 && forall t :: 1 <= t < 15 ==> block[t] == 0
  }

  lemma Loaded(block: seq<Word>)
    requires |block| == 16
    ensures forall t :: 0 <= t < 16 ==> W(block, t) == block[t]
  {
  }

  lemma NoRounds(v: Vars, block: seq<Word>)
    requires |block| == 16
    ensures Rounds(v, block, 0) == v
  {
  }

  lemma RoundSum(a: bv32, b: bv32, c: bv32, d: Word, e: bv32, f: bv32, g: bv32, h: Word, k: Word, w: Word)
    ensures var t1 := h + Unsigned(BigSigma1(e)) + Unsigned(Ch(e, f, g)) + k + w;
            Round(Vars(Unsigned(a), Unsigned(b), Unsigned(c), d, Unsigned(e), Unsigned(f), Unsigned(g), h), k, w)
            == Vars((t1 + Unsigned(BigSigma0(a)) + Unsigned(Maj(a, b, c))) % TWO32, Unsigned(a), Unsigned(b), Unsigned(c),
                    (d + t1) % TWO32, Unsigned(e), Unsigned(f), Unsigned(g))
  {
    hide Bits, Unsigned, BigSigma0, BigSigma1, Ch, Maj, Add;
    BitsOfUnsigned(a);
    BitsOfUnsigned(b);
    BitsOfUnsigned(c);
    BitsOfUnsigned(e);
    BitsOfUnsigned(f);
    BitsOfUnsigned(g);
    var s1: int, ch: int := Unsigned(BigSigma1(e)), Unsigned(Ch(e, f, g));
    var s0: int, mj: int := Unsigned(BigSigma0(a)), Unsigned(Maj(a, b, c));
    Sum5(h, s1, ch, k, w, h, s1, ch, k, w);
    AddOfSums(h + s1 + ch + k + w, s0 + mj);
    AddOfSums(d, h + s1 + ch + k + w);
    Sum2(s0, mj, s0, mj);
    Sum2(d, 0, d, 0);
    assert d % TWO32 == d;
  }

  lemma AddOfSums(x: int, y: int)
    ensures Add(ToUint32(x), ToUint32(y)) == (x + y) % TWO32
  {
    ModSum(x, y);
  }

  /** One more round, from the variables and words it starts with to the two variables it changes. */
  lemma RoundStep(
    v: Vars, block: seq<Word>, t: nat, a: bv32, b: bv32, c: bv32, d: Word, e: bv32, f: bv32, g: bv32, h: Word,
    k: Word, w: Word, a': Word, e': Word)
    requires |block| == 16 && t < 64 && W(block, t) == w && K[t] == k
    requires Rounds(v, block, t)
             == Vars(Unsigned(a), Unsigned(b), Unsigned(c), d, Unsigned(e), Unsigned(f), Unsigned(g), h)
    requires var t1 := h + Unsigned(BigSigma1(e)) + Unsigned(Ch(e, f, g)) + k + w;
             && a' == (t1 + Unsigned(BigSigma0(a)) + Unsigned(Maj(a, b, c))) % TWO32 && e' == (d + t1) % TWO32
    ensures Rounds(v, block, t + 1)
            == Vars(a', Unsigned(a), Unsigned(b), Unsigned(c), e', Unsigned(e), Unsigned(f), Unsigned(g))
  {
    hide Bits, Unsigned, BigSigma0, BigSigma1, Ch, Maj, Add, Round, W;
    RoundSum(a, b, c, d, e, f, g, h, k, w);
  }

  lemma AbcSchedule16(block: seq<Word>)
    requires IsAbc(block)
    ensures W(block, 16) == 0x61626380 && W(block, 17) == 0x000f0000 && W(block, 18) == 0x7da86405
    ensures W(block, 19) == 0x600003c6
  {
    hide W;
    Loaded(block);
    ScheduleStep(block, 16, 0x00000000, 0x00000000, 0x00000000, 0x61626380, 0x61626380);
    ScheduleStep(block, 17, 0x00000018, 0x00000000, 0x00000000, 0x00000000, 0x000f0000);
    ScheduleStep(block, 18, 0x61626380, 0x00000000, 0x00000000, 0x00000000, 0x7da86405);
    ScheduleStep(block, 19, 0x000f0000, 0x00000000, 0x00000000, 0x00000000, 0x600003c6);
  }

  lemma AbcSchedule20(block: seq<Word>)
    requires IsAbc(block)
    ensures W(block, 20) == 0x3e9d7b78 && W(block, 21) == 0x0183fc00 && W(block, 22) == 0x12dcbfdb
    ensures W(block, 23) == 0xe2e2c38e
  {
    hide W;
    Loaded(block);
    AbcSchedule16(block);
    ScheduleStep(block, 20, 0x7da86405, 0x00000000, 0x00000000, 0x00000000, 0x3e9d7b78);
    ScheduleStep(block, 21, 0x600003c6, 0x00000000, 0x00000000, 0x00000000, 0x0183fc00);
    ScheduleStep(block, 22, 0x3e9d7b78, 0x00000018, 0x00000000, 0x00000000, 0x12dcbfdb);
    ScheduleStep(block, 23, 0x0183fc00, 0x61626380, 0x00000000, 0x00000000, 0xe2e2c38e);
  }

  lemma AbcSchedule24(block: seq<Word>)
    requires IsAbc(block)
    ensures W(block, 24) == 0xc8215c1a && W(block, 25) == 0xb73679a2 && W(block, 26) == 0xe5bc3909
    ensures W(block, 27) == 0x32663c5b
  {
    hide W;
    Loaded(block);
    AbcSchedule16(block);
    AbcSchedule20(block);
    ScheduleStep(block, 24, 0x12dcbfdb, 0x000f0000, 0x00000000, 0x00000000, 0xc8215c1a);
    ScheduleStep(block, 25, 0xe2e2c38e, 0x7da86405, 0x00000000, 0x00000000, 0xb73679a2);
    ScheduleStep(block, 26, 0xc8215c1a, 0x600003c6, 0x00000000, 0x00000000, 0xe5bc3909);
    ScheduleStep(block, 27, 0xb73679a2, 0x3e9d7b78, 0x00000000, 0x00000000, 0x32663c5b);
  }

  lemma AbcSchedule28(block: seq<Word>)
    requires IsAbc(block)
    ensures W(block, 28) == 0x9d209d67 && W(block, 29) == 0xec8726cb && W(block, 30) == 0x702138a4
    ensures W(block, 31) == 0xd3b7973b
  {
    hide W;
    Loaded(block);
    AbcSchedule16(block);
    AbcSchedule20(block);
    AbcSchedule24(block);
    ScheduleStep(block, 28, 0xe5bc3909, 0x0183fc00, 0x00000000, 0x00000000, 0x9d209d67);
    ScheduleStep(block, 29, 0x32663c5b, 0x12dcbfdb, 0x00000000, 0x00000000, 0xec8726cb);
    ScheduleStep(block, 30, 0x9d209d67, 0xe2e2c38e, 0x00000018, 0x00000000, 0x702138a4);
    ScheduleStep(block, 31, 0xec8726cb, 0xc8215c1a, 0x61626380, 0x00000018, 0xd3b7973b);
  }

  lemma AbcSchedule32(block: seq<Word>)
    requires IsAbc(block)
    ensures W(block, 32) == 0x93f5997f && W(block, 33) == 0x3b68ba73 && W(block, 34) == 0xaff4ffc1
    ensures W(block, 35) == 0xf10a5c62
  {
    hide W;
    AbcSchedule16(block);
    AbcSchedule20(block);
    AbcSchedule24(block);
    AbcSchedule28(block);
    ScheduleStep(block, 32, 0x702138a4, 0xb73679a2, 0x000f0000, 0x61626380, 0x93f5997f);
    ScheduleStep(block, 33, 0xd3b7973b, 0xe5bc3909, 0x7da86405, 0x000f0000, 0x3b68ba73);
    ScheduleStep(block, 34, 0x93f5997f, 0x32663c5b, 0x600003c6, 0x7da86405, 0xaff4ffc1);
    ScheduleStep(block, 35, 0x3b68ba73, 0x9d209d67, 0x3e9d7b78, 0x600003c6, 0xf10a5c62);
  }

  lemma AbcSchedule36(block: seq<Word>)
    requires IsAbc(block)
    ensures W(block, 36) == 0x0a8b3996 && W(block, 37) == 0x72af830a && W(block, 38) == 0x9409e33e
    ensures W(block, 39) == 0x24641522
  {
    hide W;
    AbcSchedule20(block);
    AbcSchedule24(block);
    AbcSchedule28(block);
    AbcSchedule32(block);
    ScheduleStep(block, 36, 0xaff4ffc1, 0xec8726cb, 0x0183fc00, 0x3e9d7b78, 0x0a8b3996);
    ScheduleStep(block, 37, 0xf10a5c62, 0x702138a4, 0x12dcbfdb, 0x0183fc00, 0x72af830a);
    ScheduleStep(block, 38, 0x0a8b3996, 0xd3b7973b, 0xe2e2c38e, 0x12dcbfdb, 0x9409e33e);
    ScheduleStep(block, 39, 0x72af830a, 0x93f5997f, 0xc8215c1a, 0xe2e2c38e, 0x24641522);
  }

  lemma AbcSchedule40(block: seq<Word>)
    requires IsAbc(block)
    ensures W(block, 40) == 0x9f47bf94 && W(block, 41) == 0xf0a64f5a && W(block, 42) == 0x3e246a79
    ensures W(block, 43) == 0x27333ba3
  {
    hide W;
    AbcSchedule24(block);
    AbcSchedule28(block);
    AbcSchedule32(block);
    AbcSchedule36(block);
    ScheduleStep(block, 40, 0x9409e33e, 0x3b68ba73, 0xb73679a2, 0xc8215c1a, 0x9f47bf94);
    ScheduleStep(block, 41, 0x24641522, 0xaff4ffc1, 0xe5bc3909, 0xb73679a2, 0xf0a64f5a);
    ScheduleStep(block, 42, 0x9f47bf94, 0xf10a5c62, 0x32663c5b, 0xe5bc3909, 0x3e246a79);
    ScheduleStep(block, 43, 0xf0a64f5a, 0x0a8b3996, 0x9d209d67, 0x32663c5b, 0x27333ba3);
  }

  lemma AbcSchedule44(block: seq<Word>)
    requires IsAbc(block)
    ensures W(block, 44) == 0x0c4763f2 && W(block, 45) == 0x840abf27 && W(block, 46) == 0x7a290d5d
    ensures W(block, 47) == 0x065c43da
  {
    hide W;
    AbcSchedule28(block);
    AbcSchedule32(block);
    AbcSchedule36(block);
    AbcSchedule40(block);
    ScheduleStep(block, 44, 0x3e246a79, 0x72af830a, 0xec8726cb, 0x9d209d67, 0x0c4763f2);
    ScheduleStep(block, 45, 0x27333ba3, 0x9409e33e, 0x702138a4, 0xec8726cb, 0x840abf27);
    ScheduleStep(block, 46, 0x0c4763f2, 0x24641522, 0xd3b7973b, 0x702138a4, 0x7a290d5d);
    ScheduleStep(block, 47, 0x840abf27, 0x9f47bf94, 0x93f5997f, 0xd3b7973b, 0x065c43da);
  }

  lemma AbcSchedule48(block: seq<Word>)
    requires IsAbc(block)
    ensures W(block, 48) == 0xfb3e89cb && W(block, 49) == 0xcc7617db && W(block, 50) == 0xb9e66c34
    ensures W(block, 51) == 0xa9993667
  {
    hide W;
    AbcSchedule32(block);
    AbcSchedule36(block);
    AbcSchedule40(block);
    AbcSchedule44(block);
    ScheduleStep(block, 48, 0x7a290d5d, 0xf0a64f5a, 0x3b68ba73, 0x93f5997f, 0xfb3e89cb);
    ScheduleStep(block, 49, 0x065c43da, 0x3e246a79, 0xaff4ffc1, 0x3b68ba73, 0xcc7617db);
    ScheduleStep(block, 50, 0xfb3e89cb, 0x27333ba3, 0xf10a5c62, 0xaff4ffc1, 0xb9e66c34);
    ScheduleStep(block, 51, 0xcc7617db, 0x0c4763f2, 0x0a8b3996, 0xf10a5c62, 0xa9993667);
  }

  lemma AbcSchedule52(block: seq<Word>)
    requires IsAbc(block)
    ensures W(block, 52) == 0x84badedd && W(block, 53) == 0xc21462bc && W(block, 54) == 0x1487472c
    ensures W(block, 55) == 0xb20f7a99
  {
    hide W;
    AbcSchedule36(block);
    AbcSchedule40(block);
    AbcSchedule44(block);
    AbcSchedule48(block);
    ScheduleStep(block, 52, 0xb9e66c34, 0x840abf27, 0x72af830a, 0x0a8b3996, 0x84badedd);
    ScheduleStep(block, 53, 0xa9993667, 0x7a290d5d, 0x9409e33e, 0x72af830a, 0xc21462bc);
    ScheduleStep(block, 54, 0x84badedd, 0x065c43da, 0x24641522, 0x9409e33e, 0x1487472c);
    ScheduleStep(block, 55, 0xc21462bc, 0xfb3e89cb, 0x9f47bf94, 0x24641522, 0xb20f7a99);
  }

  lemma AbcSchedule56(block: seq<Word>)
    requires IsAbc(block)
    ensures W(block, 56) == 0xef57b9cd && W(block, 57) == 0xebe6b238 && W(block, 58) == 0x9fe3095e
    ensures W(block, 59) == 0x78bc8d4b
  {
    hide W;
    AbcSchedule40(block);
    AbcSchedule44(block);
    AbcSchedule48(block);
    AbcSchedule52(block);
    ScheduleStep(block, 56, 0x1487472c, 0xcc7617db, 0xf0a64f5a, 0x9f47bf94, 0xef57b9cd);
    ScheduleStep(block, 57, 0xb20f7a99, 0xb9e66c34, 0x3e246a79, 0xf0a64f5a, 0xebe6b238);
    ScheduleStep(block, 58, 0xef57b9cd, 0xa9993667, 0x27333ba3, 0x3e246a79, 0x9fe3095e);
    ScheduleStep(block, 59, 0xebe6b238, 0x84badedd, 0x0c4763f2, 0x27333ba3, 0x78bc8d4b);
  }

  lemma AbcSchedule60(block: seq<Word>)
    requires IsAbc(block)
    ensures W(block, 60) == 0xa43fcf15 && W(block, 61) == 0x668b2ff8 && W(block, 62) == 0xeeaba2cc
    ensures W(block, 63) == 0x12b1edeb
  {
    hide W;
    AbcSchedule44(block);
    AbcSchedule48(block);
    AbcSchedule52(block);
    AbcSchedule56(block);
    ScheduleStep(block, 60, 0x9fe3095e, 0xc21462bc, 0x840abf27, 0x0c4763f2, 0xa43fcf15);
    ScheduleStep(block, 61, 0x78bc8d4b, 0x1487472c, 0x7a290d5d, 0x840abf27, 0x668b2ff8);
    ScheduleStep(block, 62, 0xa43fcf15, 0xb20f7a99, 0x065c43da, 0x7a290d5d, 0xeeaba2cc);
    ScheduleStep(block, 63, 0x668b2ff8, 0xef57b9cd, 0xfb3e89cb, 0x065c43da, 0x12b1edeb);
  }

  lemma AbcRounds0(v: Vars, block: seq<Word>)
    requires IsAbc(block) && v == H0
    ensures Rounds(v, block, 4) ==
            Vars(0xd550f666, 0xc8c347a7, 0x5a6ad9ad, 0x5d6aebcd, 0x24e00850, 0xf92939eb, 0x78ce7989, 0xfa2a4622)
  {
    hide W, Rounds;
    NoRounds(v, block);
    Loaded(block);
    RoundStep(v, block, 0, 0x6a09e667, 0xbb67ae85, 0x3c6ef372, 0xa54ff53a,
              0x510e527f, 0x9b05688c, 0x1f83d9ab, 0x5be0cd19, 0x428a2f98, 0x61626380, 0x5d6aebcd, 0xfa2a4622);
    RoundStep(v, block, 1, 0x5d6aebcd, 0x6a09e667, 0xbb67ae85, 0x3c6ef372,
              0xfa2a4622, 0x510e527f, 0x9b05688c, 0x1f83d9ab, 0x71374491, 0x00000000, 0x5a6ad9ad, 0x78ce7989);
    RoundStep(v, block, 2, 0x5a6ad9ad, 0x5d6aebcd, 0x6a09e667, 0xbb67ae85,
              0x78ce7989, 0xfa2a4622, 0x510e527f, 0x9b05688c, 0xb5c0fbcf, 0x00000000, 0xc8c347a7, 0xf92939eb);
    RoundStep(v, block, 3, 0xc8c347a7, 0x5a6ad9ad, 0x5d6aebcd, 0x6a09e667,
              0xf92939eb, 0x78ce7989, 0xfa2a4622, 0x510e527f, 0xe9b5dba5, 0x00000000, 0xd550f666, 0x24e00850);
  }

  lemma AbcRounds4(v: Vars, block: seq<Word>)
    requires IsAbc(block) && v == H0
    ensures Rounds(v, block, 8) ==
            Vars(0x85a07b5f, 0xe5030380, 0x2b4209f5, 0x04409a6a, 0x0c657a79, 0x9b27a401, 0x714260ad, 0x43ada245)
  {
    hide W, Rounds;
    AbcRounds0(v, block);
    Loaded(block);
    RoundStep(v, block, 4, 0xd550f666, 0xc8c347a7, 0x5a6ad9ad, 0x5d6aebcd,
              0x24e00850, 0xf92939eb, 0x78ce7989, 0xfa2a4622, 0x3956c25b, 0x00000000, 0x04409a6a, 0x43ada245);
    RoundStep(v, block, 5, 0x04409a6a, 0xd550f666, 0xc8c347a7, 0x5a6ad9ad,
              0x43ada245, 0x24e00850, 0xf92939eb, 0x78ce7989, 0x59f111f1, 0x00000000, 0x2b4209f5, 0x714260ad);
    RoundStep(v, block, 6, 0x2b4209f5, 0x04409a6a, 0xd550f666, 0xc8c347a7,
              0x714260ad, 0x43ada245, 0x24e00850, 0xf92939eb, 0x923f82a4, 0x00000000, 0xe5030380, 0x9b27a401);
    RoundStep(v, block, 7, 0xe5030380, 0x2b4209f5, 0x04409a6a, 0xd550f666,
              0x9b27a401, 0x714260ad, 0x43ada245, 0x24e00850, 0xab1c5ed5, 0x00000000, 0x85a07b5f, 0x0c657a79);
  }

  lemma AbcRounds8(v: Vars, block: seq<Word>)
    requires IsAbc(block) && v == H0
    ensures Rounds(v, block, 12) ==
            Vars(0xf71fc5a9, 0x4798a3f4, 0x8c87346b, 0x8e04ecb9, 0x816fd6e9, 0x436b23e8, 0x1cc92596, 0x32ca2d8c)
  {
    hide W, Rounds;
    AbcRounds4(v, block);
    Loaded(block);
    RoundStep(v, block, 8, 0x85a07b5f, 0xe5030380, 0x2b4209f5, 0x04409a6a,
              0x0c657a79, 0x9b27a401, 0x714260ad, 0x43ada245, 0xd807aa98, 0x00000000, 0x8e04ecb9, 0x32ca2d8c);
    RoundStep(v, block, 9, 0x8e04ecb9, 0x85a07b5f, 0xe5030380, 0x2b4209f5,
              0x32ca2d8c, 0x0c657a79, 0x9b27a401, 0x714260ad, 0x12835b01, 0x00000000, 0x8c87346b, 0x1cc92596);
    RoundStep(v, block, 10, 0x8c87346b, 0x8e04ecb9, 0x85a07b5f, 0xe5030380,
              0x1cc92596, 0x32ca2d8c, 0x0c657a79, 0x9b27a401, 0x243185be, 0x00000000, 0x4798a3f4, 0x436b23e8);
    RoundStep(v, block, 11, 0x4798a3f4, 0x8c87346b, 0x8e04ecb9, 0x85a07b5f,
              0x436b23e8, 0x1cc92596, 0x32ca2d8c, 0x0c657a79, 0x550c7dc3, 0x00000000, 0xf71fc5a9, 0x816fd6e9);
  }

  lemma AbcRounds12(v: Vars, block: seq<Word>)
    requires IsAbc(block) && v == H0
    ensures Rounds(v, block, 16) ==
            Vars(0xb0fa238e, 0xc0645fde, 0xd932eb16, 0x87912990, 0x07590dcd, 0x0b92f20c, 0x745a48de, 0x1e578218)
  {
    hide W, Rounds;
    AbcRounds8(v, block);
    Loaded(block);
    RoundStep(v, block, 12, 0xf71fc5a9, 0x4798a3f4, 0x8c87346b, 0x8e04ecb9,
              0x816fd6e9, 0x436b23e8, 0x1cc92596, 0x32ca2d8c, 0x72be5d74, 0x00000000, 0x87912990, 0x1e578218);
    RoundStep(v, block, 13, 0x87912990, 0xf71fc5a9, 0x4798a3f4, 0x8c87346b,
              0x1e578218, 0x816fd6e9, 0x436b23e8, 0x1cc92596, 0x80deb1fe, 0x00000000, 0xd932eb16, 0x745a48de);
    RoundStep(v, block, 14, 0xd932eb16, 0x87912990, 0xf71fc5a9, 0x4798a3f4,
              0x745a48de, 0x1e578218, 0x816fd6e9, 0x436b23e8, 0x9bdc06a7, 0x00000000, 0xc0645fde, 0x0b92f20c);
    RoundStep(v, block, 15, 0xc0645fde, 0xd932eb16, 0x87912990, 0xf71fc5a9,
              0x0b92f20c, 0x745a48de, 0x1e578218, 0x816fd6e9, 0xc19bf174, 0x00000018, 0xb0fa238e, 0x07590dcd);
  }

  lemma AbcRounds16(v: Vars, block: seq<Word>)
    requires IsAbc(block) && v == H0
    ensures Rounds(v, block, 20) ==
            Vars(0xe1f20c33, 0xfe777bbf, 0xc2fbd9d1, 0x21da9a9b, 0xb0638179, 0xcc899961, 0x846ee454, 0x8034229c)
  {
    hide W, Rounds;
    AbcRounds12(v, block);
    AbcSchedule16(block);
    RoundStep(v, block, 16, 0xb0fa238e, 0xc0645fde, 0xd932eb16, 0x87912990,
              0x07590dcd, 0x0b92f20c, 0x745a48de, 0x1e578218, 0xe49b69c1, 0x61626380, 0x21da9a9b, 0x8034229c);
    RoundStep(v, block, 17, 0x21da9a9b, 0xb0fa238e, 0xc0645fde, 0xd932eb16,
              0x8034229c, 0x07590dcd, 0x0b92f20c, 0x745a48de, 0xefbe4786, 0x000f0000, 0xc2fbd9d1, 0x846ee454);
    RoundStep(v, block, 18, 0xc2fbd9d1, 0x21da9a9b, 0xb0fa238e, 0xc0645fde,
              0x846ee454, 0x8034229c, 0x07590dcd, 0x0b92f20c, 0x0fc19dc6, 0x7da86405, 0xfe777bbf, 0xcc899961);
    RoundStep(v, block, 19, 0xfe777bbf, 0xc2fbd9d1, 0x21da9a9b, 0xb0fa238e,
              0xcc899961, 0x846ee454, 0x8034229c, 0x07590dcd, 0x240ca1cc, 0x600003c6, 0xe1f20c33, 0xb0638179);
  }

  lemma AbcRounds20(v: Vars, block: seq<Word>)
    requires IsAbc(block) && v == H0
    ensures Rounds(v, block, 24) ==
            Vars(0xc5d53d8d, 0xa7a3623f, 0xc2606d6d, 0x9dc68b63, 0xaa47c347, 0x49f5114a, 0xe1257970, 0x8ada8930)
  {
    hide W, Rounds;
    AbcRounds16(v, block);
    AbcSchedule20(block);
    RoundStep(v, block, 20, 0xe1f20c33, 0xfe777bbf, 0xc2fbd9d1, 0x21da9a9b,
              0xb0638179, 0xcc899961, 0x846ee454, 0x8034229c, 0x2de92c6f, 0x3e9d7b78, 0x9dc68b63, 0x8ada8930);
    RoundStep(v, block, 21, 0x9dc68b63, 0xe1f20c33, 0xfe777bbf, 0xc2fbd9d1,
              0x8ada8930, 0xb0638179, 0xcc899961, 0x846ee454, 0x4a7484aa, 0x0183fc00, 0xc2606d6d, 0xe1257970);
    RoundStep(v, block, 22, 0xc2606d6d, 0x9dc68b63, 0xe1f20c33, 0xfe777bbf,
              0xe1257970, 0x8ada8930, 0xb0638179, 0xcc899961, 0x5cb0a9dc, 0x12dcbfdb, 0xa7a3623f, 0x49f5114a);
    RoundStep(v, block, 23, 0xa7a3623f, 0xc2606d6d, 0x9dc68b63, 0xe1f20c33,
              0x49f5114a, 0xe1257970, 0x8ada8930, 0xb0638179, 0x76f988da, 0xe2e2c38e, 0xc5d53d8d, 0xaa47c347);
  }

  lemma AbcRounds24(v: Vars, block: seq<Word>)
    requires IsAbc(block) && v == H0
    ensures Rounds(v, block, 28) ==
            Vars(0x77d37528, 0xb62ec4bc, 0xcde8037d, 0x1c2c2838, 0xedffbff8, 0xc74c6516, 0x14383d8e, 0x2823ef91)
  {
    hide W, Rounds;
    AbcRounds20(v, block);
    AbcSchedule24(block);
    RoundStep(v, block, 24, 0xc5d53d8d, 0xa7a3623f, 0xc2606d6d, 0x9dc68b63,
              0xaa47c347, 0x49f5114a, 0xe1257970, 0x8ada8930, 0x983e5152, 0xc8215c1a, 0x1c2c2838, 0x2823ef91);
    RoundStep(v, block, 25, 0x1c2c2838, 0xc5d53d8d, 0xa7a3623f, 0xc2606d6d,
              0x2823ef91, 0xaa47c347, 0x49f5114a, 0xe1257970, 0xa831c66d, 0xb73679a2, 0xcde8037d, 0x14383d8e);
    RoundStep(v, block, 26, 0xcde8037d, 0x1c2c2838, 0xc5d53d8d, 0xa7a3623f,
              0x14383d8e, 0x2823ef91, 0xaa47c347, 0x49f5114a, 0xb00327c8, 0xe5bc3909, 0xb62ec4bc, 0xc74c6516);
    RoundStep(v, block, 27, 0xb62ec4bc, 0xcde8037d, 0x1c2c2838, 0xc5d53d8d,
              0xc74c6516, 0x14383d8e, 0x2823ef91, 0xaa47c347, 0xbf597fc7, 0x32663c5b, 0x77d37528, 0xedffbff8);
  }

  lemma AbcRounds28(v: Vars, block: seq<Word>)
    requires IsAbc(block) && v == H0
    ensures Rounds(v, block, 32) ==
            Vars(0x73b33bf5, 0xea992a22, 0xa0060b30, 0x363482c9, 0xba591112, 0x0109ab3a, 0xade79437, 0x6112a3b7)
  {
    hide W, Rounds;
    AbcRounds24(v, block);
    AbcSchedule28(block);
    RoundStep(v, block, 28, 0x77d37528, 0xb62ec4bc, 0xcde8037d, 0x1c2c2838,
              0xedffbff8, 0xc74c6516, 0x14383d8e, 0x2823ef91, 0xc6e00bf3, 0x9d209d67, 0x363482c9, 0x6112a3b7);
    RoundStep(v, block, 29, 0x363482c9, 0x77d37528, 0xb62ec4bc, 0xcde8037d,
              0x6112a3b7, 0xedffbff8, 0xc74c6516, 0x14383d8e, 0xd5a79147, 0xec8726cb, 0xa0060b30, 0xade79437);
    RoundStep(v, block, 30, 0xa0060b30, 0x363482c9, 0x77d37528, 0xb62ec4bc,
              0xade79437, 0x6112a3b7, 0xedffbff8, 0xc74c6516, 0x06ca6351, 0x702138a4, 0xea992a22, 0x0109ab3a);
    RoundStep(v, block, 31, 0xea992a22, 0xa0060b30, 0x363482c9, 0x77d37528,
              0x0109ab3a, 0xade79437, 0x6112a3b7, 0xedffbff8, 0x14292967, 0xd3b7973b, 0x73b33bf5, 0xba591112);
  }

  lemma AbcRounds32(v: Vars, block: seq<Word>)
    requires IsAbc(block) && v == H0
    ensures Rounds(v, block, 36) ==
            Vars(0x65a0cfe4, 0xa9a7738c, 0xfe604df5, 0x98e12507, 0xf4b002d6, 0x085f3833, 0x59249dd3, 0x9cd9f5f6)
  {
    hide W, Rounds;
    AbcRounds28(v, block);
    AbcSchedule32(block);
    RoundStep(v, block, 32, 0x73b33bf5, 0xea992a22, 0xa0060b30, 0x363482c9,
              0xba591112, 0x0109ab3a, 0xade79437, 0x6112a3b7, 0x27b70a85, 0x93f5997f, 0x98e12507, 0x9cd9f5f6);
    RoundStep(v, block, 33, 0x98e12507, 0x73b33bf5, 0xea992a22, 0xa0060b30,
              0x9cd9f5f6, 0xba591112, 0x0109ab3a, 0xade79437, 0x2e1b2138, 0x3b68ba73, 0xfe604df5, 0x59249dd3);
    RoundStep(v, block, 34, 0xfe604df5, 0x98e12507, 0x73b33bf5, 0xea992a22,
              0x59249dd3, 0x9cd9f5f6, 0xba591112, 0x0109ab3a, 0x4d2c6dfc, 0xaff4ffc1, 0xa9a7738c, 0x085f3833);
    RoundStep(v, block, 35, 0xa9a7738c, 0xfe604df5, 0x98e12507, 0x73b33bf5,
              0x085f3833, 0x59249dd3, 0x9cd9f5f6, 0xba591112, 0x53380d13, 0xf10a5c62, 0x65a0cfe4, 0xf4b002d6);
  }

  lemma AbcRounds36(v: Vars, block: seq<Word>)
    requires IsAbc(block) && v == H0
    ensures Rounds(v, block, 40) ==
            Vars(0x79ea687a, 0x6dc57a8a, 0x34df1604, 0x41a65cb1, 0x1efbc0a0, 0xf0781bc8, 0xa507a53d, 0x0772a26b)
  {
    hide W, Rounds;
    AbcRounds32(v, block);
    AbcSchedule36(block);
    RoundStep(v, block, 36, 0x65a0cfe4, 0xa9a7738c, 0xfe604df5, 0x98e12507,
              0xf4b002d6, 0x085f3833, 0x59249dd3, 0x9cd9f5f6, 0x650a7354, 0x0a8b3996, 0x41a65cb1, 0x0772a26b);
    RoundStep(v, block, 37, 0x41a65cb1, 0x65a0cfe4, 0xa9a7738c, 0xfe604df5,
              0x0772a26b, 0xf4b002d6, 0x085f3833, 0x59249dd3, 0x766a0abb, 0x72af830a, 0x34df1604, 0xa507a53d);
    RoundStep(v, block, 38, 0x34df1604, 0x41a65cb1, 0x65a0cfe4, 0xa9a7738c,
              0xa507a53d, 0x0772a26b, 0xf4b002d6, 0x085f3833, 0x81c2c92e, 0x9409e33e, 0x6dc57a8a, 0xf0781bc8);
    RoundStep(v, block, 39, 0x6dc57a8a, 0x34df1604, 0x41a65cb1, 0x65a0cfe4,
              0xf0781bc8, 0xa507a53d, 0x0772a26b, 0xf4b002d6, 0x92722c85, 0x24641522, 0x79ea687a, 0x1efbc0a0);
  }

  lemma AbcRounds40(v: Vars, block: seq<Word>)
    requires IsAbc(block) && v == H0
    ensures Rounds(v, block, 44) ==
            Vars(0x9d4baf93, 0x17aa0dfe, 0xdf46652f, 0xd6670766, 0xfda24c2e, 0xdecd4715, 0x838b2711, 0x26352d63)
  {
    hide W, Rounds;
    AbcRounds36(v, block);
    AbcSchedule40(block);
    RoundStep(v, block, 40, 0x79ea687a, 0x6dc57a8a, 0x34df1604, 0x41a65cb1,
              0x1efbc0a0, 0xf0781bc8, 0xa507a53d, 0x0772a26b, 0xa2bfe8a1, 0x9f47bf94, 0xd6670766, 0x26352d63);
    RoundStep(v, block, 41, 0xd6670766, 0x79ea687a, 0x6dc57a8a, 0x34df1604,
              0x26352d63, 0x1efbc0a0, 0xf0781bc8, 0xa507a53d, 0xa81a664b, 0xf0a64f5a, 0xdf46652f, 0x838b2711);
    RoundStep(v, block, 42, 0xdf46652f, 0xd6670766, 0x79ea687a, 0x6dc57a8a,
              0x838b2711, 0x26352d63, 0x1efbc0a0, 0xf0781bc8, 0xc24b8b70, 0x3e246a79, 0x17aa0dfe, 0xdecd4715);
    RoundStep(v, block, 43, 0x17aa0dfe, 0xdf46652f, 0xd6670766, 0x79ea687a,
              0xdecd4715, 0x838b2711, 0x26352d63, 0x1efbc0a0, 0xc76c51a3, 0x27333ba3, 0x9d4baf93, 0xfda24c2e);
  }

  lemma AbcRounds44(v: Vars, block: seq<Word>)
    requires IsAbc(block) && v == H0
    ensures Rounds(v, block, 48) ==
            Vars(0x4172328d, 0xa14c14b0, 0x72ab4b91, 0x26628815, 0xfecf0bc6, 0xd57b94a9, 0xb7755da1, 0xa80f11f0)
  {
    hide W, Rounds;
    AbcRounds40(v, block);
    AbcSchedule44(block);
    RoundStep(v, block, 44, 0x9d4baf93, 0x17aa0dfe, 0xdf46652f, 0xd6670766,
              0xfda24c2e, 0xdecd4715, 0x838b2711, 0x26352d63, 0xd192e819, 0x0c4763f2, 0x26628815, 0xa80f11f0);
    RoundStep(v, block, 45, 0x26628815, 0x9d4baf93, 0x17aa0dfe, 0xdf46652f,
              0xa80f11f0, 0xfda24c2e, 0xdecd4715, 0x838b2711, 0xd6990624, 0x840abf27, 0x72ab4b91, 0xb7755da1);
    RoundStep(v, block, 46, 0x72ab4b91, 0x26628815, 0x9d4baf93, 0x17aa0dfe,
              0xb7755da1, 0xa80f11f0, 0xfda24c2e, 0xdecd4715, 0xf40e3585, 0x7a290d5d, 0xa14c14b0, 0xd57b94a9);
    RoundStep(v, block, 47, 0xa14c14b0, 0x72ab4b91, 0x26628815, 0x9d4baf93,
              0xd57b94a9, 0xb7755da1, 0xa80f11f0, 0xfda24c2e, 0x106aa070, 0x065c43da, 0x4172328d, 0xfecf0bc6);
  }

  lemma AbcRounds48(v: Vars, block: seq<Word>)
    requires IsAbc(block) && v == H0
    ensures Rounds(v, block, 52) ==
            Vars(0x886e7a22, 0x7a0508a1, 0xf11bfaa8, 0x05757ceb, 0x49231c1e, 0x52f1ccf7, 0x6e5c390c, 0xbd714038)
  {
    hide W, Rounds;
    AbcRounds44(v, block);
    AbcSchedule48(block);
    RoundStep(v, block, 48, 0x4172328d, 0xa14c14b0, 0x72ab4b91, 0x26628815,
              0xfecf0bc6, 0xd57b94a9, 0xb7755da1, 0xa80f11f0, 0x19a4c116, 0xfb3e89cb, 0x05757ceb, 0xbd714038);
    RoundStep(v, block, 49, 0x05757ceb, 0x4172328d, 0xa14c14b0, 0x72ab4b91,
              0xbd714038, 0xfecf0bc6, 0xd57b94a9, 0xb7755da1, 0x1e376c08, 0xcc7617db, 0xf11bfaa8, 0x6e5c390c);
    RoundStep(v, block, 50, 0xf11bfaa8, 0x05757ceb, 0x4172328d, 0xa14c14b0,
              0x6e5c390c, 0xbd714038, 0xfecf0bc6, 0xd57b94a9, 0x2748774c, 0xb9e66c34, 0x7a0508a1, 0x52f1ccf7);
    RoundStep(v, block, 51, 0x7a0508a1, 0xf11bfaa8, 0x05757ceb, 0x4172328d,
              0x52f1ccf7, 0x6e5c390c, 0xbd714038, 0xfecf0bc6, 0x34b0bcb5, 0xa9993667, 0x886e7a22, 0x49231c1e);
  }

  lemma AbcRounds52(v: Vars, block: seq<Word>)
    requires IsAbc(block) && v == H0
    ensures Rounds(v, block, 56) ==
            Vars(0x38cc9913, 0x3ec45cdb, 0xf5702fdb, 0x101fd28f, 0x54cb266b, 0xe50e1b4f, 0x9f4787c3, 0x529e7d00)
  {
    hide W, Rounds;
    AbcRounds48(v, block);
    AbcSchedule52(block);
    RoundStep(v, block, 52, 0x886e7a22, 0x7a0508a1, 0xf11bfaa8, 0x05757ceb,
              0x49231c1e, 0x52f1ccf7, 0x6e5c390c, 0xbd714038, 0x391c0cb3, 0x84badedd, 0x101fd28f, 0x529e7d00);
    RoundStep(v, block, 53, 0x101fd28f, 0x886e7a22, 0x7a0508a1, 0xf11bfaa8,
              0x529e7d00, 0x49231c1e, 0x52f1ccf7, 0x6e5c390c, 0x4ed8aa4a, 0xc21462bc, 0xf5702fdb, 0x9f4787c3);
    RoundStep(v, block, 54, 0xf5702fdb, 0x101fd28f, 0x886e7a22, 0x7a0508a1,
              0x9f4787c3, 0x529e7d00, 0x49231c1e, 0x52f1ccf7, 0x5b9cca4f, 0x1487472c, 0x3ec45cdb, 0xe50e1b4f);
    RoundStep(v, block, 55, 0x3ec45cdb, 0xf5702fdb, 0x101fd28f, 0x886e7a22,
              0xe50e1b4f, 0x9f4787c3, 0x529e7d00, 0x49231c1e, 0x682e6ff3, 0xb20f7a99, 0x38cc9913, 0x54cb266b);
  }

  lemma AbcRounds56(v: Vars, block: seq<Word>)
    requires IsAbc(block) && v == H0
    ensures Rounds(v, block, 60) ==
            Vars(0xb6ae8fff, 0xffb70472, 0xc062d46f, 0xfcd1887b, 0xb21bad3d, 0x6d83bfc6, 0x7e44008e, 0x9b5e906c)
  {
    hide W, Rounds;
    AbcRounds52(v, block);
    AbcSchedule56(block);
    RoundStep(v, block, 56, 0x38cc9913, 0x3ec45cdb, 0xf5702fdb, 0x101fd28f,
              0x54cb266b, 0xe50e1b4f, 0x9f4787c3, 0x529e7d00, 0x748f82ee, 0xef57b9cd, 0xfcd1887b, 0x9b5e906c);
    RoundStep(v, block, 57, 0xfcd1887b, 0x38cc9913, 0x3ec45cdb, 0xf5702fdb,
              0x9b5e906c, 0x54cb266b, 0xe50e1b4f, 0x9f4787c3, 0x78a5636f, 0xebe6b238, 0xc062d46f, 0x7e44008e);
    RoundStep(v, block, 58, 0xc062d46f, 0xfcd1887b, 0x38cc9913, 0x3ec45cdb,
              0x7e44008e, 0x9b5e906c, 0x54cb266b, 0xe50e1b4f, 0x84c87814, 0x9fe3095e, 0xffb70472, 0x6d83bfc6);
    RoundStep(v, block, 59, 0xffb70472, 0xc062d46f, 0xfcd1887b, 0x38cc9913,
              0x6d83bfc6, 0x7e44008e, 0x9b5e906c, 0x54cb266b, 0x8cc70208, 0x78bc8d4b, 0xb6ae8fff, 0xb21bad3d);
  }

  lemma AbcRounds60(v: Vars, block: seq<Word>)
    requires IsAbc(block) && v == H0
    ensures Rounds(v, block, 64) ==
            Vars(0x506e3058, 0xd39a2165, 0x04d24d6c, 0xb85e2ce9, 0x5ef50f24, 0xfb121210, 0x948d25b6, 0x961f4894)
  {
    hide W, Rounds;
    AbcRounds56(v, block);
    AbcSchedule60(block);
    RoundStep(v, block, 60, 0xb6ae8fff, 0xffb70472, 0xc062d46f, 0xfcd1887b,
              0xb21bad3d, 0x6d83bfc6, 0x7e44008e, 0x9b5e906c, 0x90befffa, 0xa43fcf15, 0xb85e2ce9, 0x961f4894);
    RoundStep(v, block, 61, 0xb85e2ce9, 0xb6ae8fff, 0xffb70472, 0xc062d46f,
              0x961f4894, 0xb21bad3d, 0x6d83bfc6, 0x7e44008e, 0xa4506ceb, 0x668b2ff8, 0x04d24d6c, 0x948d25b6);
    RoundStep(v, block, 62, 0x04d24d6c, 0xb85e2ce9, 0xb6ae8fff, 0xffb70472,
              0x948d25b6, 0x961f4894, 0xb21bad3d, 0x6d83bfc6, 0xbef9a3f7, 0xeeaba2cc, 0xd39a2165, 0xfb121210);
    RoundStep(v, block, 63, 0xd39a2165, 0x04d24d6c, 0xb85e2ce9, 0xb6ae8fff,
              0xfb121210, 0x948d25b6, 0x961f4894, 0xb21bad3d, 0xc67178f2, 0x12b1edeb, 0x506e3058, 0x5ef50f24);
  }

  predicate IsTextAbc(m: seq<Byte>) {
    |m| == 3 && m[0] == 0x61 && m[1] == 0x62 && m[2] == 0x63
  }

  lemma PaddedAbc(m: seq<Byte>)
    requires IsTextAbc(m)
    ensures |Pad(m)| == 64 && IsAbc(BlockAt(Pad(m), 0))
  {
    hide Pad, BigEndian;
    BytesOfAbc(m);
    WordsOfAbc();
    var p := Pad(m);
    assert p[4..63] == seq(59, i => 0);
    assert forall i :: 4 <= i < 63 ==> p[i] == p[4..63][i - 4];
  }

  lemma WordsOfAbc()
    ensures BigEndian(0x61, 0x62, 0x63, 0x80) == 0x61626380
    ensures BigEndian(0, 0, 0, 0) == 0 && BigEndian(0, 0, 0, 24) == 24
  {
    hide BigEndian;
    WordOfBits(0x61, 0x62, 0x63, 0x80, 0x61626380);
    WordOfBits(0, 0, 0, 0, 0);
    WordOfBits(0, 0, 0, 24, 24);
  }

  lemma WordOfBits(b0: bv32, b1: bv32, b2: bv32, b3: bv32, w: bv32)
    requires b0 < 0x100 && b1 < 0x100 && b2 < 0x100 && b3 < 0x100
    requires w == (b0 << 24) | (b1 << 16) | (b2 << 8) | b3
    ensures BigEndian(b0 as int, b1 as int, b2 as int, b3 as int) == w as int
  {
    hide Bits;
    BitsOfUnsigned(b0);
    BitsOfUnsigned(b1);
    BitsOfUnsigned(b2);
    BitsOfUnsigned(b3);
  }

  lemma BytesOfAbc(m: seq<Byte>)
    requires IsTextAbc(m)
    ensures var p := Pad(m);
            && |p| == 64 && p[0] == 0x61 && p[1] == 0x62 && p[2] == 0x63 && p[3] == 0x80 && p[63] == 24
            && p[4..63] == seq(59, i => 0)
  {
    hide Base256;
    LengthOfAbc();
    assert ZeroCount(3) == 52;
    var p := Pad(m);
    assert forall i :: 4 <= i < 63 ==> p[i] == 0;
  }

  lemma LengthOfAbc()
    ensures Base256(24, 8) == [0, 0, 0, 0, 0, 0, 0, 24]
  {
  }

  lemma OneBlock(padded: seq<Byte>)
    requires 64 <= |padded|
    ensures HashBlocks(padded, 1) == AddVars(Rounds(H0, BlockAt(padded, 0), 64), H0)
  {
    hide Rounds, BlockAt, AddVars;
    assert HashBlocks(padded, 0) == H0;
  }

  lemma DigestWords(m: seq<Byte>)
    requires IsTextAbc(m)
    ensures Hash(m) ==
            Vars(0xba7816bf, 0x8f01cfea, 0x414140de, 0x5dae2223, 0xb00361a3, 0x96177a9c, 0xb410ff61, 0xf20015ad)
  {
    hide Pad, BlockAt, Rounds, HashBlocks;
    PaddedAbc(m);
    OneBlock(Pad(m));
    AbcRounds60(H0, BlockAt(Pad(m), 0));
  }

  lemma NextDigit(w: nat, x: nat, n: nat)
    requires n < 16 && w == 16 * x + n
    ensures DigitAt(w, 0) == n && forall k: nat :: 1 <= k ==> DigitAt(w, k) == DigitAt(x, k - 1)
  {
  }

  lemma HexWordIs(w: Word, n0: nat, n1: nat, n2: nat, n3: nat, n4: nat, n5: nat, n6: nat, n7: nat)
    requires n0 < 16 && n1 < 16 && n2 < 16 && n3 < 16 && n4 < 16 && n5 < 16 && n6 < 16 && n7 < 16
    requires w == 16 * (16 * (16 * (16 * (16 * (16 * (16 * n0 + n1) + n2) + n3) + n4) + n5) + n6) + n7
    ensures HexWord(w) ==
            [Digit(n0), Digit(n1), Digit(n2), Digit(n3), Digit(n4), Digit(n5), Digit(n6), Digit(n7)]
  {
    hide HexWord, Digit, DigitAt;
    var x1 := 16 * n0 + n1;
    var x2 := 16 * x1 + n2;
    var x3 := 16 * x2 + n3;
    var x4 := 16 * x3 + n4;
    var x5 := 16 * x4 + n5;
    var x6 := 16 * x5 + n6;
    NextDigit(n0, 0, n0);
    NextDigit(x1, n0, n1);
    NextDigit(x2, x1, n2);
    NextDigit(x3, x2, n3);
    NextDigit(x4, x3, n4);
    NextDigit(x5, x4, n5);
    NextDigit(x6, x5, n6);
    NextDigit(w, x6, n7);
    assert DigitAt(w, 7) == n0 && DigitAt(w, 6) == n1 && DigitAt(w, 5) == n2 && DigitAt(w, 4) == n3;
    assert DigitAt(w, 3) == n4 && DigitAt(w, 2) == n5 && DigitAt(w, 1) == n6 && DigitAt(w, 0) == n7;
    HexWordAt(w, 0);
    HexWordAt(w, 1);
    HexWordAt(w, 2);
    HexWordAt(w, 3);
    HexWordAt(w, 4);
    HexWordAt(w, 5);
    HexWordAt(w, 6);
    HexWordAt(w, 7);
  }

  lemma HexOfWords(v: Vars)
    ensures HexVars(v) == HexWord(v.a) + HexWord(v.b) + HexWord(v.c) + HexWord(v.d)
                          + HexWord(v.e) + HexWord(v.f) + HexWord(v.g) + HexWord(v.h)
  {
    hide HexWord;
    var s := Words(v);
    assert Joined(s, 1) == HexWord(v.a);
    assert Joined(s, 2) == Joined(s, 1) + HexWord(v.b) && Joined(s, 3) == Joined(s, 2) + HexWord(v.c);
    assert Joined(s, 4) == Joined(s, 3) + HexWord(v.d) && Joined(s, 5) == Joined(s, 4) + HexWord(v.e);
    assert Joined(s, 6) == Joined(s, 5) + HexWord(v.f) && Joined(s, 7) == Joined(s, 6) + HexWord(v.g);
    assert Joined(s, 8) == Joined(s, 7) + HexWord(v.h);
  }

  /** The digest of the text "abc" as published with the standard. */
  lemma DigestOfAbc(m: seq<Byte>)
    requires IsTextAbc(m)
    ensures HexVars(Hash(m)) == "ba7816bf" + "8f01cfea" + "414140de" + "5dae2223"
            + "b00361a3" + "96177a9c" + "b410ff61" + "f20015ad"
  {
    hide Hash, HexWord;
    DigestWords(m);
    HexOfWords(Hash(m));
    Digits0();
    Digits4();
  }

  lemma Digits0()
    ensures HexWord(0xba7816bf) == "ba7816bf" && HexWord(0x8f01cfea) == "8f01cfea"
    ensures HexWord(0x414140de) == "414140de" && HexWord(0x5dae2223) == "5dae2223"
  {
    hide HexWord;
    HexWordIs(0xba7816bf, 11, 10, 7, 8, 1, 6, 11, 15);
    HexWordIs(0x8f01cfea, 8, 15, 0, 1, 12, 15, 14, 10);
    HexWordIs(0x414140de, 4, 1, 4, 1, 4, 0, 13, 14);
    HexWordIs(0x5dae2223, 5, 13, 10, 14, 2, 2, 2, 3);
  }

  lemma Digits4()
    ensures HexWord(0xb00361a3) == "b00361a3" && HexWord(0x96177a9c) == "96177a9c"
    ensures HexWord(0xb410ff61) == "b410ff61" && HexWord(0xf20015ad) == "f20015ad"
  {
    hide HexWord;
    HexWordIs(0xb00361a3, 11, 0, 0, 3, 6, 1, 10, 3);
    HexWordIs(0x96177a9c, 9, 6, 1, 7, 7, 10, 9, 12);
    HexWordIs(0xb410ff61, 11, 4, 1, 0, 15, 15, 6, 1);
    HexWordIs(0xf20015ad, 15, 2, 0, 0, 1, 5, 10, 13);
  }
}
