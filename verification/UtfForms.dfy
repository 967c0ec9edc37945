/** The encodings of RFC 3629 and RFC 2781, and the repair, by arithmetic on numbers. */
module UtfForms {
  import opened Common
  import opened Utf

  /** A trailing byte with its six bits. */
  predicate IsTrail(b: Byte, payload: bv32) { payload < 0x40 && b == 0x80 + payload }

  /** The forms of section 3 of RFC 3629: so many bytes for so large a number, its bits six at a time. */
  lemma Utf8Is(c: Scalar)
    ensures var r := Encode8(c);
            && (c <= 0x7F ==> r == [c])
            && (0x80 <= c <= 0x7FF ==>
                  |r| == 2 && r[0] == 0xC0 + c / 0x40 && IsTrail(r[1], c % 0x40))
            && (0x800 <= c <= 0xFFFF ==>
                  |r| == 3 && r[0] == 0xE0 + c / 0x1000 && IsTrail(r[1], c / 0x40 % 0x40) && IsTrail(r[2], c % 0x40))
            && (0x10000 <= c <= 0x10FFFF ==>
                  && |r| == 4 && r[0] == 0xF0 + c / 0x40000 && IsTrail(r[1], c / 0x1000 % 0x40)
                  && IsTrail(r[2], c / 0x40 % 0x40) && IsTrail(r[3], c % 0x40))
  {
    Sixes(c);
    if 0x80 <= c <= 0x7FF { TwoBytes(c); } else if 0x800 <= c <= 0xFFFF { ThreeBytes(c); } else if 0x10000 <= c { FourBytes(c); }
  }

  lemma Sixes(c: bv32)
    ensures c >> 6 == c / 0x40 && c >> 12 == c / 0x1000 && c >> 18 == c / 0x40000
    ensures c & 0x3F == c % 0x40 && (c >> 6) & 0x3F == c / 0x40 % 0x40 && (c >> 12) & 0x3F == c / 0x1000 % 0x40
    ensures c % 0x40 < 0x40 && c / 0x40 % 0x40 < 0x40 && c / 0x1000 % 0x40 < 0x40
  {
  }

  lemma Trails(x: bv32)
    requires x < 0x40
    ensures 0x80 | x == 0x80 + x
  {
  }

  lemma TwoBytes(c: bv32)
    requires 0x80 <= c <= 0x7FF
    ensures 0xC0 | (c >> 6) == 0xC0 + (c >> 6) && 0x80 | (c & 0x3F) == 0x80 + (c & 0x3F)
  {
  }

  lemma ThreeBytes(c: bv32)
    requires 0x800 <= c <= 0xFFFF
    ensures 0xE0 | (c >> 12) == 0xE0 + (c >> 12) && 0x80 | (c & 0x3F) == 0x80 + (c & 0x3F)
    ensures 0x80 | ((c >> 6) & 0x3F) == 0x80 + ((c >> 6) & 0x3F)
  {
  }

  lemma FourBytes(c: bv32)
    requires 0x10000 <= c <= 0x10FFFF
    ensures 0xF0 | (c >> 18) == 0xF0 + (c >> 18) && 0x80 | (c & 0x3F) == 0x80 + (c & 0x3F)
    ensures 0x80 | ((c >> 6) & 0x3F) == 0x80 + ((c >> 6) & 0x3F) && 0x80 | ((c >> 12) & 0x3F) == 0x80 + ((c >> 12) & 0x3F)
  {
  }

  /** The pairs of section 2 of RFC 2781: two halves of ten bits, above the plane of the single units. */
  lemma Utf16Is(c: Scalar)
    ensures c < 0x10000 ==> Encode16(c) == [c]
    ensures 0x10000 <= c ==>
              && |Encode16(c)| == 2
              && Encode16(c)[0] == 0xD800 + (c - 0x10000) / 0x400
              && Encode16(c)[1] == 0xDC00 + (c - 0x10000) % 0x400
  {
    if 0x10000 <= c { Tens(c - 0x10000); }
  }

  lemma Tens(u: bv32)
    requires u < 0x100000
    ensures 0xD800 | (u >> 10) == 0xD800 + u / 0x400
    ensures 0xDC00 | (u & 0x3FF) == 0xDC00 + u % 0x400
  {
  }

  /** What the repair does to each unit, by its neighbours. */
  lemma RepairIs(s: seq<Unit>, i: nat)
    requires i < |s|
    ensures var r := Repaired(s);
            var lead, trail := 0xD800 <= s[i] <= 0xDBFF, 0xDC00 <= s[i] <= 0xDFFF;
            var before := i > 0 && 0xD800 <= s[i - 1] <= 0xDBFF;
            var after := i + 1 < |s| && 0xDC00 <= s[i + 1] <= 0xDFFF;
            && |r| == |s|
            && (!lead && !trail ==> r[i] == s[i])
            && (lead ==> r[i] == if after then s[i] else 0xFFFD)
            && (trail ==> r[i] == if before then s[i] else 0xFFFD)
  {
  }
}
