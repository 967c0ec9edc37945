/**
 * Repair of 16-bit text and its UTF-8 encoding, against the definitions of
 * RFC 3629 (sections 3 and 4) and RFC 2781 (section 2). Numbers are the 32-bit
 * integers that JavaScript's bit operators work on.
 */
module Utf {
  import opened Common

  type Unit = u: bv32 | u < 0x10000
  type Byte = b: bv32 | b < 0x100
  type Scalar = c: bv32 | c < 0xD800 || 0xDFFF < c < 0x110000

  // ---- Well-formed UTF-16 --------------------------------------------------------------------------

  predicate High(u: Unit) { 0xD800 <= u <= 0xDBFF }

  predicate Low(u: Unit) { 0xDC00 <= u <= 0xDFFF }

  predicate PairAt(s: seq<Unit>, i: int) {
    0 <= i < |s| - 1 && High(s[i]) && Low(s[i + 1])
  }

  /** A surrogate that is not half of a pair. */
  predicate Lone(s: seq<Unit>, i: nat)
    requires i < |s|
  {
    (High(s[i]) && !PairAt(s, i)) || (Low(s[i]) && !PairAt(s, i - 1))
  }

  predicate WellFormed(s: seq<Unit>) {
    forall i :: 0 <= i < |s| ==> !Lone(s, i)
  }

  /** Every lone surrogate replaced by U+FFFD, everything else kept in place. */
  function Repaired(s: seq<Unit>): (r: seq<Unit>)
    ensures |r| == |s|
  {
    seq(|s|, i requires 0 <= i < |s| => if Lone(s, i) then 0xFFFD else s[i])
  }

  lemma RepairedIsWellFormed(s: seq<Unit>)
    ensures WellFormed(Repaired(s))
  {
    var r := Repaired(s);
    forall i | 0 <= i < |s| ensures !Lone(r, i) {
      if PairAt(s, i) { assert !Lone(s, i) && !Lone(s, i + 1); }
      if PairAt(s, i - 1) { assert !Lone(s, i) && !Lone(s, i - 1); }
    }
  }

  /** Repair changes nothing exactly when the text is well formed; so it is idempotent. */
  lemma RepairFixesIff(s: seq<Unit>)
    ensures Repaired(s) == s <==> WellFormed(s)
    ensures Repaired(Repaired(s)) == Repaired(s)
  {
    RepairedIsWellFormed(s);
    if WellFormed(s) { assert Repaired(s) == s; }
    var r := Repaired(s);
    assert Repaired(r) == r;
  }

  method NormalizeUtf16(text: seq<Unit>) returns (normalized: seq<Unit>)
    ensures normalized == Repaired(text)
  {
    normalized := [];
    var index := 0;
    while index < |text|
      invariant 0 <= index <= |text|
      invariant normalized == Repaired(text)[..index]
      invariant !PairAt(text, index - 1)
    {
      var code := text[index];
      if 0xD800 <= code <= 0xDBFF {
        if index + 1 < |text| && 0xDC00 <= text[index + 1] <= 0xDFFF {
          normalized := normalized + [text[index], text[index + 1]];
          index := index + 1;
        } else {
          normalized := normalized + [0xFFFD];
        }
      } else if 0xDC00 <= code <= 0xDFFF {
        normalized := normalized + [0xFFFD];
      } else {
        normalized := normalized + [text[index]];
      }
      index := index + 1;
    }
  }

  // ---- UTF-16 and code points (RFC 2781, section 2) ---------------------------------------------------

  function Encode16(c: Scalar): (r: seq<Unit>) {
    if c < 0x10000 then [c]
    else
      var u := c - 0x10000;
      [0xD800 | (u >> 10), 0xDC00 | (u & 0x3FF)]
  }

  function EncodeAll16(cs: seq<Scalar>): seq<Unit> {
    if cs == [] then [] else Encode16(cs[0]) + EncodeAll16(cs[1..])
  }

  function Combine(high: Unit, low: Unit): (c: Scalar)
    requires High(high) && Low(low)
    ensures c >= 0x10000
  {
    0x10000 + ((high - 0xD800) << 10) + low - 0xDC00
  }

  lemma SuffixWellFormed(s: seq<Unit>)
    requires WellFormed(s) && s != []
    ensures !PairAt(s, 0) ==> WellFormed(s[1..]) && !High(s[0]) && !Low(s[0])
    ensures PairAt(s, 0) ==> WellFormed(s[2..])
  {
    assert !Lone(s, 0);
    var k := if PairAt(s, 0) then 2 else 1;
    forall i | 0 <= i < |s[k..]| ensures !Lone(s[k..], i) {
      assert !Lone(s, i + k);
      assert PairAt(s, i + k) == PairAt(s[k..], i);
      if i > 0 { assert PairAt(s, i + k - 1) == PairAt(s[k..], i - 1); }
    }
  }

  function Scalars(s: seq<Unit>): seq<Scalar>
    requires WellFormed(s)
  {
    if s == [] then []
    else
      SuffixWellFormed(s);
      if PairAt(s, 0) then [Combine(s[0], s[1])] + Scalars(s[2..])
      else [s[0]] + Scalars(s[1..])
  }

  lemma CombineSplits(high: Unit, low: Unit)
    requires High(high) && Low(low)
    ensures Encode16(Combine(high, low)) == [high, low]
  {
  }

  lemma {:induction false} EncodeScalars16(s: seq<Unit>)
    requires WellFormed(s)
    ensures EncodeAll16(Scalars(s)) == s
  {
    if s != [] {
      SuffixWellFormed(s);
      if PairAt(s, 0) {
        CombineSplits(s[0], s[1]);
        EncodeScalars16(s[2..]);
        assert s == [s[0], s[1]] + s[2..];
      } else {
        EncodeScalars16(s[1..]);
      }
    }
  }

  // ---- UTF-8 (RFC 3629) ---------------------------------------------------------------------------------

  /** The encoding of one code point (section 3). */
  function Encode8(c: Scalar): (r: seq<Byte>)
    ensures 1 <= |r| <= 4
  {
    if c < 0x80 then [c]
    else if c < 0x800 then [0xC0 | (c >> 6), 0x80 | (c & 0x3F)]
    else if c < 0x10000 then [0xE0 | (c >> 12), 0x80 | ((c >> 6) & 0x3F), 0x80 | (c & 0x3F)]
    else [0xF0 | (c >> 18), 0x80 | ((c >> 12) & 0x3F), 0x80 | ((c >> 6) & 0x3F), 0x80 | (c & 0x3F)]
  }

  function EncodeAll8(cs: seq<Scalar>): seq<Byte> {
    if cs == [] then [] else Encode8(cs[0]) + EncodeAll8(cs[1..])
  }

  predicate Tail(b: Byte) { 0x80 <= b <= 0xBF }

  /** The length of the sequence that a string starts with, by the grammar of section 4; 0 if none. */
  function LeadLength(b: seq<Byte>): (n: nat)
    ensures n <= |b| && n <= 4
  {
    if b == [] then 0
    else if b[0] <= 0x7F then 1
    else if 0xC2 <= b[0] <= 0xDF then
      if |b| >= 2 && Tail(b[1]) then 2 else 0
    else if 0xE0 <= b[0] <= 0xEF then
      if |b| >= 3 && Tail(b[1]) && Tail(b[2])
         && (b[0] == 0xE0 ==> 0xA0 <= b[1]) && (b[0] == 0xED ==> b[1] <= 0x9F) then 3 else 0
    else if 0xF0 <= b[0] <= 0xF4 then
      if |b| >= 4 && Tail(b[1]) && Tail(b[2]) && Tail(b[3])
         && (b[0] == 0xF0 ==> 0x90 <= b[1]) && (b[0] == 0xF4 ==> b[1] <= 0x8F) then 4 else 0
    else 0
  }

  /** The code point of the first sequence: its payload bits, in order. */
  function Lead(b: seq<Byte>): bv32
    requires LeadLength(b) > 0
  {
    match LeadLength(b)
    case 1 => b[0]
    case 2 => Pack2(b[0], b[1])
    case 3 => Pack3(b[0], b[1], b[2])
    case _ => Pack4(b[0], b[1], b[2], b[3])
  }

  lemma LeadIsScalar(b: seq<Byte>)
    requires LeadLength(b) > 0
    ensures Lead(b) < 0xD800 || 0xDFFF < Lead(b) < 0x110000
  {
  }

  /** A strict decoder: overlong forms, surrogates and stray bytes are errors. */
  function Decode8(b: seq<Byte>): Option<seq<Scalar>> {
    if b == [] then Some([])
    else if LeadLength(b) == 0 then None
    else
      var rest := Decode8(b[LeadLength(b)..]);
      LeadIsScalar(b);
      if rest.None? then None else Some([Lead(b) as Scalar] + rest.value)
  }

  // The bit layouts, one width at a time, without sequences.

  function Pack2(a: bv32, b: bv32): bv32 { ((a & 0x1F) << 6) | (b & 0x3F) }

  function Pack3(a: bv32, b: bv32, c: bv32): bv32 {
    ((a & 0x0F) << 12) | ((b & 0x3F) << 6) | (c & 0x3F)
  }

  function Pack4(a: bv32, b: bv32, c: bv32, d: bv32): bv32 {
    ((a & 0x07) << 18) | ((b & 0x3F) << 12) | ((c & 0x3F) << 6) | (d & 0x3F)
  }

  lemma Unpack2(c: bv32)
    requires 0x80 <= c < 0x800
    ensures Pack2(0xC0 | (c >> 6), 0x80 | (c & 0x3F)) == c
    ensures 0xC2 <= 0xC0 | (c >> 6) <= 0xDF && 0x80 <= 0x80 | (c & 0x3F) <= 0xBF
  {
  }

  lemma Unpack3(c: bv32)
    requires 0x800 <= c < 0x10000 && !(0xD800 <= c <= 0xDFFF)
    ensures var x, y, z := 0xE0 | (c >> 12), 0x80 | ((c >> 6) & 0x3F), 0x80 | (c & 0x3F);
            && Pack3(x, y, z) == c
            && 0xE0 <= x <= 0xEF && 0x80 <= y <= 0xBF && 0x80 <= z <= 0xBF
            && (x == 0xE0 ==> 0xA0 <= y) && (x == 0xED ==> y <= 0x9F)
  {
  }

  lemma Unpack4(c: bv32)
    requires 0x10000 <= c < 0x110000
    ensures var w, x, y, z := 0xF0 | (c >> 18), 0x80 | ((c >> 12) & 0x3F), 0x80 | ((c >> 6) & 0x3F), 0x80 | (c & 0x3F);
            && Pack4(w, x, y, z) == c
            && 0xF0 <= w <= 0xF4 && 0x80 <= x <= 0xBF && 0x80 <= y <= 0xBF && 0x80 <= z <= 0xBF
            && (w == 0xF0 ==> 0x90 <= x) && (w == 0xF4 ==> x <= 0x8F)
  {
  }

  lemma Repack2(a: bv32, b: bv32)
    requires 0xC2 <= a <= 0xDF && 0x80 <= b <= 0xBF
    ensures var c := Pack2(a, b); 0x80 <= c < 0x800 && 0xC0 | (c >> 6) == a && 0x80 | (c & 0x3F) == b
  {
  }

  lemma Repack3(a: bv32, b: bv32, c: bv32)
    requires 0xE0 <= a <= 0xEF && 0x80 <= b <= 0xBF && 0x80 <= c <= 0xBF
    requires (a == 0xE0 ==> 0xA0 <= b) && (a == 0xED ==> b <= 0x9F)
    ensures var p := Pack3(a, b, c);
            && 0x800 <= p < 0x10000 && !(0xD800 <= p <= 0xDFFF)
            && 0xE0 | (p >> 12) == a && 0x80 | ((p >> 6) & 0x3F) == b && 0x80 | (p & 0x3F) == c
  {
  }

  lemma Repack4(a: bv32, b: bv32, c: bv32, d: bv32)
    requires 0xF0 <= a <= 0xF4 && 0x80 <= b <= 0xBF && 0x80 <= c <= 0xBF && 0x80 <= d <= 0xBF
    requires (a == 0xF0 ==> 0x90 <= b) && (a == 0xF4 ==> b <= 0x8F)
    ensures var p := Pack4(a, b, c, d);
            && 0x10000 <= p < 0x110000
            && 0xF0 | (p >> 18) == a && 0x80 | ((p >> 12) & 0x3F) == b
            && 0x80 | ((p >> 6) & 0x3F) == c && 0x80 | (p & 0x3F) == d
  {
  }

  /** Decoding the encoding of a code point, whatever follows it. */
  lemma LeadOfEncoded(c: Scalar, rest: seq<Byte>)
    ensures var b := Encode8(c) + rest; LeadLength(b) == |Encode8(c)| && Lead(b) == c
  {
    hide Pack2, Pack3, Pack4;
    if c < 0x80 {
    } else if c < 0x800 {
      Unpack2(c);
    } else if c < 0x10000 {
      Unpack3(c);
    } else {
      Unpack4(c);
    }
  }

  lemma Encode8Ascii(a: Byte)
    requires a <= 0x7F
    ensures Encode8(a as Scalar) == [a]
  {
  }

  lemma Encode8Pack2(a: Byte, b: Byte)
    requires 0xC2 <= a <= 0xDF && Tail(b)
    ensures 0x80 <= Pack2(a, b) < 0x800 && Encode8(Pack2(a, b)) == [a, b]
  {
    hide Pack2;
    Repack2(a, b);
  }

  lemma Encode8Pack3(a: Byte, b: Byte, c: Byte)
    requires 0xE0 <= a <= 0xEF && Tail(b) && Tail(c)
    requires (a == 0xE0 ==> 0xA0 <= b) && (a == 0xED ==> b <= 0x9F)
    ensures var p := Pack3(a, b, c);
            0x800 <= p < 0x10000 && !(0xD800 <= p <= 0xDFFF) && Encode8(p) == [a, b, c]
  {
    hide Pack3;
    Repack3(a, b, c);
  }

  lemma Encode8Pack4(a: Byte, b: Byte, c: Byte, d: Byte)
    requires 0xF0 <= a <= 0xF4 && Tail(b) && Tail(c) && Tail(d)
    requires (a == 0xF0 ==> 0x90 <= b) && (a == 0xF4 ==> b <= 0x8F)
    ensures var p := Pack4(a, b, c, d); 0x10000 <= p < 0x110000 && Encode8(p) == [a, b, c, d]
  {
    hide Pack4;
    Repack4(a, b, c, d);
  }

  /** Encoding a decoded code point gives back exactly the bytes it was read from. */
  lemma EncodedLead(b: seq<Byte>)
    requires LeadLength(b) > 0
    ensures Lead(b) < 0xD800 || 0xDFFF < Lead(b) < 0x110000
    ensures Encode8(Lead(b)) == b[..LeadLength(b)]
  {
    hide Pack2, Pack3, Pack4, Encode8;
    match LeadLength(b)
    case 1 => Encode8Ascii(b[0]);
    case 2 => Encode8Pack2(b[0], b[1]);
    case 3 => Encode8Pack3(b[0], b[1], b[2]);
    case _ => Encode8Pack4(b[0], b[1], b[2], b[3]);
  }

  lemma {:induction false} DecodeEncoded(cs: seq<Scalar>)
    ensures Decode8(EncodeAll8(cs)) == Some(cs)
  {
    hide Lead, LeadLength, Encode8;
    if cs != [] {
      var rest := EncodeAll8(cs[1..]);
      LeadOfEncoded(cs[0], rest);
      DecodeEncoded(cs[1..]);
      assert (Encode8(cs[0]) + rest)[|Encode8(cs[0])|..] == rest;
      assert [cs[0]] + cs[1..] == cs;
    }
  }

  /** The decoder accepts exactly the encodings. */
  lemma {:induction false} EncodeDecoded(b: seq<Byte>)
    requires Decode8(b).Some?
    ensures EncodeAll8(Decode8(b).value) == b
  {
    hide Lead, LeadLength, Encode8;
    if b != [] {
      var n := LeadLength(b);
      EncodedLead(b);
      EncodeDecoded(b[n..]);
      var rest := Decode8(b[n..]).value;
      assert Decode8(b).value == [Lead(b)] + rest;
      assert ([Lead(b)] + rest)[1..] == rest;
      assert b == b[..n] + b[n..];
    }
  }

  // ---- The encoder of the extension -----------------------------------------------------------------------

  /** One step through the text: a pair is one code point, any other unit is its own. */
  lemma ScalarsStep(s: seq<Unit>)
    requires WellFormed(s) && s != []
    ensures var k := if PairAt(s, 0) then 2 else 1;
            && WellFormed(s[k..])
            && (!PairAt(s, 0) ==> !High(s[0]) && !Low(s[0]))
            && EncodeAll8(Scalars(s)) ==
               Encode8(if PairAt(s, 0) then Combine(s[0], s[1]) else s[0]) + EncodeAll8(Scalars(s[k..]))
  {
    hide Encode8, Combine;
    SuffixWellFormed(s);
    if PairAt(s, 0) {
      assert ([Combine(s[0], s[1])] + Scalars(s[2..]))[1..] == Scalars(s[2..]);
    } else {
      assert ([s[0]] + Scalars(s[1..]))[1..] == Scalars(s[1..]);
    }
  }

  /** The four ways in which a code point is pushed onto the bytes. */
  method PushScalar(bytes: seq<Byte>, code: Scalar) returns (r: seq<Byte>)
    ensures r == bytes + Encode8(code)
  {
    if code < 0x80 {
      r := bytes + [code];
    } else if code < 0x800 {
      r := bytes + [0xC0 | (code >> 6), 0x80 | (code & 0x3F)];
    } else if code < 0x10000 {
      r := bytes + [0xE0 | (code >> 12), 0x80 | ((code >> 6) & 0x3F), 0x80 | (code & 0x3F)];
    } else {
      r := bytes + [0xF0 | (code >> 18), 0x80 | ((code >> 12) & 0x3F), 0x80 | ((code >> 6) & 0x3F), 0x80 | (code & 0x3F)];
    }
  }

  lemma CombineIs(high: Unit, low: Unit)
    requires High(high) && Low(low)
    ensures Combine(high, low) == 0x10000 + ((high - 0xD800) << 10) + low - 0xDC00
  {
  }

  lemma NothingLeft()
    ensures WellFormed([]) && EncodeAll8(Scalars([])) == []
  {
  }

  function CodeAt(text: seq<Unit>, i: nat): Scalar
    requires i < |text| && (PairAt(text, i) || (!High(text[i]) && !Low(text[i])))
  {
    if PairAt(text, i) then Combine(text[i], text[i + 1]) else text[i]
  }

  lemma StepFrom(text: seq<Unit>, i: nat)
    requires i < |text| && WellFormed(text[i..])
    ensures var k := if PairAt(text, i) then i + 2 else i + 1;
            && k <= |text| && WellFormed(text[k..]) && (PairAt(text, i) || (!High(text[i]) && !Low(text[i])))
            && EncodeAll8(Scalars(text[i..])) == Encode8(CodeAt(text, i)) + EncodeAll8(Scalars(text[k..]))
  {
    hide Scalars, EncodeAll8, Encode8, Combine, WellFormed, High, Low;
    var rest := text[i..];
    ScalarsStep(rest);
    assert rest[0] == text[i] && (|rest| > 1 ==> rest[1] == text[i + 1]);
    assert PairAt(rest, 0) == PairAt(text, i);
    if PairAt(text, i) { assert rest[2..] == text[i + 2..]; } else { assert rest[1..] == text[i + 1..]; }
  }

  lemma Regroup(before: seq<Byte>, scalar: seq<Byte>, tail: seq<Byte>)
    ensures (before + scalar) + tail == before + (scalar + tail)
  {
  }

  method Utf8Bytes(value: seq<Unit>) returns (bytes: seq<Byte>)
    ensures WellFormed(Repaired(value))
    ensures bytes == EncodeAll8(Scalars(Repaired(value)))
  {
    hide Scalars, EncodeAll8, Encode8, Combine, Lone, WellFormed;
    var text := NormalizeUtf16(value);
    RepairedIsWellFormed(value);
    NothingLeft();
    bytes := [];
    assert text[0..] == text;
    var index := 0;
    while index < |text|
      invariant 0 <= index <= |text| && WellFormed(text[index..])
      invariant bytes + EncodeAll8(Scalars(text[index..])) == EncodeAll8(Scalars(text))
    {
      ghost var start := index;
      StepFrom(text, index);
      var code: bv32 := text[index];
      if 0xD800 <= code <= 0xDBFF && index + 1 < |text| {
        var next := text[index + 1];
        if 0xDC00 <= next <= 0xDFFF {
          CombineIs(text[index], next);
          code := 0x10000 + ((code - 0xD800) << 10) + next - 0xDC00;
          index := index + 1;
        }
      }
      index := index + 1;
      assert code == CodeAt(text, start);
      Regroup(bytes, Encode8(code), EncodeAll8(Scalars(text[index..])));
      bytes := PushScalar(bytes, code);
    }
    assert text[|text|..] == [];
  }

  /** Decoding the bytes and re-encoding to UTF-16 gives the repaired text. */
  lemma RoundTrip(value: seq<Unit>)
    requires WellFormed(Repaired(value))
    ensures var decoded := Decode8(EncodeAll8(Scalars(Repaired(value))));
            decoded.Some? && EncodeAll16(decoded.value) == Repaired(value)
  {
    DecodeEncoded(Scalars(Repaired(value)));
    EncodeScalars16(Repaired(value));
  }

  /** Two texts get the same bytes exactly when their repairs agree. */
  lemma SameBytesIff(v: seq<Unit>, w: seq<Unit>)
    requires WellFormed(Repaired(v)) && WellFormed(Repaired(w))
    ensures EncodeAll8(Scalars(Repaired(v))) == EncodeAll8(Scalars(Repaired(w))) <==> Repaired(v) == Repaired(w)
    ensures WellFormed(v) && WellFormed(w) && EncodeAll8(Scalars(Repaired(v))) == EncodeAll8(Scalars(Repaired(w))) ==> v == w
  {
    RoundTrip(v);
    RoundTrip(w);
    RepairFixesIff(v);
    RepairFixesIff(w);
  }
}
