/** The fallback digest from text to hexadecimal digest: repair, encode, hash. */
module DocumentDigest {
  import opened JsNumbers
  import Utf
  import Sha256
  import Sha256Vectors

  function Octet(b: Utf.Byte): Sha256.Byte { b as int }

  function Octets(bytes: seq<Utf.Byte>): (r: seq<Sha256.Byte>)
    ensures |r| == |bytes|
  {
    seq(|bytes|, i requires 0 <= i < |bytes| => Octet(bytes[i]))
  }

  lemma OctetInjective(a: Utf.Byte, b: Utf.Byte)
    ensures Octet(a) == Octet(b) ==> a == b
  {
    FromInt(a);
    FromInt(b);
  }

  lemma OctetsInjective(a: seq<Utf.Byte>, b: seq<Utf.Byte>)
    ensures Octets(a) == Octets(b) ==> a == b
  {
    hide Octet;
    if Octets(a) == Octets(b) {
      forall i | 0 <= i < |a| ensures a[i] == b[i] {
        assert Octets(a)[i] == Octets(b)[i];
        OctetInjective(a[i], b[i]);
      }
    }
  }

  /** The UTF-8 form of the repaired text. */
  function Message(value: seq<Utf.Unit>): seq<Sha256.Byte> {
    Utf.RepairedIsWellFormed(value);
    Octets(Utf.EncodeAll8(Utf.Scalars(Utf.Repaired(value))))
  }

  /** A unit becomes at most three bytes. */
  lemma {:induction false} EncodedLength(text: seq<Utf.Unit>)
    requires Utf.WellFormed(text)
    ensures |Utf.EncodeAll8(Utf.Scalars(text))| <= 3 * |text|
    decreases |text|
  {
    if text != [] {
      Utf.SuffixWellFormed(text);
      var scalars := Utf.Scalars(text);
      if Utf.PairAt(text, 0) {
        EncodedLength(text[2..]);
        assert scalars[1..] == Utf.Scalars(text[2..]);
      } else {
        EncodedLength(text[1..]);
        assert scalars[1..] == Utf.Scalars(text[1..]);
        assert scalars[0] == text[0];
      }
    }
  }

  /** The digest of a text is SHA-256 of its repaired UTF-8 form, in hexadecimal. */
  method Digest(value: seq<Utf.Unit>) returns (hex: string)
    requires 3 * |value| < TWO32
    ensures hex == Sha256.HexVars(Sha256.Hash(Message(value)))
  {
    hide Sha256.Hash, Sha256.HexVars, Octets;
    var bytes := Utf.Utf8Bytes(value);
    EncodedLength(Utf.Repaired(value));
    hex := Sha256.Sha256Fallback(Octets(bytes));
  }

  /**
   * Two texts go through the compression function as the same blocks exactly when they differ in
   * nothing but unpaired surrogates; for well-formed texts, exactly when they are equal.
   */
  lemma SamePaddedIff(v: seq<Utf.Unit>, w: seq<Utf.Unit>)
    requires 3 * |v| < TWO32 && 3 * |w| < TWO32
    ensures Sha256.Pad(Message(v)) == Sha256.Pad(Message(w)) <==> Utf.Repaired(v) == Utf.Repaired(w)
    ensures Utf.WellFormed(v) && Utf.WellFormed(w) ==> (Sha256.Pad(Message(v)) == Sha256.Pad(Message(w)) <==> v == w)
  {
    hide Sha256.Pad, Octets;
    Utf.RepairedIsWellFormed(v);
    Utf.RepairedIsWellFormed(w);
    EncodedLength(Utf.Repaired(v));
    EncodedLength(Utf.Repaired(w));
    Sha256.PadInjective(Message(v), Message(w));
    OctetsInjective(Utf.EncodeAll8(Utf.Scalars(Utf.Repaired(v))), Utf.EncodeAll8(Utf.Scalars(Utf.Repaired(w))));
    Utf.SameBytesIff(v, w);
    Utf.RepairFixesIff(v);
    Utf.RepairFixesIff(w);
  }

  /** Text of ASCII characters is hashed as their codes. */
  lemma {:induction false} AsciiMessage(value: seq<Utf.Unit>)
    requires forall i :: 0 <= i < |value| ==> value[i] < 0x80
    ensures |Message(value)| == |value| && forall i :: 0 <= i < |value| ==> Message(value)[i] == value[i] as int
  {
    Utf.RepairedIsWellFormed(value);
    assert Utf.Repaired(value) == value;
    AsciiEncoded(value);
  }

  lemma {:induction false} AsciiEncoded(text: seq<Utf.Unit>)
    requires Utf.WellFormed(text) && forall i :: 0 <= i < |text| ==> text[i] < 0x80
    ensures Utf.EncodeAll8(Utf.Scalars(text)) == text
    decreases |text|
  {
    if text != [] {
      Utf.SuffixWellFormed(text);
      AsciiEncoded(text[1..]);
      var scalars := Utf.Scalars(text);
      assert scalars[0] == text[0] && scalars[1..] == Utf.Scalars(text[1..]);
      assert text == [text[0]] + text[1..];
    }
  }

  /** The digest of the text "abc" is the one published with the standard. */
  lemma DigestOfAbc(value: seq<Utf.Unit>)
    requires value == [0x61, 0x62, 0x63]
    ensures Sha256.HexVars(Sha256.Hash(Message(value)))
         == "ba7816bf" + "8f01cfea" + "414140de" + "5dae2223" + "b00361a3" + "96177a9c" + "b410ff61" + "f20015ad"
  {
    hide Sha256.Hash, Sha256.HexVars, Message;
    AsciiMessage(value);
    Sha256Vectors.DigestOfAbc(Message(value));
  }
}
