/** Fingerprints by their bits: what a vote counts, how far two are apart, and what the filter keeps. */
module SimHashMeaning {
  import opened SimHash

  // ---- Bits ----------------------------------------------------------------------------------------------

  lemma {:induction false} PowersAdd(a: nat, b: nat)
    ensures Pow2(a + b) == Pow2(a) * Pow2(b)
  {
    if a > 0 {
      PowersAdd(a - 1, b);
      Doubled(Pow2(a - 1), Pow2(b));
    }
  }

  lemma Doubled(x: nat, y: nat)
    ensures 2 * (x * y) == (2 * x) * y
  {
  }

  /** Fingerprints are the numbers of 64 bits. */
  lemma FingerprintsAre()
    ensures Pow2(BITS) == 0x1_0000_0000_0000_0000
  {
    assert Pow2(4) == 16;
    hide Pow2;
    Squared(4, 16);
    Squared(8, 0x100);
    Squared(16, 0x1_0000);
    Squared(32, 0x1_0000_0000);
  }

  lemma Squared(k: nat, p: nat)
    requires Pow2(k) == p
    ensures Pow2(2 * k) == p * p
  {
    hide Pow2;
    PowersAdd(k, k);
  }

  /** A bit is the parity of what a division by its power leaves. */
  lemma {:induction false} BitIs(value: nat, i: nat)
    ensures Bit(value, i) <==> value / Pow2(i) % 2 == 1
    decreases i
  {
    if i > 0 {
      BitIs(value / 2, i - 1);
      HalvedFirst(value, Pow2(i - 1));
    }
  }

  lemma HalvedFirst(value: nat, p: nat)
    requires p > 0
    ensures value / 2 / p == value / (2 * p)
  {
    var q, r := value / 2, value % 2;
    var x, y := q / p, q % p;
    assert q == p * x + y;
    assert value == (2 * p) * x + (2 * y + r) by { Doubled(p, x); }
    Quotient(value, 2 * p, x, 2 * y + r);
  }

  lemma Quotient(n: nat, d: nat, q: nat, r: nat)
    requires d > 0 && n == d * q + r && r < d
    ensures n / d == q
  {
    var k, m := n / d, n % d;
    var x := k - q;
    assert d * k + m == d * q + r && d * x == d * k - d * q;
    assert d * x == -(d * -x);
    if x > 0 { AtLeastOnce(d, x); } else if x < 0 { AtLeastOnce(d, -x); }
  }

  lemma AtLeastOnce(d: nat, x: nat)
    requires x > 0
    ensures d * x >= d
  {
    assert d * x == d + d * (x - 1);
  }

  // ---- Votes ---------------------------------------------------------------------------------------------

  function Voters(hashes: seq<Fingerprint>, bit: nat): set<nat> {
    set n: nat | n < |hashes| && Bit(hashes[n], bit)
  }

  lemma {:induction false} HavingIs(hashes: seq<Fingerprint>, bit: nat)
    ensures Having(hashes, bit) == |Voters(hashes, bit)|
    decreases |hashes|
  {
    hide Bit;
    if hashes == [] {
      assert Voters(hashes, bit) == {};
    } else {
      var n := |hashes| - 1;
      var front := hashes[..n];
      HavingIs(front, bit);
      assert forall i :: 0 <= i < n ==> front[i] == hashes[i];
      assert Voters(hashes, bit) == Voters(front, bit) + (if Bit(hashes[n], bit) then {n as nat} else {});
      assert n !in Voters(front, bit);
    }
  }

  /** A bit has a majority when more than half of the hashes have it. */
  lemma MajorityIff(hashes: seq<Fingerprint>, bit: nat)
    ensures Majority(hashes, bit) <==> |Voters(hashes, bit)| > |hashes| - |Voters(hashes, bit)|
  {
    hide Having;
    HavingIs(hashes, bit);
  }

  // ---- Distances -----------------------------------------------------------------------------------------

  /** The positions below `n` at which two numbers differ. */
  function Differing(a: nat, b: nat, n: nat): set<nat> {
    set i: nat | i < n && Bit(a, i) != Bit(b, i)
  }

  lemma {:induction false} DistanceIs(a: nat, b: nat, n: nat)
    ensures Distance(a, b, n) == |Differing(a, b, n)|
    decreases n
  {
    hide Bit;
    if n == 0 {
      assert Differing(a, b, n) == {};
    } else {
      DistanceIs(a, b, n - 1);
      assert Differing(a, b, n) == Differing(a, b, n - 1) + (if Bit(a, n - 1) != Bit(b, n - 1) then {n - 1} else {});
    }
  }

  /** The distance is a metric: symmetric, zero only between equals, and no detour is shorter. */
  lemma DistanceIsMetric(a: Fingerprint, b: Fingerprint, c: Fingerprint)
    ensures Distance(a, b, BITS) == Distance(b, a, BITS)
    ensures Distance(a, b, BITS) == 0 <==> a == b
    ensures Distance(a, c, BITS) <= Distance(a, b, BITS) + Distance(b, c, BITS)
  {
    hide Bit, Distance, Pow2;
    DistanceIs(a, b, BITS);
    DistanceIs(b, a, BITS);
    DistanceIs(b, c, BITS);
    DistanceIs(a, c, BITS);
    var ab, bc, ac := Differing(a, b, BITS), Differing(b, c, BITS), Differing(a, c, BITS);
    assert ab == Differing(b, a, BITS);
    if ab == {} {
      forall i: nat | i < BITS ensures Bit(a, i) <==> Bit(b, i) {
        assert i !in ab;
      }
      BitsDetermine(a, b, BITS);
    }
    if a == b { assert ab == {}; }
    assert ac <= ab + bc;
    Smaller(ac, ab + bc);
  }

  lemma {:induction false} Smaller(s: set<nat>, t: set<nat>)
    requires s <= t
    ensures |s| <= |t|
    decreases s
  {
    if x :| x in s { Smaller(s - {x}, t - {x}); }
  }

  lemma NearIff(a: Fingerprint, b: Fingerprint)
    ensures Near(a, b) <==> |Differing(a, b, 64)| <= 4
  {
    hide Distance, Bit;
    DistanceIs(a, b, 64);
  }

  // ---- The filter ----------------------------------------------------------------------------------------

  /** The two have fingerprints that differ in at most four of the 64 positions. */
  predicate Alike<T>(a: T, b: T, fingerprint: T -> Fingerprint) {
    fingerprint(a) != 0 && fingerprint(b) != 0 && |Differing(fingerprint(a), fingerprint(b), 64)| <= 4
  }

  /** Of the chunks, those are kept that are not alike to one kept before them; kept ones are never alike. */
  lemma FilterIs<T>(chunks: seq<T>, fingerprint: T -> Fingerprint)
    ensures var kept := Kept(chunks, fingerprint);
            && (forall i :: 0 <= i < |kept| ==> kept[i] < |chunks|)
            && (forall i, j :: 0 <= i < j < |kept| ==> kept[i] < kept[j])
            && (forall i, j :: 0 <= i < j < |kept| ==> !Alike(chunks[kept[j]], chunks[kept[i]], fingerprint))
            && (forall k: nat :: k < |chunks| ==>
                  (k in kept <==> !exists i :: 0 <= i < |kept| && kept[i] < k && Alike(chunks[k], chunks[kept[i]], fingerprint)))
  {
    hide Near, Distance, Kept, Differing;
    FilterSeparatesAndCovers(chunks, fingerprint);
    var kept := Kept(chunks, fingerprint);
    forall k, l | 0 <= k < |chunks| && 0 <= l < |chunks|
      ensures Alike(chunks[k], chunks[l], fingerprint) <==>
              fingerprint(chunks[k]) != 0 && fingerprint(chunks[l]) != 0 && Near(fingerprint(chunks[k]), fingerprint(chunks[l]))
    {
      NearIff(fingerprint(chunks[k]), fingerprint(chunks[l]));
    }
    hide Alike;
    forall i, j | 0 <= i < j < |kept| ensures !Alike(chunks[kept[j]], chunks[kept[i]], fingerprint) {
      FarApart(chunks, fingerprint, kept, i, j);
    }
  }

  lemma FarApart<T>(chunks: seq<T>, fingerprint: T -> Fingerprint, kept: seq<nat>, i: nat, j: nat)
    requires Increasing(kept, |chunks|) && Separated(chunks, fingerprint, kept) && i < j < |kept|
    ensures var v, w := fingerprint(chunks[kept[i]]), fingerprint(chunks[kept[j]]); v == 0 || w == 0 || !Near(w, v)
  {
    hide Distance;
    assert Of(chunks, fingerprint, kept[i]) == fingerprint(chunks[kept[i]]);
    assert Of(chunks, fingerprint, kept[j]) == fingerprint(chunks[kept[j]]);
  }
}
