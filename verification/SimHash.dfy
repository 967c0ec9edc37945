/** Bit votes over 64-bit hashes, and the greedy filter of near-duplicate fingerprints. */
module SimHash {
  const BITS := 64
  const NEAR := 4

  function Pow2(k: nat): (p: nat)
    ensures p > 0
  {
    if k == 0 then 1 else 2 * Pow2(k - 1)
  }

  type Fingerprint = v: nat | v < Pow2(BITS)

  predicate Bit(value: nat, i: nat)
    decreases i
  {
    if i == 0 then value % 2 == 1 else Bit(value / 2, i - 1)
  }

  lemma {:induction false} BitOfLow(low: nat, k: nat, i: nat)
    requires low < Pow2(k) && i >= k
    ensures !Bit(low, i)
    decreases i
  {
    if k > 0 { BitOfLow(low / 2, k - 1, i - 1); }
    else if i > 0 { BitOfLow(low / 2, 0, i - 1); }
  }

  /** Adding the next power of two sets that bit and changes no lower one. */
  lemma {:induction false} BitOfSum(low: nat, k: nat, i: nat)
    requires low < Pow2(k) && i <= k
    ensures Bit(low + Pow2(k), i) <==> i == k || Bit(low, i)
    decreases k
  {
    if k > 0 {
      assert (low + Pow2(k)) / 2 == low / 2 + Pow2(k - 1);
      assert (low + Pow2(k)) % 2 == low % 2;
      if i > 0 { BitOfSum(low / 2, k - 1, i - 1); }
    }
  }

  /** Numbers below a power of two are determined by their bits. */
  lemma {:induction false} BitsDetermine(a: nat, b: nat, k: nat)
    requires a < Pow2(k) && b < Pow2(k)
    requires forall i: nat :: i < k ==> (Bit(a, i) <==> Bit(b, i))
    ensures a == b
    decreases k
  {
    if k > 0 {
      forall i: nat | i < k - 1 ensures Bit(a / 2, i) <==> Bit(b / 2, i) {
        assert Bit(a, i + 1) <==> Bit(b, i + 1);
      }
      BitsDetermine(a / 2, b / 2, k - 1);
      assert Bit(a, 0) <==> Bit(b, 0);
    }
  }

  // ---- Votes ---------------------------------------------------------------------------------------

  /** How many of the hashes have the bit. */
  function Having(hashes: seq<Fingerprint>, bit: nat): (c: nat)
    ensures c <= |hashes|
  {
    if hashes == [] then 0
    else Having(hashes[..|hashes| - 1], bit) + if Bit(hashes[|hashes| - 1], bit) then 1 else 0
  }

  predicate Majority(hashes: seq<Fingerprint>, bit: nat) {
    2 * Having(hashes, bit) > |hashes|
  }

  lemma HavingNext(hashes: seq<Fingerprint>, n: nat, bit: nat)
    requires n < |hashes|
    ensures Having(hashes[..n + 1], bit) == Having(hashes[..n], bit) + if Bit(hashes[n], bit) then 1 else 0
  {
    assert hashes[..n + 1][..n] == hashes[..n];
  }

  /** Every hash votes on every bit, one up or one down. */
  method CountVotes(hashes: seq<Fingerprint>) returns (votes: array<int>)
    ensures fresh(votes) && votes.Length == BITS
    ensures forall b :: 0 <= b < BITS ==> votes[b] == 2 * Having(hashes, b) - |hashes|
  {
    hide Bit, Having;
    votes := new int[BITS](_ => 0);
    forall b: nat ensures Having(hashes[..0], b) == 0 { HavingNone(b); }
    for n := 0 to |hashes|
      invariant forall b :: 0 <= b < BITS ==> votes[b] == 2 * Having(hashes[..n], b) - n
    {
      var value := hashes[n];
      for bit := 0 to BITS
        invariant forall b :: 0 <= b < bit ==> votes[b] == 2 * Having(hashes[..n + 1], b) - (n + 1)
        invariant forall b :: bit <= b < BITS ==> votes[b] == 2 * Having(hashes[..n], b) - n
      {
        HavingNext(hashes, n, bit);
        votes[bit] := votes[bit] + if Bit(value, bit) then 1 else -1;
      }
    }
    assert hashes[..|hashes|] == hashes;
  }

  lemma HavingNone(bit: nat)
    ensures Having([], bit) == 0
  {
  }

  method PythonVotes(hashes: seq<Fingerprint>) returns (result: Fingerprint)
    ensures forall bit: nat :: bit < BITS ==> (Bit(result, bit) <==> Majority(hashes, bit))
  {
    hide Bit, Having;
    var votes := CountVotes(hashes);
    var sum: nat := 0;
    for bit := 0 to BITS
      invariant sum < Pow2(bit)
      invariant forall b: nat :: b < bit ==> (Bit(sum, b) <==> Majority(hashes, b))
      invariant forall b :: 0 <= b < BITS ==> votes[b] == 2 * Having(hashes, b) - |hashes|
    {
      BitOfLow(sum, bit, bit);
      if votes[bit] > 0 {
        forall b: nat | b <= bit ensures Bit(sum + Pow2(bit), b) <==> b == bit || Bit(sum, b) {
          BitOfSum(sum, bit, b);
        }
        sum := sum + Pow2(bit);
      }
    }
    result := sum;
  }

  // ---- Votes do not depend on the order ---------------------------------------------------------------

  lemma {:induction false} HavingSplit(a: seq<Fingerprint>, b: seq<Fingerprint>, bit: nat)
    ensures Having(a + b, bit) == Having(a, bit) + Having(b, bit)
    decreases |b|
  {
    if b == [] {
      assert a + b == a;
    } else {
      assert (a + b)[..|a + b| - 1] == a + b[..|b| - 1];
      HavingSplit(a, b[..|b| - 1], bit);
    }
  }

  lemma HavingMiddle(a: seq<Fingerprint>, x: Fingerprint, b: seq<Fingerprint>, bit: nat)
    ensures Having(a + ([x] + b), bit) == Having(a + b, bit) + if Bit(x, bit) then 1 else 0
  {
    HavingSplit(a, [x] + b, bit);
    HavingSplit([x], b, bit);
    HavingSplit(a, b, bit);
    assert [x][..0] == [];
  }

  /** An element can be taken out of a sequence without disturbing the rest. */
  lemma TakeOut(t: seq<Fingerprint>, x: Fingerprint) returns (k: nat)
    requires x in t
    ensures k < |t| && t == t[..k] + ([x] + t[k + 1..])
    ensures multiset(t[..k] + t[k + 1..]) == multiset(t) - multiset{x}
  {
    k :| 0 <= k < |t| && t[k] == x;
    assert t == t[..k] + ([x] + t[k + 1..]);
  }

  lemma {:induction false} HavingPermuted(s: seq<Fingerprint>, t: seq<Fingerprint>, bit: nat)
    requires multiset(s) == multiset(t)
    ensures Having(s, bit) == Having(t, bit) && |s| == |t|
    decreases |s|
  {
    assert |multiset(s)| == |s| && |multiset(t)| == |t|;
    if s != [] {
      var n := |s| - 1;
      var front := s[..n];
      assert s == front + [s[n]];
      assert s[n] in multiset(t);
      var k := TakeOut(t, s[n]);
      HavingPermuted(front, t[..k] + t[k + 1..], bit);
      HavingMiddle(t[..k], s[n], t[k + 1..], bit);
    }
  }

  /** Reordering the hashes does not change the fingerprint: both numbers have the majority bits. */
  lemma VotesPermuted(s: seq<Fingerprint>, t: seq<Fingerprint>, v: Fingerprint, w: Fingerprint)
    requires multiset(s) == multiset(t)
    requires forall bit: nat :: bit < BITS ==> (Bit(v, bit) <==> Majority(s, bit))
    requires forall bit: nat :: bit < BITS ==> (Bit(w, bit) <==> Majority(t, bit))
    ensures v == w
  {
    forall bit: nat | bit < BITS ensures Bit(v, bit) <==> Bit(w, bit) {
      HavingPermuted(s, t, bit);
      assert Bit(v, bit) <==> Majority(s, bit);
      assert Bit(w, bit) <==> Majority(t, bit);
    }
    BitsDetermine(v, w, BITS);
  }

  // ---- The greedy filter --------------------------------------------------------------------------------

  /** In how many of the lowest `n` bits the numbers differ. */
  function Distance(a: nat, b: nat, n: nat): nat {
    if n == 0 then 0 else Distance(a, b, n - 1) + if Bit(a, n - 1) != Bit(b, n - 1) then 1 else 0
  }

  predicate Near(a: Fingerprint, b: Fingerprint) {
    Distance(a, b, BITS) <= NEAR
  }

  predicate Duplicate(v: Fingerprint, seen: seq<Fingerprint>) {
    v != 0 && exists i :: 0 <= i < |seen| && Near(v, seen[i])
  }

  /** The positions of the chunks that are kept. */
  function Kept<T>(chunks: seq<T>, fingerprint: T -> Fingerprint): (r: seq<nat>)
    ensures forall i :: 0 <= i < |r| ==> r[i] < |chunks|
  {
    if chunks == [] then []
    else
      var n := |chunks| - 1;
      var before := Kept(chunks[..n], fingerprint);
      if Duplicate(fingerprint(chunks[n]), Seen(chunks[..n], before, fingerprint)) then before else before + [n]
  }

  /** The nonzero fingerprints at these positions. */
  function Seen<T>(chunks: seq<T>, positions: seq<nat>, fingerprint: T -> Fingerprint): seq<Fingerprint>
    requires forall i :: 0 <= i < |positions| ==> positions[i] < |chunks|
  {
    if positions == [] then []
    else
      var n := |positions| - 1;
      var v := fingerprint(chunks[positions[n]]);
      Seen(chunks, positions[..n], fingerprint) + if v != 0 then [v] else []
  }

  lemma {:induction false} SeenStays<T>(chunks: seq<T>, more: seq<T>, positions: seq<nat>, fingerprint: T -> Fingerprint)
    requires forall i :: 0 <= i < |positions| ==> positions[i] < |chunks|
    ensures Seen(chunks + more, positions, fingerprint) == Seen(chunks, positions, fingerprint)
    decreases |positions|
  {
    if positions != [] { SeenStays(chunks, more, positions[..|positions| - 1], fingerprint); }
  }

  predicate HasFingerprint<T>(chunks: seq<T>, positions: seq<nat>, fingerprint: T -> Fingerprint, v: Fingerprint)
    requires forall i :: 0 <= i < |positions| ==> positions[i] < |chunks|
  {
    exists i :: 0 <= i < |positions| && fingerprint(chunks[positions[i]]) == v
  }

  lemma HasFingerprintLast<T>(chunks: seq<T>, positions: seq<nat>, fingerprint: T -> Fingerprint, v: Fingerprint)
    requires positions != [] && forall i :: 0 <= i < |positions| ==> positions[i] < |chunks|
    ensures var n := |positions| - 1;
            HasFingerprint(chunks, positions, fingerprint, v)
            <==> HasFingerprint(chunks, positions[..n], fingerprint, v) || fingerprint(chunks[positions[n]]) == v
  {
    var n := |positions| - 1;
    assert forall i :: 0 <= i < n ==> positions[..n][i] == positions[i];
  }

  lemma {:induction false} SeenIffKept<T>(chunks: seq<T>, positions: seq<nat>, fingerprint: T -> Fingerprint, v: Fingerprint)
    requires forall i :: 0 <= i < |positions| ==> positions[i] < |chunks|
    ensures v in Seen(chunks, positions, fingerprint) <==> v != 0 && HasFingerprint(chunks, positions, fingerprint, v)
    decreases |positions|
  {
    if positions != [] {
      hide HasFingerprint;
      SeenIffKept(chunks, positions[..|positions| - 1], fingerprint, v);
      HasFingerprintLast(chunks, positions, fingerprint, v);
    }
  }

  /** One more chunk: what the filter has kept and seen afterwards. */
  lemma FilterStep<T>(chunks: seq<T>, n: nat, fingerprint: T -> Fingerprint)
    requires n < |chunks|
    ensures var before := Kept(chunks[..n], fingerprint); var seen := Seen(chunks[..n], before, fingerprint);
            var v := fingerprint(chunks[n]); var kept := Kept(chunks[..n + 1], fingerprint);
            if Duplicate(v, seen) then
              kept == before && Seen(chunks[..n + 1], kept, fingerprint) == seen
            else
              kept == before + [n] && Seen(chunks[..n + 1], kept, fingerprint) == seen + if v != 0 then [v] else []
  {
    hide Duplicate;
    var before := Kept(chunks[..n], fingerprint);
    assert chunks[..n + 1][..n] == chunks[..n] && chunks[..n + 1] == chunks[..n] + [chunks[n]];
    SeenStays(chunks[..n], [chunks[n]], before, fingerprint);
    assert (before + [n])[..|before|] == before;
  }

  method Deduplicate<T>(chunks: seq<T>, fingerprint: T -> Fingerprint)
    returns (records: seq<nat>, seen: seq<Fingerprint>, duplicates: nat)
    ensures records == Kept(chunks, fingerprint)
    ensures seen == Seen(chunks, records, fingerprint)
    ensures |records| + duplicates == |chunks|
  {
    hide Kept, Seen, Duplicate;
    records, seen, duplicates := [], [], 0;
    FilterNone(chunks, fingerprint);
    for n := 0 to |chunks|
      invariant records == Kept(chunks[..n], fingerprint) && seen == Seen(chunks[..n], records, fingerprint)
      invariant |records| + duplicates == n
    {
      FilterStep(chunks, n, fingerprint);
      var v := fingerprint(chunks[n]);
      if Duplicate(v, seen) {
        duplicates := duplicates + 1;
        continue;
      }
      if v != 0 { seen := seen + [v]; }
      records := records + [n];
    }
    assert chunks[..|chunks|] == chunks;
  }

  lemma FilterNone<T>(chunks: seq<T>, fingerprint: T -> Fingerprint)
    ensures Kept(chunks[..0], fingerprint) == [] && Seen(chunks[..0], [], fingerprint) == []
  {
  }

  function Of<T>(chunks: seq<T>, fingerprint: T -> Fingerprint, k: nat): Fingerprint
    requires k < |chunks|
  {
    fingerprint(chunks[k])
  }

  predicate Increasing(kept: seq<nat>, bound: nat) {
    && (forall i :: 0 <= i < |kept| ==> kept[i] < bound)
    && forall i, j :: 0 <= i < j < |kept| ==> kept[i] < kept[j]
  }

  /** Kept fingerprints other than zero are pairwise more than four bits apart. */
  predicate Separated<T>(chunks: seq<T>, fingerprint: T -> Fingerprint, kept: seq<nat>)
    requires Increasing(kept, |chunks|)
  {
    forall i, j :: 0 <= i < j < |kept| ==>
      var v, w := Of(chunks, fingerprint, kept[i]), Of(chunks, fingerprint, kept[j]);
      v == 0 || w == 0 || Distance(w, v, BITS) > NEAR
  }

  /** A chunk is skipped because of a kept one in front of it. */
  predicate Covered<T>(chunks: seq<T>, fingerprint: T -> Fingerprint, kept: seq<nat>, k: nat)
    requires Increasing(kept, |chunks|) && k < |chunks|
  {
    && Of(chunks, fingerprint, k) != 0
    && exists i :: 0 <= i < |kept| && kept[i] < k && Of(chunks, fingerprint, kept[i]) != 0
         && Near(Of(chunks, fingerprint, k), Of(chunks, fingerprint, kept[i]))
  }

  ghost predicate DuplicateOfKept<T>(chunks: seq<T>, fingerprint: T -> Fingerprint, kept: seq<nat>, v: Fingerprint)
    requires Increasing(kept, |chunks|)
  {
    v != 0 && exists i :: 0 <= i < |kept| && Of(chunks, fingerprint, kept[i]) != 0 && Near(v, Of(chunks, fingerprint, kept[i]))
  }

  lemma DuplicateIff<T>(chunks: seq<T>, fingerprint: T -> Fingerprint, kept: seq<nat>, v: Fingerprint)
    requires Increasing(kept, |chunks|)
    ensures Duplicate(v, Seen(chunks, kept, fingerprint)) <==> DuplicateOfKept(chunks, fingerprint, kept, v)
  {
    hide Near, Seen;
    forall w: Fingerprint
      ensures w in Seen(chunks, kept, fingerprint) <==> w != 0 && HasFingerprint(chunks, kept, fingerprint, w)
    {
      SeenIffKept(chunks, kept, fingerprint, w);
    }
    var seen := Seen(chunks, kept, fingerprint);
    if Duplicate(v, seen) {
      var i :| 0 <= i < |seen| && Near(v, seen[i]);
      assert seen[i] in seen;
      SeenIffKept(chunks, kept, fingerprint, seen[i]);
    }
    if DuplicateOfKept(chunks, fingerprint, kept, v) {
      var i :| 0 <= i < |kept| && Of(chunks, fingerprint, kept[i]) != 0 && Near(v, Of(chunks, fingerprint, kept[i]));
      SeenIffKept(chunks, kept, fingerprint, Of(chunks, fingerprint, kept[i]));
    }
  }

  lemma {:induction false} KeptIsIncreasing<T>(chunks: seq<T>, fingerprint: T -> Fingerprint)
    ensures Increasing(Kept(chunks, fingerprint), |chunks|)
    decreases |chunks|
  {
    hide Duplicate, Seen;
    if chunks != [] { KeptIsIncreasing(chunks[..|chunks| - 1], fingerprint); }
  }

  function Grown(before: seq<nat>, n: nat, duplicate: bool): seq<nat> {
    if duplicate then before else before + [n]
  }

  lemma StillSeparated<T>(chunks: seq<T>, fingerprint: T -> Fingerprint, before: seq<nat>, duplicate: bool)
    requires chunks != [] && Increasing(before, |chunks| - 1) && Separated(chunks[..|chunks| - 1], fingerprint, before)
    requires duplicate <==> DuplicateOfKept(chunks[..|chunks| - 1], fingerprint, before, fingerprint(chunks[|chunks| - 1]))
    ensures Increasing(Grown(before, |chunks| - 1, duplicate), |chunks|)
    ensures Separated(chunks, fingerprint, Grown(before, |chunks| - 1, duplicate))
  {
    hide Distance;
    var n := |chunks| - 1;
    var kept := Grown(before, n, duplicate);
    forall i, j | 0 <= i < j < |kept|
      ensures var v, w := Of(chunks, fingerprint, kept[i]), Of(chunks, fingerprint, kept[j]);
              v == 0 || w == 0 || Distance(w, v, BITS) > NEAR
    {
      assert Of(chunks, fingerprint, kept[i]) == Of(chunks[..n], fingerprint, before[i]);
      if j < |before| {
        assert Of(chunks, fingerprint, kept[j]) == Of(chunks[..n], fingerprint, before[j]);
      } else {
        assert Of(chunks, fingerprint, kept[j]) == fingerprint(chunks[n]);
      }
    }
  }

  lemma StillCovered<T>(chunks: seq<T>, fingerprint: T -> Fingerprint, before: seq<nat>, duplicate: bool, k: nat)
    requires chunks != [] && k < |chunks| && Increasing(before, |chunks| - 1)
    requires duplicate <==> DuplicateOfKept(chunks[..|chunks| - 1], fingerprint, before, fingerprint(chunks[|chunks| - 1]))
    requires k < |chunks| - 1 ==> (k !in before <==> Covered(chunks[..|chunks| - 1], fingerprint, before, k))
    requires Increasing(Grown(before, |chunks| - 1, duplicate), |chunks|)
    ensures var kept := Grown(before, |chunks| - 1, duplicate); k !in kept <==> Covered(chunks, fingerprint, kept, k)
  {
    hide Near;
    var n := |chunks| - 1;
    var kept := Grown(before, n, duplicate);
    assert forall i :: 0 <= i < |before| ==> kept[i] == before[i];
    assert forall i :: 0 <= i < |before| ==> Of(chunks[..n], fingerprint, before[i]) == Of(chunks, fingerprint, before[i]);
    if k < n {
      assert Of(chunks, fingerprint, k) == Of(chunks[..n], fingerprint, k);
      assert k in kept <==> k in before;
    } else {
      assert k !in before;
      assert k in kept <==> !duplicate by { if !duplicate { assert kept[|before|] == k; } }
      assert Of(chunks, fingerprint, k) == fingerprint(chunks[n]);
    }
  }

  /**
   * What the filter achieves: positions are kept in order; kept fingerprints other than zero are
   * pairwise far apart; and exactly the chunks near one that was kept before them are skipped.
   */
  lemma {:induction false} FilterSeparatesAndCovers<T>(chunks: seq<T>, fingerprint: T -> Fingerprint)
    ensures var kept := Kept(chunks, fingerprint);
            && Increasing(kept, |chunks|) && Separated(chunks, fingerprint, kept)
            && forall k: nat :: k < |chunks| ==> (k !in kept <==> Covered(chunks, fingerprint, kept, k))
    decreases |chunks|
  {
    KeptIsIncreasing(chunks, fingerprint);
    if chunks != [] {
      var n := |chunks| - 1;
      FilterSeparatesAndCovers(chunks[..n], fingerprint);
      var before := Kept(chunks[..n], fingerprint);
      DuplicateIff(chunks[..n], fingerprint, before, fingerprint(chunks[n]));
      hide Covered, Separated, DuplicateOfKept, Duplicate;
      var duplicate := DuplicateOfKept(chunks[..n], fingerprint, before, fingerprint(chunks[n]));
      assert Kept(chunks, fingerprint) == Grown(before, n, duplicate);
      StillSeparated(chunks, fingerprint, before, duplicate);
      forall k: nat | k < |chunks|
        ensures k !in Kept(chunks, fingerprint) <==> Covered(chunks, fingerprint, Kept(chunks, fingerprint), k)
      {
        StillCovered(chunks, fingerprint, before, duplicate, k);
      }
    }
  }

  /** Two fingerprint functions that agree on the chunks keep the same ones. */
  lemma {:induction false} SameFingerprintsSameRecords<T>(chunks: seq<T>, f: T -> Fingerprint, g: T -> Fingerprint)
    requires forall i :: 0 <= i < |chunks| ==> f(chunks[i]) == g(chunks[i])
    ensures Kept(chunks, f) == Kept(chunks, g)
    decreases |chunks|
  {
    if chunks != [] {
      var n := |chunks| - 1;
      SameFingerprintsSameRecords(chunks[..n], f, g);
      SameSeen(chunks[..n], Kept(chunks[..n], f), f, g);
    }
  }

  lemma {:induction false} SameSeen<T>(chunks: seq<T>, positions: seq<nat>, f: T -> Fingerprint, g: T -> Fingerprint)
    requires forall i :: 0 <= i < |positions| ==> positions[i] < |chunks|
    requires forall i :: 0 <= i < |chunks| ==> f(chunks[i]) == g(chunks[i])
    ensures Seen(chunks, positions, f) == Seen(chunks, positions, g)
    decreases |positions|
  {
    if positions != [] { SameSeen(chunks, positions[..|positions| - 1], f, g); }
  }
}
