/** Strings in the order in which Python sorts them: by their characters, from the left. */
module StringOrder {
  predicate AtMost(a: string, b: string) {
    a == [] || (b != [] && (a[0] < b[0] || (a[0] == b[0] && AtMost(a[1..], b[1..]))))
  }

  lemma {:induction false} Total(a: string, b: string)
    ensures AtMost(a, b) || AtMost(b, a)
  {
    if a != [] && b != [] && a[0] == b[0] { Total(a[1..], b[1..]); }
  }

  lemma {:induction false} Antisymmetric(a: string, b: string)
    requires AtMost(a, b) && AtMost(b, a)
    ensures a == b
  {
    if a != [] && b != [] {
      Antisymmetric(a[1..], b[1..]);
      assert a == [a[0]] + a[1..] && b == [b[0]] + b[1..];
    }
  }

  lemma {:induction false} Transitive(a: string, b: string, c: string)
    requires AtMost(a, b) && AtMost(b, c)
    ensures AtMost(a, c)
  {
    if a != [] && b != [] && c != [] && a[0] == b[0] == c[0] { Transitive(a[1..], b[1..], c[1..]); }
  }

  predicate Least(ids: set<string>, id: string) {
    id in ids && forall x :: x in ids ==> AtMost(id, x)
  }

  lemma {:induction false} LeastExists(ids: set<string>)
    requires ids != {}
    ensures exists id :: Least(ids, id)
    decreases ids
  {
    var first :| first in ids;
    var rest := ids - {first};
    Total(first, first);
    if rest == {} {
      assert forall x :: x in ids ==> x == first || x in rest;
      assert Least(ids, first);
    } else {
      LeastExists(rest);
      var other :| Least(rest, other);
      Total(first, other);
      var least := if AtMost(first, other) then first else other;
      forall x | x in ids ensures AtMost(least, x) {
        if x != first {
          assert x in rest;
          if least == first { Transitive(first, other, x); }
        }
      }
      assert Least(ids, least);
    }
  }

  lemma LeastIsUnique(ids: set<string>)
    ensures forall a, b :: Least(ids, a) && Least(ids, b) ==> a == b
  {
    forall a, b | Least(ids, a) && Least(ids, b) ensures a == b {
      assert AtMost(a, b) && AtMost(b, a);
      Antisymmetric(a, b);
    }
  }

  /** The elements of a set, each once, in order. */
  function InOrder(ids: set<string>): (r: seq<string>)
    ensures |r| == |ids| && forall id :: id in ids <==> id in r
    ensures forall i, j :: 0 <= i < j < |r| ==> AtMost(r[i], r[j])
  {
    if ids == {} then []
    else
      LeastExists(ids);
      LeastIsUnique(ids);
      var id :| Least(ids, id);
      [id] + InOrder(ids - {id})
  }
}
