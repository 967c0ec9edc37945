/** Decimal text of natural numbers, and lists of numbers joined by a separator. */
module Decimal {
  predicate IsDigit(c: char) { '0' <= c <= '9' }

  function DigitOf(d: nat): (c: char)
    requires d < 10
    ensures IsDigit(c)
  {
    '0' + d as char
  }

  function Text(n: nat): (s: string)
    ensures s != [] && forall i :: 0 <= i < |s| ==> IsDigit(s[i])
  {
    if n < 10 then [DigitOf(n)] else Text(n / 10) + [DigitOf(n % 10)]
  }

  function ValueOf(s: string): nat
    requires forall i :: 0 <= i < |s| ==> IsDigit(s[i])
  {
    if s == [] then 0 else
      var last := s[|s| - 1];
      assert IsDigit(last);
      10 * ValueOf(s[..|s| - 1]) + (last as int - '0' as int)
  }

  lemma {:induction false} ValueOfText(n: nat)
    ensures ValueOf(Text(n)) == n
  {
    if n >= 10 {
      ValueOfText(n / 10);
      assert Text(n)[..|Text(n)| - 1] == Text(n / 10);
    } else {
      assert Text(n)[..0] == [];
    }
  }

  /** Numbers with the same text are the same. */
  lemma TextInjective(m: nat, n: nat)
    requires Text(m) == Text(n)
    ensures m == n
  {
    ValueOfText(m);
    ValueOfText(n);
  }

  function Joined(parts: seq<nat>, separator: char): string {
    if parts == [] then ""
    else if |parts| == 1 then Text(parts[0])
    else Text(parts[0]) + [separator] + Joined(parts[1..], separator)
  }

  /** What follows a number in a joined list: nothing, or the separator. */
  predicate Rest(s: string, separator: char) {
    s == "" || s[0] == separator
  }

  lemma FirstNumber(m: nat, n: nat, s: string, t: string, separator: char)
    requires !IsDigit(separator) && Rest(s, separator) && Rest(t, separator)
    requires Text(m) + s == Text(n) + t
    ensures m == n && s == t
  {
    var x, y := Text(m), Text(n);
    var z := x + s;
    assert forall i :: 0 <= i < |x| ==> z[i] == x[i];
    assert forall i :: 0 <= i < |y| ==> z[i] == y[i];
    assert |x| < |z| ==> z[|x|] == s[0];
    assert |y| < |z| ==> z[|y|] == t[0];
    assert |x| == |y|;
    assert x == z[..|x|] && y == z[..|y|];
    assert s == z[|x|..] && t == z[|y|..];
    TextInjective(m, n);
  }

  /** The text after the first number of a joined list. */
  function After(parts: seq<nat>, separator: char): (s: string)
    requires parts != []
    ensures Rest(s, separator)
  {
    if |parts| == 1 then "" else [separator] + Joined(parts[1..], separator)
  }

  lemma JoinedSplits(p: seq<nat>, separator: char)
    requires p != []
    ensures Joined(p, separator) == Text(p[0]) + After(p, separator)
    ensures |p| == 1 <==> After(p, separator) == ""
    ensures |p| > 1 ==> After(p, separator)[1..] == Joined(p[1..], separator)
    ensures p == [p[0]] + p[1..]
  {
  }

  /** A joined list can be read back: different lists have different texts. */
  lemma {:induction false} JoinedInjective(p: seq<nat>, q: seq<nat>, separator: char)
    requires !IsDigit(separator) && Joined(p, separator) == Joined(q, separator)
    ensures p == q
  {
    if p != [] && q != [] {
      hide Joined, After, Text;
      JoinedSplits(p, separator);
      JoinedSplits(q, separator);
      FirstNumber(p[0], q[0], After(p, separator), After(q, separator), separator);
      if |p| > 1 { JoinedInjective(p[1..], q[1..], separator); }
    }
  }
}
