/** Joining labels with a separator that none of them contains. */
module Keys {

  /** The character c does not occur in s. */
  predicate Free(s: string, c: char) {
    forall i :: 0 <= i < |s| ==> s[i] != c
  }

  /**
   * Splitting at the first separator undoes the join: when neither head contains sep,
   * `x + sep + y` determines both x and y.
   */
  lemma {:induction false} JoinInjective(x1: string, y1: string, x2: string, y2: string, sep: char)
    requires Free(x1, sep) && Free(x2, sep)
    requires x1 + [sep] + y1 == x2 + [sep] + y2
    ensures x1 == x2 && y1 == y2
  {
    var w := x1 + [sep] + y1;
    var w2 := x2 + [sep] + y2;
    assert w[|x1|] == sep;
    assert w2[|x2|] == sep;
    assert w2[|x1|] == sep;
    assert w[|x2|] == sep;
    assert |x1| == |x2|;
    assert x1 == w[..|x1|] == w2[..|x2|] == x2;
    assert y1 == w[|x1| + 1..] == w2[|x2| + 1..] == y2;
  }

  /** The parts joined with sep between neighbours: `p0 + sep + p1 + sep + ... + pk`. */
  function Join(parts: seq<string>, sep: char): string
    requires |parts| > 0
  {
    if |parts| == 1 then parts[0] else parts[0] + [sep] + Join(parts[1..], sep)
  }

  /** Joining equally many separator-free parts is injective. */
  lemma {:induction false} JoinPartsInjective(p: seq<string>, q: seq<string>, sep: char)
    requires 0 < |p| == |q|
    requires forall i :: 0 <= i < |p| ==> Free(p[i], sep) && Free(q[i], sep)
    requires Join(p, sep) == Join(q, sep)
    ensures p == q
  {
    if |p| > 1 {
      JoinInjective(p[0], Join(p[1..], sep), q[0], Join(q[1..], sep), sep);
      JoinPartsInjective(p[1..], q[1..], sep);
      assert p == [p[0]] + p[1..] && q == [q[0]] + q[1..];
    }
  }
}
