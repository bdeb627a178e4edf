/** Map keys made of two texts with a colon between them, and exactly when two pairs share one. */
module ColonKeys {

  function Joined(a: string, b: string): string {
    a + ":" + b
  }

  predicate NoColon(s: string) {
    forall i :: 0 <= i < |s| ==> s[i] != ':'
  }

  /** The first text goes on past a colon with what the second pair has before one. */
  ghost predicate Shifted(a: string, b: string, c: string, d: string) {
    exists x :: ShiftedBy(a, b, c, d, x)
  }

  predicate ShiftedBy(a: string, b: string, c: string, d: string, x: string) {
    c == a + ":" + x && b == x + ":" + d
  }

  lemma ShorterFirst(a: string, b: string, c: string, d: string)
    requires Joined(a, b) == Joined(c, d) && |a| < |c|
    ensures Shifted(a, b, c, d)
  {
    var s, x := Joined(a, b), c[|a| + 1..];
    assert c == s[..|c|] && a == s[..|a|] && s[|a|] == ':' && s[|c|] == ':';
    assert c == a + ":" + x;
    assert b == s[|a| + 1..] && d == s[|c| + 1..];
    assert b == x + ":" + d;
    assert ShiftedBy(a, b, c, d, x);
  }

  lemma ShiftedIsEqual(a: string, b: string, c: string, d: string)
    requires Shifted(a, b, c, d)
    ensures Joined(a, b) == Joined(c, d)
  {
    var x :| ShiftedBy(a, b, c, d, x);
    assert a + ":" + (x + ":" + d) == (a + ":" + x) + ":" + d;
  }

  /** Two pairs share a key exactly when they are equal or one is the other with its colon moved. */
  lemma SharedKeyIff(a: string, b: string, c: string, d: string)
    ensures Joined(a, b) == Joined(c, d) <==> (a == c && b == d) || Shifted(a, b, c, d) || Shifted(c, d, a, b)
  {
    if Joined(a, b) == Joined(c, d) {
      if |a| < |c| {
        ShorterFirst(a, b, c, d);
      } else if |c| < |a| {
        ShorterFirst(c, d, a, b);
      } else {
        var s := Joined(a, b);
        assert a == s[..|a|] && c == s[..|a|] && b == s[|a| + 1..] && d == s[|a| + 1..];
      }
    }
    if Shifted(a, b, c, d) {
      ShiftedIsEqual(a, b, c, d);
    }
    if Shifted(c, d, a, b) {
      ShiftedIsEqual(c, d, a, b);
    }
  }

  /** Without a colon in the first texts, only equal pairs do. */
  lemma PlainKeyIff(a: string, b: string, c: string, d: string)
    requires NoColon(a) && NoColon(c)
    ensures Joined(a, b) == Joined(c, d) <==> a == c && b == d
    ensures !Shifted(a, b, c, d) && !Shifted(c, d, a, b)
  {
    SharedKeyIff(a, b, c, d);
    if Shifted(a, b, c, d) {
      ShiftedHasColon(a, b, c, d);
    }
    if Shifted(c, d, a, b) {
      ShiftedHasColon(c, d, a, b);
    }
  }

  lemma ShiftedHasColon(a: string, b: string, c: string, d: string)
    requires Shifted(a, b, c, d)
    ensures !NoColon(c)
  {
    var x :| ShiftedBy(a, b, c, d, x);
    assert c[|a|] == ':';
  }
}
