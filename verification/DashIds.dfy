/** Ids that end in a dash and a number, and a reader that takes them apart at the last dash. */
module DashIds {
  import opened Decimal

  predicate NoDash(s: string) {
    forall i :: 0 <= i < |s| ==> s[i] != '-'
  }

  /** What follows the last dash. */
  function AfterDash(s: string): string {
    if s == "" || s[|s| - 1] == '-' then "" else AfterDash(s[..|s| - 1]) + [s[|s| - 1]]
  }

  /** What precedes it. */
  function BeforeDash(s: string): string {
    if s == "" then "" else if s[|s| - 1] == '-' then s[..|s| - 1] else BeforeDash(s[..|s| - 1])
  }

  lemma {:induction false} SplitsAtDash(a: string, d: string)
    requires NoDash(d)
    ensures AfterDash(a + "-" + d) == d && BeforeDash(a + "-" + d) == a
  {
    var s := a + "-" + d;
    if d == "" {
      assert s[..|s| - 1] == a;
    } else {
      var n := |d| - 1;
      SplitsAtDash(a, d[..n]);
      assert s[..|s| - 1] == a + "-" + d[..n];
      assert d == d[..n] + [d[n]];
    }
  }

  /** A number put behind a dash is read back. */
  lemma NumberReadsBack(a: string, n: nat)
    ensures var s := a + "-" + Digits(n);
            BeforeDash(s) == a && AllDigits(AfterDash(s)) && NumberOf(AfterDash(s)) == n
  {
    assert AllDigits(Digits(n));
    SplitsAtDash(a, Digits(n));
    NumberOfPad(n, 1);
  }
}
