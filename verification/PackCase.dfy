/**
 What `case_insensitive: false` does to substring tests: the subject keeps its case and
 the needles lose theirs, and exactly when that still is a case-sensitive test.
 */
module PackCase {
  import opened PackSemantics

  predicate IsNeedle(v: Value) {
    v.Str? && v.s != ""
  }

  /** What the flag promises when it is false: some needle occurs in the subject as written. */
  ghost predicate ContainsAsWritten(m: map<string, Value>, key: string, subject: string) {
    HasArray(m, key) ==> exists i :: 0 <= i < |m[key].items| && IsNeedle(m[key].items[i]) && Contains(subject, m[key].items[i].s)
  }

  ghost predicate TestsAsWritten(m: map<string, Value>, key: string) {
    forall s :: ContainedBy(m, key, s, false) <==> ContainsAsWritten(m, key, s)
  }

  /** Every needle contains a listed needle without upper-case letters, itself perhaps. */
  ghost predicate LowerCaseSuffices(m: map<string, Value>, key: string) {
    HasArray(m, key) ==>
      forall i {:trigger Reduces(m[key].items, i)} :: 0 <= i < |m[key].items| && IsNeedle(m[key].items[i]) ==> Reduces(m[key].items, i)
  }

  ghost predicate Reduces(arr: seq<Value>, i: int)
    requires 0 <= i < |arr| && IsNeedle(arr[i])
  {
    exists j :: Within(arr, i, j)
  }

  ghost predicate Within(arr: seq<Value>, i: int, j: int)
    requires 0 <= i < |arr| && IsNeedle(arr[i])
  {
    0 <= j < |arr| && IsNeedle(arr[j]) && Lower(arr[j].s) == arr[j].s && Contains(arr[i].s, arr[j].s)
  }

  lemma ContainsItself(s: string)
    ensures Contains(s, s)
  {
    assert s[0..] == s;
  }

  lemma ContainsTransitive(a: string, b: string, c: string)
    requires Contains(a, b) && Contains(b, c)
    ensures Contains(a, c)
  {
    var i :| 0 <= i <= |a| && b <= a[i..];
    var j :| 0 <= j <= |b| && c <= b[j..];
    assert a[i..][..|b|] == b;
    assert c == b[j..][..|c|] == a[i + j..][..|c|];
  }

  lemma LowerContains(a: string, b: string)
    requires Contains(a, b)
    ensures Contains(Lower(a), Lower(b))
  {
    var i :| 0 <= i <= |a| && b <= a[i..];
    assert forall k :: 0 <= k < |b| ==> Lower(b)[k] == LowerChar(b[k]) && b[k] == a[i..][k] == a[i + k];
    assert Lower(b) <= Lower(a)[i..];
  }

  /** A substring of a lower-cased string has no upper-case letter. */
  lemma PartOfLower(s: string, part: string)
    requires Contains(Lower(s), part)
    ensures Lower(part) == part
  {
    var i :| 0 <= i <= |s| && part <= Lower(s)[i..];
    forall k | 0 <= k < |part| ensures LowerChar(part[k]) == part[k] {
      assert part[k] == Lower(s)[i..][k] == LowerChar(s[i + k]);
    }
  }

  predicate NoUpperCase(s: string) {
    forall i :: 0 <= i < |s| ==> !('A' <= s[i] <= 'Z')
  }

  /** Lower-casing takes each of the 26 letters to its small form and leaves every other character. */
  lemma LettersLowered(i: nat, c: char)
    ensures i < 26 ==> LowerChar(('A' as int + i) as char) == ('a' as int + i) as char
    ensures !('A' <= c <= 'Z') ==> LowerChar(c) == c
  {
  }

  lemma LowerKeepsIff(s: string)
    ensures Lower(s) == s <==> NoUpperCase(s)
  {
    if Lower(s) == s {
      assert forall i :: 0 <= i < |s| ==> Lower(s)[i] == s[i];
    }
  }

  /** One needle is tested as written, whatever the subject, exactly when it has no upper-case letter. */
  lemma NeedleCaseIff(needle: string)
    ensures (forall s :: Contains(s, Lower(needle)) <==> Contains(s, needle)) <==> NoUpperCase(needle)
  {
    LowerKeepsIff(needle);
    if forall s :: Contains(s, Lower(needle)) <==> Contains(s, needle) {
      ContainsItself(needle);
      ContainsItself(Lower(needle));
      assert Contains(Lower(needle), needle);
      PartOfLower(needle, needle);
    }
  }

  /** The flag is not honoured: "A" does not contain the needle "A" although the test should be case-sensitive. */
  lemma UpperCaseNeedleNeverMatches(key: string)
    ensures var m := map[key := Arr([Str("A")])];
            ContainsAsWritten(m, key, "A") && !ContainedBy(m, key, "A", false) && !TestsAsWritten(m, key)
  {
    var m := map[key := Arr([Str("A")])];
    ContainsItself("A");
    assert m[key].items[0] == Str("A") && IsNeedle(m[key].items[0]);
    assert Lower("A")[0] == 'a';
    assert !Contains("A", Lower("A"));
  }

  lemma SecondNeedleSuffices(arr: seq<Value>)
    requires arr == [Str("Ax"), Str("x")]
    ensures Within(arr, 0, 1) && Within(arr, 1, 1) && Lower("Ax") != "Ax"
  {
    assert Lower("Ax")[0] == 'a' && Lower("x") == "x";
    assert "Ax"[1..] == "x" && "x"[0..] == "x";
  }

  /** An upper-case needle does no harm beside a needle it contains: redundant lists are tested as written. */
  lemma RedundantNeedleIsHarmless(m: map<string, Value>, key: string)
    requires key in m && m[key] == Arr([Str("Ax"), Str("x")])
    ensures TestsAsWritten(m, key) && Lower("Ax") != "Ax"
  {
    SecondNeedleSuffices(m[key].items);
    assert LowerCaseSuffices(m, key);
    CaseFlagHonouredIff(m, key);
  }

  /**
   A substring list with the flag false tests as written, whatever the subject, exactly when every
   needle with an upper-case letter contains another listed needle without one.
   */
  lemma CaseFlagHonouredIff(m: map<string, Value>, key: string)
    ensures TestsAsWritten(m, key) <==> LowerCaseSuffices(m, key)
  {
    if HasArray(m, key) {
      var arr := m[key].items;
      if TestsAsWritten(m, key) {
        forall i | 0 <= i < |arr| && IsNeedle(arr[i]) ensures Reduces(arr, i) {
          var j := LowerNeedleWithin(m, key, i);
        }
      }
      if LowerCaseSuffices(m, key) {
        forall s ensures ContainedBy(m, key, s, false) <==> ContainsAsWritten(m, key, s) {
          if ContainedBy(m, key, s, false) {
            LoweredFindsWritten(m, key, s);
          }
          if ContainsAsWritten(m, key, s) {
            WrittenFindsLowered(m, key, s);
          }
        }
      }
    }
  }

  lemma LowerNeedleWithin(m: map<string, Value>, key: string, i: nat) returns (k: nat)
    requires HasArray(m, key) && TestsAsWritten(m, key) && i < |m[key].items| && IsNeedle(m[key].items[i])
    ensures Within(m[key].items, i, k)
  {
    var arr := m[key].items;
    ContainsItself(arr[i].s);
    assert ContainsAsWritten(m, key, arr[i].s);
    assert ContainedBy(m, key, arr[i].s, false);
    var j :| 0 <= j < |arr| && IsNeedle(arr[j]) && Contains(arr[i].s, Lower(arr[j].s));
    var low := Lower(arr[j].s);
    ContainsItself(low);
    assert ContainedBy(m, key, low, false);
    assert ContainsAsWritten(m, key, low);
    k :| 0 <= k < |arr| && IsNeedle(arr[k]) && Contains(low, arr[k].s);
    PartOfLower(arr[j].s, arr[k].s);
    ContainsTransitive(arr[i].s, low, arr[k].s);
  }

  lemma LoweredFindsWritten(m: map<string, Value>, key: string, s: string)
    requires HasArray(m, key) && LowerCaseSuffices(m, key) && ContainedBy(m, key, s, false)
    ensures ContainsAsWritten(m, key, s)
  {
    var arr := m[key].items;
    var i :| 0 <= i < |arr| && IsNeedle(arr[i]) && Contains(s, Lower(arr[i].s));
    assert Reduces(arr, i);
    var j :| Within(arr, i, j);
    LowerContains(arr[i].s, arr[j].s);
    ContainsTransitive(s, Lower(arr[i].s), arr[j].s);
  }

  lemma WrittenFindsLowered(m: map<string, Value>, key: string, s: string)
    requires HasArray(m, key) && LowerCaseSuffices(m, key) && ContainsAsWritten(m, key, s)
    ensures ContainedBy(m, key, s, false)
  {
    var arr := m[key].items;
    var i :| 0 <= i < |arr| && IsNeedle(arr[i]) && Contains(s, arr[i].s);
    assert Reduces(arr, i);
    var j :| Within(arr, i, j);
    ContainsTransitive(s, arr[i].s, arr[j].s);
    assert Fold(s, false) == s && arr[j].s != "";
  }

  // ---- the whole leaf ---------------------------------------------------------------------------

  /** The process leaf with its substring lists tested as written and its name lists compared as written. */
  ghost predicate SatisfiesAsWritten(pm: map<string, Value>, b: Batch, p: ProcessObs) {
    && NamedBy(pm, "executable_names_any", p.name, false)
    && ContainsAsWritten(pm, "executable_name_contains_any", p.name)
    && ContainsAsWritten(pm, "command_line_contains_any", p.commandLine)
    && NamedBy(pm, "parent_executable_names_any", ParentName(b, p), false)
    && ContainsAsWritten(pm, "process_path_contains_any", p.path)
  }

  /** With the flag false, a leaf whose three substring lists meet the condition is case-sensitive throughout. */
  lemma LeafIsCaseSensitive(pm: map<string, Value>, b: Batch, p: ProcessObs)
    requires !CaseInsensitive(pm)
    requires LowerCaseSuffices(pm, "executable_name_contains_any") && LowerCaseSuffices(pm, "command_line_contains_any")
    requires LowerCaseSuffices(pm, "process_path_contains_any")
    ensures ProcessSatisfies(pm, b, p) <==> SatisfiesAsWritten(pm, b, p)
  {
    CaseFlagHonouredIff(pm, "executable_name_contains_any");
    CaseFlagHonouredIff(pm, "command_line_contains_any");
    CaseFlagHonouredIff(pm, "process_path_contains_any");
  }
}
