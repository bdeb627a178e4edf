/** A value cut off anywhere, at the end of the text or run into an object's: the reader never takes the result for one document. */
module JsonTorn {
  import opened Prelude
  import opened Decimal
  import opened Json

  /** Text after which no array, object or member can go on. */
  predicate Stuck(rest: string) {
    rest == "" || (SkipWs(rest) == rest && rest[0] !in ",]}:")
  }

  /** The text of an object whose first key starts like a word. */
  predicate NextObject(t: string) {
    && |t| >= 3 && t[0] == '{' && t[1] == '"' && 'a' <= t[2] <= 'z'
    && Read(t).Some? && Read(t).value.1 == ""
  }

  /** What may follow the cut: nothing, or an object's text. */
  predicate Follows(t: string) {
    t == "" || NextObject(t)
  }

  lemma NextIsStuck(t: string)
    requires Follows(t)
    ensures Stuck(t) && EndsNumber(t)
  {
  }

  lemma NextReadsStuck(t: string)
    requires Follows(t)
    ensures SkipWs(t) == t && (Read(t).Some? ==> Stuck(Read(t).value.1))
  {
  }

  lemma CutLeft(a: string, b: string, m: nat)
    requires m <= |a|
    ensures (a + b)[..m] == a[..m]
  {
  }

  lemma CutRight(a: string, b: string, m: nat, t: string)
    requires |a| <= m <= |a| + |b|
    ensures (a + b)[..m] + t == a + (b[..m - |a|] + t)
  {
    assert (a + b)[..m] == a + b[..m - |a|];
  }

  // ---- strings and scalars -------------------------------------------------------------------------

  lemma CutEscape(c: char, n: nat, t: string)
    requires 0 < n < |EscapeChar(c)| && Follows(t)
    ensures ReadString(EscapeChar(c)[..n] + t) == None
  {
    var s := EscapeChar(c)[..n] + t;
    assert s[0] == '\\' && (t != "" ==> s[n] == '{');
    if n >= 2 {
      assert s[1] == 'u' && n - 2 < 4;
      assert t != "" ==> s[2..][n - 2] == '{';
      assert ReadHex4(s[2..]) == None;
    }
  }

  /** Nothing ends a string; an object's text opens with a brace and ends it at the first key. */
  lemma OpenString(t: string)
    requires Follows(t)
    ensures StuckAfter(ReadString(t))
  {
    if t != "" {
      assert t[1..][0] == '"' && t[1..][1..] == t[2..];
      assert ReadString(t[1..]) == Some(("", t[2..]));
    }
  }

  ghost predicate StuckAfter(r: Option<(string, string)>) {
    r.Some? ==> Stuck(r.value.1)
  }

  lemma {:induction false} CutString(s: string, n: nat, t: string)
    requires n <= |Escape(s)| && Follows(t)
    ensures StuckAfter(ReadString((Escape(s) + "\"")[..n] + t))
  {
    CutLeft(Escape(s), "\"", n);
    NextIsStuck(t);
    if n == 0 {
      assert Escape(s)[..0] + t == t;
      OpenString(t);
    } else {
      var e, more := EscapeChar(s[0]), Escape(s[1..]);
      if n < |e| {
        CutLeft(e, more, n);
        CutEscape(s[0], n, t);
      } else {
        CutRight(e, more, n, t);
        CutLeft(more, "\"", n - |e|);
        CutString(s[1..], n - |e|, t);
        ReadEscapedChar(s[0], more[..n - |e|] + t);
      }
    }
  }

  lemma CutNumber(token: string, n: nat, t: string)
    requires AllNumberChars(token) && 0 < n < |token| && Follows(t) && (token[0] == '-' || IsDigit(token[0]))
    ensures var r := Read(token[..n] + t); r.Some? ==> r.value.1 == t
  {
    var s := token[..n] + t;
    assert s[0] == token[0] && SkipWs(s) == s;
    RunOf(token[..n], t);
    assert s[..n] == token[..n] && s[n..] == t;
    assert s[0] != 'n' && s[0] != 't' && s[0] != 'f';
  }

  lemma CutWord(word: string, n: nat, t: string)
    requires (word == "null" || word == "true" || word == "false") && 0 < n < |word| && Follows(t)
    ensures Read(word[..n] + t) == None
  {
    var s := word[..n] + t;
    assert s[0] == word[0] && SkipWs(s) == s && (t != "" ==> s[n] == '{');
    assert NumberRun(s) == 0 && s[..0] == "";
    assert !("null" <= s) && !("true" <= s) && !("false" <= s);
  }

  lemma QuoteThen(s: string, body: string)
    requires s == "\"" + body
    ensures s[1..] == body
    ensures Read(s) == if ReadString(body).None? then None else Some((JStr(ReadString(body).value.0), ReadString(body).value.1))
  {
    assert SkipWs(s) == s && s[1..] == body;
  }

  lemma CutQuoted(str: string, n: nat, t: string)
    requires 0 < n < |Quoted(str)| && Follows(t)
    ensures var r := Read(Quoted(str)[..n] + t); r.Some? ==> Stuck(r.value.1)
    ensures StuckAfter(ReadString((Quoted(str)[..n] + t)[1..]))
  {
    var s, body := Quoted(str)[..n] + t, Escape(str) + "\"";
    ConcatAssociates("\"", Escape(str), "\"");
    CutRight("\"", body, n, t);
    CutString(str, n - 1, t);
    QuoteThen(s, body[..n - 1] + t);
  }

  // ---- arrays and objects ------------------------------------------------------------------------------

  /** Every cut of a value leaves the reader stuck, or with nothing at all inside brackets or braces. */
  lemma {:induction false} CutValue(j: Json, n: nat, t: string)
    requires WellFormed(j) && n < |Print(j)| && Follows(t)
    ensures var r := Read(Print(j)[..n] + t);
            (r.Some? ==> Stuck(r.value.1)) && (n > 0 && (j.JArr? || j.JObj?) ==> r == None)
    decreases j, 1
  {
    if n == 0 {
      NextReadsStuck(t);
      assert Print(j)[..0] + t == t;
    } else {
      match j {
        case JNum(token) => CutNumber(token, n, t);
        case JStr(str) => CutQuoted(str, n, t);
        case JArr(items) => CutArray(items, n, t);
        case JObj(members) => CutObject(members, n, t);
        case _ => CutWord(Print(j), n, t);
      }
    }
  }

  lemma {:induction false} CutArray(items: seq<Json>, n: nat, t: string)
    requires (forall i :: 0 <= i < |items| ==> WellFormed(items[i])) && Follows(t)
    requires 0 < n < |"[" + PrintItems(items) + "]"|
    ensures Read(("[" + PrintItems(items) + "]")[..n] + t) == None
    decreases items, 0, 1
  {
    var body := PrintItems(items) + "]";
    ConcatAssociates("[", PrintItems(items), "]");
    CutRight("[", body, n, t);
    if n == 1 {
      assert body[..0] + t == t;
      NothingItems(t);
      OpensArrayAtCut(t);
    } else {
      CutItems(items, n - 1, t);
      PrintStarts(items[0], "");
      assert Print(items[0]) + "" == Print(items[0]);
      assert body[..n - 1][0] == Print(items[0])[0];
      StartsLike(Print(items[0]), body[..n - 1] + t);
      OpensArray(body[..n - 1] + t);
    }
  }

  /** Only the first character says whether a value starts. */
  lemma StartsLike(a: string, b: string)
    requires a != "" && b != "" && a[0] == b[0] && StartsValue(a)
    ensures StartsValue(b)
  {
  }

  lemma OpensArray(u: string)
    requires StartsValue(u) && ReadItems(u) == None
    ensures Read("[" + u) == None
  {
    assert ("[" + u)[1..] == u && SkipWs("[" + u) == "[" + u;
  }

  lemma NothingItems(t: string)
    requires Follows(t)
    ensures ReadItems(t) == None
  {
    NextReadsStuck(t);
    StuckItems(t);
  }

  lemma OpensArrayAtCut(t: string)
    requires Follows(t) && ReadItems(t) == None
    ensures Read("[" + t) == None
  {
    NextReadsStuck(t);
    assert ("[" + t)[1..] == t && SkipWs("[" + t) == "[" + t;
  }

  lemma StuckItems(s: string)
    requires Read(s).Some? ==> Stuck(Read(s).value.1)
    ensures ReadItems(s) == None
  {
    assert SkipWs("") == "";
  }

  /** What is printed of an array after its first item, up to the closing bracket. */
  function AfterItem(items: seq<Json>): string
    requires items != []
  {
    if |items| == 1 then "]" else "," + (PrintItems(items[1..]) + "]")
  }

  lemma {:induction false} CutItems(items: seq<Json>, m: nat, t: string)
    requires items != [] && (forall i :: 0 <= i < |items| ==> WellFormed(items[i])) && Follows(t)
    requires m < |PrintItems(items) + "]"|
    ensures ReadItems((PrintItems(items) + "]")[..m] + t) == None
    decreases items, 0, 0, 1
  {
    ItemsBody(items);
    var p := Print(items[0]);
    if m < |p| {
      CutValue(items[0], m, t);
      CutInsideItem(p, AfterItem(items), m, t);
    } else if m == |p| {
      NextIsStuck(t);
      ValuesReadBack(items[0], t);
      CutAtItemEnd(p, items[0], AfterItem(items), t);
    } else {
      CutLaterItem(items, m, t);
    }
  }

  lemma {:induction false} CutLaterItem(items: seq<Json>, m: nat, t: string)
    requires |items| > 1 && (forall i :: 0 <= i < |items| ==> WellFormed(items[i])) && Follows(t)
    requires |Print(items[0])| < m < |Print(items[0]) + AfterItem(items)|
    ensures ReadItems((Print(items[0]) + AfterItem(items))[..m] + t) == None
    decreases items, 0, 0, 0
  {
    var p, rest := Print(items[0]), PrintItems(items[1..]) + "]";
    CutItems(items[1..], m - |p| - 1, t);
    ValuesReadBack(items[0], "," + (rest[..m - |p| - 1] + t));
    CutAfterComma(p, items[0], rest, m, t);
  }

  lemma CutInsideItem(p: string, more: string, m: nat, t: string)
    requires m < |p| && (Read(p[..m] + t).Some? ==> Stuck(Read(p[..m] + t).value.1))
    ensures ReadItems((p + more)[..m] + t) == None
  {
    CutLeft(p, more, m);
    StuckItems(p[..m] + t);
  }

  lemma CutAtItemEnd(p: string, v: Json, more: string, t: string)
    requires Stuck(t) && Read(p + t) == Some((v, t))
    ensures ReadItems((p + more)[..|p|] + t) == None
  {
    assert (p + more)[..|p|] == p;
    StuckItems(p + t);
  }

  lemma CutAfterComma(p: string, v: Json, rest: string, m: nat, t: string)
    requires |p| < m <= |p| + 1 + |rest|
    requires var cut := rest[..m - |p| - 1] + t; Read(p + ("," + cut)) == Some((v, "," + cut)) && ReadItems(cut) == None
    ensures ReadItems((p + ("," + rest))[..m] + t) == None
  {
    var cut := rest[..m - |p| - 1] + t;
    CutRight(p, "," + rest, m, t);
    CutRight(",", rest, m - |p|, t);
    NoMoreItems(p + ("," + cut), v, cut);
  }

  lemma ItemsBody(items: seq<Json>)
    requires items != []
    ensures PrintItems(items) + "]" == Print(items[0]) + AfterItem(items)
  {
    ItemsText(items, "");
    assert PrintItems(items) + "]" + "" == PrintItems(items) + "]" && "]" + "" == "]";
    assert PrintItems(items[1..]) + "]" + "" == PrintItems(items[1..]) + "]";
  }

  lemma NoMoreItems(s: string, v: Json, more: string)
    requires Read(s) == Some((v, "," + more)) && ReadItems(more) == None
    ensures ReadItems(s) == None
  {
    assert SkipWs("," + more) == "," + more && ("," + more)[1..] == more;
  }

  lemma {:induction false} CutObject(members: seq<Member>, n: nat, t: string)
    requires (forall i :: 0 <= i < |members| ==> WellFormed(members[i].value)) && Follows(t)
    requires 0 < n < |"{" + PrintMembers(members) + "}"|
    ensures Read(("{" + PrintMembers(members) + "}")[..n] + t) == None
    decreases members, 0, 2
  {
    var body := PrintMembers(members) + "}";
    ConcatAssociates("{", PrintMembers(members), "}");
    CutRight("{", body, n, t);
    if n == 1 {
      assert body[..0] + t == t;
      NothingMembers(t);
      OpensObject(t);
    } else {
      CutMembers(members, n - 1, t);
      MembersBody(members);
      StartsQuoted(members[0].key, ":" + AfterColon(members), n - 1, t);
      OpensObject(body[..n - 1] + t);
    }
  }

  lemma StartsQuoted(key: string, rest: string, m: nat, t: string)
    requires 0 < m <= |Quoted(key) + rest|
    ensures var u := (Quoted(key) + rest)[..m] + t; u != "" && u[0] == '"' && SkipWs(u) == u
  {
  }

  lemma OpensObject(u: string)
    requires SkipWs(u) == u && (u != "" ==> u[0] != '}') && ReadMembers(u) == None
    ensures Read("{" + u) == None
  {
    assert ("{" + u)[1..] == u && SkipWs("{" + u) == "{" + u;
  }

  lemma NothingMembers(t: string)
    requires Follows(t)
    ensures ReadMembers(t) == None && SkipWs(t) == t
  {
    NextReadsStuck(t);
  }

  lemma StuckMember(s: string)
    requires ReadMember(s).Some? ==> Stuck(ReadMember(s).value.1)
    ensures ReadMembers(s) == None
  {
    assert SkipWs("") == "";
  }

  lemma {:induction false} CutMembers(members: seq<Member>, m: nat, t: string)
    requires members != [] && (forall i :: 0 <= i < |members| ==> WellFormed(members[i].value)) && Follows(t)
    requires m < |PrintMembers(members) + "}"|
    ensures ReadMembers((PrintMembers(members) + "}")[..m] + t) == None
    decreases members, 0, 1
  {
    var key, rest := Quoted(members[0].key), AfterColon(members);
    MembersBody(members);
    if m <= |key| {
      CutLeft(key, ":" + rest, m);
      CutKey(members[0].key, m, t);
    } else {
      CutColon(key, rest, m, t);
      CutMemberValue(members, m - |key| - 1, t);
    }
  }

  lemma CutColon(key: string, rest: string, m: nat, t: string)
    requires |key| < m <= |key| + 1 + |rest|
    ensures (key + (":" + rest))[..m] + t == key + (":" + (rest[..m - |key| - 1] + t))
  {
    CutRight(key, ":" + rest, m, t);
    CutRight(":", rest, m - |key|, t);
  }

  lemma CutKey(key: string, m: nat, t: string)
    requires m <= |Quoted(key)| && Follows(t)
    ensures ReadMembers(Quoted(key)[..m] + t) == None
  {
    var s := Quoted(key)[..m] + t;
    NextIsStuck(t);
    if m == 0 {
      assert s == t;
      NothingMembers(t);
    } else {
      assert s[0] == '"' && SkipWs(s) == s && SkipWs("") == "";
      if m == |Quoted(key)| {
        assert s[1..] == Escape(key) + "\"" + t;
        StringsReadBack(key, t);
      } else {
        CutQuoted(key, m, t);
      }
    }
  }

  /** What is printed of an object after its first key and colon, up to the closing brace. */
  function AfterColon(members: seq<Member>): string
    requires members != []
  {
    Print(members[0].value) + if |members| == 1 then "}" else "," + (PrintMembers(members[1..]) + "}")
  }

  /** The members are cut at or after the first value; `m` counts from there. */
  lemma {:induction false} CutMemberValue(members: seq<Member>, m: nat, t: string)
    requires members != [] && (forall i :: 0 <= i < |members| ==> WellFormed(members[i].value)) && Follows(t)
    requires m < |AfterColon(members)|
    ensures ReadMembers(Quoted(members[0].key) + (":" + (AfterColon(members)[..m] + t))) == None
    decreases members, 0, 0, 1
  {
    var first := members[0];
    var p := Print(first.value);
    var more := if |members| == 1 then "}" else "," + (PrintMembers(members[1..]) + "}");
    if m < |p| {
      CutValue(first.value, m, t);
      CutLeft(p, more, m);
      StuckValue(first.key, p[..m] + t);
    } else if m == |p| {
      NextIsStuck(t);
      ValuesReadBack(first.value, t);
      CutLeft(p, more, m);
      StuckValue(first.key, p + t);
    } else {
      CutLaterMember(members, m, t);
    }
  }

  lemma {:induction false} CutLaterMember(members: seq<Member>, m: nat, t: string)
    requires |members| > 1 && (forall i :: 0 <= i < |members| ==> WellFormed(members[i].value)) && Follows(t)
    requires |Print(members[0].value)| < m < |AfterColon(members)|
    ensures ReadMembers(Quoted(members[0].key) + (":" + (AfterColon(members)[..m] + t))) == None
    decreases members, 0, 0, 0
  {
    var p, rest := Print(members[0].value), PrintMembers(members[1..]) + "}";
    CutMembers(members[1..], m - |p| - 1, t);
    ValuesReadBack(members[0].value, "," + (rest[..m - |p| - 1] + t));
    CutAfterMember(members[0], p, rest, m, t);
  }

  lemma CutAfterMember(member: Member, p: string, rest: string, m: nat, t: string)
    requires |p| < m <= |p| + 1 + |rest|
    requires var cut := rest[..m - |p| - 1] + t; Read(p + ("," + cut)) == Some((member.value, "," + cut)) && ReadMembers(cut) == None
    ensures ReadMembers(Quoted(member.key) + (":" + ((p + ("," + rest))[..m] + t))) == None
  {
    var cut := rest[..m - |p| - 1] + t;
    CutRight(p, "," + rest, m, t);
    CutRight(",", rest, m - |p|, t);
    NoMoreMembers(member, p + ("," + cut), cut);
  }

  lemma StuckValue(key: string, text: string)
    requires Read(text).Some? ==> Stuck(Read(text).value.1)
    ensures ReadMembers(Quoted(key) + (":" + text)) == None
  {
    var s := Quoted(key) + (":" + text);
    ReadKey(s, key, text);
    StuckMember(s);
  }

  /** A member is its key, a colon, and whatever its value reads as. */
  lemma ReadKey(s: string, key: string, text: string)
    requires s == Quoted(key) + (":" + text)
    ensures ReadMember(s) == if Read(text).None? then None else Some((Member(key, Read(text).value.0), Read(text).value.1))
  {
    var after := ":" + text;
    assert s[0] == '"' && SkipWs(s) == s;
    assert s[1..] == Escape(key) + "\"" + after;
    StringsReadBack(key, after);
    assert SkipWs(after) == after && after[1..] == text;
  }

  lemma NoMoreMembers(m: Member, text: string, more: string)
    requires Read(text) == Some((m.value, "," + more)) && ReadMembers(more) == None
    ensures ReadMembers(Quoted(m.key) + (":" + text)) == None
  {
    ReadKey(Quoted(m.key) + (":" + text), m.key, text);
    assert SkipWs("," + more) == "," + more && ("," + more)[1..] == more;
  }

  lemma MembersBody(members: seq<Member>)
    requires members != []
    ensures PrintMembers(members) + "}" == Quoted(members[0].key) + (":" + AfterColon(members))
  {
    MembersText(members, "");
    assert PrintMembers(members) + "}" + "" == PrintMembers(members) + "}" && "}" + "" == "}";
    assert PrintMembers(members[1..]) + "}" + "" == PrintMembers(members[1..]) + "}";
  }
}
