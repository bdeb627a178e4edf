/**
 Compact JSON text: the agent's string escaping and value layout, and a reader
 written from RFC 8259 that recovers every value and whatever text follows it.
 */
module Json {
  import opened Prelude
  import opened Decimal

  datatype Json =
    | JNull
    | JBool(b: bool)
    | JNum(token: string)
    | JStr(s: string)
    | JArr(items: seq<Json>)
    | JObj(members: seq<Member>)

  datatype Member = Member(key: string, value: Json)

  // ---- escaping ---------------------------------------------------------------------------

  /** Unicode general category Cc. */
  predicate IsControl(c: char) {
    c < ' ' || '\U{7f}' <= c <= '\U{9f}'
  }

  function HexDigit(n: nat): char
    requires n < 16
  {
    if n < 10 then ('0' as int + n) as char else ('a' as int + n - 10) as char
  }

  /** Four lower-case hexadecimal digits. */
  function Hex4(n: nat): string
    requires n < 0x1_0000
  {
    [HexDigit(n / 4096), HexDigit(n / 256 % 16), HexDigit(n / 16 % 16), HexDigit(n % 16)]
  }

  function EscapeChar(c: char): string {
    if c == '"' then "\\\""
    else if c == '\\' then "\\\\"
    else if c == '\n' then "\\n"
    else if c == '\r' then "\\r"
    else if c == '\t' then "\\t"
    else if IsControl(c) then "\\u" + Hex4(c as int)
    else [c]
  }

  function Escape(s: string): string {
    if s == "" then "" else EscapeChar(s[0]) + Escape(s[1..])
  }

  /** `escape_json`: one pass, pushing into a buffer. */
  method EscapeJson(value: string) returns (escaped: string)
    ensures escaped == Escape(value)
  {
    escaped := "";
    assert value[0..] == value;
    for i := 0 to |value|
      invariant Escape(value) == escaped + Escape(value[i..])
    {
      assert value[i..][0] == value[i] && value[i..][1..] == value[i + 1..];
      var piece := EscapeChar(value[i]);
      assert escaped + (piece + Escape(value[i + 1..])) == (escaped + piece) + Escape(value[i + 1..]);
      escaped := escaped + piece;
    }
  }

  predicate NeedsEscape(c: char) {
    c == '"' || c == '\\' || IsControl(c)
  }

  /** Text is left as it is exactly when it has no quote, backslash or control character. */
  lemma {:induction false} EscapeLeavesIff(s: string)
    ensures |Escape(s)| >= |s|
    ensures Escape(s) == s <==> forall i :: 0 <= i < |s| ==> !NeedsEscape(s[i])
  {
    if s != "" {
      EscapeLeavesIff(s[1..]);
      assert Escape(s)[0] == EscapeChar(s[0])[0] && s == [s[0]] + s[1..];
      if NeedsEscape(s[0]) {
        assert |Escape(s)| > |s|;
      } else {
        assert EscapeChar(s[0]) == [s[0]] && Escape(s)[1..] == Escape(s[1..]);
        assert (forall i :: 0 <= i < |s| ==> !NeedsEscape(s[i])) <==> forall i :: 0 <= i < |s[1..]| ==> !NeedsEscape(s[1..][i]);
      }
    }
  }

  function Quoted(s: string): string {
    "\"" + Escape(s) + "\""
  }

  // ---- reading strings --------------------------------------------------------------------

  function HexValue(c: char): Option<nat> {
    if '0' <= c <= '9' then Some(c as int - '0' as int)
    else if 'a' <= c <= 'f' then Some(c as int - 'a' as int + 10)
    else if 'A' <= c <= 'F' then Some(c as int - 'A' as int + 10)
    else None
  }

  function ReadHex4(s: string): (r: Option<nat>)
    ensures r.Some? ==> |s| >= 4 && r.value < 0x1_0000
  {
    if |s| < 4 then None
    else
      var a, b, c, d := HexValue(s[0]), HexValue(s[1]), HexValue(s[2]), HexValue(s[3]);
      if a.None? || b.None? || c.None? || d.None? then None
      else Some(a.value * 4096 + b.value * 256 + c.value * 16 + d.value)
  }

  function SimpleEscape(c: char): Option<char> {
    if c == '"' || c == '\\' || c == '/' then Some(c)
    else if c == 'b' then Some('\U{8}')
    else if c == 'f' then Some('\U{c}')
    else if c == 'n' then Some('\n')
    else if c == 'r' then Some('\r')
    else if c == 't' then Some('\t')
    else None
  }

  /** One `\uXXXX` escape, or a surrogate pair of two, after the `\u`: the character and what follows. */
  function ReadUnicode(s: string): (r: Option<(char, string)>)
    ensures r.Some? ==> |r.value.1| < |s|
  {
    var u := ReadHex4(s);
    if u.None? then None
    else if u.value < 0xD800 || 0xE000 <= u.value then Some((u.value as char, s[4..]))
    else if u.value < 0xDC00 && |s| >= 6 && s[4] == '\\' && s[5] == 'u' then
      var v := ReadHex4(s[6..]);
      if v.Some? && 0xDC00 <= v.value < 0xE000
      then Some(((0x1_0000 + (u.value - 0xD800) * 0x400 + (v.value - 0xDC00)) as char, s[10..]))
      else None
    else None
  }

  /** Section 7 of RFC 8259, after the opening quote: the string and the text after its closing quote. */
  function ReadString(s: string): (r: Option<(string, string)>)
    ensures r.Some? ==> |r.value.1| < |s|
    decreases |s|
  {
    if s == "" then None
    else if s[0] == '"' then Some(("", s[1..]))
    else if s[0] == '\\' then
      if |s| < 2 then None
      else if s[1] == 'u' then
        var c := ReadUnicode(s[2..]);
        if c.None? then None else Prepend(c.value.0, ReadString(c.value.1))
      else
        var c := SimpleEscape(s[1]);
        if c.None? then None else Prepend(c.value, ReadString(s[2..]))
    else if s[0] < ' ' then None
    else Prepend(s[0], ReadString(s[1..]))
  }

  function Prepend(c: char, r: Option<(string, string)>): Option<(string, string)> {
    if r.None? then None else Some(([c] + r.value.0, r.value.1))
  }

  lemma ReadHexDigit(n: nat)
    requires n < 16
    ensures HexValue(HexDigit(n)) == Some(n)
  {
  }

  lemma ReadHexBack(n: nat, rest: string)
    requires n < 0x1_0000
    ensures ReadHex4(Hex4(n) + rest) == Some(n)
  {
    ReadHexDigit(n / 4096);
    ReadHexDigit(n / 256 % 16);
    ReadHexDigit(n / 16 % 16);
    ReadHexDigit(n % 16);
    HexPlaces(n);
  }

  lemma HexPlaces(n: nat)
    ensures n == n / 4096 * 4096 + n / 256 % 16 * 256 + n / 16 % 16 * 16 + n % 16
  {
    var a := n / 16;
    var b := a / 16;
    assert n / 256 == b && n / 4096 == b / 16;
    assert n == 16 * a + n % 16 && a == 16 * b + a % 16 && b == 16 * (b / 16) + b % 16;
  }

  lemma ReadEscapedChar(c: char, rest: string)
    ensures ReadString(EscapeChar(c) + rest) == Prepend(c, ReadString(rest))
  {
    var s := EscapeChar(c) + rest;
    if c == '"' || c == '\\' || c == '\n' || c == '\r' || c == '\t' {
      assert s[2..] == rest;
    } else if IsControl(c) {
      ReadHexBack(c as int, rest);
      assert s[2..] == Hex4(c as int) + rest;
      assert s[2..][4..] == rest;
    } else {
      assert s[1..] == rest;
    }
  }

  /** Reading quote + escaped text + quote + anything gives back exactly the text and the anything. */
  lemma {:induction false} StringsReadBack(s: string, rest: string)
    ensures ReadString(Escape(s) + "\"" + rest) == Some((s, rest))
  {
    if s == "" {
      assert Escape(s) + "\"" + rest == "\"" + rest;
    } else {
      StringsReadBack(s[1..], rest);
      assert Escape(s) + "\"" + rest == EscapeChar(s[0]) + (Escape(s[1..]) + "\"" + rest);
      ReadEscapedChar(s[0], Escape(s[1..]) + "\"" + rest);
      assert s == [s[0]] + s[1..];
    }
  }

  // ---- numbers ------------------------------------------------------------------------------

  predicate IsNumberChar(c: char) {
    IsDigit(c) || c == '-' || c == '+' || c == '.' || c == 'e' || c == 'E'
  }

  function AfterDigits(s: string): (r: string)
    ensures |r| <= |s|
  {
    if s != "" && IsDigit(s[0]) then AfterDigits(s[1..]) else s
  }

  predicate StartsWithDigit(s: string) {
    s != "" && IsDigit(s[0])
  }

  predicate IsExponent(s: string)
    requires s != ""
  {
    (s[0] == 'e' || s[0] == 'E') &&
    var exp := s[1..];
    var digits := if exp != "" && (exp[0] == '+' || exp[0] == '-') then exp[1..] else exp;
    StartsWithDigit(digits) && AfterDigits(digits) == ""
  }

  /** Section 6 of RFC 8259: [ minus ] int [ frac ] [ exp ]. */
  predicate IsNumber(token: string) {
    var unsigned := if token != "" && token[0] == '-' then token[1..] else token;
    StartsWithDigit(unsigned) &&
    var afterInt := if unsigned[0] == '0' then unsigned[1..] else AfterDigits(unsigned);
    var hasFrac := afterInt != "" && afterInt[0] == '.';
    (hasFrac ==> StartsWithDigit(afterInt[1..])) &&
    var afterFrac := if hasFrac then AfterDigits(afterInt[1..]) else afterInt;
    (afterFrac == "" || IsExponent(afterFrac))
  }

  predicate AllNumberChars(s: string) {
    forall i :: 0 <= i < |s| ==> IsNumberChar(s[i])
  }

  /** The longest run of number characters at the front. */
  function NumberRun(s: string): (n: nat)
    ensures n <= |s| && AllNumberChars(s[..n]) && (n < |s| ==> !IsNumberChar(s[n]))
  {
    if s == "" || !IsNumberChar(s[0]) then 0 else 1 + NumberRun(s[1..])
  }

  predicate EndsNumber(rest: string) {
    rest == "" || !IsNumberChar(rest[0])
  }

  lemma {:induction false} RunOf(token: string, rest: string)
    requires AllNumberChars(token) && EndsNumber(rest)
    ensures NumberRun(token + rest) == |token|
  {
    if token == "" {
      assert token + rest == rest;
    } else {
      RunOf(token[1..], rest);
      assert (token + rest)[1..] == token[1..] + rest;
    }
  }

  lemma {:induction false} AfterAllDigits(s: string)
    requires AllDigits(s)
    ensures AfterDigits(s) == ""
  {
    if s != "" {
      AfterAllDigits(s[1..]);
    }
  }

  lemma {:induction false} NoLeadingZero(n: nat)
    requires n > 0
    ensures Digits(n)[0] != '0'
  {
    if n >= 10 {
      NoLeadingZero(n / 10);
      NoPadding(n / 10, 0);
      assert Digits(n) == Pad(n / 10, 0) + [DigitChar(n % 10)];
    }
  }

  /** Widths 0 and 1 pad alike. */
  lemma NoPadding(n: nat, w: nat)
    requires w <= 1
    ensures Pad(n, w) == Pad(n, 1)
  {
  }

  /** Decimal digits of an unsigned number are a number token. */
  lemma DigitsAreNumber(n: nat)
    ensures IsNumber(Digits(n)) && AllNumberChars(Digits(n))
  {
    var s := Digits(n);
    if n > 0 {
      NoLeadingZero(n);
      AfterAllDigits(s);
    } else {
      assert s == "0";
    }
  }

  // ---- printing values ------------------------------------------------------------------------

  function Print(j: Json): string
    decreases j, 1
  {
    match j
    case JNull => "null"
    case JBool(b) => if b then "true" else "false"
    case JNum(token) => token
    case JStr(s) => Quoted(s)
    case JArr(items) => "[" + PrintItems(items) + "]"
    case JObj(members) => "{" + PrintMembers(members) + "}"
  }

  function PrintItems(items: seq<Json>): string
    decreases items, 0
  {
    if items == [] then ""
    else Print(items[0]) + if |items| == 1 then "" else "," + PrintItems(items[1..])
  }

  function PrintMembers(members: seq<Member>): string
    decreases members, 0
  {
    if members == [] then ""
    else
      Quoted(members[0].key) + (":" + (Print(members[0].value) + if |members| == 1 then "" else "," + PrintMembers(members[1..])))
  }

  /** Every number token in the value is one. */
  ghost predicate WellFormed(j: Json)
    decreases j
  {
    match j
    case JNum(token) => IsNumber(token) && AllNumberChars(token)
    case JArr(items) => forall i :: 0 <= i < |items| ==> WellFormed(items[i])
    case JObj(members) => forall i :: 0 <= i < |members| ==> WellFormed(members[i].value)
    case _ => true
  }

  // ---- reading values -------------------------------------------------------------------------

  function SkipWs(s: string): (r: string)
    ensures |r| <= |s|
  {
    if s != "" && (s[0] == ' ' || s[0] == '\t' || s[0] == '\n' || s[0] == '\r') then SkipWs(s[1..]) else s
  }

  function Numeral(token: string, rest: string): Option<(Json, string)> {
    if IsNumber(token) then Some((JNum(token), rest)) else None
  }

  /** A literal name or a number. */
  function ReadScalar(t: string): (r: Option<(Json, string)>)
    ensures r.Some? ==> |r.value.1| < |t|
  {
    if "null" <= t then Some((JNull, t[4..]))
    else if "true" <= t then Some((JBool(true), t[4..]))
    else if "false" <= t then Some((JBool(false), t[5..]))
    else
      var n := NumberRun(t);
      Numeral(t[..n], t[n..])
  }

  /** A value and the text after it, as section 2 of RFC 8259 lays values out. */
  function Read(s: string): (r: Option<(Json, string)>)
    ensures r.Some? ==> |r.value.1| < |s|
    decreases |s|, 2
  {
    var t := SkipWs(s);
    if t == "" then None
    else if t[0] == '"' then
      var str := ReadString(t[1..]);
      if str.None? then None else Some((JStr(str.value.0), str.value.1))
    else if t[0] == '[' then
      var u := SkipWs(t[1..]);
      if u != "" && u[0] == ']' then Some((JArr([]), u[1..]))
      else
        var items := ReadItems(u);
        if items.None? then None else Some((JArr(items.value.0), items.value.1))
    else if t[0] == '{' then
      var u := SkipWs(t[1..]);
      if u != "" && u[0] == '}' then Some((JObj([]), u[1..]))
      else
        var members := ReadMembers(u);
        if members.None? then None else Some((JObj(members.value.0), members.value.1))
    else ReadScalar(t)
  }

  /** One or more values separated by commas, up to and including the closing bracket. */
  function ReadItems(s: string): (r: Option<(seq<Json>, string)>)
    ensures r.Some? ==> |r.value.1| < |s|
    decreases |s|, 3
  {
    var first := Read(s);
    if first.None? then None
    else
      var t := SkipWs(first.value.1);
      if t == "" then None
      else if t[0] == ']' then Some(([first.value.0], t[1..]))
      else if t[0] == ',' then
        var more := ReadItems(t[1..]);
        if more.None? then None else Some(([first.value.0] + more.value.0, more.value.1))
      else None
  }

  /** `"key" : value` */
  function ReadMember(s: string): (r: Option<(Member, string)>)
    ensures r.Some? ==> |r.value.1| < |s|
    decreases |s|, 3
  {
    var t := SkipWs(s);
    if t == "" || t[0] != '"' then None
    else
      var key := ReadString(t[1..]);
      if key.None? then None
      else
        var u := SkipWs(key.value.1);
        if u == "" || u[0] != ':' then None
        else
          var v := Read(u[1..]);
          if v.None? then None else Some((Member(key.value.0, v.value.0), v.value.1))
  }

  function ReadMembers(s: string): (r: Option<(seq<Member>, string)>)
    ensures r.Some? ==> |r.value.1| < |s|
    decreases |s|, 4
  {
    var first := ReadMember(s);
    if first.None? then None
    else
      var t := SkipWs(first.value.1);
      if t == "" then None
      else if t[0] == '}' then Some(([first.value.0], t[1..]))
      else if t[0] == ',' then
        var more := ReadMembers(t[1..]);
        if more.None? then None else Some(([first.value.0] + more.value.0, more.value.1))
      else None
  }

  // ---- the round trip ---------------------------------------------------------------------------

  predicate StartsValue(s: string) {
    s != "" && SkipWs(s) == s && s[0] != ']' && s[0] != '}'
  }

  lemma PrintStarts(j: Json, rest: string)
    requires WellFormed(j)
    ensures StartsValue(Print(j) + rest)
  {
    if j.JNum? {
      assert j.token != "" && (j.token[0] == '-' || IsDigit(j.token[0]));
    }
  }

  lemma ReadNumber(token: string, rest: string)
    requires IsNumber(token) && AllNumberChars(token) && EndsNumber(rest)
    ensures Read(token + rest) == Some((JNum(token), rest))
  {
    var s := token + rest;
    assert token[0] == '-' || IsDigit(token[0]);
    assert s[0] == token[0] && SkipWs(s) == s;
    RunOf(token, rest);
    assert s[..|token|] == token && s[|token|..] == rest;
    assert s[0] != 'n' && s[0] != 't' && s[0] != 'f';
  }

  lemma ReadQuoted(str: string, rest: string)
    ensures Read(Quoted(str) + rest) == Some((JStr(str), rest))
  {
    var s := Quoted(str) + rest;
    assert s[0] == '"' && SkipWs(s) == s;
    assert s[1..] == Escape(str) + "\"" + rest;
    StringsReadBack(str, rest);
  }

  lemma ReadWords(rest: string)
    ensures Read("null" + rest) == Some((JNull, rest))
    ensures Read("true" + rest) == Some((JBool(true), rest))
    ensures Read("false" + rest) == Some((JBool(false), rest))
  {
    assert ("null" + rest)[4..] == rest && ("true" + rest)[4..] == rest && ("false" + rest)[5..] == rest;
    assert SkipWs("null" + rest) == "null" + rest && SkipWs("true" + rest) == "true" + rest;
    assert SkipWs("false" + rest) == "false" + rest;
  }

  /** Printing is self-delimiting and invertible: any value, followed by anything that does not extend a number. */
  lemma {:induction false} ValuesReadBack(j: Json, rest: string)
    requires WellFormed(j) && EndsNumber(rest)
    ensures Read(Print(j) + rest) == Some((j, rest))
    decreases j, 1
  {
    match j {
      case JNum(token) => ReadNumber(token, rest);
      case JStr(str) => ReadQuoted(str, rest);
      case JArr(items) => ArraysReadBack(items, rest);
      case JObj(members) => ObjectsReadBack(members, rest);
      case _ => ReadWords(rest);
    }
  }

  lemma Regroup3(a: string, b: string, c: string, d: string)
    ensures a + b + c + d == a + (b + c + d)
  {
  }

  lemma {:induction false} ArraysReadBack(items: seq<Json>, rest: string)
    requires forall i :: 0 <= i < |items| ==> WellFormed(items[i])
    ensures Read("[" + PrintItems(items) + "]" + rest) == Some((JArr(items), rest))
    decreases items, 0, 1
  {
    var s := "[" + PrintItems(items) + "]" + rest;
    var tail := PrintItems(items) + "]" + rest;
    assert s[0] == '[' && SkipWs(s) == s && s[1..] == tail;
    if items == [] {
      assert tail == "]" + rest && SkipWs(tail) == tail && tail[1..] == rest;
    } else {
      ItemsReadBack(items, rest);
      var more := if |items| == 1 then "" else "," + PrintItems(items[1..]);
      Regroup3(Print(items[0]), more, "]", rest);
      PrintStarts(items[0], more + "]" + rest);
    }
  }

  lemma LastItem(s: string, v: Json, rest: string)
    requires Read(s) == Some((v, "]" + rest))
    ensures ReadItems(s) == Some(([v], rest))
  {
    assert SkipWs("]" + rest) == "]" + rest && ("]" + rest)[1..] == rest;
  }

  lemma NextItem(s: string, v: Json, more: string, items: seq<Json>, rest: string)
    requires Read(s) == Some((v, "," + more)) && ReadItems(more) == Some((items, rest))
    ensures ReadItems(s) == Some(([v] + items, rest))
  {
    assert SkipWs("," + more) == "," + more && ("," + more)[1..] == more;
  }

  lemma LastItemReads(s: string, v: Json, text: string, rest: string)
    requires s == text + ("]" + rest) && Read(text + ("]" + rest)) == Some((v, "]" + rest))
    ensures ReadItems(s) == Some(([v], rest))
  {
    LastItem(s, v, rest);
  }

  lemma NextItemReads(s: string, v: Json, text: string, more: string, items: seq<Json>, rest: string)
    requires s == text + ("," + more) && Read(text + ("," + more)) == Some((v, "," + more))
    requires ReadItems(more) == Some((items, rest))
    ensures ReadItems(s) == Some(([v] + items, rest))
  {
    NextItem(s, v, more, items, rest);
  }

  lemma ItemsText(items: seq<Json>, rest: string)
    requires items != []
    ensures PrintItems(items) + "]" + rest ==
            Print(items[0]) + (if |items| == 1 then "]" + rest else "," + (PrintItems(items[1..]) + "]" + rest))
  {
    CloseList(Print(items[0]), rest);
    CommaList(Print(items[0]), PrintItems(items[1..]), rest);
  }

  lemma CloseList(a: string, rest: string)
    ensures a + "" + "]" + rest == a + ("]" + rest)
  {
  }

  lemma CommaList(a: string, b: string, rest: string)
    ensures a + ("," + b) + "]" + rest == a + ("," + (b + "]" + rest))
  {
  }

  lemma {:induction false} ItemsReadBack(items: seq<Json>, rest: string)
    requires items != [] && forall i :: 0 <= i < |items| ==> WellFormed(items[i])
    ensures ReadItems(PrintItems(items) + "]" + rest) == Some((items, rest))
    decreases items, 0, 0
  {
    var s := PrintItems(items) + "]" + rest;
    var v, others := items[0], items[1..];
    assert items == [v] + others && (|items| == 1 ==> items == [v]);
    ItemsText(items, rest);
    if |items| == 1 {
      ValuesReadBack(v, "]" + rest);
      LastItemReads(s, v, Print(v), rest);
    } else {
      var more := PrintItems(others) + "]" + rest;
      ValuesReadBack(v, "," + more);
      ItemsReadBack(others, rest);
      NextItemReads(s, v, Print(v), more, others, rest);
    }
  }

  lemma {:induction false} ObjectsReadBack(members: seq<Member>, rest: string)
    requires forall i :: 0 <= i < |members| ==> WellFormed(members[i].value)
    ensures Read("{" + PrintMembers(members) + "}" + rest) == Some((JObj(members), rest))
    decreases members, 0, 2
  {
    Regroup3("{", PrintMembers(members), "}", rest);
    if members == [] {
      EmptyObjectReads(rest);
    } else {
      MembersReadBack(members, rest);
      MembersText(members, rest);
      BracedMembersRead(PrintMembers(members) + "}" + rest, members, rest);
    }
  }

  lemma EmptyObjectReads(rest: string)
    ensures Read("{" + ("" + "}" + rest)) == Some((JObj([]), rest))
  {
    var tail := "" + "}" + rest;
    assert ("{" + tail)[1..] == tail && SkipWs("{" + tail) == "{" + tail;
    assert tail[0] == '}' && SkipWs(tail) == tail && tail[1..] == rest;
  }

  lemma BracedMembersRead(tail: string, members: seq<Member>, rest: string)
    requires tail != "" && tail[0] == '"' && ReadMembers(tail) == Some((members, rest))
    ensures Read("{" + tail) == Some((JObj(members), rest))
  {
    assert ("{" + tail)[1..] == tail && SkipWs("{" + tail) == "{" + tail;
    assert SkipWs(tail) == tail;
  }

  lemma MemberParts(s: string, key: string, value: Json, text: string, rest: string)
    requires s == Quoted(key) + (":" + text) && Read(text) == Some((value, rest))
    ensures ReadMember(s) == Some((Member(key, value), rest))
  {
    var after := ":" + text;
    assert s[0] == '"' && SkipWs(s) == s;
    assert s[1..] == Escape(key) + "\"" + after;
    StringsReadBack(key, after);
    assert SkipWs(after) == after && after[1..] == text;
  }

  lemma LastMember(s: string, m: Member, rest: string)
    requires ReadMember(s) == Some((m, "}" + rest))
    ensures ReadMembers(s) == Some(([m], rest))
  {
    assert SkipWs("}" + rest) == "}" + rest && ("}" + rest)[1..] == rest;
  }

  lemma NextMember(s: string, m: Member, more: string, members: seq<Member>, rest: string)
    requires ReadMember(s) == Some((m, "," + more)) && ReadMembers(more) == Some((members, rest))
    ensures ReadMembers(s) == Some(([m] + members, rest))
  {
    assert SkipWs("," + more) == "," + more && ("," + more)[1..] == more;
  }

  lemma LastMemberReads(s: string, m: Member, text: string, rest: string)
    requires s == Quoted(m.key) + (":" + (text + ("}" + rest))) && Read(text + ("}" + rest)) == Some((m.value, "}" + rest))
    ensures ReadMembers(s) == Some(([m], rest))
  {
    MemberParts(s, m.key, m.value, text + ("}" + rest), "}" + rest);
    LastMember(s, m, rest);
  }

  lemma NextMemberReads(s: string, m: Member, text: string, more: string, members: seq<Member>, rest: string)
    requires s == Quoted(m.key) + (":" + (text + ("," + more))) && Read(text + ("," + more)) == Some((m.value, "," + more))
    requires ReadMembers(more) == Some((members, rest))
    ensures ReadMembers(s) == Some(([m] + members, rest))
  {
    MemberParts(s, m.key, m.value, text + ("," + more), "," + more);
    NextMember(s, m, more, members, rest);
  }

  lemma Regroup(a: string, b: string, c: string, d: string, e: string, f: string)
    ensures a + (b + (c + d)) + e + f == a + (b + (c + (d + e + f)))
  {
  }

  lemma CommaMember(b: string, rest: string)
    ensures "" + "}" + rest == "}" + rest && "," + b + "}" + rest == "," + (b + "}" + rest)
  {
  }

  lemma MembersText(members: seq<Member>, rest: string)
    requires members != []
    ensures PrintMembers(members) + "}" + rest ==
            Quoted(members[0].key) + (":" + (Print(members[0].value) +
            if |members| == 1 then "}" + rest else "," + (PrintMembers(members[1..]) + "}" + rest)))
  {
    var more := if |members| == 1 then "" else "," + PrintMembers(members[1..]);
    Regroup(Quoted(members[0].key), ":", Print(members[0].value), more, "}", rest);
    CommaMember(PrintMembers(members[1..]), rest);
  }

  lemma {:induction false} MembersReadBack(members: seq<Member>, rest: string)
    requires members != [] && forall i :: 0 <= i < |members| ==> WellFormed(members[i].value)
    ensures ReadMembers(PrintMembers(members) + "}" + rest) == Some((members, rest))
    decreases members, 0, 1
  {
    var s, m := PrintMembers(members) + "}" + rest, members[0];
    assert members == [m] + members[1..] && (|members| == 1 ==> members == [m]);
    MembersText(members, rest);
    if |members| == 1 {
      ValuesReadBack(m.value, "}" + rest);
      LastMemberReads(s, m, Print(m.value), rest);
    } else {
      var more := PrintMembers(members[1..]) + "}" + rest;
      ValuesReadBack(m.value, "," + more);
      MembersReadBack(members[1..], rest);
      NextMemberReads(s, m, Print(m.value), more, members[1..], rest);
    }
  }
}
