/** Decimal text: zero-padded numbers, fixed-width records of them, and their lexicographic order. */
module Decimal {
  import opened Prelude

  function DigitChar(d: nat): char
    requires d < 10
  {
    ('0' as int + d) as char
  }

  predicate IsDigit(c: char) {
    '0' <= c <= '9'
  }

  function DigitValue(c: char): nat
    requires IsDigit(c)
  {
    c as int - '0' as int
  }

  predicate AllDigits(s: string) {
    forall i :: 0 <= i < |s| ==> IsDigit(s[i])
  }

  /** `{n:0w}`: decimal digits of `n`, zero-padded on the left to at least `w` (and at least one). */
  function Pad(n: nat, w: nat): (s: string)
    ensures AllDigits(s) && |s| >= 1
    decreases n, w
  {
    if n < 10 && w <= 1 then [DigitChar(n)]
    else Pad(n / 10, if w == 0 then 0 else w - 1) + [DigitChar(n % 10)]
  }

  /** `to_string` of an unsigned number. */
  function Digits(n: nat): string {
    Pad(n, 1)
  }

  /** The number a digit string denotes. */
  function NumberOf(s: string): nat
    requires AllDigits(s)
  {
    if s == "" then 0 else 10 * NumberOf(s[..|s| - 1]) + DigitValue(s[|s| - 1])
  }

  function Pow10(w: nat): nat {
    if w == 0 then 1 else 10 * Pow10(w - 1)
  }

  lemma {:induction false} NumberOfPad(n: nat, w: nat)
    ensures NumberOf(Pad(n, w)) == n
    decreases n, w
  {
    var s := Pad(n, w);
    if !(n < 10 && w <= 1) {
      var w' := if w == 0 then 0 else w - 1;
      NumberOfPad(n / 10, w');
      assert s[..|s| - 1] == Pad(n / 10, w');
    }
  }

  lemma {:induction false} PadWidth(n: nat, w: nat)
    requires w >= 1 && n < Pow10(w)
    ensures |Pad(n, w)| == w
    decreases w
  {
    if w > 1 {
      PadWidth(n / 10, w - 1);
    } else {
      assert Pow10(1) == 10 * Pow10(0);
    }
  }

  // ---- lexicographic order -----------------------------------------------------------

  /** Strict lexicographic order on character codes, a proper prefix coming first. */
  predicate Less(a: string, b: string) {
    b != "" && (a == "" || a[0] < b[0] || (a[0] == b[0] && Less(a[1..], b[1..])))
  }

  /** Equal-length heads decide; equal heads leave it to the tails. */
  lemma {:induction false} LessConcat(a: string, b: string, c: string, d: string)
    requires |a| == |c|
    ensures Less(a + b, c + d) <==> Less(a, c) || (a == c && Less(b, d))
  {
    if a == "" {
      assert a + b == b && c + d == d;
    } else {
      LessConcat(a[1..], b, c[1..], d);
      assert (a + b)[1..] == a[1..] + b && (c + d)[1..] == c[1..] + d;
      assert a == [a[0]] + a[1..] && c == [c[0]] + c[1..];
    }
  }

  lemma {:induction false} NotLessItself(s: string)
    ensures !Less(s, s)
  {
    if s != "" {
      NotLessItself(s[1..]);
    }
  }

  lemma {:induction false} LessTransitive(a: string, b: string, c: string)
    requires Less(a, b) && Less(b, c)
    ensures Less(a, c)
  {
    if a != "" && a[0] == b[0] && b[0] == c[0] {
      LessTransitive(a[1..], b[1..], c[1..]);
    }
  }

  lemma {:induction false} LessTotal(a: string, b: string)
    ensures Less(a, b) || a == b || Less(b, a)
  {
    if a != "" && b != "" && a[0] == b[0] {
      LessTotal(a[1..], b[1..]);
      assert a == [a[0]] + a[1..] && b == [b[0]] + b[1..];
    }
  }

  /** What is not before `c` is not before anything up to `c`. */
  lemma NotLessThanEarlier(x: string, c: string, earlier: string)
    requires !Less(x, c) && !Less(c, earlier)
    ensures !Less(x, earlier)
  {
    LessTotal(earlier, c);
    if Less(x, earlier) && earlier != c {
      LessTransitive(x, earlier, c);
    }
  }

  /** Digit strings of one length are ordered as their numbers are. */
  lemma {:induction false} LessIsNumeric(a: string, b: string)
    requires AllDigits(a) && AllDigits(b) && |a| == |b|
    ensures Less(a, b) <==> NumberOf(a) < NumberOf(b)
    ensures NumberOf(a) == NumberOf(b) ==> a == b
  {
    if a != "" {
      var n := |a| - 1;
      LessIsNumeric(a[..n], b[..n]);
      assert a == a[..n] + [a[n]] && b == b[..n] + [b[n]];
      LessConcat(a[..n], [a[n]], b[..n], [b[n]]);
    }
  }

  // ---- fixed-width records -----------------------------------------------------------

  /** One column: how many digits, and the text that follows it. */
  datatype Column = Column(width: nat, after: string)

  predicate FitsColumns(values: seq<nat>, cols: seq<Column>) {
    && |values| == |cols|
    && forall i :: 0 <= i < |cols| ==> cols[i].width >= 1 && values[i] < Pow10(cols[i].width)
  }

  function Render(values: seq<nat>, cols: seq<Column>): string
    requires |values| == |cols|
  {
    if cols == [] then "" else Pad(values[0], cols[0].width) + cols[0].after + Render(values[1..], cols[1..])
  }

  /** A strict reader of the record format. */
  function Scan(s: string, cols: seq<Column>): Option<seq<nat>> {
    if cols == [] then (if s == "" then Some([]) else None)
    else
      var w, after := cols[0].width, cols[0].after;
      if |s| < w + |after| || !AllDigits(s[..w]) || s[w..w + |after|] != after then None
      else
        var rest := Scan(s[w + |after|..], cols[1..]);
        if rest.None? then None else Some([NumberOf(s[..w])] + rest.value)
  }

  lemma {:induction false} ScanRender(values: seq<nat>, cols: seq<Column>)
    requires FitsColumns(values, cols)
    ensures Scan(Render(values, cols), cols) == Some(values)
  {
    if cols != [] {
      var w, after := cols[0].width, cols[0].after;
      var head, tail := Pad(values[0], w), Render(values[1..], cols[1..]);
      var s := Render(values, cols);
      PadWidth(values[0], w);
      NumberOfPad(values[0], w);
      ScanRender(values[1..], cols[1..]);
      assert s == head + after + tail;
      assert s[..w] == head && s[w..w + |after|] == after && s[w + |after|..] == tail;
      assert values == [values[0]] + values[1..];
    }
  }

  /** Dictionary order of value lists. */
  predicate ValuesLess(a: seq<nat>, b: seq<nat>)
    requires |a| == |b|
  {
    a != [] && (a[0] < b[0] || (a[0] == b[0] && ValuesLess(a[1..], b[1..])))
  }

  lemma PadOrder(x: nat, y: nat, w: nat)
    requires w > 0 && x < Pow10(w) && y < Pow10(w)
    ensures |Pad(x, w)| == |Pad(y, w)| && (Less(Pad(x, w), Pad(y, w)) <==> x < y) && (Pad(x, w) == Pad(y, w) <==> x == y)
  {
    PadWidth(x, w);
    PadWidth(y, w);
    NumberOfPad(x, w);
    NumberOfPad(y, w);
    LessIsNumeric(Pad(x, w), Pad(y, w));
  }

  lemma ColumnOrder(ha: string, hb: string, after: string, ta: string, tb: string)
    requires |ha| == |hb|
    ensures Less(ha + after + ta, hb + after + tb) <==> Less(ha, hb) || (ha == hb && Less(ta, tb))
  {
    assert ha + after + ta == ha + (after + ta) && hb + after + tb == hb + (after + tb);
    LessConcat(ha, after + ta, hb, after + tb);
    LessConcat(after, ta, after, tb);
    NotLessItself(after);
  }

  /** Text order of records is dictionary order of their values. */
  lemma {:induction false} RenderOrder(a: seq<nat>, b: seq<nat>, cols: seq<Column>)
    requires FitsColumns(a, cols) && FitsColumns(b, cols)
    ensures Less(Render(a, cols), Render(b, cols)) <==> ValuesLess(a, b)
  {
    if cols != [] {
      var w, after := cols[0].width, cols[0].after;
      PadOrder(a[0], b[0], w);
      RenderOrder(a[1..], b[1..], cols[1..]);
      ColumnOrder(Pad(a[0], w), Pad(b[0], w), after, Render(a[1..], cols[1..]), Render(b[1..], cols[1..]));
    }
  }
}
