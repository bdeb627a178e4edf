/** What the delivery loop makes of each status code, on replies built from one. */
module HttpReplies {
  import opened Decimal
  import opened Delivery

  /** A status line: version 1.0 or 1.1, the code, and a reason. */
  function StatusLineText(minor: char, code: nat, reason: string): string {
    "HTTP/1." + [minor] + " " + Digits(code) + reason
  }

  predicate OneLineText(s: string) {
    forall i :: 0 <= i < |s| ==> s[i] != '\n' && s[i] != '\r'
  }

  /** The end of the line and everything after it, or the end of the reply. */
  predicate EndsLine(rest: string) {
    rest == "" || rest[0] == '\n' || "\r\n" <= rest
  }

  lemma {:induction false} StatusLineIs(line: string, rest: string)
    requires OneLineText(line) && EndsLine(rest)
    ensures StatusLine(line + rest) == line
  {
    if line == "" {
      assert line + rest == rest;
    } else {
      assert (line + rest)[0] == line[0] && (line + rest)[1..] == line[1..] + rest;
      StatusLineIs(line[1..], rest);
    }
  }

  lemma {:induction false} StatusLineStarts(response: string)
    ensures StatusLine(response) <= response
  {
    if StatusLine(response) != "" {
      StatusLineStarts(response[1..]);
    }
  }

  /** A three-digit code starts with its class. */
  lemma CodeStarts(code: nat)
    requires 100 <= code < 1000
    ensures Digits(code) == [DigitChar(code / 100), DigitChar(code / 10 % 10), DigitChar(code % 10)]
  {
    var tens := code / 10;
    var hundreds := tens / 10;
    assert hundreds == code / 100 && 1 <= hundreds < 10;
    assert Pad(hundreds, 0) == [DigitChar(hundreds)];
    assert Pad(tens, 0) == Pad(hundreds, 0) + [DigitChar(tens % 10)];
    assert Digits(code) == Pad(tens, 0) + [DigitChar(code % 10)];
  }

  lemma StatusLineShape(minor: char, code: nat, reason: string)
    requires (minor == '0' || minor == '1') && 100 <= code < 1000 && OneLineText(reason)
    ensures var s := StatusLineText(minor, code, reason);
            && OneLineText(s) && |s| >= 12
            && s[..10] == "HTTP/1." + [minor] + " " + [DigitChar(code / 100)]
  {
    CodeStarts(code);
  }

  lemma StartIs(s: string, minor: char, digit: char, other: char, wanted: char)
    requires |s| >= 10 && s[..10] == "HTTP/1." + [minor] + " " + [digit]
    ensures "HTTP/1." + [other] + " " + [wanted] <= s <==> minor == other && digit == wanted
  {
    var t := "HTTP/1." + [other] + " " + [wanted];
    assert |t| == 10 && s[7] == s[..10][7] == minor && s[9] == s[..10][9] == digit && t[7] == other && t[9] == wanted;
    if minor == other && digit == wanted {
      assert t == s[..10];
    }
  }

  /**
   Whatever the reason and whatever follows the status line: 200 to 299 acknowledge, 400 to 499 are
   final, and every other code may be retried.
   */
  lemma CodeDecides(minor: char, code: nat, reason: string, rest: string)
    requires (minor == '0' || minor == '1') && 100 <= code < 1000 && OneLineText(reason) && EndsLine(rest)
    ensures var outcome := Classify(Answered(StatusLineText(minor, code, reason) + rest));
            && (outcome == Acked <==> 200 <= code < 300)
            && (outcome == NonRetryable <==> 400 <= code < 500)
            && (outcome == Retryable <==> !(200 <= code < 300) && !(400 <= code < 500))
  {
    var s := StatusLineText(minor, code, reason);
    StatusLineShape(minor, code, reason);
    StatusLineIs(s, rest);
    var digit := DigitChar(code / 100);
    StartIs(s, minor, digit, '1', '2');
    StartIs(s, minor, digit, '0', '2');
    StartIs(s, minor, digit, '1', '4');
    StartIs(s, minor, digit, '0', '4');
    assert "HTTP/1." + ['1'] + " " + ['2'] == "HTTP/1.1 2" && "HTTP/1." + ['0'] + " " + ['2'] == "HTTP/1.0 2";
    assert "HTTP/1." + ['1'] + " " + ['4'] == "HTTP/1.1 4" && "HTTP/1." + ['0'] + " " + ['4'] == "HTTP/1.0 4";
    assert digit == '2' <==> code / 100 == 2;
    assert digit == '4' <==> code / 100 == 4;
  }

  /** Nothing else acknowledges or rejects: an I/O failure, or a reply in neither version. */
  lemma OtherRepliesAreRetryable(reply: Reply)
    requires reply.Answered? ==> !("HTTP/1.1 " <= reply.response) && !("HTTP/1.0 " <= reply.response)
    ensures Classify(reply) == Retryable
  {
    if reply.Answered? {
      StatusLineStarts(reply.response);
      var s, r := StatusLine(reply.response), reply.response;
      assert "HTTP/1.1 " == "HTTP/1.1 2"[..9] == "HTTP/1.1 4"[..9] && "HTTP/1.0 " == "HTTP/1.0 2"[..9] == "HTTP/1.0 4"[..9];
      if |s| >= 10 {
        assert s[..9] == r[..9];
      }
    }
  }

  /** No chunk is tried more than three times, and only the last try is anything but retryable. */
  lemma AtMostThreeTries(body: string, attempts: seq<Attempt>, ok: bool, i: nat)
    requires Tries(body, attempts, ok) && i < |attempts|
    ensures |attempts| <= 3 && (i < |attempts| - 1 ==> Classify(attempts[i].reply) == Retryable)
    ensures Classify(attempts[i].reply) == Retryable && i == |attempts| - 1 ==> |attempts| == 3 && !ok
  {
  }
}
