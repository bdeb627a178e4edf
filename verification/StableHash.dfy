/** The 64-bit string hash behind detection ids: xor with a byte, then multiply by an odd constant. */
module StableHash {
  import opened Prelude
  import opened Decimal
  import opened DashIds

  const OFFSET: nat := 1_469_598_103_934_665_603

  const PRIME: nat := 1_099_511_628_211

  /** The inverse of the multiplier modulo 2^64. */
  const INVERSE: nat := 14_886_173_955_864_302_971

  /** Bitwise exclusive or. */
  function Xor(a: nat, b: nat): nat
    decreases a + b
  {
    if a == 0 && b == 0 then 0 else 2 * Xor(a / 2, b / 2) + (a + b) % 2
  }

  function Mix(h: nat, b: Byte): (r: nat)
    ensures r < TWO_64
  {
    (Xor(h, b) * PRIME) % TWO_64
  }

  function HashFrom(h: nat, s: seq<Byte>): nat {
    if s == [] then h else Mix(HashFrom(h, s[..|s| - 1]), s[|s| - 1])
  }

  method ComputeHash(value: seq<Byte>) returns (hash: U64)
    ensures hash == HashFrom(OFFSET, value)
  {
    hash := OFFSET;
    for i := 0 to |value|
      invariant hash == HashFrom(OFFSET, value[..i])
    {
      assert value[..i + 1][..i] == value[..i];
      hash := Mix(hash, value[i]);
    }
    assert value[..|value|] == value;
  }

  // ---- each step is a bijection ---------------------------------------------------------------

  lemma XorUnfold(a: nat, b: nat)
    ensures Xor(a, b) / 2 == Xor(a / 2, b / 2) && Xor(a, b) % 2 == (a + b) % 2
  {
    assert Xor(0, 0) == 0;
  }

  lemma {:induction false} XorTwice(a: nat, b: nat)
    ensures Xor(Xor(a, b), b) == a
    decreases a + b
  {
    if a == 0 && b == 0 {
      assert Xor(0, 0) == 0;
    } else {
      XorTwice(a / 2, b / 2);
      XorUnfold(a, b);
      XorUnfold(Xor(a, b), b);
      Parity(a, b, Xor(a, b));
      var x := Xor(Xor(a, b), b);
      assert x / 2 == a / 2 && x % 2 == a % 2;
    }
  }

  lemma Parity(a: nat, b: nat, c: nat)
    requires c % 2 == (a + b) % 2
    ensures (c + b) % 2 == a % 2
  {
  }

  lemma {:induction false} XorCommutes(a: nat, b: nat)
    ensures Xor(a, b) == Xor(b, a)
    decreases a + b
  {
    if a != 0 || b != 0 {
      XorCommutes(a / 2, b / 2);
    }
  }

  function Pow2(n: nat): nat {
    if n == 0 then 1 else 2 * Pow2(n - 1)
  }

  lemma {:induction false} XorBound(a: nat, b: nat, n: nat)
    requires a < Pow2(n) && b < Pow2(n)
    ensures Xor(a, b) < Pow2(n)
    decreases n
  {
    if n > 0 {
      XorBound(a / 2, b / 2, n - 1);
    }
  }

  lemma Pow2Of64()
    ensures Pow2(64) == TWO_64
  {
    Pow2Doubles(4, 16);
    Pow2Doubles(8, 0x100);
    Pow2Doubles(16, 0x1_0000);
    Pow2Doubles(32, 0x1_0000_0000);
  }

  lemma Pow2Doubles(n: nat, power: nat)
    requires Pow2(n) == power
    ensures Pow2(n + n) == power * power
  {
    Pow2Adds(n, n);
  }

  lemma {:induction false} Pow2Adds(a: nat, b: nat)
    ensures Pow2(a + b) == Pow2(a) * Pow2(b)
  {
    if a > 0 {
      Pow2Adds(a - 1, b);
      assert 2 * Pow2(a - 1) * Pow2(b) == Pow2(a) * Pow2(b);
    }
  }

  /** Multiplication by the odd constant loses nothing modulo 2^64. */
  lemma MultiplyInjective(x: nat, y: nat)
    requires x < TWO_64 && y < TWO_64
    requires (x * PRIME) % TWO_64 == (y * PRIME) % TWO_64
    ensures x == y
  {
    var d, k := x - y, (PRIME * INVERSE - 1) / TWO_64;
    var q := (x * PRIME) / TWO_64 - (y * PRIME) / TWO_64;
    assert PRIME * INVERSE == 1 + k * TWO_64;
    assert d * PRIME == q * TWO_64;
    assert d * PRIME * INVERSE == q * TWO_64 * INVERSE;
    assert d + d * k * TWO_64 == q * INVERSE * TWO_64;
    assert d == (q * INVERSE - d * k) * TWO_64;
  }

  lemma MixInjective(h: nat, h': nat, b: Byte)
    requires h < TWO_64 && h' < TWO_64 && Mix(h, b) == Mix(h', b)
    ensures h == h'
  {
    Pow2Of64();
    XorBound(h, b, 64);
    XorBound(h', b, 64);
    MultiplyInjective(Xor(h, b), Xor(h', b));
    XorTwice(h, b);
    XorTwice(h', b);
  }

  /** Different bytes mixed into one state give different states. */
  lemma MixSeparatesBytes(h: nat, b: Byte, b': Byte)
    requires h < TWO_64 && b != b'
    ensures Mix(h, b) != Mix(h, b')
  {
    Pow2Of64();
    XorBound(h, b, 64);
    XorBound(h, b', 64);
    XorTwice(b, h);
    XorTwice(b', h);
    XorCommutes(b, h);
    XorCommutes(b', h);
    if Mix(h, b) == Mix(h, b') {
      MultiplyInjective(Xor(h, b), Xor(h, b'));
    }
  }

  // ---- near-identical strings -------------------------------------------------------------------

  lemma {:induction false} HashBound(h: nat, s: seq<Byte>)
    requires h < TWO_64
    ensures HashFrom(h, s) < TWO_64
  {
  }

  lemma {:induction false} HashConcat(h: nat, a: seq<Byte>, b: seq<Byte>)
    ensures HashFrom(h, a + b) == HashFrom(HashFrom(h, a), b)
  {
    if b == [] {
      assert a + b == a;
    } else {
      HashConcat(h, a, b[..|b| - 1]);
      assert (a + b)[..|a + b| - 1] == a + b[..|b| - 1];
    }
  }

  /** A common suffix never merges two different states. */
  lemma {:induction false} SuffixKeepsApart(h: nat, h': nat, s: seq<Byte>)
    requires h < TWO_64 && h' < TWO_64 && h != h'
    ensures HashFrom(h, s) != HashFrom(h', s)
  {
    if s != [] {
      var n := |s| - 1;
      SuffixKeepsApart(h, h', s[..n]);
      HashBound(h, s[..n]);
      HashBound(h', s[..n]);
      if HashFrom(h, s) == HashFrom(h', s) {
        MixInjective(HashFrom(h, s[..n]), HashFrom(h', s[..n]), s[n]);
      }
    }
  }

  /** Strings of one length that differ in exactly one position hash differently. */
  lemma OneDifferenceSeparates(a: seq<Byte>, b: seq<Byte>, i: nat)
    requires |a| == |b| && i < |a| && a[i] != b[i]
    requires forall j :: 0 <= j < |a| && j != i ==> a[j] == b[j]
    ensures HashFrom(OFFSET, a) != HashFrom(OFFSET, b)
  {
    var head, tail := a[..i], a[i + 1..];
    assert a == head + [a[i]] + tail && b == head + [b[i]] + tail;
    var h := HashFrom(OFFSET, head);
    HashBound(OFFSET, head);
    HashConcat(OFFSET, head + [a[i]], tail);
    HashConcat(OFFSET, head + [b[i]], tail);
    assert (head + [a[i]])[..i] == head && (head + [b[i]])[..i] == head;
    MixSeparatesBytes(h, a[i], b[i]);
    SuffixKeepsApart(Mix(h, a[i]), Mix(h, b[i]), tail);
  }

  // ---- detection ids ------------------------------------------------------------------------------

  const DEVICE: seq<Byte> := [100, 101, 118, 105, 99, 101]

  /** `det-{device}-{classification}-{hash}`; without a process the word "device" is hashed. */
  function DetectionId(deviceId: string, classification: string, processGuid: Option<seq<Byte>>): string {
    "det-" + deviceId + "-" + classification + "-" + Digits(HashFrom(OFFSET, if processGuid.Some? then processGuid.value else DEVICE))
  }

  /** On one device and classification, near-identical process guids get different detection ids. */
  lemma DetectionIdsDiffer(deviceId: string, classification: string, a: seq<Byte>, b: seq<Byte>, i: nat)
    requires |a| == |b| && i < |a| && a[i] != b[i]
    requires forall j :: 0 <= j < |a| && j != i ==> a[j] == b[j]
    ensures DetectionId(deviceId, classification, Some(a)) != DetectionId(deviceId, classification, Some(b))
  {
    OneDifferenceSeparates(a, b, i);
    var prefix := "det-" + deviceId + "-" + classification + "-";
    var x, y := HashFrom(OFFSET, a), HashFrom(OFFSET, b);
    NumberOfPad(x, 1);
    NumberOfPad(y, 1);
    var p, q := DetectionId(deviceId, classification, Some(a)), DetectionId(deviceId, classification, Some(b));
    assert p == prefix + Digits(x) && q == prefix + Digits(y);
    assert p[|prefix|..] == Digits(x) && q[|prefix|..] == Digits(y);
  }

  /** The id reads as its device, classification and hash. */
  lemma DetectionIdReads(deviceId: string, classification: string, guid: seq<Byte>)
    ensures var id := DetectionId(deviceId, classification, Some(guid));
            && BeforeDash(id) == "det-" + deviceId + "-" + classification
            && AllDigits(AfterDash(id)) && NumberOf(AfterDash(id)) == HashFrom(OFFSET, guid)
  {
    NumberReadsBack("det-" + deviceId + "-" + classification, HashFrom(OFFSET, guid));
  }

  /** Without a process the word "device" is hashed, as these six ASCII bytes. */
  lemma DeviceIdIs(deviceId: string, classification: string)
    ensures DetectionId(deviceId, classification, None) ==
            DetectionId(deviceId, classification, Some(['d' as int, 'e' as int, 'v' as int, 'i' as int, 'c' as int, 'e' as int]))
  {
  }

  // ---- the hash, bit by bit -----------------------------------------------------------------------

  function Bit(a: nat, n: nat): nat {
    if n == 0 then a % 2 else Bit(a / 2, n - 1)
  }

  /** Exclusive or adds each pair of bits modulo 2. */
  lemma {:induction false} XorIsBitwise(a: nat, b: nat, n: nat)
    ensures Bit(Xor(a, b), n) == (Bit(a, n) + Bit(b, n)) % 2
  {
    XorUnfold(a, b);
    if n > 0 {
      XorIsBitwise(a / 2, b / 2, n - 1);
    }
  }

  /** The empty string hashes to the offset, and each further byte is mixed in by xor and one multiplication modulo 2^64. */
  lemma HashSteps(s: seq<Byte>, b: Byte)
    ensures HashFrom(OFFSET, []) == 1469598103934665603
    ensures HashFrom(OFFSET, s + [b]) == (Xor(HashFrom(OFFSET, s), b) * 1099511628211) % 0x1_0000_0000_0000_0000
  {
    assert (s + [b])[..|s|] == s;
  }
}
