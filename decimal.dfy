/** Decimal rendering of natural numbers, as Go's fmt verbs `%d` and `%0<w>d`
    print them, and the parse that inverts it. Account IDs, amounts and
    timestamps are all rendered through these functions. */
module Decimal {

  predicate IsDigit(c: char) {
    '0' <= c <= '9'
  }

  predicate AllDigits(s: string) {
    forall i :: 0 <= i < |s| ==> IsDigit(s[i])
  }

  function DigitChar(d: nat): (c: char)
    requires d < 10
    ensures IsDigit(c)
  {
    "0123456789"[d]
  }

  function DigitValue(c: char): (d: nat)
    requires IsDigit(c)
    ensures d < 10
  {
    c as int - '0' as int
  }

  function Pow10(k: nat): (p: nat)
    ensures p >= 1
  {
    if k == 0 then 1 else 10 * Pow10(k - 1)
  }

  /** `%d` of n: its decimal digits, most significant first, no leading zero
      except for n == 0 itself. */
  function Digits(n: nat): (s: string)
    ensures |s| >= 1 && AllDigits(s)
    ensures n >= 10 ==> s[0] != '0'
    decreases n
  {
    if n < 10 then [DigitChar(n)] else Digits(n / 10) + [DigitChar(n % 10)]
  }

  /** k copies of '0'. */
  function Zeros(k: nat): (s: string)
    ensures |s| == k && AllDigits(s)
  {
    seq(k, _ => '0')
  }

  /** `%0<width>s`-style padding: s preceded by as many '0' as it takes to
      reach width characters; a longer s is kept whole. */
  function PadLeft(s: string, width: nat): (r: string)
    ensures |r| == if |s| < width then width else |s|
    ensures r[|r| - |s|..] == s
    ensures forall i :: 0 <= i < |r| - |s| ==> r[i] == '0'
  {
    if |s| >= width then s else Zeros(width - |s|) + s
  }

  /** `%0<width>d` of n. */
  function ZeroPadded(n: nat, width: nat): (s: string)
    ensures AllDigits(s)
    ensures |s| >= width
  {
    PadLeft(Digits(n), width)
  }

  /** The number a string of decimal digits denotes; leading zeros allowed. */
  function Value(s: string): nat
    requires AllDigits(s)
  {
    if s == [] then 0 else Value(s[..|s| - 1]) * 10 + DigitValue(s[|s| - 1])
  }

  /** Parsing the rendering of n gives n back. */
  lemma {:induction false} ValueOfDigits(n: nat)
    ensures Value(Digits(n)) == n
    decreases n
  {
    var s := Digits(n);
    if n >= 10 {
      ValueOfDigits(n / 10);
      assert s[..|s| - 1] == Digits(n / 10);
    }
  }

  /** Value of a concatenation: the left part is shifted by the length of the right. */
  lemma {:induction false} ValueOfConcat(a: string, b: string)
    requires AllDigits(a) && AllDigits(b)
    ensures Value(a + b) == Value(a) * Pow10(|b|) + Value(b)
    decreases |b|
  {
    if b == [] {
      assert a + b == a;
    } else {
      var b', d := b[..|b| - 1], DigitValue(b[|b| - 1]);
      assert (a + b)[..|a + b| - 1] == a + b';
      assert Value(a + b) == Value(a + b') * 10 + d;
      assert Value(b) == Value(b') * 10 + d;
      assert Pow10(|b|) == 10 * Pow10(|b'|);
      ValueOfConcat(a, b');
      ShiftByDigit(Value(a), Pow10(|b'|), Value(b'));
    }
  }

  lemma ShiftByDigit(x: int, p: int, y: int)
    ensures (x * p + y) * 10 == x * (10 * p) + y * 10
  {
  }

  /** A run of zeros denotes 0. */
  lemma {:induction false} ValueOfZeros(k: nat)
    ensures Value(Zeros(k)) == 0
  {
    if k > 0 {
      ValueOfZeros(k - 1);
      assert Zeros(k)[..k - 1] == Zeros(k - 1);
    }
  }

  /** Zero padding does not change the number a rendering denotes. */
  lemma {:induction false} ValueOfZeroPadded(n: nat, width: nat)
    ensures Value(ZeroPadded(n, width)) == n
  {
    var s := Digits(n);
    ValueOfDigits(n);
    if |s| < width {
      var z := Zeros(width - |s|);
      ValueOfConcat(z, s);
      ValueOfZeros(width - |s|);
      assert Value(z + s) == Value(s);
      assert ZeroPadded(n, width) == z + s;
    } else {
      assert ZeroPadded(n, width) == s;
    }
  }

  /** Distinct numbers have distinct zero-padded renderings. */
  lemma {:induction false} ZeroPaddedInjective(m: nat, n: nat, width: nat)
    requires m != n
    ensures ZeroPadded(m, width) != ZeroPadded(n, width)
  {
    ValueOfZeroPadded(m, width);
    ValueOfZeroPadded(n, width);
  }

  /** A number below 10^k needs at most k digits. */
  lemma {:induction false} DigitsLength(n: nat, k: nat)
    requires 1 <= k && n < Pow10(k)
    ensures |Digits(n)| <= k
    decreases n
  {
    if n >= 10 {
      assert k >= 2;
      assert n / 10 < Pow10(k - 1);
      DigitsLength(n / 10, k - 1);
    }
  }

  /** A number below 10^width renders to exactly width characters under `%0<width>d`. */
  lemma {:induction false} ZeroPaddedLength(n: nat, width: nat)
    requires 1 <= width && n < Pow10(width)
    ensures |ZeroPadded(n, width)| == width
  {
    DigitsLength(n, width);
  }
}
