/** Decimal running numbers: padding, reading back, and splitting at the last slash. */
module Numerals {
  import opened Basics

  function Pow10(n: nat): (p: nat)
    ensures p >= 1
  {
    if n == 0 then 1 else 10 * Pow10(n - 1)
  }

  function DigitChar(d: nat): (c: char)
    requires d < 10
    ensures '0' <= c <= '9'
  {
    '0' + d as char
  }

  predicate IsDigit(c: char) {
    '0' <= c <= '9'
  }

  /** str.isdigit() on ASCII text. */
  predicate AllDigits(s: string) {
    s != [] && forall i | 0 <= i < |s| :: IsDigit(s[i])
  }

  function DigitOf(c: char): nat
    requires IsDigit(c)
  {
    c as int - '0' as int
  }

  /** int() of a digit string. */
  function Value(s: string): nat
    requires forall i | 0 <= i < |s| :: IsDigit(s[i])
  {
    if s == [] then 0 else 10 * Value(s[..|s| - 1]) + DigitOf(s[|s| - 1])
  }

  function Digits(n: nat): (s: string)
    ensures AllDigits(s)
  {
    if n < 10 then [DigitChar(n)] else Digits(n / 10) + [DigitChar(n % 10)]
  }

  function Zeros(n: nat): (s: string)
    ensures |s| == n && forall i | 0 <= i < n :: s[i] == '0'
  {
    seq(n, _ => '0')
  }

  /** '%0*d': the number, zero-padded on the left to the width. */
  function Padded(n: nat, width: nat): (s: string)
    ensures AllDigits(s)
  {
    var d := Digits(n);
    if |d| >= width then d else Zeros(width - |d|) + d
  }

  lemma {:induction false} DigitsReadBack(n: nat)
    ensures Value(Digits(n)) == n
  {
    if n >= 10 {
      DigitsReadBack(n / 10);
      assert Digits(n)[..|Digits(n)| - 1] == Digits(n / 10);
    }
  }

  lemma {:induction false} LeadingZerosCountNothing(k: nat, s: string)
    requires AllDigits(s)
    ensures AllDigits(Zeros(k) + s) && Value(Zeros(k) + s) == Value(s)
    decreases |s|
  {
    var z := Zeros(k) + s;
    assert z[..|z| - 1] == Zeros(k) + s[..|s| - 1];
    if |s| == 1 {
      assert s[..0] == [];
      assert Zeros(k) + [] == Zeros(k);
      ZerosAreZero(k);
    } else {
      LeadingZerosCountNothing(k, s[..|s| - 1]);
    }
  }

  lemma {:induction false} ZerosAreZero(k: nat)
    ensures Value(Zeros(k)) == 0
  {
    if k > 0 {
      assert Zeros(k)[..k - 1] == Zeros(k - 1);
      ZerosAreZero(k - 1);
    }
  }

  /** Whatever the width, the number comes back. */
  lemma PaddedReadsBack(n: nat, width: nat)
    ensures Value(Padded(n, width)) == n
  {
    DigitsReadBack(n);
    var d := Digits(n);
    if |d| < width {
      LeadingZerosCountNothing(width - |d|, d);
    }
  }

  lemma {:induction false} DigitCount(n: nat, width: nat)
    requires width >= 1
    ensures |Digits(n)| <= width <==> n < Pow10(width)
  {
    if n < 10 {
    } else if width == 1 {
    } else {
      DigitCount(n / 10, width - 1);
    }
  }

  /** A number within the width's capacity fills the width exactly; one beyond it does not fit. */
  lemma PaddedLength(n: nat, width: nat)
    requires width >= 1
    ensures |Padded(n, width)| >= width
    ensures |Padded(n, width)| == width <==> n < Pow10(width)
  {
    DigitCount(n, width);
  }

  // ── Splitting at the last slash ──────────────────────────────

  /** The position of the last slash, or -1. */
  function LastSlash(s: string): (k: int)
    ensures -1 <= k < |s|
    ensures k >= 0 ==> s[k] == '/'
    ensures forall i | k < i < |s| :: s[i] != '/'
  {
    if s == [] then -1
    else if s[|s| - 1] == '/' then |s| - 1
    else LastSlash(s[..|s| - 1])
  }

  /** The prefix (with its slash) and the running number of a document number, when it has
      something before its last slash and only digits after it. */
  function Issued(number: string): Option<(string, nat)> {
    var k := LastSlash(number);
    if k > 0 && AllDigits(number[k + 1..])
    then Some((number[..k + 1], Value(number[k + 1..])))
    else None
  }

  /** Splitting undoes formatting, for every prefix and every width. */
  lemma SplitUndoesFormat(head: string, n: nat, width: nat)
    requires head != []
    ensures Issued(head + "/" + Padded(n, width)) == Some((head + "/", n))
  {
    var digits := Padded(n, width);
    var number := head + "/" + digits;
    var k := LastSlash(number);
    assert number[|head|] == '/';
    assert forall i | |head| < i < |number| :: number[i] == digits[i - |head| - 1];
    assert k == |head|;
    assert number[..k + 1] == head + "/";
    assert number[k + 1..] == digits;
    PaddedReadsBack(n, width);
  }
}
