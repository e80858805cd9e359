/** Text used by the report documents: the order in which surnames are
    sorted, integers written as attribute values, and money amounts written
    with exactly two fractional digits ("F2"). Each writer has a reader
    beside it, and a lemma says that reading gives back what was written. */
module Text {

  datatype Option<T> = None | Some(value: T)

  // ---------------------------------------------------------------------
  // Ordinal string order
  // ---------------------------------------------------------------------

  /** Ordinal order: lexicographic on characters, a proper prefix first. */
  predicate Less(a: string, b: string)
    decreases |a|
  {
    if a == [] then b != []
    else if b == [] then false
    else a[0] < b[0] || (a[0] == b[0] && Less(a[1..], b[1..]))
  }

  lemma {:induction false} LessIrreflexive(a: string)
    ensures !Less(a, a)
    decreases |a|
  {
    if a != [] {
      LessIrreflexive(a[1..]);
    }
  }

  lemma {:induction false} LessTransitive(a: string, b: string, c: string)
    requires Less(a, b) && Less(b, c)
    ensures Less(a, c)
    decreases |a|
  {
    if a != [] && a[0] == b[0] && b[0] == c[0] {
      LessTransitive(a[1..], b[1..], c[1..]);
    }
  }

  lemma {:induction false} LessTotal(a: string, b: string)
    ensures a == b || Less(a, b) || Less(b, a)
    decreases |a|
  {
    if a != [] && b != [] && a[0] == b[0] {
      LessTotal(a[1..], b[1..]);
      if a[1..] == b[1..] {
        assert a == [a[0]] + a[1..] && b == [b[0]] + b[1..];
      }
    }
  }

  lemma LessAsymmetric(a: string, b: string)
    requires Less(a, b)
    ensures !Less(b, a) && a != b
  {
    LessIrreflexive(a);
    if Less(b, a) {
      LessTransitive(a, b, a);
    }
  }

  /** a < b <= c implies a < c. */
  lemma LessThenNotGreater(a: string, b: string, c: string)
    requires Less(a, b) && !Less(c, b)
    ensures Less(a, c)
  {
    LessTotal(b, c);
    if b != c {
      LessTransitive(a, b, c);
    }
  }

  /** a <= b < c implies a < c. */
  lemma NotGreaterThenLess(a: string, b: string, c: string)
    requires !Less(b, a) && Less(b, c)
    ensures Less(a, c)
  {
    LessTotal(a, b);
    if a != b {
      LessTransitive(a, b, c);
    }
  }

  /** a <= b <= c implies a <= c. */
  lemma NotGreaterTransitive(a: string, b: string, c: string)
    requires !Less(b, a) && !Less(c, b)
    ensures !Less(c, a)
  {
    LessTotal(a, b);
    if a != b {
      if Less(c, a) {
        LessTransitive(c, a, b);
      }
    }
  }

  // ---------------------------------------------------------------------
  // Decimal integers
  // ---------------------------------------------------------------------

  predicate IsDigit(c: char) {
    '0' <= c <= '9'
  }

  predicate AllDigits(s: string) {
    forall i :: 0 <= i < |s| ==> IsDigit(s[i])
  }

  function DigitValue(c: char): nat
    requires IsDigit(c)
  {
    c as int - '0' as int
  }

  function DigitChar(d: nat): (c: char)
    requires d < 10
    ensures IsDigit(c) && DigitValue(c) == d
  {
    ('0' as int + d) as char
  }

  /** The value of a string of decimal digits. */
  function DigitsValue(s: string): nat
    requires AllDigits(s)
  {
    if s == [] then 0
    else DigitsValue(s[..|s| - 1]) * 10 + DigitValue(s[|s| - 1])
  }

  /** The decimal digits of n, with no leading zero. */
  function NatToString(n: nat): (s: string)
    ensures |s| >= 1 && AllDigits(s)
    ensures s[0] == '0' ==> s == "0"
  {
    if n < 10 then [DigitChar(n)]
    else NatToString(n / 10) + [DigitChar(n % 10)]
  }

  lemma {:induction false} NatToStringRoundTrip(n: nat)
    ensures DigitsValue(NatToString(n)) == n
  {
    if n >= 10 {
      NatToStringRoundTrip(n / 10);
      var s := NatToString(n);
      assert s[..|s| - 1] == NatToString(n / 10);
    }
  }

  /** An int written the way an XML attribute holds it: an optional '-'
      and the decimal digits of its magnitude. */
  function IntToString(n: int): string {
    if n < 0 then "-" + NatToString(-n) else NatToString(n)
  }

  /** Reads back what IntToString writes. */
  function ParseInt(s: string): Option<int> {
    if |s| >= 2 && s[0] == '-' && AllDigits(s[1..]) then Some(-(DigitsValue(s[1..]) as int))
    else if |s| >= 1 && AllDigits(s) then Some(DigitsValue(s))
    else None
  }

  lemma IntToStringRoundTrip(n: int)
    ensures ParseInt(IntToString(n)) == Some(n)
  {
    if n < 0 {
      NatToStringRoundTrip(-n);
      assert IntToString(n)[1..] == NatToString(-n);
    } else {
      NatToStringRoundTrip(n);
    }
  }

  // ---------------------------------------------------------------------
  // Money amounts with two fractional digits
  // ---------------------------------------------------------------------

  /** An amount of hundredths written as decimal.ToString("F2") writes
      amount / 100: a '-' when negative, the whole part, a '.', and exactly
      two fractional digits (2000 gives "20.00", -5 gives "-0.05"). */
  function FormatHundredths(amount: int): (s: string)
    ensures |s| >= 4 && s[|s| - 3] == '.' && IsDigit(s[|s| - 2]) && IsDigit(s[|s| - 1])
    ensures (amount < 0) == (s[0] == '-')
    ensures var w := s[(if amount < 0 then 1 else 0)..|s| - 3];
            && |w| >= 1 && AllDigits(w) && (w[0] == '0' ==> w == "0")
            && DigitsValue(w) == (if amount < 0 then -amount else amount) / 100
    ensures DigitValue(s[|s| - 2]) * 10 + DigitValue(s[|s| - 1]) == (if amount < 0 then -amount else amount) % 100
  {
    var m := if amount < 0 then -amount else amount;
    var whole := NatToString(m / 100);
    NatToStringRoundTrip(m / 100);
    var s := (if amount < 0 then "-" else "") + whole + "." + [DigitChar(m % 100 / 10), DigitChar(m % 10)];
    assert s[(if amount < 0 then 1 else 0)..|s| - 3] == whole;
    s
  }

  /** Reads back a two-decimal amount as a number of hundredths. */
  function ParseHundredths(s: string): Option<int> {
    var negative := |s| > 0 && s[0] == '-';
    var body := if negative then s[1..] else s;
    if |body| >= 4 && body[|body| - 3] == '.' && AllDigits(body[..|body| - 3])
       && IsDigit(body[|body| - 2]) && IsDigit(body[|body| - 1])
    then
      var v := DigitsValue(body[..|body| - 3]) * 100 + DigitValue(body[|body| - 2]) * 10 + DigitValue(body[|body| - 1]);
      Some(if negative then -v else v)
    else None
  }

  lemma HundredthsRoundTrip(amount: int)
    ensures ParseHundredths(FormatHundredths(amount)) == Some(amount)
  {
    var m := if amount < 0 then -amount else amount;
    var whole := NatToString(m / 100);
    var body := whole + "." + [DigitChar(m % 100 / 10), DigitChar(m % 10)];
    NatToStringRoundTrip(m / 100);
    assert body[..|body| - 3] == whole;
    if amount < 0 {
      assert FormatHundredths(amount)[1..] == body;
    } else {
      assert FormatHundredths(amount) == body;
    }
  }

  /** Twenty units are written "20.00". */
  lemma TwentyUnits()
    ensures FormatHundredths(2000) == "20.00"
  {
    assert NatToString(2) == "2";
    assert NatToString(20) == "20";
    assert DigitChar(0) == '0';
  }
}
